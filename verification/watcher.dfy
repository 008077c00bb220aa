/** The watcher protocol: a bounded queue, an overflow flag, debounced batches and rescans,
    interleaved with changes on disk. The index must catch up with the disk. */
module Watcher {
  import opened Prelude

  /** What a notification can be about. Only files are ever indexed. */
  datatype Path = Outside(name: string) | Control(name: string) | Directory(name: string) | File(name: string)

  /** Readable text files with their contents, the names discovery rejects, and what is a directory now. */
  datatype World<C> = World(disk: map<string, C>, ignored: set<string>, directories: set<string>)
  {
    predicate Discoverable(name: string) { name in disk && name !in ignored }
    ghost predicate Reads(name: string, content: Option<C>) {
      if content.Some? then name in disk && disk[name] == content.value else name !in disk
    }
  }

  /** What the worker is reconciling files for: a batch of signals, or the files a scan discovered. */
  datatype Work = Batch(rest: set<Path>, rescan: bool) | Discovered(files: set<string>)

  datatype Phase<C> =
    | Idle
    | Collecting(batch: set<Path>)
    | Working(work: Work)
    | Checking(file: string, content: Option<C>, work: Work)
    | Committing(file: string, content: Option<C>, work: Work)
    | Scanning
    | Pruning(doomed: set<string>)

  datatype State<C> = State(
    world: World<C>,
    index: map<string, C>,
    inflight: seq<Path>,
    capacity: nat,
    queue: seq<Path>,
    overflowed: bool,
    phase: Phase<C>)

  datatype Event<C> =
    | DiskChange(world: World<C>, notified: seq<Path>)
    | Deliver
    | Receive
    | Timeout
    | TakeSignal(path: Path)
    | TakeFile(name: string)
    | Recheck
    | Unchanged
    | Commit
    | BatchDone
    | FirstScan
    | SecondScan
    | Prune(name: string)
    | PruneDone

  function Rest(path: Path, work: Work): Work
    requires work.Batch?
  {
    Batch(work.rest - {path}, work.rescan)
  }

  function ContentOf<C>(world: World<C>, name: string): Option<C> {
    if name in world.disk then Some(world.disk[name]) else None
  }

  /** One signal of a batch: skipped, turned into a rescan, or reconciled on its own. */
  function TakeOne<C>(s: State<C>, path: Path, work: Work): State<C>
    requires work.Batch?
  {
    var rest := Rest(path, work);
    if path.Outside? then s.(phase := Working(rest))
    else if path.Control? || (path.Directory? && path.name in s.world.directories) then
      s.(phase := Working(rest.(rescan := true)))
    else if path.Directory? || path.name !in s.index then s.(phase := Working(rest.(rescan := true)))
    else s.(phase := Checking(path.name, ContentOf(s.world, path.name), rest))
  }

  /** The state after an event, or nothing when the event cannot happen now. */
  function Step<C(==)>(s: State<C>, e: Event<C>): Option<State<C>> {
    match e
    case DiskChange(world, notified) => Some(s.(world := world, inflight := s.inflight + notified))
    case Deliver =>
      if s.inflight == [] then None
      else if |s.queue| < Max(s.capacity, 1) then
        Some(s.(inflight := s.inflight[1..], queue := s.queue + [s.inflight[0]]))
      else Some(s.(inflight := s.inflight[1..], overflowed := true))
    case Receive =>
      if s.queue == [] || !(s.phase.Idle? || s.phase.Collecting?) then None
      else
        var batch := if s.phase.Collecting? then s.phase.batch else {};
        Some(s.(queue := s.queue[1..], phase := Collecting(batch + {s.queue[0]})))
    case Timeout =>
      if !s.phase.Collecting? then None
      else if s.overflowed then Some(s.(overflowed := false, phase := Scanning))
      else Some(s.(phase := Working(Batch(s.phase.batch, false))))
    case TakeSignal(path) =>
      if s.phase.Working? && s.phase.work.Batch? && path in s.phase.work.rest then
        Some(TakeOne(s, path, s.phase.work)) else None
    case TakeFile(name) =>
      if s.phase.Working? && s.phase.work.Discovered? && name in s.phase.work.files then
        Some(s.(phase := Checking(name, ContentOf(s.world, name), Discovered(s.phase.work.files - {name}))))
      else None
    case Recheck =>
      if !s.phase.Checking? then None
      else if s.phase.content.None? || ContentOf(s.world, s.phase.file) == s.phase.content then
        Some(s.(phase := Committing(s.phase.file, s.phase.content, s.phase.work)))
      else Some(s.(phase := Working(s.phase.work)))
    case Unchanged =>
      if s.phase.Checking? && s.phase.content.Some? && s.phase.file in s.index
        && s.index[s.phase.file] == s.phase.content.value then
        Some(s.(phase := Working(s.phase.work)))
      else None
    case Commit =>
      if !s.phase.Committing? then None
      else
        var index := if s.phase.content.Some? then s.index[s.phase.file := s.phase.content.value]
          else s.index - {s.phase.file};
        Some(s.(index := index, phase := Working(s.phase.work)))
    case BatchDone =>
      if s.phase.Working? && s.phase.work.Batch? && s.phase.work.rest == {} then
        Some(s.(phase := if s.phase.work.rescan then Scanning else Idle))
      else None
    case FirstScan =>
      if s.phase.Scanning? then
        Some(s.(phase := Working(Discovered(set n | n in s.world.disk && s.world.Discoverable(n)))))
      else None
    case SecondScan =>
      if s.phase.Working? && s.phase.work.Discovered? && s.phase.work.files == {} then
        Some(s.(phase := Pruning(set n | n in s.index && !s.world.Discoverable(n))))
      else None
    case Prune(name) =>
      if s.phase.Pruning? && name in s.phase.doomed then
        Some(s.(index := s.index - {name}, phase := Pruning(s.phase.doomed - {name})))
      else None
    case PruneDone =>
      if s.phase.Pruning? && s.phase.doomed == {} then Some(s.(phase := Idle)) else None
  }

  predicate Coarse(path: Path) { path.Control? || path.Directory? }

  /** What the platform promises: every changed file is notified, itself or by its directory, and every
      change of what discovery rejects is notified by a control file or a directory. */
  ghost predicate Notified<C(!new)>(before: World<C>, after: World<C>, notified: seq<Path>) {
    && (forall n | ContentOf(before, n) != ContentOf(after, n) ::
      File(n) in notified || exists q :: q in notified && Coarse(q))
    && (before.ignored != after.ignored ==> exists q :: q in notified && Coarse(q))
  }

  ghost predicate Next<C(!new)>(s: State<C>, e: Event<C>, t: State<C>) {
    && Step(s, e) == Some(t)
    && (e.DiskChange? ==> Notified(s.world, e.world, e.notified))
  }

  // ---------- Nothing out of date is forgotten ----------

  function WorkOf<C>(phase: Phase<C>): Option<Work> {
    match phase
    case Working(work) => Some(work)
    case Checking(_, _, work) => Some(work)
    case Committing(_, _, work) => Some(work)
    case _ => None
  }

  function BatchOf<C>(phase: Phase<C>): set<Path> {
    if phase.Collecting? then phase.batch
    else if WorkOf(phase).Some? && WorkOf(phase).value.Batch? then WorkOf(phase).value.rest
    else {}
  }

  ghost predicate Signalled<C>(s: State<C>, path: Path) {
    path in s.inflight || path in s.queue || path in BatchOf(s.phase)
  }

  ghost predicate CoarseSignal<C>(s: State<C>) {
    exists q :: Signalled(s, q) && Coarse(q)
  }

  predicate RescanDue<C>(phase: Phase<C>) {
    phase.Scanning? || (WorkOf(phase).Some? && WorkOf(phase).value.Batch? && WorkOf(phase).value.rescan)
  }

  /** A rescan is still to come that will look at everything. */
  ghost predicate EverythingDue<C>(s: State<C>) {
    s.overflowed || CoarseSignal(s) || RescanDue(s.phase)
  }

  /** Either everything or this file is still to be looked at because of a signal. */
  ghost predicate Due<C>(s: State<C>, name: string) {
    EverythingDue(s) || Signalled(s, File(name))
  }

  predicate InHand<C>(s: State<C>, name: string) {
    (s.phase.Checking? || s.phase.Committing?) && s.phase.file == name
  }

  predicate AfterFirstScan<C>(s: State<C>) {
    WorkOf(s.phase).Some? && WorkOf(s.phase).value.Discovered?
  }

  /** A file that should not be indexed but is: a rescan or its pruning is coming. */
  ghost predicate ExtraCovered<C>(s: State<C>, name: string) {
    Due(s, name) || AfterFirstScan(s) || (s.phase.Pruning? && name in s.phase.doomed)
  }

  /** A file whose indexed content is missing or old: it is signalled, discovered or in hand. */
  ghost predicate StaleCovered<C>(s: State<C>, name: string) {
    Due(s, name) || InHand(s, name) || (AfterFirstScan(s) && name in WorkOf(s.phase).value.files)
  }

  ghost predicate UpToDate<C>(s: State<C>, name: string) {
    if s.world.Discoverable(name) then name in s.index && s.index[name] == s.world.disk[name] else name !in s.index
  }

  ghost predicate Covered<C>(s: State<C>, name: string) {
    && (name in s.index && name in s.world.ignored ==>
      EverythingDue(s) || AfterFirstScan(s) || (s.phase.Pruning? && name in s.phase.doomed))
    && (name in s.index && name !in s.world.disk && name !in s.world.ignored ==>
      ExtraCovered(s, name) || InHand(s, name))
    && (s.world.Discoverable(name) && !UpToDate(s, name) ==> StaleCovered(s, name))
  }

  ghost predicate Inv<C(!new)>(s: State<C>) {
    && (forall n :: Covered(s, n))
    && (s.overflowed ==> s.queue != [] || s.phase.Collecting?)
    && (s.phase.Checking? || s.phase.Committing? ==>
      s.world.Reads(s.phase.file, s.phase.content) || Due(s, s.phase.file))
    && ((s.phase.Checking? || s.phase.Committing?) && s.phase.work.Batch? ==> s.phase.file in s.index)
    && (s.phase.Pruning? ==> forall n | n in s.phase.doomed :: !s.world.Discoverable(n) || Due(s, n))
  }

  /** The watcher starts by scanning, with notifications already armed. */
  predicate Start<C>(s: State<C>) {
    s.inflight == [] && s.queue == [] && !s.overflowed && s.phase.Scanning?
  }

  lemma StartCovers<C(!new)>(s: State<C>)
    requires Start(s)
    ensures Inv(s)
  {}

  /** Signals that are not lost keep whatever they made due. */
  lemma SignalsKept<C(!new)>(s: State<C>, t: State<C>)
    requires forall q | Signalled(s, q) && !q.Outside? :: Signalled(t, q) || EverythingDue(t)
    requires s.overflowed || RescanDue(s.phase) ==> EverythingDue(t)
    ensures EverythingDue(s) ==> EverythingDue(t)
    ensures forall n | Due(s, n) :: Due(t, n)
  {}

  lemma DiskChangeKeeps<C(!new)>(s: State<C>, e: Event<C>, t: State<C>)
    requires Inv(s) && Next(s, e, t) && e.DiskChange?
    ensures Inv(t)
  {
    SignalsKept(s, t);
    assert forall q | q in e.notified :: Signalled(t, q);
    assert forall n | ContentOf(s.world, n) != ContentOf(t.world, n) :: Due(t, n);
    assert s.world.ignored != t.world.ignored ==> EverythingDue(t);
    forall n ensures Covered(t, n) {
      assert Covered(s, n);
    }
  }

  lemma DeliverKeeps<C(!new)>(s: State<C>, e: Event<C>, t: State<C>)
    requires Inv(s) && Next(s, e, t) && (e.Deliver? || e.Receive?)
    ensures Inv(t)
  {
    if e.Deliver? {
      assert s.inflight == [s.inflight[0]] + s.inflight[1..];
    } else {
      assert s.queue == [s.queue[0]] + s.queue[1..];
    }
    SignalsKept(s, t);
    forall n ensures Covered(t, n) {
      assert Covered(s, n);
    }
  }

  lemma TimeoutKeeps<C(!new)>(s: State<C>, e: Event<C>, t: State<C>)
    requires Inv(s) && Next(s, e, t) && e.Timeout?
    ensures Inv(t)
  {
    SignalsKept(s, t);
    forall n ensures Covered(t, n) {
      assert Covered(s, n);
    }
  }

  lemma TakeSignalKeeps<C(!new)>(s: State<C>, e: Event<C>, t: State<C>)
    requires Inv(s) && Next(s, e, t) && e.TakeSignal?
    ensures Inv(t)
  {
    forall q | Signalled(s, q) && q != e.path ensures Signalled(t, q) {}
    forall n ensures Covered(t, n) {
      assert Covered(s, n);
      assert Signalled(s, File(n)) && File(n) != e.path ==> Signalled(t, File(n));
      assert EverythingDue(s) ==> EverythingDue(t);
    }
  }

  lemma HandledKeeps<C(!new)>(s: State<C>, e: Event<C>, t: State<C>)
    requires Inv(s) && Next(s, e, t) && (e.TakeFile? || e.Recheck? || e.Unchanged? || e.Commit?)
    ensures Inv(t)
  {
    SignalsKept(s, t);
    forall n ensures Covered(t, n) {
      assert Covered(s, n);
    }
  }

  lemma ScansKeep<C(!new)>(s: State<C>, e: Event<C>, t: State<C>)
    requires Inv(s) && Next(s, e, t) && (e.BatchDone? || e.FirstScan? || e.SecondScan? || e.Prune? || e.PruneDone?)
    ensures Inv(t)
  {
    if !e.FirstScan? {
      SignalsKept(s, t);
    }
    forall n ensures Covered(t, n) {
      assert Covered(s, n);
    }
  }

  lemma StepKeepsInv<C(!new)>(s: State<C>, e: Event<C>, t: State<C>)
    requires Inv(s) && Next(s, e, t)
    ensures Inv(t)
  {
    match e {
      case DiskChange(_, _) => DiskChangeKeeps(s, e, t);
      case Deliver => DeliverKeeps(s, e, t);
      case Receive => DeliverKeeps(s, e, t);
      case Timeout => TimeoutKeeps(s, e, t);
      case TakeSignal(_) => TakeSignalKeeps(s, e, t);
      case TakeFile(_) => HandledKeeps(s, e, t);
      case Recheck => HandledKeeps(s, e, t);
      case Unchanged => HandledKeeps(s, e, t);
      case Commit => HandledKeeps(s, e, t);
      case _ => ScansKeep(s, e, t);
    }
  }

  // ---------- Whole runs ----------

  ghost predicate Run<C(!new)>(states: seq<State<C>>, events: seq<Event<C>>) {
    && |states| == |events| + 1
    && Start(states[0])
    && forall i | 0 <= i < |events| :: Next(states[i], events[i], states[i + 1])
  }

  lemma {:induction false} RunKeepsInv<C(!new)>(states: seq<State<C>>, events: seq<Event<C>>, i: nat)
    requires Run(states, events) && i < |states|
    ensures Inv(states[i])
  {
    if i == 0 {
      StartCovers(states[0]);
    } else {
      RunKeepsInv(states, events, i - 1);
      StepKeepsInv(states[i - 1], events[i - 1], states[i]);
    }
  }

  /** The index is exactly what discovery would index now. */
  ghost predicate InStep<C(!new)>(s: State<C>) {
    forall n :: UpToDate(s, n)
  }

  /** Whenever the worker waits on an empty queue, no overflow is pending; and once the platform has
      delivered everything, the index equals the disk. */
  lemma QuiescentConvergence<C(!new)>(states: seq<State<C>>, events: seq<Event<C>>, i: nat)
    requires Run(states, events) && i < |states|
    requires states[i].phase.Idle? && states[i].queue == []
    ensures !states[i].overflowed
    ensures forall n | !UpToDate(states[i], n) ::
      File(n) in states[i].inflight || exists q :: q in states[i].inflight && Coarse(q)
    ensures states[i].inflight == [] ==> InStep(states[i])
  {
    RunKeepsInv(states, events, i);
    var s := states[i];
    forall n | !UpToDate(s, n) ensures File(n) in s.inflight || exists q :: q in s.inflight && Coarse(q) {
      assert Covered(s, n);
      if EverythingDue(s) {
        var q :| Signalled(s, q) && Coarse(q);
        assert q in s.inflight;
      }
    }
  }

  // ---------- Without further changes the worker comes to rest ----------

  function PhaseRank<C>(phase: Phase<C>): nat {
    match phase
    case Idle => 0
    case Pruning(_) => 1
    case Working(work) => if work.Discovered? then 2 else 4
    case Checking(_, _, work) => if work.Discovered? then 2 else 4
    case Committing(_, _, work) => if work.Discovered? then 2 else 4
    case Scanning => 3
    case Collecting(_) => 5
  }

  function Left(work: Work): nat {
    match work case Batch(rest, _) => |rest| case Discovered(files) => |files|
  }

  function PhaseLeft<C>(phase: Phase<C>): nat {
    match phase
    case Pruning(doomed) => |doomed|
    case Working(work) => 3 * Left(work)
    case Checking(_, _, work) => 3 * Left(work) + 2
    case Committing(_, _, work) => 3 * Left(work) + 1
    case _ => 0
  }

  predicate Smaller(a: (nat, nat, nat, nat), b: (nat, nat, nat, nat)) {
    a.0 < b.0 || (a.0 == b.0 && (a.1 < b.1 || (a.1 == b.1 && (a.2 < b.2 || (a.2 == b.2 && a.3 < b.3)))))
  }

  /** What is left to do: notifications, queued signals, phases, items of the phase. */
  function ToDo<C>(s: State<C>): (nat, nat, nat, nat) {
    (|s.inflight|, |s.queue|, PhaseRank(s.phase), PhaseLeft(s.phase))
  }

  /** Working off one item of a phase leaves one item less. */
  lemma OneLess<T>(items: set<T>, x: T)
    requires x in items
    ensures |items - {x}| == |items| - 1
  {}

  lemma SignalStepProgress<C(!new)>(s: State<C>, e: Event<C>, t: State<C>)
    requires e.TakeSignal? && Step(s, e) == Some(t)
    ensures Smaller(ToDo(t), ToDo(s))
  {
    OneLess(s.phase.work.rest, e.path);
    var rest := Rest(e.path, s.phase.work);
    assert Left(rest) == Left(s.phase.work) - 1;
    assert t == TakeOne(s, e.path, s.phase.work);
  }

  lemma FileStepProgress<C(!new)>(s: State<C>, e: Event<C>, t: State<C>)
    requires e.TakeFile? && Step(s, e) == Some(t)
    ensures Smaller(ToDo(t), ToDo(s))
  {
    OneLess(s.phase.work.files, e.name);
  }

  lemma PruneStepProgress<C(!new)>(s: State<C>, e: Event<C>, t: State<C>)
    requires e.Prune? && Step(s, e) == Some(t)
    ensures Smaller(ToDo(t), ToDo(s))
  {
    OneLess(s.phase.doomed, e.name);
  }

  /** Every step other than a change on disk leaves less to do. */
  lemma StepsMakeProgress<C(!new)>(s: State<C>, e: Event<C>, t: State<C>)
    requires Step(s, e) == Some(t) && !e.DiskChange?
    ensures Smaller(ToDo(t), ToDo(s))
  {
    if e.TakeSignal? {
      SignalStepProgress(s, e, t);
    } else if e.TakeFile? {
      FileStepProgress(s, e, t);
    } else if e.Prune? {
      PruneStepProgress(s, e, t);
    }
  }

  /** As long as something is left to do, some step other than a change on disk can happen. */
  lemma NeverStuck<C(!new)>(s: State<C>)
    requires !(s.inflight == [] && s.queue == [] && s.phase.Idle?)
    ensures exists e: Event<C> :: !e.DiskChange? && Step(s, e).Some?
  {
    var e := EnabledEvent(s);
    assert !e.DiskChange? && Step(s, e).Some?;
  }

  ghost function EnabledEvent<C>(s: State<C>): (e: Event<C>)
    requires !(s.inflight == [] && s.queue == [] && s.phase.Idle?)
    ensures !e.DiskChange?
  {
    if s.inflight != [] then Deliver
    else
      match s.phase
      case Idle => Receive
      case Collecting(_) => Timeout
      case Checking(_, _, _) => Recheck
      case Committing(_, _, _) => Commit
      case Scanning => FirstScan
      case Pruning(doomed) => if doomed == {} then PruneDone else var n :| n in doomed; Prune(n)
      case Working(Batch(rest, _)) => if rest == {} then BatchDone else var p :| p in rest; TakeSignal(p)
      case Working(Discovered(files)) => if files == {} then SecondScan else var n :| n in files; TakeFile(n)
  }

  /** From any reachable state, once the disk stops changing the worker comes to rest with the index in
      step: some schedule gets there, and StepsMakeProgress leaves no schedule that runs forever. */
  lemma ComesToRest<C(!new)>(s: State<C>) returns (events: seq<Event<C>>, states: seq<State<C>>)
    requires Inv(s)
    ensures |states| == |events| + 1 && states[0] == s
    ensures forall i | 0 <= i < |events| :: !events[i].DiskChange? && Next(states[i], events[i], states[i + 1])
    ensures var last := states[|events|];
      last.world == s.world && last.phase.Idle? && last.queue == [] && !last.overflowed && InStep(last)
    decreases |s.inflight|, |s.queue|, PhaseRank(s.phase), PhaseLeft(s.phase)
  {
    if s.inflight == [] && s.queue == [] && s.phase.Idle? {
      forall n ensures UpToDate(s, n) {
        assert Covered(s, n);
      }
      events, states := [], [s];
    } else {
      var e := EnabledEvent(s);
      assert Step(s, e).Some?;
      var t := Step(s, e).value;
      StepKeepsInv(s, e, t);
      StepsMakeProgress(s, e, t);
      events, states := ComesToRest(t);
      events, states := [e] + events, [s] + states;
    }
  }
}
