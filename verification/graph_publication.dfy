/** Reconcilers that race for one workspace: optimistic publication under compared tokens.
    Every storage call is one atomic step. */
module GraphPublication {
  import opened Prelude

  /** The revision row: its content revision, its update time, and who is updating, if anyone. */
  datatype Token = Token(revision: int, updatedAt: int)

  predicate Earlier(a: Token, b: Token) {
    a.revision < b.revision || (a.revision == b.revision && a.updatedAt < b.updatedAt)
  }

  function NextUpdateTime(now: int, after: int): (t: int)
    ensures t > after
  {
    if now > after then now else after + 1
  }

  datatype Database<G> = Database(token: Token, updating: Option<int>, graph: G)

  const MAX_ATTEMPTS := 3
  const TABLES := 4

  /** Where a reconciler stands. `seen` holds what the store contained at each of its table reads. */
  datatype Process<J, G> =
    | Beginning(job: J, attempt: nat)
    | Reading(job: J, attempt: nat, token: Token, seen: seq<G>)
    | Owning(job: J, attempt: nat, token: Token, seen: seq<G>)
    | Superseded(job: J, attempt: nat, token: Token)
    | Failing(job: J, token: Token)
    | Done(job: J)
    | Failed(job: J)

  datatype State<J, G> = State(db: Database<G>, processes: seq<Process<J, G>>)

  datatype Step<G> =
    | ReadToken(p: nat)
    | ReadTable(p: nat)
    | PreparationFails(p: nat, now: int)
    | MarkUpdating(p: nat, now: int, blocked: bool)
    | Apply(p: nat, now: int, refused: bool)
    | ApplyFails(p: nat)
    | MarkError(p: nat, now: int)
    | ClearUpdate(p: nat, now: int)
    | ApplyDeletion(p: nat, now: int, refused: bool)
    | SourceWrite(now: int, graph: G)

  /** What jobs do: `deletes` tells the two kinds apart, and `publish` is what applying the batch
      prepared from what was seen makes of the stored graph. */
  datatype Work<!J, !G> = Work(deletes: J -> bool, publish: (J, seq<G>, G) -> G)

  function With<J, G>(s: State<J, G>, p: nat, process: Process<J, G>): State<J, G>
    requires p < |s.processes|
  {
    s.(processes := s.processes[p := process])
  }

  /** Another attempt, or failure once they are used up. */
  function Again<J, G>(job: J, attempt: nat): Process<J, G> {
    if attempt + 1 < MAX_ATTEMPTS then Beginning(job, attempt + 1) else Failed(job)
  }

  predicate Owns<J, G>(db: Database<G>, process: Process<J, G>)
    requires process.Reading? || process.Owning? || process.Superseded? || process.Failing?
  {
    db.token.revision == process.token.revision && db.updating == Some(process.token.updatedAt)
  }

  function Take<J, G>(s: State<J, G>, step: Step<G>, work: Work<J, G>): State<J, G> {
    match step
    case SourceWrite(now, graph) =>
      s.(db := Database(Token(s.db.token.revision + 1, now), None, graph))
    case ReadToken(p) =>
      if p < |s.processes| && s.processes[p].Beginning? then
        With(s, p, Reading(s.processes[p].job, s.processes[p].attempt, s.db.token, []))
      else s
    case ReadTable(p) =>
      if p < |s.processes| && s.processes[p].Reading? && |s.processes[p].seen| < TABLES then
        var process := s.processes[p];
        With(s, p, Reading(process.job, process.attempt, process.token, process.seen + [s.db.graph]))
      else s
    case PreparationFails(p, now) =>
      if p < |s.processes| && s.processes[p].Reading? then
        var process := s.processes[p];
        var next := With(s, p, Failed(process.job));
        if !work.deletes(process.job) && s.db.token == process.token then
          next.(db := s.db.(token := Token(process.token.revision, NextUpdateTime(now, process.token.updatedAt)),
                            updating := None))
        else next
      else s
    case MarkUpdating(p, now, blocked) =>
      if p < |s.processes| && s.processes[p].Reading? && |s.processes[p].seen| == TABLES
        && !work.deletes(s.processes[p].job) then
        var process := s.processes[p];
        if s.db.token == process.token && !blocked then
          var started := Token(process.token.revision, NextUpdateTime(now, process.token.updatedAt));
          With(s, p, Owning(process.job, process.attempt, started, process.seen))
            .(db := s.db.(token := started, updating := Some(started.updatedAt)))
        else With(s, p, Again(process.job, process.attempt))
      else s
    case Apply(p, now, refused) =>
      if p < |s.processes| && s.processes[p].Owning? then
        var process := s.processes[p];
        if Owns(s.db, process) && !refused then
          With(s, p, Done(process.job))
            .(db := Database(Token(process.token.revision, NextUpdateTime(now, process.token.updatedAt)), None,
                             work.publish(process.job, process.seen, s.db.graph)))
        else With(s, p, Superseded(process.job, process.attempt, process.token))
      else s
    case ApplyFails(p) =>
      if p < |s.processes| && s.processes[p].Owning? then
        With(s, p, Failing(s.processes[p].job, s.processes[p].token)) else s
    case MarkError(p, now) =>
      if p < |s.processes| && s.processes[p].Failing? then
        var process := s.processes[p];
        var next := With(s, p, Failed(process.job));
        if Owns(s.db, process) then
          next.(db := s.db.(token := Token(process.token.revision, NextUpdateTime(now, process.token.updatedAt)),
                            updating := None))
        else next
      else s
    case ClearUpdate(p, now) =>
      if p < |s.processes| && s.processes[p].Superseded? then
        var process := s.processes[p];
        var next := With(s, p, Again(process.job, process.attempt));
        if Owns(s.db, process) then
          next.(db := s.db.(token := Token(process.token.revision, NextUpdateTime(now, process.token.updatedAt)),
                            updating := None))
        else next
      else s
    case ApplyDeletion(p, now, refused) =>
      if p < |s.processes| && s.processes[p].Reading? && |s.processes[p].seen| == TABLES
        && work.deletes(s.processes[p].job) then
        var process := s.processes[p];
        if s.db.token == process.token && !refused then
          With(s, p, Done(process.job))
            .(db := Database(Token(process.token.revision + 1, NextUpdateTime(now, process.token.updatedAt)), None,
                             work.publish(process.job, process.seen, s.db.graph)))
        else With(s, p, Again(process.job, process.attempt))
      else s
  }

  // ---------- What every step keeps ----------

  predicate NotLater(a: Token, b: Token) {
    a == b || Earlier(a, b)
  }

  /** Whatever was read under a token that is still current is what the store holds. */
  ghost predicate ReadsCurrent<J, G>(db: Database<G>, process: Process<J, G>) {
    && (process.Reading? || process.Owning? ==>
          && NotLater(process.token, db.token)
          && (process.token == db.token ==> forall k | 0 <= k < |process.seen| :: process.seen[k] == db.graph))
    && (process.Owning? ==> |process.seen| == TABLES)
  }

  ghost predicate Inv<J, G>(s: State<J, G>) {
    && (s.db.updating.Some? ==> s.db.updating.value == s.db.token.updatedAt)
    && forall p | 0 <= p < |s.processes| :: ReadsCurrent(s.db, s.processes[p])
  }

  ghost predicate Start<J, G>(s: State<J, G>) {
    s.db.updating.None? && forall p | 0 <= p < |s.processes| :: s.processes[p] == Beginning(s.processes[p].job, 0)
  }

  /** Tokens only move forward, and the stored graph never changes without a new token. */
  lemma TokensAdvance<J, G>(s: State<J, G>, step: Step<G>, work: Work<J, G>)
    requires Inv(s)
    ensures var next := Take(s, step, work);
      && NotLater(s.db.token, next.db.token)
      && (next.db.token == s.db.token ==> next.db.graph == s.db.graph && next.db.updating == s.db.updating)
  {}

  lemma StepKeepsInv<J, G>(s: State<J, G>, step: Step<G>, work: Work<J, G>)
    requires Inv(s)
    ensures Inv(Take(s, step, work))
  {
    var next := Take(s, step, work);
    TokensAdvance(s, step, work);
    forall p | 0 <= p < |next.processes| ensures ReadsCurrent(next.db, next.processes[p]) {
      assert ReadsCurrent(s.db, s.processes[p]);
    }
  }

  /** The process whose batch this step publishes, if it publishes one. */
  predicate Publishes<J, G>(s: State<J, G>, step: Step<G>, work: Work<J, G>) {
    match step
    case Apply(p, _, refused) => p < |s.processes| && s.processes[p].Owning? && Owns(s.db, s.processes[p]) && !refused
    case ApplyDeletion(p, _, refused) =>
      p < |s.processes| && s.processes[p].Reading? && |s.processes[p].seen| == TABLES
        && work.deletes(s.processes[p].job) &&
      s.db.token == s.processes[p].token && !refused
    case _ => false
  }

  /** A batch is only published over exactly the tables it was prepared from. */
  lemma PublishedFromCurrent<J, G>(s: State<J, G>, step: Step<G>, work: Work<J, G>)
    requires Inv(s) && Publishes(s, step, work)
    ensures var process := s.processes[step.p];
      && process.seen == seq(TABLES, _ => s.db.graph)
      && Take(s, step, work).db.graph == work.publish(process.job, seq(TABLES, _ => s.db.graph), s.db.graph)
      && Earlier(s.db.token, Take(s, step, work).db.token)
  {
    var process := s.processes[step.p];
    assert ReadsCurrent(s.db, process);
    assert process.token == s.db.token;
    assert process.seen == seq(TABLES, _ => s.db.graph);
  }

  /** Only publications and writes of the source index change the stored graph. */
  lemma OnlyPublicationsChange<J, G>(s: State<J, G>, step: Step<G>, work: Work<J, G>)
    requires !Publishes(s, step, work) && !step.SourceWrite?
    ensures Take(s, step, work).db.graph == s.db.graph
  {}

  // ---------- Whole runs ----------

  ghost predicate Run<J, G>(states: seq<State<J, G>>, steps: seq<Step<G>>, work: Work<J, G>) {
    && |states| == |steps| + 1
    && Start(states[0])
    && forall i | 0 <= i < |steps| :: states[i + 1] == Take(states[i], steps[i], work)
  }

  lemma {:induction false} RunKeepsInv<J, G>(states: seq<State<J, G>>, steps: seq<Step<G>>, work: Work<J, G>, i: nat)
    requires Run(states, steps, work) && i < |states|
    ensures Inv(states[i])
  {
    if i > 0 {
      RunKeepsInv(states, steps, work, i - 1);
      StepKeepsInv(states[i - 1], steps[i - 1], work);
    }
  }

  lemma NotLaterTransitive(a: Token, b: Token, c: Token)
    requires NotLater(a, b) && NotLater(b, c)
    ensures NotLater(a, c)
  {}

  /** No ABA: wherever a token occurs twice in a run, nothing was written in between. */
  lemma {:induction false} TokensNeverRepeat<J, G>(states: seq<State<J, G>>, steps: seq<Step<G>>, work: Work<J, G>,
                                                   i: nat, j: nat)
    requires Run(states, steps, work) && i <= j < |states|
    ensures NotLater(states[i].db.token, states[j].db.token)
    ensures states[i].db.token == states[j].db.token ==>
      forall k | i <= k <= j :: states[k].db == states[i].db
    decreases j - i
  {
    if i < j {
      TokensNeverRepeat(states, steps, work, i, j - 1);
      RunKeepsInv(states, steps, work, j - 1);
      TokensAdvance(states[j - 1], steps[j - 1], work);
      NotLaterTransitive(states[i].db.token, states[j - 1].db.token, states[j].db.token);
    }
  }

  /** Every publication of every run replaces exactly what it was prepared from. */
  lemma RunPublishesFromCurrent<J, G>(states: seq<State<J, G>>, steps: seq<Step<G>>, work: Work<J, G>, i: nat)
    requires Run(states, steps, work) && i < |steps| && Publishes(states[i], steps[i], work)
    ensures var before := states[i].db.graph;
      && states[i].processes[steps[i].p].seen == seq(TABLES, _ => before)
      && states[i + 1].db.graph == work.publish(states[i].processes[steps[i].p].job, seq(TABLES, _ => before), before)
  {
    RunKeepsInv(states, steps, work, i);
    PublishedFromCurrent(states[i], steps[i], work);
  }

  /** What one job makes of a graph when nobody interferes. */
  function Alone<J, G>(work: Work<J, G>, job: J, graph: G): G {
    work.publish(job, seq(TABLES, _ => graph), graph)
  }

  /** The job whose batch step `k` publishes. */
  function PublishedJob<J, G>(states: seq<State<J, G>>, steps: seq<Step<G>>, work: Work<J, G>, k: nat): J
    requires k < |steps| && k < |states| && Publishes(states[k], steps[k], work)
  {
    states[k].processes[steps[k].p].job
  }

  /** A property that every published job keeps on its own, and every source write, holds throughout any race. */
  lemma {:induction false} RaceKeeps<J, G>(states: seq<State<J, G>>, steps: seq<Step<G>>, work: Work<J, G>,
                                           good: G -> bool, i: nat)
    requires Run(states, steps, work) && i < |states|
    requires good(states[0].db.graph)
    requires forall k | 0 <= k < |steps| && Publishes(states[k], steps[k], work) && good(states[k].db.graph) ::
      good(Alone(work, PublishedJob(states, steps, work, k), states[k].db.graph))
    requires forall k | 0 <= k < |steps| && steps[k].SourceWrite? :: good(steps[k].graph)
    ensures good(states[i].db.graph)
  {
    if i > 0 {
      RaceKeeps(states, steps, work, good, i - 1);
      var s, step := states[i - 1], steps[i - 1];
      if Publishes(s, step, work) {
        RunPublishesFromCurrent(states, steps, work, i - 1);
        assert states[i].db.graph == Alone(work, PublishedJob(states, steps, work, i - 1), s.db.graph);
      } else if !step.SourceWrite? {
        OnlyPublicationsChange(s, step, work);
      }
    }
  }
}
