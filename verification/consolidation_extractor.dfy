/** Folding an episode's events into its failure and attempts, with every event accounted for. */
module ConsolidationExtractor {
  import opened Prelude
  import opened ConsolidationEvents

  datatype Built = Built(changes: seq<nat>, following: Option<Fact>, additional: seq<Fact>, result: AttemptResult)

  datatype Exclusion = NonMaterialEventExcluded | NonMaterialObservationExcluded | PreludeActionExcluded
    | PreludePositiveExcluded

  datatype Diagnostic = Diagnostic(why: Exclusion, eventIndex: nat)

  /** What the fold has gathered so far. */
  datatype Fold = Fold(initial: Option<Fact>, repeats: seq<nat>, attempts: seq<Built>, pending: seq<nat>,
                       snapshot: bool, diagnostics: seq<Diagnostic>)

  // ---------- Accounting ----------

  function FactIndices(facts: seq<Fact>): (r: seq<nat>)
    ensures |r| == |facts| && forall k | 0 <= k < |r| :: r[k] == facts[k].eventIndex
  {
    seq(|facts|, k requires 0 <= k < |facts| => facts[k].eventIndex)
  }

  function FollowingIndex(attempt: Built): seq<nat> {
    if attempt.following.Some? then [attempt.following.value.eventIndex] else []
  }

  /** The events of one attempt in their order: its changes, the result that follows, further results. */
  function AttemptTrail(attempt: Built): seq<nat> {
    attempt.changes + FollowingIndex(attempt) + FactIndices(attempt.additional)
  }

  function AttemptsTrail(attempts: seq<Built>): seq<nat> {
    if attempts == [] then [] else AttemptsTrail(attempts[..|attempts| - 1]) + AttemptTrail(attempts[|attempts| - 1])
  }

  /** The failure and what repeats it. */
  function Opening(initial: Option<Fact>, repeats: seq<nat>): seq<nat> {
    (if initial.Some? then [initial.value.eventIndex] else []) + repeats
  }

  /** Every event that is used, in the order in which the parts of the experience tell it. */
  function Trail(fold: Fold): seq<nat> {
    Opening(fold.initial, fold.repeats) + AttemptsTrail(fold.attempts) + fold.pending
  }

  function Excluded(diagnostics: seq<Diagnostic>): (r: seq<nat>)
    ensures |r| == |diagnostics| && forall k | 0 <= k < |r| :: r[k] == diagnostics[k].eventIndex
  {
    seq(|diagnostics|, k requires 0 <= k < |diagnostics| => diagnostics[k].eventIndex)
  }

  ghost predicate Increasing(s: seq<nat>) {
    forall i, j | 0 <= i < j < |s| :: s[i] < s[j]
  }

  /** Two increasing lists that share out the numbers below `n` between them. */
  ghost predicate ShareOut(a: seq<nat>, b: seq<nat>, n: nat) {
    && Increasing(a) && Increasing(b)
    && (forall x | x in a :: x < n) && (forall x | x in b :: x < n)
    && (forall x: nat | x < n :: (x in a) != (x in b))
  }

  lemma ShareOutGrows(a: seq<nat>, b: seq<nat>, n: nat)
    requires ShareOut(a, b, n)
    ensures ShareOut(a + [n], b, n + 1) && ShareOut(a, b + [n], n + 1)
  {
    IncreasingAppend(a, n);
    IncreasingAppend(b, n);
    assert forall x :: x in a + [n] <==> x in a || x == n;
    assert forall x :: x in b + [n] <==> x in b || x == n;
  }

  lemma IncreasingAppend(s: seq<nat>, n: nat)
    requires Increasing(s) && forall x | x in s :: x < n
    ensures Increasing(s + [n])
  {
    assert forall i | 0 <= i < |s| :: s[i] in s;
  }

  // ---------- One event ----------

  function PhaseOf(fold: Fold): Phase {
    if fold.initial.None? then BeforeFailure
    else if fold.pending != [] then Acting(fold.initial.value)
    else if fold.attempts == [] then Failing(fold.initial.value)
    else Checking(fold.initial.value)
  }

  /** The results behind the last attempt's changes. */
  function LastFacts(fold: Fold): seq<Fact> {
    if fold.pending != [] || fold.attempts == [] then []
    else
      var last := fold.attempts[|fold.attempts| - 1];
      (if last.following.Some? then [last.following.value] else []) + last.additional
  }

  /** Every closed attempt has changes, a result that covers the initial scope, and a verdict about it. */
  ghost predicate AttemptRight(attempt: Built, initial: Fact) {
    && attempt.changes != []
    && attempt.following.Some?
    && SupportsInitialScope(attempt.following.value, initial)
    && ResultOfAttempt(attempt.following.value, initial) == Some(attempt.result)
  }

  ghost predicate AttemptsRight(fold: Fold) {
    && (fold.initial.None? ==> fold.repeats == [] && fold.attempts == [] && fold.pending == [] && !fold.snapshot)
    && (fold.initial.Some? ==>
      forall k | 0 <= k < |fold.attempts| :: AttemptRight(fold.attempts[k], fold.initial.value))
  }

  /** What the event at `x` contributes, if there is one. */
  function ClassAt(services: Services, events: seq<Event>, x: nat): Class {
    if x < |events| then Classify(services, events[x], x) else NonMaterialObservation
  }

  /** The attempt is made of the events it names: actions first, then the results. */
  ghost predicate AttemptGrounded(services: Services, events: seq<Event>, attempt: Built) {
    && (forall x | x in attempt.changes :: ClassAt(services, events, x).Action?)
    && (attempt.following.Some? ==>
      ClassAt(services, events, attempt.following.value.eventIndex) == Result(attempt.following.value))
    && (forall f | f in attempt.additional :: ClassAt(services, events, f.eventIndex) == Result(f))
  }

  ghost predicate RepeatGrounded(services: Services, events: seq<Event>, initial: Fact, x: nat) {
    var c := ClassAt(services, events, x);
    c.Result? && ExactRepeat(c.fact, initial)
  }

  /** An event is set aside only for what it is. */
  ghost predicate DiagnosticGrounded(services: Services, events: seq<Event>, d: Diagnostic) {
    var c := ClassAt(services, events, d.eventIndex);
    match d.why
    case NonMaterialEventExcluded => c.NonMaterialEvent?
    case NonMaterialObservationExcluded => false
    case PreludeActionExcluded => c.Action?
    case PreludePositiveExcluded => c.Result? && c.fact.Positive()
  }

  ghost predicate Grounded(services: Services, events: seq<Event>, fold: Fold) {
    && (fold.initial.Some? ==>
          && ClassAt(services, events, fold.initial.value.eventIndex) == Result(fold.initial.value)
          && forall x | x in fold.repeats :: RepeatGrounded(services, events, fold.initial.value, x))
    && (forall a | a in fold.attempts :: AttemptGrounded(services, events, a))
    && (forall x | x in fold.pending :: ClassAt(services, events, x).Action?)
    && (forall d | d in fold.diagnostics :: DiagnosticGrounded(services, events, d))
  }

  /** What is grounded in the events stays grounded when another event is seen. */
  lemma GroundedStays(services: Services, events: seq<Event>, fold: Fold)
    requires events != [] && Grounded(services, events[..|events| - 1], fold)
    ensures Grounded(services, events, fold)
  {
    var before := events[..|events| - 1];
    forall x: nat | !ClassAt(services, before, x).NonMaterialObservation?
      ensures ClassAt(services, events, x) == ClassAt(services, before, x)
    {}
    forall a | a in fold.attempts ensures AttemptGrounded(services, events, a) {
      assert AttemptGrounded(services, before, a);
    }
    if fold.initial.Some? {
      forall x | x in fold.repeats ensures RepeatGrounded(services, events, fold.initial.value, x) {
        assert RepeatGrounded(services, before, fold.initial.value, x);
      }
    }
    forall d | d in fold.diagnostics ensures DiagnosticGrounded(services, events, d) {
      assert DiagnosticGrounded(services, before, d);
    }
  }

  /** The fold says of the events seen what their phase and suffix say, and accounts for each of them. */
  ghost predicate Faithful(services: Services, events: seq<Event>, fold: Fold) {
    && PhaseOf(fold) == PhaseAfter(services, events)
    && (fold.attempts != [] || fold.pending != [] ==> LastFacts(fold) == Suffix(services, events))
    && fold.snapshot == SourceChanged(services, events)
    && AttemptsRight(fold)
    && Grounded(services, events, fold)
    && ShareOut(Trail(fold), Excluded(fold.diagnostics), |events|)
  }

  datatype Step = Next(fold: Fold) | Refused(refusal: Refusal) | LostFailure

  function Exclude(fold: Fold, why: Exclusion, i: nat): Fold {
    fold.(diagnostics := fold.diagnostics + [Diagnostic(why, i)])
  }

  // ---------- Each kind of step keeps the account ----------

  /** The event becomes the last of those that are used, or the last of those that are not. */
  ghost predicate Accounted(fold: Fold, next: Fold, i: nat) {
    || (Trail(next) == Trail(fold) + [i] && next.diagnostics == fold.diagnostics)
    || (Trail(next) == Trail(fold) && Excluded(next.diagnostics) == Excluded(fold.diagnostics) + [i])
  }

  lemma StepFaithful(services: Services, events: seq<Event>, fold: Fold, next: Fold)
    requires events != [] && Faithful(services, events[..|events| - 1], fold)
    requires Accounted(fold, next, |events| - 1) && AttemptsRight(next) && Grounded(services, events, next)
    requires PhaseOf(next)
      == NextPhase(PhaseOf(fold), Classify(services, events[|events| - 1], |events| - 1), |events| - 1)
    requires next.attempts != [] || next.pending != [] ==> LastFacts(next) == Suffix(services, events)
    requires next.snapshot == SourceChanged(services, events)
    ensures Faithful(services, events, next)
  {
    ShareOutGrows(Trail(fold), Excluded(fold.diagnostics), |events| - 1);
  }

  /** What a result does to the phase, in terms of the fold. */
  lemma ResultMovesPhase(services: Services, events: seq<Event>, fold: Fold, fact: Fact)
    requires events != [] && Faithful(services, events[..|events| - 1], fold)
    requires Classify(services, events[|events| - 1], |events| - 1) == Result(fact)
    ensures PhaseAfter(services, events) == NextPhase(PhaseOf(fold), Result(fact), |events| - 1)
    ensures fact.status == VerifiedFailed ==> fact.failure.Some?
    ensures fold.initial.Some? ==> fold.initial.value.failure.Some?
  {
    ClassesAreDecisive(services, events[|events| - 1], |events| - 1);
    InitialIsFirstFailure(services, events[..|events| - 1]);
  }

  lemma ExcludeFaithful(services: Services, events: seq<Event>, fold: Fold, why: Exclusion)
    requires events != [] && Faithful(services, events[..|events| - 1], fold)
    requires var c := Classify(services, events[|events| - 1], |events| - 1);
      match why
      case NonMaterialEventExcluded => c.NonMaterialEvent?
      case NonMaterialObservationExcluded => false
      case PreludeActionExcluded => c.Action? && fold.initial.None?
      case PreludePositiveExcluded => c.Result? && c.fact.status != VerifiedFailed && fold.initial.None?
    ensures Faithful(services, events, Exclude(fold, why, |events| - 1))
  {
    var next := Exclude(fold, why, |events| - 1);
    GroundedStays(services, events, fold);
    ClassesAreDecisive(services, events[|events| - 1], |events| - 1);
    assert Excluded(next.diagnostics) == Excluded(fold.diagnostics) + [|events| - 1];
    StepFaithful(services, events, fold, next);
  }

  lemma ActionFaithful(services: Services, events: seq<Event>, fold: Fold, next: Fold)
    requires events != [] && Faithful(services, events[..|events| - 1], fold) && fold.initial.Some?
    requires var i := |events| - 1;
      var c := Classify(services, events[i], i);
      c.Action? && next == fold.(snapshot := fold.snapshot || c.sourceChange, pending := fold.pending + [i])
    ensures Faithful(services, events, next)
  {
    GroundedStays(services, events, fold);
    assert Trail(next) == Trail(fold) + [|events| - 1];
    StepFaithful(services, events, fold, next);
  }

  lemma InitialFaithful(services: Services, events: seq<Event>, fold: Fold, fact: Fact)
    requires events != [] && Faithful(services, events[..|events| - 1], fold) && fold.initial.None?
    requires Classify(services, events[|events| - 1], |events| - 1) == Result(fact) && fact.status == VerifiedFailed
    requires fact.failure.Some?
    ensures Faithful(services, events, fold.(initial := Some(fact)))
  {
    GroundedStays(services, events, fold);
    ClassesAreDecisive(services, events[|events| - 1], |events| - 1);
    var next := fold.(initial := Some(fact));
    assert Trail(next) == Trail(fold) + [|events| - 1];
    StepFaithful(services, events, fold, next);
  }

  lemma RepeatFaithful(services: Services, events: seq<Event>, fold: Fold, fact: Fact)
    requires events != [] && Faithful(services, events[..|events| - 1], fold)
    requires fold.initial.Some? && fold.pending == [] && fold.attempts == []
    requires Classify(services, events[|events| - 1], |events| - 1) == Result(fact)
    requires ExactRepeat(fact, fold.initial.value)
    ensures Faithful(services, events, fold.(repeats := fold.repeats + [|events| - 1]))
  {
    GroundedStays(services, events, fold);
    var next := fold.(repeats := fold.repeats + [|events| - 1]);
    assert Trail(next) == Trail(fold) + [|events| - 1];
    StepFaithful(services, events, fold, next);
  }

  lemma AttemptFaithful(services: Services, events: seq<Event>, fold: Fold, fact: Fact, result: AttemptResult)
    requires events != [] && Faithful(services, events[..|events| - 1], fold)
    requires fold.initial.Some? && fold.pending != []
    requires Classify(services, events[|events| - 1], |events| - 1) == Result(fact)
    requires SupportsInitialScope(fact, fold.initial.value)
    requires ResultOfAttempt(fact, fold.initial.value) == Some(result)
    ensures Faithful(services, events,
                     fold.(attempts := fold.attempts + [Built(fold.pending, Some(fact), [], result)], pending := []))
  {
    GroundedStays(services, events, fold);
    ClassesAreDecisive(services, events[|events| - 1], |events| - 1);
    var built := Built(fold.pending, Some(fact), [], result);
    var next := fold.(attempts := fold.attempts + [built], pending := []);
    PendingBecomesAttempt(fold, fact, built);
    BuiltGrounded(services, events, fold, fact, built);
    BuiltRight(fold, fact, built);
    StepFaithful(services, events, fold, next);
  }

  lemma BuiltGrounded(services: Services, events: seq<Event>, fold: Fold, fact: Fact, built: Built)
    requires Grounded(services, events, fold) && ClassAt(services, events, fact.eventIndex) == Result(fact)
    requires built == Built(fold.pending, Some(fact), [], built.result)
    ensures Grounded(services, events, fold.(attempts := fold.attempts + [built], pending := []))
  {
    assert AttemptGrounded(services, events, built);
  }

  lemma BuiltRight(fold: Fold, fact: Fact, built: Built)
    requires AttemptsRight(fold) && fold.initial.Some? && fold.pending != []
    requires built == Built(fold.pending, Some(fact), [], built.result)
    requires SupportsInitialScope(fact, fold.initial.value)
    requires ResultOfAttempt(fact, fold.initial.value) == Some(built.result)
    ensures AttemptsRight(fold.(attempts := fold.attempts + [built], pending := []))
  {
    assert AttemptRight(built, fold.initial.value);
  }

  lemma PendingBecomesAttempt(fold: Fold, fact: Fact, built: Built)
    requires fold.pending != [] && built == Built(fold.pending, Some(fact), [], built.result)
    ensures var next := fold.(attempts := fold.attempts + [built], pending := []);
      Trail(next) == Trail(fold) + [fact.eventIndex] && LastFacts(next) == LastFacts(fold) + [fact]
  {
    assert (fold.attempts + [built])[..|fold.attempts|] == fold.attempts;
    assert AttemptTrail(built) == fold.pending + [fact.eventIndex];
    assert AttemptsTrail(fold.attempts + [built]) == AttemptsTrail(fold.attempts) + (fold.pending + [fact.eventIndex]);
  }

  lemma AdditionalFaithful(services: Services, events: seq<Event>, fold: Fold, fact: Fact, more: Built)
    requires events != [] && Faithful(services, events[..|events| - 1], fold)
    requires fold.initial.Some? && fold.pending == [] && fold.attempts != []
    requires Classify(services, events[|events| - 1], |events| - 1) == Result(fact)
    requires EligibleTerminalFact(fact, fold.initial.value)
    requires var last := fold.attempts[|fold.attempts| - 1]; more == last.(additional := last.additional + [fact])
    ensures Faithful(services, events, fold.(attempts := fold.attempts[..|fold.attempts| - 1] + [more]))
  {
    ResultMovesPhase(services, events, fold, fact);
    GroundedStays(services, events, fold);
    ClassesAreDecisive(services, events[|events| - 1], |events| - 1);
    var next := fold.(attempts := fold.attempts[..|fold.attempts| - 1] + [more]);
    LastAttemptGrows(fold, fact, more);
    LastAttemptGrounded(services, events, fold, fact, more);
    LastAttemptRight(fold, fact, more);
    StepFaithful(services, events, fold, next);
  }

  lemma LastAttemptRight(fold: Fold, fact: Fact, more: Built)
    requires AttemptsRight(fold) && fold.initial.Some? && fold.attempts != []
    requires var last := fold.attempts[|fold.attempts| - 1]; more == last.(additional := last.additional + [fact])
    ensures AttemptsRight(fold.(attempts := fold.attempts[..|fold.attempts| - 1] + [more]))
  {
    assert AttemptRight(fold.attempts[|fold.attempts| - 1], fold.initial.value);
  }

  lemma LastAttemptGrounded(services: Services, events: seq<Event>, fold: Fold, fact: Fact, more: Built)
    requires Grounded(services, events, fold) && fold.attempts != []
    requires ClassAt(services, events, fact.eventIndex) == Result(fact)
    requires var last := fold.attempts[|fold.attempts| - 1]; more == last.(additional := last.additional + [fact])
    ensures Grounded(services, events, fold.(attempts := fold.attempts[..|fold.attempts| - 1] + [more]))
  {
    var last := fold.attempts[|fold.attempts| - 1];
    assert last in fold.attempts;
    assert AttemptGrounded(services, events, more);
    assert forall a | a in fold.attempts[..|fold.attempts| - 1] :: a in fold.attempts;
  }

  lemma LastAttemptGrows(fold: Fold, fact: Fact, more: Built)
    requires fold.pending == [] && fold.attempts != []
    requires var last := fold.attempts[|fold.attempts| - 1]; more == last.(additional := last.additional + [fact])
    ensures var next := fold.(attempts := fold.attempts[..|fold.attempts| - 1] + [more]);
      Trail(next) == Trail(fold) + [fact.eventIndex] && LastFacts(next) == LastFacts(fold) + [fact]
  {
    var n := |fold.attempts|;
    var attempts := fold.attempts[..n - 1] + [more];
    assert attempts[..n - 1] == fold.attempts[..n - 1];
    assert FactIndices(more.additional) == FactIndices(fold.attempts[n - 1].additional) + [fact.eventIndex];
    assert AttemptTrail(more) == AttemptTrail(fold.attempts[n - 1]) + [fact.eventIndex];
    assert AttemptsTrail(attempts) == AttemptsTrail(fold.attempts) + [fact.eventIndex];
  }

  /** What the loop does with the last of the events. */
  method Observe(services: Services, events: seq<Event>, fold: Fold) returns (step: Step)
    requires events != [] && Faithful(services, events[..|events| - 1], fold)
    ensures step.Next? ==> Faithful(services, events, step.fold)
    ensures step.Refused? ==> PhaseAfter(services, events) == Stopped(step.refusal)
    ensures !step.LostFailure?
  {
    var i: nat := |events| - 1;
    var c := Classify(services, events[i], i);
    ClassesAreDecisive(services, events[i], i);
    match c {
      case NonMaterialEvent =>
        ExcludeFaithful(services, events, fold, NonMaterialEventExcluded);
        step := Next(Exclude(fold, NonMaterialEventExcluded, i));
      case NonMaterialObservation =>
        step := Next(Exclude(fold, NonMaterialObservationExcluded, i));
      case Stop(refusal) =>
        step := Refused(refusal);
      case Action(sourceChange) =>
        if fold.initial.Some? {
          var next := fold.(snapshot := fold.snapshot || sourceChange, pending := fold.pending + [i]);
          ActionFaithful(services, events, fold, next);
          step := Next(next);
        } else {
          ExcludeFaithful(services, events, fold, PreludeActionExcluded);
          step := Next(Exclude(fold, PreludeActionExcluded, i));
        }
      case Result(fact) =>
        step := ObserveResult(services, events, fold, fact);
    }
  }

  method ObserveResult(services: Services, events: seq<Event>, fold: Fold, fact: Fact) returns (step: Step)
    requires events != [] && Faithful(services, events[..|events| - 1], fold)
    requires Classify(services, events[|events| - 1], |events| - 1) == Result(fact)
    ensures step.Next? ==> Faithful(services, events, step.fold)
    ensures step.Refused? ==> PhaseAfter(services, events) == Stopped(step.refusal)
    ensures !step.LostFailure?
  {
    var i: nat := |events| - 1;
    ResultMovesPhase(services, events, fold, fact);
    if fold.initial.None? {
      if fact.status != VerifiedFailed {
        ExcludeFaithful(services, events, fold, PreludePositiveExcluded);
        return Next(Exclude(fold, PreludePositiveExcluded, i));
      }
      if fact.failure.None? {
        return Refused(UnsupportedInitialFailure(i));
      }
      InitialFaithful(services, events, fold, fact);
      return Next(fold.(initial := Some(fact)));
    }
    var initial := fold.initial.value;
    if fold.pending == [] && fold.attempts == [] {
      if !ExactRepeat(fact, initial) {
        return Refused(AmbiguousPreAttemptResult(i));
      }
      RepeatFaithful(services, events, fold, fact);
      return Next(fold.(repeats := fold.repeats + [i]));
    }
    step := ObserveVerification(services, events, fold, fact);
  }

  /** A result behind an action: it closes the pending changes, or joins the last attempt. */
  method ObserveVerification(services: Services, events: seq<Event>, fold: Fold, fact: Fact) returns (step: Step)
    requires events != [] && Faithful(services, events[..|events| - 1], fold)
    requires Classify(services, events[|events| - 1], |events| - 1) == Result(fact)
    requires fold.initial.Some? && (fold.pending != [] || fold.attempts != [])
    ensures step.Next? ==> Faithful(services, events, step.fold)
    ensures step.Refused? ==> PhaseAfter(services, events) == Stopped(step.refusal)
    ensures !step.LostFailure?
  {
    ResultMovesPhase(services, events, fold, fact);
    var initial := fold.initial.value;
    if fold.pending != [] {
      if !SupportsInitialScope(fact, initial) {
        return Refused(FollowingScopeMismatch(|events| - 1));
      }
      var result := ResultOfAttempt(fact, initial);
      if result.None? {
        return LostFailure;
      }
      AttemptFaithful(services, events, fold, fact, result.value);
      return Next(fold.(attempts := fold.attempts + [Built(fold.pending, Some(fact), [], result.value)],
                        pending := []));
    }
    if !EligibleTerminalFact(fact, initial) {
      return Refused(TerminalScopeMismatch(|events| - 1));
    }
    var last := fold.attempts[|fold.attempts| - 1];
    var more := last.(additional := last.additional + [fact]);
    AdditionalFaithful(services, events, fold, fact, more);
    step := Next(fold.(attempts := fold.attempts[..|fold.attempts| - 1] + [more]));
  }

  /** Folds the events; stops at the first event that rules out a proposal. */
  method FoldEvents(services: Services, events: seq<Event>) returns (step: Step)
    ensures step.Next? ==> Faithful(services, events, step.fold)
    ensures step.Refused? ==> PhaseAfter(services, events) == Stopped(step.refusal)
    ensures !step.LostFailure?
  {
    var fold := Fold(None, [], [], [], false, []);
    for i := 0 to |events|
      invariant Faithful(services, events[..i], fold)
    {
      assert events[..i + 1][..i] == events[..i];
      step := Observe(services, events[..i + 1], fold);
      if !step.Next? {
        if step.Refused? { StoppedStays(services, events, i + 1); }
        return;
      }
      fold := step.fold;
    }
    assert events[..|events|] == events;
    step := Next(fold);
  }

  /** A refusal, once reached, is what the whole episode comes to. */
  lemma {:induction false} StoppedStays(services: Services, events: seq<Event>, n: nat)
    requires n <= |events| && PhaseAfter(services, events[..n]).Stopped?
    ensures PhaseAfter(services, events) == PhaseAfter(services, events[..n])
    decreases |events|
  {
    if n < |events| {
      var i := |events| - 1;
      assert events[..i][..n] == events[..n];
      StoppedStays(services, events[..i], n);
    } else {
      assert events[..n] == events;
    }
  }
}
