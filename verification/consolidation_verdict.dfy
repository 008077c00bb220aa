/** The verdict on an episode: what the results behind its last action come to. */
module ConsolidationVerdict {
  import opened ConsolidationEvents

  datatype Outcome = Success | Failed | PartialSuccess | Abandoned

  datatype Verdict = Verdict(outcome: Outcome, status: Status) | NoVerdict(refusal: Refusal)

  /** Opposing results for one and the same subject. */
  ghost predicate Conflict(facts: seq<Fact>) {
    exists i, j | 0 <= i < |facts| && 0 <= j < |facts| ::
      facts[i].scope.subject == facts[j].scope.subject && facts[i].Positive() && !facts[j].Positive()
  }

  ghost predicate AllPositive(facts: seq<Fact>) { forall k | 0 <= k < |facts| :: facts[k].Positive() }

  ghost predicate NonePositive(facts: seq<Fact>) { forall k | 0 <= k < |facts| :: !facts[k].Positive() }

  ghost predicate AllAccepted(facts: seq<Fact>) { forall k | 0 <= k < |facts| :: facts[k].Acceptance() }

  /** Results that were classified, the first of which covers the initial failure's scope. */
  ghost predicate Frontier(facts: seq<Fact>, initial: Fact) {
    && facts != [] && SupportsInitialScope(facts[0], initial)
    && forall k | 0 <= k < |facts| :: WellClassified(facts[k], facts[k].eventIndex)
  }

  datatype Seen = Seen(positive: bool, failed: bool)

  /** For each subject, which kinds of result were seen. */
  ghost predicate Tallied(facts: seq<Fact>, bySubject: map<Subject, Seen>) {
    && (forall k | 0 <= k < |facts| :: facts[k].scope.subject in bySubject)
    && (forall s | s in bySubject ::
          && (bySubject[s].positive
              <==> exists k | 0 <= k < |facts| :: facts[k].scope.subject == s && facts[k].Positive())
          && (bySubject[s].failed
              <==> exists k | 0 <= k < |facts| :: facts[k].scope.subject == s && !facts[k].Positive()))
  }

  lemma TallyGrows(facts: seq<Fact>, bySubject: map<Subject, Seen>, fact: Fact)
    requires Tallied(facts, bySubject)
    ensures var s := fact.scope.subject;
      var seen := if s in bySubject then bySubject[s] else Seen(false, false);
      Tallied(facts + [fact],
              bySubject[s := if fact.Positive() then Seen(true, seen.failed) else Seen(seen.positive, true)])
  {
    var after := facts + [fact];
    assert forall k | 0 <= k < |facts| :: after[k] == facts[k];
    assert after[|facts|] == fact;
  }

  method TallySubjects(facts: seq<Fact>) returns (bySubject: map<Subject, Seen>)
    ensures Tallied(facts, bySubject)
  {
    bySubject := map[];
    for k := 0 to |facts|
      invariant Tallied(facts[..k], bySubject)
    {
      var fact := facts[k];
      TallyGrows(facts[..k], bySubject, fact);
      assert facts[..k + 1] == facts[..k] + [fact];
      var seen := if fact.scope.subject in bySubject then bySubject[fact.scope.subject] else Seen(false, false);
      var next := if fact.Positive() then Seen(true, seen.failed) else Seen(seen.positive, true);
      bySubject := bySubject[fact.scope.subject := next];
    }
    assert facts[..|facts|] == facts;
  }

  lemma TallyShowsConflict(facts: seq<Fact>, bySubject: map<Subject, Seen>)
    requires Tallied(facts, bySubject)
    ensures (exists s | s in bySubject :: bySubject[s].positive && bySubject[s].failed) <==> Conflict(facts)
  {
    if Conflict(facts) {
      var i, j :| 0 <= i < |facts| && 0 <= j < |facts| && facts[i].scope.subject == facts[j].scope.subject
        && facts[i].Positive() && !facts[j].Positive();
      var s := facts[i].scope.subject;
      assert s in bySubject && bySubject[s].positive && bySubject[s].failed;
    }
  }

  predicate SomeCovers(facts: seq<Fact>, initial: Fact) {
    exists k | 0 <= k < |facts| :: SupportsInitialScope(facts[k], initial)
  }

  /** Decides the outcome of a closed episode. Only conflicting results can leave it without one. */
  method TerminalOutcome(facts: seq<Fact>, initial: Fact) returns (v: Verdict)
    requires Frontier(facts, initial)
    ensures v.NoVerdict? <==> Conflict(facts)
    ensures v.NoVerdict? ==> v.refusal == ConflictingTerminalResults
    ensures v.Verdict? ==> v == VerdictOn(facts)
  {
    if facts == [] {
      return NoVerdict(MissingTerminalFrontier);
    }
    if !SomeCovers(facts, initial) {
      return NoVerdict(InitialScopeNotCovered);
    }
    var bySubject := TallySubjects(facts);
    TallyShowsConflict(facts, bySubject);
    if exists s | s in bySubject :: bySubject[s].positive && bySubject[s].failed {
      return NoVerdict(ConflictingTerminalResults);
    }
    var positive := exists k | 0 <= k < |facts| :: facts[k].Positive();
    var failed := exists k | 0 <= k < |facts| :: facts[k].status == VerifiedFailed;
    if positive && !failed {
      var accepted := forall k | 0 <= k < |facts| :: facts[k].Acceptance();
      v := Verdict(Success, if accepted then ExplicitlyAccepted else VerifiedPassed);
    } else if !positive && failed {
      v := Verdict(Failed, VerifiedFailed);
    } else if positive && failed {
      v := Verdict(PartialSuccess, Conflicting);
    } else {
      v := NoVerdict(InconclusiveTerminalFrontier);
    }
  }

  /** What results without a conflict come to: success when all are positive, failure when none is. */
  ghost function VerdictOn(facts: seq<Fact>): Verdict {
    if AllPositive(facts) then Verdict(Success, if AllAccepted(facts) then ExplicitlyAccepted else VerifiedPassed)
    else if NonePositive(facts) then Verdict(Failed, VerifiedFailed)
    else Verdict(PartialSuccess, Conflicting)
  }

  // ---------- How strong the evidence is ----------

  datatype Basis = TemporalAssociation | DeterministicVerifier | ExplicitUserAcceptance | RepeatedDeterministicEvidence

  datatype Strength = Weak | Moderate | Strong

  datatype Assessed = Assessed(strength: Strength, bases: seq<Basis>)

  function SameCount(facts: seq<Fact>, fact: Fact): nat {
    if facts == [] then 0
    else SameCount(facts[..|facts| - 1], fact) + if Alike(facts[|facts| - 1], fact) then 1 else 0
  }

  predicate Alike(a: Fact, b: Fact) { a.status == b.status && a.scope == b.scope }

  predicate UsesAcceptance(facts: seq<Fact>) { exists k | 0 <= k < |facts| :: facts[k].Acceptance() }

  predicate Repeated(facts: seq<Fact>) {
    && facts != [] && !UsesAcceptance(facts)
    && forall k | 0 <= k < |facts| :: SameCount(facts, facts[k]) >= 2
  }

  function EvidenceStrength(abandoned: bool, facts: seq<Fact>): Assessed {
    var verifier := exists k | 0 <= k < |facts| :: !facts[k].Acceptance();
    var bases := [TemporalAssociation]
      + (if verifier then [DeterministicVerifier] else [])
      + (if UsesAcceptance(facts) then [ExplicitUserAcceptance] else [])
      + (if Repeated(facts) then [RepeatedDeterministicEvidence] else []);
    Assessed(if abandoned then Weak else if Repeated(facts) then Strong else Moderate, bases)
  }

  lemma {:induction false} SameCountFindsOther(facts: seq<Fact>, k: nat)
    requires k < |facts|
    ensures SameCount(facts, facts[k]) >= 1
    ensures SameCount(facts, facts[k]) >= 2 <==> exists j | 0 <= j < |facts| :: j != k && Alike(facts[j], facts[k])
    decreases |facts|
  {
    var n := |facts| - 1;
    if k < n {
      SameCountFindsOther(facts[..n], k);
      assert forall j | 0 <= j < n :: facts[..n][j] == facts[j];
    } else {
      SameCountIsExistence(facts[..n], facts[k]);
    }
  }

  lemma {:induction false} SameCountIsExistence(facts: seq<Fact>, fact: Fact)
    ensures SameCount(facts, fact) >= 1 <==> exists j | 0 <= j < |facts| :: Alike(facts[j], fact)
  {
    if facts != [] {
      var n := |facts| - 1;
      SameCountIsExistence(facts[..n], fact);
      assert forall j | 0 <= j < n :: facts[..n][j] == facts[j];
    }
  }

  /** Evidence of a closed episode is strong exactly when only verifiers spoke and each result was seen
      again on the same scope. */
  lemma StrongMeansRepeated(facts: seq<Fact>)
    requires facts != []
    ensures EvidenceStrength(false, facts).strength.Strong? <==>
      forall k | 0 <= k < |facts| ::
        !facts[k].Acceptance() && exists j | 0 <= j < |facts| :: j != k && Alike(facts[j], facts[k])
  {
    forall k | 0 <= k < |facts|
      ensures SameCount(facts, facts[k]) >= 2 <==> exists j | 0 <= j < |facts| :: j != k && Alike(facts[j], facts[k])
    {
      SameCountFindsOther(facts, k);
    }
  }

  // ---------- Locality ----------

  /** The same results, whichever events they came from. */
  ghost predicate SameResults(a: seq<Fact>, b: seq<Fact>) {
    |a| == |b| && forall k | 0 <= k < |a| :: a[k].status == b[k].status && a[k].scope == b[k].scope
  }

  lemma {:induction false} SameCounts(a: seq<Fact>, b: seq<Fact>, x: Fact, y: Fact)
    requires SameResults(a, b) && Alike(x, y)
    ensures SameCount(a, x) == SameCount(b, y)
  {
    if a != [] {
      SameCounts(a[..|a| - 1], b[..|b| - 1], x, y);
    }
  }

  /** Verdict and strength look at nothing but status and scope of the results. */
  lemma SameResultsSameVerdict(a: seq<Fact>, b: seq<Fact>, abandoned: bool)
    requires SameResults(a, b)
    ensures Conflict(a) == Conflict(b) && VerdictOn(a) == VerdictOn(b)
    ensures EvidenceStrength(abandoned, a) == EvidenceStrength(abandoned, b)
  {
    forall k | 0 <= k < |a| ensures SameCount(a, a[k]) == SameCount(b, b[k]) {
      SameCounts(a, b, a[k], b[k]);
    }
    assert forall k | 0 <= k < |a| :: a[k].Positive() == b[k].Positive() && a[k].Acceptance() == b[k].Acceptance();
    ConflictCarries(a, b);
    ConflictCarries(b, a);
  }

  lemma ConflictCarries(a: seq<Fact>, b: seq<Fact>)
    requires SameResults(a, b)
    ensures Conflict(a) ==> Conflict(b)
  {
    if Conflict(a) {
      var i, j :| 0 <= i < |a| && 0 <= j < |a| && a[i].scope.subject == a[j].scope.subject && a[i].Positive()
        && !a[j].Positive();
      assert b[i].scope.subject == b[j].scope.subject && b[i].Positive() && !b[j].Positive();
    }
  }
}
