/** Extracting a proposal from an episode: when there is one, what it says, and that it leaves nothing out. */
module ConsolidationPreview {
  import opened Prelude
  import opened ConsolidationEvents
  import opened ConsolidationExtractor
  import opened ConsolidationVerdict
  import opened ConsolidationProposal

  /** Whether the course of the episode and the results behind its last action allow a proposal. */
  ghost function Ruling(phase: Phase, abandoned: bool, facts: seq<Fact>): Option<Refusal> {
    match phase
    case Stopped(refusal) => Some(refusal)
    case BeforeFailure => Some(NoSupportedFailure)
    case Failing(_) => Some(NoAttemptEvidence)
    case Acting(_) => if abandoned then None else Some(PendingAttemptUnverified)
    case Checking(_) => if !abandoned && Conflict(facts) then Some(ConflictingTerminalResults) else None
  }

  /** Outcome, status, strength and observations come from the results behind the last action alone. */
  ghost predicate Judged(proposal: Proposal, events: seq<Event>, abandoned: bool, facts: seq<Fact>) {
    if abandoned then
      proposal.outcome == Abandoned && proposal.status == Missing && proposal.observations == []
        && proposal.assessed == EvidenceStrength(true, [])
    else
      && Verdict(proposal.outcome, proposal.status) == VerdictOn(facts)
      && proposal.assessed == EvidenceStrength(false, facts)
      && |proposal.observations| == |facts|
      && forall k | 0 <= k < |facts| ::
        facts[k].eventIndex < |events|
          && proposal.observations[k] == ReportOf(facts[k], k, events[facts[k].eventIndex].id)
  }

  function ReportOf(fact: Fact, ordinal: nat, eventId: string): Reported {
    Reported(ordinal, fact.status, fact.kind, fact.scope.subject, eventId, fact.scope.ruleId, fact.scope.ruleVersion)
  }

  /** The event is what its relation says. */
  ghost predicate RoleGrounded(services: Services, events: seq<Event>, initial: Fact, p: Placed) {
    var c := ClassAt(services, events, p.index);
    match p.relation
    case InitialFailure => c == Result(initial)
    case AttemptChange => c.Action?
    case AttemptVerification => c.Result? && SupportsInitialScope(c.fact, initial)
    case Supporting => c.Result?
    case TerminalVerification => c.Result?
  }

  /** Every event is in exactly one of the links and the diagnostics, for what it is; the links are
      numbered densely in event order; and each attempt's events are a block of consecutive links. */
  ghost predicate Accounting(services: Services, events: seq<Event>, initial: Fact, abandoned: bool, proposal: Proposal,
                             placed: seq<Placed>, repeats: seq<nat>, attempts: seq<Built>) {
    && placed == Roles(initial, repeats, attempts, abandoned)
    && ShareOut(Indices(placed), Excluded(proposal.diagnostics), |events|)
    && Linked(proposal.links, placed, events)
    && AllRolesGrounded(services, events, initial, placed)
    && (forall d | d in proposal.diagnostics :: DiagnosticGrounded(services, events, d))
    && proposal.attempts == Records(attempts, 1 + |repeats|)
    && attempts != [] && AllChange(attempts)
  }

  ghost predicate Linked(links: seq<Link>, placed: seq<Placed>, events: seq<Event>) {
    |links| == |placed|
    && forall k | 0 <= k < |placed| ::
      placed[k].index < |events| && links[k] == Link(k, placed[k].relation, events[placed[k].index].id)
  }

  ghost predicate AllRolesGrounded(services: Services, events: seq<Event>, initial: Fact, placed: seq<Placed>) {
    forall k | 0 <= k < |placed| :: RoleGrounded(services, events, initial, placed[k])
  }

  ghost predicate AllChange(attempts: seq<Built>) { forall a | a in attempts :: a.changes != [] }

  function ReviewReasons(snapshot: bool, acceptance: bool, abandoned: bool): seq<ReviewReason> {
    (if snapshot then [HistoricalSnapshotUnavailable] else [])
    + (if acceptance then [UnauthenticatedUserAcceptance] else [])
    + (if abandoned then [AbandonedEpisode] else [])
  }

  // ---------- Parts of the proposal ----------

  method LinkEvents(placed: seq<Placed>, events: seq<Event>) returns (links: seq<Link>)
    requires forall k | 0 <= k < |placed| :: placed[k].index < |events|
    ensures Linked(links, placed, events)
  {
    links := [];
    for k := 0 to |placed|
      invariant |links| == k
      invariant forall j | 0 <= j < k :: links[j] == Link(j, placed[j].relation, events[placed[j].index].id)
    {
      links := links + [Link(k, placed[k].relation, events[placed[k].index].id)];
    }
  }

  method Report(facts: seq<Fact>, events: seq<Event>) returns (observations: seq<Reported>)
    requires forall k | 0 <= k < |facts| :: facts[k].eventIndex < |events|
    ensures |observations| == |facts|
    ensures forall k | 0 <= k < |facts| :: observations[k] == ReportOf(facts[k], k, events[facts[k].eventIndex].id)
  {
    observations := [];
    for k := 0 to |facts|
      invariant |observations| == k
      invariant forall j | 0 <= j < k :: observations[j] == ReportOf(facts[j], j, events[facts[j].eventIndex].id)
    {
      observations := observations + [ReportOf(facts[k], k, events[facts[k].eventIndex].id)];
    }
  }

  // ---------- Grounding the roles ----------

  lemma RolesJoin(services: Services, events: seq<Event>, initial: Fact, a: seq<Placed>, b: seq<Placed>)
    requires AllRolesGrounded(services, events, initial, a) && AllRolesGrounded(services, events, initial, b)
    ensures AllRolesGrounded(services, events, initial, a + b)
  {}

  /** The attempt covers the initial scope with its first result, if it has one. */
  ghost predicate AttemptCovers(attempt: Built, initial: Fact) {
    attempt.following.Some? ==> SupportsInitialScope(attempt.following.value, initial)
  }

  lemma AttemptRolesGrounded(services: Services, events: seq<Event>, initial: Fact, attempt: Built, further: Relation)
    requires AttemptGrounded(services, events, attempt) && AttemptCovers(attempt, initial)
    requires further == Supporting || further == TerminalVerification
    ensures AllRolesGrounded(services, events, initial, AttemptRoles(attempt, further))
  {
    var changes, following, rest := Mark(attempt.changes, AttemptChange),
        Mark(FollowingIndex(attempt), AttemptVerification),
      Mark(FactIndices(attempt.additional), further);
    forall k | 0 <= k < |rest| ensures RoleGrounded(services, events, initial, rest[k]) {
      assert attempt.additional[k] in attempt.additional;
    }
    forall k | 0 <= k < |changes| ensures RoleGrounded(services, events, initial, changes[k]) {
      assert attempt.changes[k] in attempt.changes;
    }
    RolesJoin(services, events, initial, changes, following);
    RolesJoin(services, events, initial, changes + following, rest);
  }

  lemma {:induction false} AttemptsRolesGrounded(services: Services, events: seq<Event>, initial: Fact,
                                                 attempts: seq<Built>, total: nat, abandoned: bool)
    requires forall a | a in attempts :: AttemptGrounded(services, events, a) && AttemptCovers(a, initial)
    ensures AllRolesGrounded(services, events, initial, AttemptsRoles(attempts, total, abandoned))
  {
    if attempts != [] {
      var n := |attempts| - 1;
      var further := Further(n, total, abandoned);
      AttemptsRolesGrounded(services, events, initial, attempts[..n], total, abandoned);
      AttemptRolesGrounded(services, events, initial, attempts[n], further);
      RolesJoin(services, events, initial, AttemptsRoles(attempts[..n], total, abandoned),
                AttemptRoles(attempts[n], further));
    }
  }

  lemma RolesGrounded(services: Services, events: seq<Event>, initial: Fact, repeats: seq<nat>, attempts: seq<Built>,
                      abandoned: bool)
    requires ClassAt(services, events, initial.eventIndex) == Result(initial)
    requires forall x | x in repeats :: RepeatGrounded(services, events, initial, x)
    requires forall a | a in attempts :: AttemptGrounded(services, events, a) && AttemptCovers(a, initial)
    ensures AllRolesGrounded(services, events, initial, Roles(initial, repeats, attempts, abandoned))
  {
    AttemptsRolesGrounded(services, events, initial, attempts, |attempts|, abandoned);
    var opening := OpeningRoles(initial, repeats);
    forall k | 0 <= k < |opening| ensures RoleGrounded(services, events, initial, opening[k]) {
      if k > 0 {
        assert repeats[k - 1] in repeats;
        assert RepeatGrounded(services, events, initial, repeats[k - 1]);
      }
    }
    RolesJoin(services, events, initial, opening, AttemptsRoles(attempts, |attempts|, abandoned));
  }

  // ---------- The whole ----------

  /** The attempts of a finished episode: an unverified last one is kept only when it was abandoned. */
  function FinalAttempts(fold: Fold): seq<Built> {
    if fold.pending == [] then fold.attempts else fold.attempts + [Built(fold.pending, None, [], Inconclusive)]
  }

  lemma FinalTrail(fold: Fold)
    requires fold.initial.Some?
    ensures Opening(fold.initial, fold.repeats) + AttemptsTrail(FinalAttempts(fold)) == Trail(fold)
  {
    if fold.pending != [] {
      var last := Built(fold.pending, None, [], Inconclusive);
      assert FinalAttempts(fold)[..|fold.attempts|] == fold.attempts;
      assert AttemptTrail(last) == fold.pending;
    }
  }

  lemma FinalGrounded(services: Services, events: seq<Event>, fold: Fold)
    requires Faithful(services, events, fold) && fold.initial.Some?
    ensures forall a | a in FinalAttempts(fold) ::
      AttemptGrounded(services, events, a) && AttemptCovers(a, fold.initial.value)
    ensures AllChange(FinalAttempts(fold))
  {
    forall a | a in fold.attempts ensures AttemptCovers(a, fold.initial.value) && a.changes != [] {
      var k :| 0 <= k < |fold.attempts| && fold.attempts[k] == a;
      assert AttemptRight(fold.attempts[k], fold.initial.value);
    }
  }

  /** Puts the record together: relations, links, attempts. */
  method Record(services: Services, events: seq<Event>, abandoned: bool, fold: Fold)
    returns (links: seq<Link>, records: seq<Attempt>, placed: seq<Placed>)
    requires Faithful(services, events, fold) && fold.initial.Some?
    ensures placed == Roles(fold.initial.value, fold.repeats, FinalAttempts(fold), abandoned)
    ensures Indices(placed) == Trail(fold)
    ensures AllRolesGrounded(services, events, fold.initial.value, placed)
    ensures Linked(links, placed, events)
    ensures records == Records(FinalAttempts(fold), 1 + |fold.repeats|)
  {
    var initial, attempts := fold.initial.value, FinalAttempts(fold);
    FinalTrail(fold);
    FinalGrounded(services, events, fold);
    RolesGrounded(services, events, initial, fold.repeats, attempts, abandoned);
    RolesFollowTrail(initial, fold.repeats, attempts, abandoned);
    placed := Relate(initial, fold.repeats, attempts, abandoned);
    forall k | 0 <= k < |placed| ensures placed[k].index < |events| {
      assert Indices(placed)[k] in Trail(fold);
    }
    links := LinkEvents(placed, events);
    records := RecordAttempts(initial, fold.repeats, attempts, placed);
  }

  method Judge(services: Services, events: seq<Event>, abandoned: bool, fold: Fold)
    returns (verdict: Verdict, facts: seq<Fact>)
    requires Faithful(services, events, fold) && fold.initial.Some?
    requires if abandoned then FinalAttempts(fold) != [] else fold.pending == [] && fold.attempts != []
    ensures facts == if abandoned then [] else Suffix(services, events)
    ensures !abandoned ==>
      (verdict.NoVerdict? <==> Conflict(facts))
        && (verdict.NoVerdict? ==> verdict.refusal == ConflictingTerminalResults)
    ensures verdict.Verdict? ==> verdict == if abandoned then Verdict(Abandoned, Missing) else VerdictOn(facts)
    ensures abandoned ==> verdict.Verdict?
    ensures forall k | 0 <= k < |facts| :: facts[k].eventIndex < |events|
  {
    if abandoned {
      return Verdict(Abandoned, Missing), [];
    }
    facts := LastFacts(fold);
    SuffixInPhase(services, events);
    verdict := TerminalOutcome(facts, fold.initial.value);
  }

  /** The ruling on the events, read off the fold. */
  lemma RulingByFold(services: Services, events: seq<Event>, abandoned: bool, fold: Fold)
    requires Faithful(services, events, fold)
    ensures var ruling := Ruling(PhaseAfter(services, events), abandoned, Suffix(services, events));
      if fold.initial.None? then ruling == Some(NoSupportedFailure)
      else if fold.pending != [] then ruling == if abandoned then None else Some(PendingAttemptUnverified)
      else if fold.attempts == [] then ruling == Some(NoAttemptEvidence)
      else if !abandoned && Conflict(Suffix(services, events)) then ruling == Some(ConflictingTerminalResults)
      else ruling == None
    ensures fold.initial.Some? && FinalAttempts(fold) != [] ==>
      PhaseAfter(services, events) in {Checking(fold.initial.value), Acting(fold.initial.value)}
  {}

  method ExtractProposal(services: Services, abandoned: bool, events: seq<Event>)
    returns (r: Extraction, ghost placed: seq<Placed>, ghost fold: Fold)
    ensures !r.Broken?
    ensures r.NoResult? <==> Ruling(PhaseAfter(services, events), abandoned, Suffix(services, events)).Some?
    ensures r.NoResult? ==> Ruling(PhaseAfter(services, events), abandoned, Suffix(services, events)) == Some(r.refusal)
    ensures r.Proposed? ==>
      && fold.initial.Some? && fold.initial.value.failure == Some(r.proposal.failure)
      && (PhaseAfter(services, events) == Checking(fold.initial.value)
          || PhaseAfter(services, events) == Acting(fold.initial.value))
    ensures r.Proposed? ==> Judged(r.proposal, events, abandoned, Suffix(services, events))
    ensures r.Proposed? ==>
      Accounting(services, events, fold.initial.value, abandoned, r.proposal, placed, fold.repeats, FinalAttempts(fold))
    ensures r.Proposed? ==>
      r.proposal.review
        == ReviewReasons(SourceChanged(services, events), !abandoned && UsesAcceptance(Suffix(services, events)),
                         abandoned)
  {
    placed := [];
    var step := FoldEvents(services, events);
    fold := Fold(None, [], [], [], false, []);
    if step.LostFailure? {
      return Broken, placed, fold;
    }
    if step.Refused? {
      return NoResult(step.refusal), placed, fold;
    }
    var folded := step.fold;
    fold := folded;
    RulingByFold(services, events, abandoned, folded);
    if folded.initial.None? {
      return NoResult(NoSupportedFailure), placed, fold;
    }
    if folded.pending != [] && !abandoned {
      return NoResult(PendingAttemptUnverified), placed, fold;
    }
    if FinalAttempts(folded) == [] {
      return NoResult(NoAttemptEvidence), placed, fold;
    }
    var verdict, facts := Judge(services, events, abandoned, folded);
    if verdict.NoVerdict? {
      return NoResult(verdict.refusal), placed, fold;
    }
    r, placed := Propose(services, events, abandoned, folded, verdict, facts);
  }

  lemma InitialHasFailure(services: Services, events: seq<Event>, fold: Fold)
    requires Faithful(services, events, fold) && fold.initial.Some? && FinalAttempts(fold) != []
    ensures fold.initial.value.failure.Some?
  {
    InitialIsFirstFailure(services, events);
  }

  lemma AccountedAsStated(services: Services, events: seq<Event>, abandoned: bool, fold: Fold, proposal: Proposal,
                          placed: seq<Placed>)
    requires Faithful(services, events, fold) && fold.initial.Some? && FinalAttempts(fold) != []
    requires placed == Roles(fold.initial.value, fold.repeats, FinalAttempts(fold), abandoned)
    requires Indices(placed) == Trail(fold) && AllRolesGrounded(services, events, fold.initial.value, placed)
    requires Linked(proposal.links, placed, events) && proposal.diagnostics == fold.diagnostics
    requires proposal.attempts == Records(FinalAttempts(fold), 1 + |fold.repeats|)
    ensures Accounting(services, events, fold.initial.value, abandoned, proposal, placed, fold.repeats,
                       FinalAttempts(fold))
  {
    FinalGrounded(services, events, fold);
  }

  method Propose(services: Services, events: seq<Event>, abandoned: bool, fold: Fold, verdict: Verdict,
                 facts: seq<Fact>)
    returns (r: Extraction, ghost placed: seq<Placed>)
    requires Faithful(services, events, fold) && fold.initial.Some? && FinalAttempts(fold) != []
    requires facts == (if abandoned then [] else Suffix(services, events))
    requires forall k | 0 <= k < |facts| :: facts[k].eventIndex < |events|
    requires verdict == if abandoned then Verdict(Abandoned, Missing) else VerdictOn(facts)
    ensures r.Proposed? && fold.initial.value.failure == Some(r.proposal.failure)
    ensures Judged(r.proposal, events, abandoned, facts)
    ensures Accounting(services, events, fold.initial.value, abandoned, r.proposal, placed, fold.repeats,
                       FinalAttempts(fold))
    ensures r.proposal.review == ReviewReasons(SourceChanged(services, events), UsesAcceptance(facts), abandoned)
  {
    InitialHasFailure(services, events, fold);
    var observations := Report(facts, events);
    var links, records, relations := Record(services, events, abandoned, fold);
    placed := relations;
    var review := ReviewReasons(fold.snapshot, UsesAcceptance(facts), abandoned);
    var proposal := Proposal(fold.initial.value.failure.value, verdict.outcome, verdict.status, observations,
                             EvidenceStrength(abandoned, facts), links, records, fold.diagnostics, review);
    JudgedAsStated(proposal, events, abandoned, facts);
    AccountedAsStated(services, events, abandoned, fold, proposal, placed);
    r := Proposed(proposal);
  }

  lemma JudgedAsStated(proposal: Proposal, events: seq<Event>, abandoned: bool, facts: seq<Fact>)
    requires abandoned ==> facts == []
    requires forall k | 0 <= k < |facts| :: facts[k].eventIndex < |events|
    requires Verdict(proposal.outcome, proposal.status)
          == if abandoned then Verdict(Abandoned, Missing) else VerdictOn(facts)
    requires proposal.assessed == EvidenceStrength(abandoned, facts) && |proposal.observations| == |facts|
    requires forall k | 0 <= k < |facts| ::
      proposal.observations[k] == ReportOf(facts[k], k, events[facts[k].eventIndex].id)
    ensures Judged(proposal, events, abandoned, facts)
  {}

  // ---------- What it means ----------

  /** The refusals that the code guards against but no episode can reach. */
  lemma DeadRefusals(services: Services, events: seq<Event>, abandoned: bool)
    ensures var r := Ruling(PhaseAfter(services, events), abandoned, Suffix(services, events));
      r.Some? ==>
        && !r.value.UnsupportedInitialFailure? && !r.value.MissingTerminalFrontier?
        && !r.value.InitialScopeNotCovered? && !r.value.InconclusiveTerminalFrontier?
  {
    InitialAlwaysSupported(services, events);
  }

  /** A proposal for a closed episode reports success exactly when every verifier result behind the last
      action is positive, and the first of these always covers the scope of the initial failure. */
  lemma SuccessIsEarned(services: Services, events: seq<Event>, proposal: Proposal)
    requires Ruling(PhaseAfter(services, events), false, Suffix(services, events)).None?
    requires Judged(proposal, events, false, Suffix(services, events))
    ensures PhaseAfter(services, events).Checking? && Suffix(services, events) != []
    ensures SupportsInitialScope(Suffix(services, events)[0], PhaseAfter(services, events).initial)
    ensures proposal.outcome.Success? <==> AllPositive(Suffix(services, events))
    ensures proposal.outcome.Failed? <==> NonePositive(Suffix(services, events))
  {
    SuffixInPhase(services, events);
  }

  /** Two closed episodes whose results behind the last action are the same get the same outcome, status,
      strength and bases, whatever else happened in them. */
  lemma VerdictIsLocal(services: Services, first: seq<Event>, second: seq<Event>, p: Proposal, q: Proposal)
    requires SameResults(Suffix(services, first), Suffix(services, second))
    requires Judged(p, first, false, Suffix(services, first)) && Judged(q, second, false, Suffix(services, second))
    ensures p.outcome == q.outcome && p.status == q.status && p.assessed == q.assessed
  {
    SameResultsSameVerdict(Suffix(services, first), Suffix(services, second), false);
  }

  /** Every event is told exactly once: as one link or as one diagnostic. */
  lemma EveryEventOnce(services: Services, events: seq<Event>, initial: Fact, abandoned: bool, proposal: Proposal,
                       placed: seq<Placed>, repeats: seq<nat>, attempts: seq<Built>)
    requires Accounting(services, events, initial, abandoned, proposal, placed, repeats, attempts)
    ensures |proposal.links| + |proposal.diagnostics| == |events|
    ensures InSequence(proposal.attempts, 0, |proposal.links|)
  {
    SharesAddUp(Indices(placed), Excluded(proposal.diagnostics), |events|);
    RecordsInSequence(attempts, 1 + |repeats|);
    RolesFollowTrail(initial, repeats, attempts, abandoned);
    assert |placed| == 1 + |repeats| + |AttemptsTrail(attempts)|;
    SequenceWidens(Records(attempts, 1 + |repeats|), 1 + |repeats|, |placed|);
  }

  lemma SequenceWidens(records: seq<Attempt>, from: nat, to: nat)
    requires InSequence(records, from, to)
    ensures InSequence(records, 0, to)
  {}

  lemma {:induction false} SharesAddUp(a: seq<nat>, b: seq<nat>, n: nat)
    requires ShareOut(a, b, n)
    ensures |a| + |b| == n
    decreases n
  {
    if n == 0 {
      NothingBelowZero(a, n);
      NothingBelowZero(b, n);
    } else if n - 1 in a {
      LastIsGreatest(a, n - 1);
      ShareShrinks(a, b, n);
      SharesAddUp(a[..|a| - 1], b, n - 1);
    } else {
      LastIsGreatest(b, n - 1);
      ShareShrinks(b, a, n);
      SharesAddUp(a, b[..|b| - 1], n - 1);
    }
  }

  lemma NothingBelowZero(s: seq<nat>, n: nat)
    requires forall x | x in s :: x < n
    ensures n == 0 ==> s == []
  {
    if s != [] {
      assert s[0] in s;
    }
  }

  lemma LastIsGreatest(s: seq<nat>, x: nat)
    requires Increasing(s) && x in s && forall y | y in s :: y <= x
    ensures s[|s| - 1] == x
  {
    assert s[|s| - 1] in s;
  }

  lemma ShareShrinks(a: seq<nat>, b: seq<nat>, n: nat)
    requires n > 0 && ShareOut(a, b, n) && a != [] && a[|a| - 1] == n - 1
    ensures ShareOut(a[..|a| - 1], b, n - 1) && ShareOut(b, a[..|a| - 1], n - 1)
  {
    var shorter := a[..|a| - 1];
    assert forall i | 0 <= i < |shorter| :: shorter[i] == a[i];
    assert a == shorter + [n - 1];
    assert n - 1 in a;
  }
}
