/** Episode events as the failure-to-verification extractor sees them, and what each contributes. */
module ConsolidationEvents {
  import opened Prelude

  datatype SubjectKind = Workspace | Package | Target | Test | Path

  datatype Subject = Subject(kind: SubjectKind, value: string)

  /** A normalised failure: its key, and whether keys may be compared for identity. */
  datatype Failure = Failure(key: string, exact: bool)

  datatype TestRun = TestRun(profileId: string, profileVersion: string, wholeFile: bool, selection: string,
                             report: string)

  datatype Observation =
    | ExternalToolCompletion
    | SourceChange
    | RustCompilerResult(exitedZero: bool, subject: Subject)
    | CargoTestResult(exitedZero: bool, executed: nat, subject: Subject)
    | TestRunResult(run: TestRun)
    | GenericVerifierResult(verifierId: string, verifierVersion: string, tool: string, operation: string,
                            passed: bool, subject: Subject)
    | UserAcceptance(subject: Subject)

  /** Decoded evidence: the observation and whatever else normalisation reads. */
  datatype Evidence = Evidence(observation: Observation, details: string)

  datatype Decoding = Decoded(evidence: Evidence) | Unsupported | Invalid(code: string)

  datatype Event = Event(ordinal: nat, id: string, material: bool, decoding: Decoding)

  datatype Assessment = EligiblePassed | EligibleFailed | Ineligible

  datatype Rule = Rule(id: string, version: string, tool: string, operation: string, kinds: set<SubjectKind>)

  /** The services the extractor asks: failure normalisation, test eligibility and scope, verifier rules. */
  datatype Services = Services(
    normalize: Evidence -> Option<Failure>,
    assess: TestRun -> Assessment,
    scopeFingerprint: TestRun -> Option<string>,
    findRule: (string, string) -> Option<Rule>)

  datatype Status = VerifiedPassed | VerifiedFailed | ExplicitlyAccepted | Missing | Conflicting

  datatype VerifierKind = RustCompiler | CargoTest | TestRunner | RegisteredTool | User

  datatype ScopeKey = ScopeKey(ruleId: string, ruleVersion: string, subject: Subject, fingerprint: Option<string>)

  datatype Fact = Fact(eventIndex: nat, status: Status, kind: VerifierKind, scope: ScopeKey, failure: Option<Failure>) {
    predicate Positive() { status == VerifiedPassed || status == ExplicitlyAccepted }
    predicate Acceptance() { status == ExplicitlyAccepted }
  }

  /** Why there is no proposal; with an index, the event that decided it. */
  datatype Refusal =
    | UnsupportedContract(at: nat)
    | InvalidContract(at: nat)
    | EmptyVerificationRun(at: nat)
    | IneligibleTestRun(at: nat)
    | InvalidTestScope(at: nat)
    | UnregisteredRule(at: nat)
    | RuleMismatch(at: nat)
    | UnsupportedFailedResult(at: nat)
    | UnsupportedInitialFailure(at: nat)
    | AmbiguousPreAttemptResult(at: nat)
    | FollowingScopeMismatch(at: nat)
    | TerminalScopeMismatch(at: nat)
    | NoSupportedFailure
    | PendingAttemptUnverified
    | NoAttemptEvidence
    | MissingTerminalFrontier
    | InitialScopeNotCovered
    | ConflictingTerminalResults
    | InconclusiveTerminalFrontier

  /** What one event contributes. */
  datatype Class =
    | NonMaterialEvent
    | NonMaterialObservation
    | Action(sourceChange: bool)
    | Result(fact: Fact)
    | Stop(refusal: Refusal)

  function PassedOrFailed(passed: bool): Status { if passed then VerifiedPassed else VerifiedFailed }

  function PlainScope(rule: string, subject: Subject): ScopeKey { ScopeKey(rule, "1", subject, None) }

  /** A verifier result; a failed one needs a normalised failure. */
  function Verified(services: Services, evidence: Evidence, i: nat, status: Status, kind: VerifierKind,
                    scope: ScopeKey): Class {
    var failure := services.normalize(evidence);
    if status == VerifiedFailed && failure.None? then Stop(UnsupportedFailedResult(i))
    else Result(Fact(i, status, kind, scope, failure))
  }

  function ClassifyObservation(services: Services, evidence: Evidence, i: nat): Class {
    match evidence.observation
    case ExternalToolCompletion => Action(false)
    case SourceChange => Action(true)
    case RustCompilerResult(exitedZero, subject) =>
      Verified(services, evidence, i, PassedOrFailed(exitedZero), RustCompiler,
               PlainScope("cortexweave.rust_compiler", subject))
    case CargoTestResult(exitedZero, executed, subject) =>
      if exitedZero && executed == 0 then Stop(EmptyVerificationRun(i))
      else Verified(services, evidence, i, PassedOrFailed(exitedZero), CargoTest,
                    PlainScope("cortexweave.cargo_test", subject))
    case TestRunResult(run) =>
      if services.assess(run).Ineligible? then Stop(IneligibleTestRun(i))
      else if services.scopeFingerprint(run).None? then Stop(InvalidTestScope(i))
      else
        var subject := Subject(if run.wholeFile then Path else Test, run.selection);
        Verified(services, evidence, i, PassedOrFailed(services.assess(run).EligiblePassed?), TestRunner,
          ScopeKey(run.profileId, run.profileVersion, subject, services.scopeFingerprint(run)))
    case GenericVerifierResult(id, version, tool, operation, passed, subject) =>
      var rule := services.findRule(id, version);
      if rule.None? then Stop(UnregisteredRule(i))
      else if tool != rule.value.tool || operation != rule.value.operation || subject.kind !in rule.value.kinds then
        Stop(RuleMismatch(i))
      else Verified(services, evidence, i, PassedOrFailed(passed), RegisteredTool,
                    ScopeKey(rule.value.id, rule.value.version, subject, None))
    case UserAcceptance(subject) =>
      Result(Fact(i, ExplicitlyAccepted, User, PlainScope("cortexweave.user_acceptance", subject), None))
  }

  /** Only a material event is refused for its contract; any other that does not decode is set aside. */
  function Classify(services: Services, event: Event, i: nat): Class {
    match event.decoding
    case Decoded(evidence) => ClassifyObservation(services, evidence, i)
    case Unsupported => if event.material then Stop(UnsupportedContract(i)) else NonMaterialEvent
    case Invalid(_) => if event.material then Stop(InvalidContract(i)) else NonMaterialEvent
  }

  /** What is known of every classified fact. A result is positive or a failure with a signature. */
  predicate WellClassified(fact: Fact, i: nat) {
    && fact.eventIndex == i
    && (fact.Positive() || fact.status == VerifiedFailed)
    && (fact.status == VerifiedFailed ==> fact.failure.Some?)
    && (fact.Acceptance() <==> fact.kind == User)
  }

  /** Every decoded observation is an action, a result or a refusal: none is ever set aside as
      non-material, and a refusal always names the event it comes from. */
  lemma ClassesAreDecisive(services: Services, event: Event, i: nat)
    ensures var c := Classify(services, event, i);
      && !c.NonMaterialObservation?
      && (c.Result? ==> WellClassified(c.fact, i))
      && (c.NonMaterialEvent? <==> !event.decoding.Decoded? && !event.material)
      && (c.Stop? ==> !c.refusal.UnsupportedInitialFailure?)
  {}

  // ---------- Comparing results with the initial failure ----------

  predicate SupportsInitialScope(fact: Fact, initial: Fact) {
    if fact.Acceptance() then fact.scope.subject == initial.scope.subject else fact.scope == initial.scope
  }

  predicate EligibleTerminalFact(fact: Fact, initial: Fact) {
    if fact.Acceptance() then fact.scope.subject == initial.scope.subject
    else
      && fact.scope.ruleId == initial.scope.ruleId
      && fact.scope.ruleVersion == initial.scope.ruleVersion
      && (initial.scope.fingerprint.None? || fact.scope == initial.scope)
  }

  predicate ExactFailureEquals(candidate: Failure, initial: Failure) {
    candidate.exact && initial.exact && candidate.key == initial.key
  }

  predicate ExactRepeat(fact: Fact, initial: Fact) {
    && fact.status == VerifiedFailed && fact.scope == initial.scope
    && fact.failure.Some? && initial.failure.Some? && ExactFailureEquals(fact.failure.value, initial.failure.value)
  }

  datatype AttemptResult = VerificationPassed | StillFailing | VerificationChangedFailure | VerificationFailedAgain
    | Inconclusive

  function ResultOfAttempt(fact: Fact, initial: Fact): Option<AttemptResult> {
    if fact.Positive() then Some(VerificationPassed)
    else if fact.failure.None? || initial.failure.None? then None
    else if ExactFailureEquals(fact.failure.value, initial.failure.value) then Some(StillFailing)
    else if fact.failure.value.exact && initial.failure.value.exact then Some(VerificationChangedFailure)
    else Some(VerificationFailedAgain)
  }

  // ---------- The course of an episode ----------

  /** Where an episode stands: before its failure, at it, trying something, or checking what was tried. */
  datatype Phase = BeforeFailure | Failing(initial: Fact) | Acting(initial: Fact) | Checking(initial: Fact)
    | Stopped(refusal: Refusal)

  function NextPhase(phase: Phase, c: Class, i: nat): Phase {
    if phase.Stopped? then phase
    else
      match c
      case NonMaterialEvent => phase
      case NonMaterialObservation => phase
      case Stop(refusal) => Stopped(refusal)
      case Action(_) => if phase.BeforeFailure? then phase else Acting(phase.initial)
      case Result(fact) =>
        match phase
        case BeforeFailure =>
          if fact.status != VerifiedFailed then phase
          else if fact.failure.None? then Stopped(UnsupportedInitialFailure(i))
          else Failing(fact)
        case Failing(initial) => if ExactRepeat(fact, initial) then phase else Stopped(AmbiguousPreAttemptResult(i))
        case Acting(initial) =>
          if SupportsInitialScope(fact, initial) then Checking(initial) else Stopped(FollowingScopeMismatch(i))
        case Checking(initial) =>
          if EligibleTerminalFact(fact, initial) then phase else Stopped(TerminalScopeMismatch(i))
        case Stopped(_) => phase
  }

  /** The phase after all the events. */
  function PhaseAfter(services: Services, events: seq<Event>): Phase {
    if events == [] then BeforeFailure
    else
      var i := |events| - 1;
      NextPhase(PhaseAfter(services, events[..i]), Classify(services, events[i], i), i)
  }

  /** The verifier results behind the last action, in order. */
  function Suffix(services: Services, events: seq<Event>): seq<Fact> {
    if events == [] then []
    else
      var i := |events| - 1;
      match Classify(services, events[i], i)
      case Action(_) => []
      case Result(fact) => Suffix(services, events[..i]) + [fact]
      case _ => Suffix(services, events[..i])
  }

  /** Some action behind the initial failure changed source. */
  predicate SourceChanged(services: Services, events: seq<Event>) {
    if events == [] then false
    else
      var i := |events| - 1;
      SourceChanged(services, events[..i])
      || (!PhaseAfter(services, events[..i]).BeforeFailure? && Classify(services, events[i], i) == Action(true))
  }

  /** The initial failure is the first failed result, and it has a signature. */
  lemma {:induction false} InitialIsFirstFailure(services: Services, events: seq<Event>)
    ensures var phase := PhaseAfter(services, events);
      && (phase.BeforeFailure? ==> forall j | 0 <= j < |events| :: !FailedAt(services, events, j))
      && (phase.Failing? || phase.Acting? || phase.Checking? ==>
            && phase.initial.eventIndex < |events|
            && Classify(services, events[phase.initial.eventIndex], phase.initial.eventIndex) == Result(phase.initial)
            && phase.initial.failure.Some?
            && FailedAt(services, events, phase.initial.eventIndex)
            && forall j | 0 <= j < phase.initial.eventIndex :: !FailedAt(services, events, j))
  {
    if events != [] {
      var i := |events| - 1;
      InitialIsFirstFailure(services, events[..i]);
      ClassesAreDecisive(services, events[i], i);
      assert forall j | 0 <= j < i :: FailedAt(services, events[..i], j) == FailedAt(services, events, j);
    }
  }

  predicate FailedAt(services: Services, events: seq<Event>, j: nat)
    requires j < |events|
  {
    var c := Classify(services, events[j], j);
    c.Result? && c.fact.status == VerifiedFailed
  }

  /** A failed result without a signature never gets as far as the extractor's own check for one. */
  lemma {:induction false} InitialAlwaysSupported(services: Services, events: seq<Event>)
    ensures var phase := PhaseAfter(services, events);
      phase.Stopped? ==> !phase.refusal.UnsupportedInitialFailure? && StoppedAtEvent(phase.refusal)
  {
    if events != [] {
      var i := |events| - 1;
      InitialAlwaysSupported(services, events[..i]);
      ClassesAreDecisive(services, events[i], i);
      RefusalsNameEvents(services, events[i], i);
    }
  }

  predicate StoppedAtEvent(refusal: Refusal) {
    !refusal.NoSupportedFailure? && !refusal.PendingAttemptUnverified? && !refusal.NoAttemptEvidence?
      && !refusal.MissingTerminalFrontier?
    && !refusal.InitialScopeNotCovered? && !refusal.ConflictingTerminalResults?
      && !refusal.InconclusiveTerminalFrontier?
  }

  lemma RefusalsNameEvents(services: Services, event: Event, i: nat)
    ensures var c := Classify(services, event, i); c.Stop? ==> StoppedAtEvent(c.refusal) && c.refusal.at == i
  {}

  /** The results behind the last action: the first covers the initial scope and the rest are of its
      family; while actions are pending there are none. */
  lemma {:induction false} SuffixInPhase(services: Services, events: seq<Event>)
    ensures var phase, facts := PhaseAfter(services, events), Suffix(services, events);
      && (phase.Acting? ==> facts == [])
      && (phase.Checking? ==>
            && facts != [] && SupportsInitialScope(facts[0], phase.initial)
            && forall k | 1 <= k < |facts| :: EligibleTerminalFact(facts[k], phase.initial))
    ensures forall k | 0 <= k < |Suffix(services, events)| ::
      WellClassified(Suffix(services, events)[k], Suffix(services, events)[k].eventIndex)
        && Suffix(services, events)[k].eventIndex < |events|
  {
    if events != [] {
      var i := |events| - 1;
      SuffixInPhase(services, events[..i]);
      ClassesAreDecisive(services, events[i], i);
    }
  }
}
