/** From the folded episode to a proposal: its evidence links, attempts, verdict and review reasons. */
module ConsolidationProposal {
  import opened Prelude
  import opened ConsolidationEvents
  import opened ConsolidationExtractor
  import opened ConsolidationVerdict

  datatype Relation = InitialFailure | Supporting | AttemptChange | AttemptVerification | TerminalVerification

  /** The relation recorded for one event. */
  datatype Placed = Placed(index: nat, relation: Relation)

  datatype Link = Link(ordinal: nat, relation: Relation, eventId: string)

  datatype Attempt = Attempt(ordinal: nat, result: AttemptResult, changes: seq<nat>, following: Option<nat>)

  datatype Reported = Reported(ordinal: nat, status: Status, kind: VerifierKind, subject: Subject, eventId: string,
                               ruleId: string, ruleVersion: string)

  datatype ReviewReason = HistoricalSnapshotUnavailable | UnauthenticatedUserAcceptance | AbandonedEpisode

  datatype Proposal = Proposal(
    failure: Failure, outcome: Outcome, status: Status, observations: seq<Reported>, assessed: Assessed,
    links: seq<Link>, attempts: seq<Attempt>, diagnostics: seq<Diagnostic>, review: seq<ReviewReason>)

  datatype Extraction = Proposed(proposal: Proposal) | NoResult(refusal: Refusal) | Broken

  // ---------- Relations ----------

  function Indices(placed: seq<Placed>): (r: seq<nat>)
    ensures |r| == |placed| && forall k | 0 <= k < |r| :: r[k] == placed[k].index
  {
    seq(|placed|, k requires 0 <= k < |placed| => placed[k].index)
  }

  function Mark(indices: seq<nat>, relation: Relation): (r: seq<Placed>)
    ensures |r| == |indices| && forall k | 0 <= k < |r| :: r[k] == Placed(indices[k], relation)
  {
    seq(|indices|, k requires 0 <= k < |indices| => Placed(indices[k], relation))
  }

  /** Insertion into a map ordered by event index; an entry for the same event is overwritten. */
  function Insert(placed: seq<Placed>, index: nat, relation: Relation): seq<Placed> {
    if placed == [] then [Placed(index, relation)]
    else
      var n := |placed| - 1;
      if placed[n].index < index then placed + [Placed(index, relation)]
      else if placed[n].index == index then placed[..n] + [Placed(index, relation)]
      else Insert(placed[..n], index, relation) + [placed[n]]
  }

  /** What each event of an attempt is to the experience. */
  function AttemptRoles(attempt: Built, further: Relation): seq<Placed> {
    Mark(attempt.changes, AttemptChange) + Mark(FollowingIndex(attempt), AttemptVerification)
      + Mark(FactIndices(attempt.additional), further)
  }

  /** Further results are terminal only behind the last of all attempts, unless the episode was abandoned. */
  function Further(attempt: nat, total: nat, abandoned: bool): Relation {
    if !abandoned && attempt + 1 == total then TerminalVerification else Supporting
  }

  /** The roles of the first so many of `total` attempts. */
  function AttemptsRoles(attempts: seq<Built>, total: nat, abandoned: bool): seq<Placed> {
    if attempts == [] then []
    else
      var n := |attempts| - 1;
      AttemptsRoles(attempts[..n], total, abandoned) + AttemptRoles(attempts[n], Further(n, total, abandoned))
  }

  function OpeningRoles(initial: Fact, repeats: seq<nat>): seq<Placed> {
    [Placed(initial.eventIndex, InitialFailure)] + Mark(repeats, Supporting)
  }

  function Roles(initial: Fact, repeats: seq<nat>, attempts: seq<Built>, abandoned: bool): seq<Placed> {
    OpeningRoles(initial, repeats) + AttemptsRoles(attempts, |attempts|, abandoned)
  }

  lemma AttemptRolesFollow(attempt: Built, further: Relation)
    ensures Indices(AttemptRoles(attempt, further)) == AttemptTrail(attempt)
  {}

  lemma {:induction false} AttemptsRolesFollow(attempts: seq<Built>, total: nat, abandoned: bool)
    ensures Indices(AttemptsRoles(attempts, total, abandoned)) == AttemptsTrail(attempts)
  {
    if attempts != [] {
      var n := |attempts| - 1;
      var further := Further(n, total, abandoned);
      AttemptsRolesFollow(attempts[..n], total, abandoned);
      AttemptRolesFollow(attempts[n], further);
      var a, b := AttemptsRoles(attempts[..n], total, abandoned), AttemptRoles(attempts[n], further);
      assert Indices(a + b) == Indices(a) + Indices(b);
    }
  }

  lemma IncreasingPrefix(a: seq<nat>, b: seq<nat>)
    requires Increasing(a + b)
    ensures Increasing(a)
  {
    assert forall i | 0 <= i < |a| :: (a + b)[i] == a[i];
  }

  /** Inserts one relation for each of the given events. None of them has one yet, so none is overwritten. */
  method InsertAll(placed: seq<Placed>, indices: seq<nat>, relation: Relation) returns (r: seq<Placed>)
    requires Increasing(Indices(placed) + indices)
    ensures r == placed + Mark(indices, relation)
  {
    r := placed;
    for k := 0 to |indices|
      invariant r == placed + Mark(indices[..k], relation)
    {
      assert Mark(indices[..k + 1], relation) == Mark(indices[..k], relation) + [Placed(indices[k], relation)];
      LastIsBelow(placed, indices, k, relation);
      r := Insert(r, indices[k], relation);
    }
    assert indices[..|indices|] == indices;
  }

  lemma LastIsBelow(placed: seq<Placed>, indices: seq<nat>, k: nat, relation: Relation)
    requires Increasing(Indices(placed) + indices) && k < |indices|
    ensures var r := placed + Mark(indices[..k], relation); r != [] ==> r[|r| - 1].index < indices[k]
  {
    var all, r := Indices(placed) + indices, placed + Mark(indices[..k], relation);
    if r != [] {
      assert all[|r|] == indices[k];
      assert all[|r| - 1] == r[|r| - 1].index;
    }
  }

  method InsertAttempt(placed: seq<Placed>, attempt: Built, further: Relation) returns (r: seq<Placed>)
    requires Increasing(Indices(placed) + AttemptTrail(attempt))
    ensures r == placed + AttemptRoles(attempt, further)
  {
    var changes, following, rest := attempt.changes, FollowingIndex(attempt), FactIndices(attempt.additional);
    assert Indices(placed) + AttemptTrail(attempt) == ((Indices(placed) + changes) + following) + rest;
    IncreasingPrefix((Indices(placed) + changes) + following, rest);
    IncreasingPrefix(Indices(placed) + changes, following);
    r := InsertAll(placed, changes, AttemptChange);
    assert Indices(r) == Indices(placed) + changes;
    r := InsertAll(r, following, AttemptVerification);
    assert Indices(r) == (Indices(placed) + changes) + following;
    r := InsertAll(r, rest, further);
  }

  /** Splits the trail behind the first `k` attempts. */
  lemma {:induction false} TrailSplits(attempts: seq<Built>, k: nat) returns (rest: seq<nat>)
    requires k <= |attempts|
    ensures AttemptsTrail(attempts) == AttemptsTrail(attempts[..k]) + rest
    decreases |attempts|
  {
    if k == |attempts| {
      assert attempts[..k] == attempts;
      rest := [];
    } else {
      var n := |attempts| - 1;
      rest := TrailSplits(attempts[..n], k);
      assert attempts[..n][..k] == attempts[..k];
      rest := rest + AttemptTrail(attempts[n]);
    }
  }

  /** What the trail holds before, in and behind one attempt. */
  lemma TrailAround(attempts: seq<Built>, k: nat) returns (rest: seq<nat>)
    requires k < |attempts|
    ensures AttemptsTrail(attempts) == AttemptsTrail(attempts[..k]) + AttemptTrail(attempts[k]) + rest
  {
    rest := TrailSplits(attempts, k + 1);
    assert attempts[..k + 1][..k] == attempts[..k];
  }

  lemma Regroup(a: seq<nat>, b: seq<nat>, c: seq<nat>, d: seq<nat>)
    ensures a + (b + c + d) == ((a + b) + c) + d
  {}

  lemma NextAttemptIncreasing(head: seq<nat>, attempts: seq<Built>, k: nat)
    requires k < |attempts| && Increasing(head + AttemptsTrail(attempts))
    ensures Increasing((head + AttemptsTrail(attempts[..k])) + AttemptTrail(attempts[k]))
  {
    var rest := TrailAround(attempts, k);
    Regroup(head, AttemptsTrail(attempts[..k]), AttemptTrail(attempts[k]), rest);
    IncreasingPrefix((head + AttemptsTrail(attempts[..k])) + AttemptTrail(attempts[k]), rest);
  }

  lemma AttemptsRolesStep(attempts: seq<Built>, k: nat, total: nat, abandoned: bool)
    requires k < |attempts|
    ensures AttemptsRoles(attempts[..k + 1], total, abandoned)
         == AttemptsRoles(attempts[..k], total, abandoned) + AttemptRoles(attempts[k], Further(k, total, abandoned))
  {
    assert attempts[..k + 1][..k] == attempts[..k];
  }

  /** The events whose relations are in place once these attempts have been gone through. */
  lemma PlacedSoFar(initial: Fact, repeats: seq<nat>, attempts: seq<Built>, total: nat, abandoned: bool)
    ensures Indices(OpeningRoles(initial, repeats) + AttemptsRoles(attempts, total, abandoned))
         == Opening(Some(initial), repeats) + AttemptsTrail(attempts)
  {
    AttemptsRolesFollow(attempts, total, abandoned);
    var a, b := OpeningRoles(initial, repeats), AttemptsRoles(attempts, total, abandoned);
    assert Indices(a) == Opening(Some(initial), repeats);
    assert Indices(a + b) == Indices(a) + Indices(b);
  }

  /** The roles go through the used events in order. */
  lemma RolesFollowTrail(initial: Fact, repeats: seq<nat>, attempts: seq<Built>, abandoned: bool)
    ensures Indices(Roles(initial, repeats, attempts, abandoned))
      == Opening(Some(initial), repeats) + AttemptsTrail(attempts)
  {
    PlacedSoFar(initial, repeats, attempts, |attempts|, abandoned);
  }

  method RelateOpening(initial: Fact, repeats: seq<nat>) returns (placed: seq<Placed>)
    requires Increasing(Opening(Some(initial), repeats))
    ensures placed == OpeningRoles(initial, repeats)
  {
    placed := Insert([], initial.eventIndex, InitialFailure);
    assert Indices(placed) + repeats == Opening(Some(initial), repeats);
    placed := InsertAll(placed, repeats, Supporting);
  }

  /** The relation of every event that the experience uses. */
  method Relate(initial: Fact, repeats: seq<nat>, attempts: seq<Built>, abandoned: bool) returns (placed: seq<Placed>)
    requires Increasing(Opening(Some(initial), repeats) + AttemptsTrail(attempts))
    ensures placed == Roles(initial, repeats, attempts, abandoned)
  {
    ghost var opening := OpeningRoles(initial, repeats);
    IncreasingPrefix(Opening(Some(initial), repeats), AttemptsTrail(attempts));
    placed := RelateOpening(initial, repeats);
    for k := 0 to |attempts|
      invariant placed == opening + AttemptsRoles(attempts[..k], |attempts|, abandoned)
    {
      placed := RelateAttempt(placed, initial, repeats, attempts, abandoned, k);
    }
    assert attempts[..|attempts|] == attempts;
  }

  lemma BehindEarlierEvents(before: seq<Placed>, initial: Fact, repeats: seq<nat>, attempts: seq<Built>,
                            abandoned: bool, k: nat)
    requires k < |attempts| && Increasing(Opening(Some(initial), repeats) + AttemptsTrail(attempts))
    requires before == OpeningRoles(initial, repeats) + AttemptsRoles(attempts[..k], |attempts|, abandoned)
    ensures Increasing(Indices(before) + AttemptTrail(attempts[k]))
  {
    NextAttemptIncreasing(Opening(Some(initial), repeats), attempts, k);
    PlacedSoFar(initial, repeats, attempts[..k], |attempts|, abandoned);
  }

  method RelateAttempt(before: seq<Placed>, ghost initial: Fact, ghost repeats: seq<nat>, attempts: seq<Built>,
                       abandoned: bool, k: nat)
    returns (placed: seq<Placed>)
    requires k < |attempts| && Increasing(Opening(Some(initial), repeats) + AttemptsTrail(attempts))
    requires before == OpeningRoles(initial, repeats) + AttemptsRoles(attempts[..k], |attempts|, abandoned)
    ensures placed == OpeningRoles(initial, repeats) + AttemptsRoles(attempts[..k + 1], |attempts|, abandoned)
  {
    var further := if !abandoned && k + 1 == |attempts| then TerminalVerification else Supporting;
    BehindEarlierEvents(before, initial, repeats, attempts, abandoned, k);
    AttemptsRolesStep(attempts, k, |attempts|, abandoned);
    placed := InsertAttempt(before, attempts[k], further);
  }

  // ---------- Ordinals ----------

  /** Where an event stands among the links. */
  function OrdinalOf(placed: seq<Placed>, index: nat): (r: nat)
    requires exists k | 0 <= k < |placed| :: placed[k].index == index
    ensures r < |placed| && placed[r].index == index
  {
    var n := |placed| - 1;
    if placed[n].index == index then n
    else
      assert forall k | 0 <= k < |placed| && placed[k].index == index :: placed[..n][k].index == index;
      OrdinalOf(placed[..n], index)
  }

  /** One attempt whose events are the links from `start` on. */
  function RecordFrom(k: nat, attempt: Built, start: nat): Attempt {
    var c := |attempt.changes|;
    Attempt(k, attempt.result, Span(start, start + c), if attempt.following.Some? then Some(start + c) else None)
  }

  /** The attempts with the ordinals of their events, as blocks of consecutive links from `from` on. */
  function Records(attempts: seq<Built>, from: nat): (r: seq<Attempt>)
    ensures |r| == |attempts|
  {
    if attempts == [] then []
    else
      var n := |attempts| - 1;
      Records(attempts[..n], from) + [RecordFrom(n, attempts[n], from + |AttemptsTrail(attempts[..n])|)]
  }

  /** Each attempt's changes come before its verification, which comes before the next attempt's changes. */
  ghost predicate InSequence(records: seq<Attempt>, from: nat, to: nat) {
    && (forall a | 0 <= a < |records| ::
          && records[a].ordinal == a
          && (forall o | o in records[a].changes :: from <= o < to)
          && (records[a].following.Some? ==>
            from <= records[a].following.value < to
              && forall o | o in records[a].changes :: o < records[a].following.value))
    && (forall a, b | 0 <= a < b < |records| ::
          forall o | o in records[b].changes ::
            && (forall p | p in records[a].changes :: p < o)
            && (records[a].following.Some? ==> records[a].following.value < o))
  }

  lemma {:induction false} RecordsInSequence(attempts: seq<Built>, from: nat)
    ensures InSequence(Records(attempts, from), from, from + |AttemptsTrail(attempts)|)
  {
    if attempts != [] {
      var n := |attempts| - 1;
      RecordsInSequence(attempts[..n], from);
      LaterRecord(Records(attempts[..n], from), Records(attempts, from)[n], from,
                  from + |AttemptsTrail(attempts[..n])|, from + |AttemptsTrail(attempts)|);
    }
  }

  lemma LaterRecord(records: seq<Attempt>, last: Attempt, from: nat, middle: nat, to: nat)
    requires InSequence(records, from, middle) && from <= middle <= to && last.ordinal == |records|
    requires forall o | o in last.changes :: middle <= o < to
    requires last.following.Some? ==>
      middle <= last.following.value < to && forall o | o in last.changes :: o < last.following.value
    ensures InSequence(records + [last], from, to)
  {
    var after := records + [last];
    assert forall a | 0 <= a < |records| :: after[a] == records[a];
  }

  lemma OrdinalIsPosition(placed: seq<Placed>, k: nat)
    requires Increasing(Indices(placed)) && k < |placed|
    ensures OrdinalOf(placed, placed[k].index) == k
  {
    SamePlace(placed, OrdinalOf(placed, placed[k].index), k);
  }

  lemma SamePlace(placed: seq<Placed>, j: nat, k: nat)
    requires Increasing(Indices(placed)) && j < |placed| && k < |placed| && placed[j].index == placed[k].index
    ensures j == k
  {
    assert Indices(placed)[j] == Indices(placed)[k];
  }

  method Ordinals(placed: seq<Placed>, indices: seq<nat>, ghost from: nat) returns (r: seq<nat>)
    requires Increasing(Indices(placed)) && from + |indices| <= |placed|
    requires forall k | 0 <= k < |indices| :: placed[from + k].index == indices[k]
    ensures r == Span(from, from + |indices|)
  {
    r := [];
    for k := 0 to |indices|
      invariant r == Span(from, from + k)
    {
      OrdinalIsPosition(placed, from + k);
      r := r + [OrdinalOf(placed, indices[k])];
    }
  }

  lemma RecordsStep(attempts: seq<Built>, from: nat, k: nat)
    requires k < |attempts|
    ensures Records(attempts[..k + 1], from)
         == Records(attempts[..k], from) + [RecordFrom(k, attempts[k], from + |AttemptsTrail(attempts[..k])|)]
  {
    assert attempts[..k + 1][..k] == attempts[..k];
  }

  method RecordAttempts(initial: Fact, repeats: seq<nat>, attempts: seq<Built>, placed: seq<Placed>)
    returns (records: seq<Attempt>)
    requires Increasing(Indices(placed)) && Indices(placed) == Opening(Some(initial), repeats) + AttemptsTrail(attempts)
    ensures records == Records(attempts, 1 + |repeats|)
  {
    records := [];
    for k := 0 to |attempts|
      invariant records == Records(attempts[..k], 1 + |repeats|)
    {
      ghost var start := 1 + |repeats| + |AttemptsTrail(attempts[..k])|;
      BlockAt(placed, Opening(Some(initial), repeats), attempts, k, start);
      RecordsStep(attempts, 1 + |repeats|, k);
      var record := RecordAttempt(placed, k, attempts[k], start);
      records := records + [record];
    }
    assert attempts[..|attempts|] == attempts;
  }

  method RecordAttempt(placed: seq<Placed>, k: nat, attempt: Built, ghost start: nat) returns (record: Attempt)
    requires Increasing(Indices(placed)) && BlockIs(placed, start, attempt)
    ensures record == RecordFrom(k, attempt, start)
  {
    var changes := Ordinals(placed, attempt.changes, start);
    var following := None;
    if attempt.following.Some? {
      assert FollowingIndex(attempt)[0] == attempt.following.value.eventIndex;
      OrdinalIsPosition(placed, start + |attempt.changes|);
      following := Some(OrdinalOf(placed, attempt.following.value.eventIndex));
    }
    record := Attempt(k, attempt.result, changes, following);
  }

  /** The attempt's changes and following result are linked from `start` on. */
  ghost predicate BlockIs(placed: seq<Placed>, start: nat, attempt: Built) {
    var c, f := attempt.changes, FollowingIndex(attempt);
    && start + |c| + |f| <= |placed|
    && (forall j | 0 <= j < |c| :: placed[start + j].index == c[j])
    && (f != [] ==> placed[start + |c|].index == f[0])
  }

  lemma BlockFound(placed: seq<Placed>, start: nat, head: seq<nat>, attempt: Built, tail: seq<nat>)
    requires start == |head| && Indices(placed) == (head + AttemptTrail(attempt)) + tail
    ensures BlockIs(placed, start, attempt)
  {
    var c, f := attempt.changes, FollowingIndex(attempt);
    var all := Indices(placed);
    assert AttemptTrail(attempt) == c + (f + FactIndices(attempt.additional));
    assert forall j | 0 <= j < |c| :: all[|head| + j] == c[j] == placed[|head| + j].index;
    assert f != [] ==> all[|head| + |c|] == f[0];
  }

  /** Where an attempt's events stand among the links. */
  lemma BlockAt(placed: seq<Placed>, opening: seq<nat>, attempts: seq<Built>, k: nat, start: nat)
    requires k < |attempts| && Indices(placed) == opening + AttemptsTrail(attempts)
    requires start == |opening| + |AttemptsTrail(attempts[..k])|
    ensures BlockIs(placed, start, attempts[k])
  {
    var rest := TrailAround(attempts, k);
    var before := AttemptsTrail(attempts[..k]);
    Regroup(opening, before, AttemptTrail(attempts[k]), rest);
    BlockFound(placed, start, opening + before, attempts[k], rest);
  }
}
