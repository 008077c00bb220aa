/** The graph indexer over the store: preparing a batch for one document and applying it. */
module GraphIndexer {
  import opened Prelude
  import opened Strings
  import opened GraphDomain
  import opened GraphResolver
  import opened GraphRegistry
  import opened GraphIncremental

  /** A 64-bit float as far as the indexer looks at it. */
  datatype Confidence = Finite(value: real) | NotFinite

  datatype Relationship = Relationship(
    key: string,
    fromKey: string,
    edgeType: string,
    kind: TargetKind,
    target: string,
    aliases: seq<Alias>,
    externalRoots: seq<string>,
    confidence: Confidence,
    startByte: Option<nat>,
    endByte: Option<nat>)

  datatype Result<+T> = Ok(value: T) | Err(reason: string)

  /** What one reconciliation or deletion hands to the store. */
  datatype Batch = Batch(
    document: string,
    deletion: bool,
    nodes: seq<GraphNode>,
    facts: seq<Fact>,
    affected: set<Identity>,
    rows: map<Identity, Projection>)

  ghost function FactSet(facts: seq<Fact>): set<Fact> {
    set f | f in facts
  }

  // ---------- Identity ----------

  /** Nodes by stable key; a later node replaces an earlier one. */
  function NodesByKey(nodes: seq<GraphNode>): (m: map<string, GraphNode>)
    ensures forall k | k in m :: m[k] in nodes && m[k].key == k
    ensures forall n | n in nodes :: n.key in m
  {
    if nodes == [] then map[] else
      var last := nodes[|nodes| - 1];
      assert nodes == nodes[..|nodes| - 1] + [last];
      NodesByKey(nodes[..|nodes| - 1])[last.key := last]
  }

  function WithIdentity(node: GraphNode, previous: map<string, GraphNode>): GraphNode {
    if node.key in previous then node.(id := previous[node.key].id) else node
  }

  /** Gives every node the identifier that its stable key had before. */
  method PreserveNodeIdentity(nodes: array<GraphNode>, previous: seq<GraphNode>)
    modifies nodes
    ensures forall i | 0 <= i < nodes.Length :: nodes[i] == WithIdentity(old(nodes[i]), NodesByKey(previous))
  {
    var byKey := NodesByKey(previous);
    for i := 0 to nodes.Length
      invariant forall j | 0 <= j < i :: nodes[j] == WithIdentity(old(nodes[j]), byKey)
      invariant forall j | i <= j < nodes.Length :: nodes[j] == old(nodes[j])
    {
      if nodes[i].key in byKey {
        nodes[i] := nodes[i].(id := byKey[nodes[i].key].id);
      }
    }
  }

  function Identified(nodes: seq<GraphNode>, previous: seq<GraphNode>): (r: seq<GraphNode>)
    ensures |r| == |nodes|
    ensures forall i | 0 <= i < |nodes| :: r[i] == WithIdentity(nodes[i], NodesByKey(previous))
  {
    seq(|nodes|, i requires 0 <= i < |nodes| => WithIdentity(nodes[i], NodesByKey(previous)))
  }

  // ---------- Facts ----------

  /** The node a relationship starts from: by stable key, by analyzer key, or by logical key. */
  function SourceNode(nodes: seq<GraphNode>, analyzerId: string, fromKey: string): (r: Option<GraphNode>)
    ensures r.Some? ==> r.value in nodes
  {
    var direct := Find(nodes, (n: GraphNode) => n.key == fromKey);
    var symbol := Find(nodes, (n: GraphNode) => n.key == SymbolStableKey(analyzerId, fromKey));
    if direct.Some? then direct
    else if symbol.Some? then symbol
    else Find(nodes, (n: GraphNode) => n.logicalKey == Some(fromKey))
  }

  predicate ValidConfidence(relationship: Relationship) {
    relationship.confidence.Finite? && 0.0 <= relationship.confidence.value <= 1.0
  }

  predicate ValidRange(relationship: Relationship) {
    match (relationship.startByte, relationship.endByte)
    case (Some(start), Some(end)) => start <= end
    case (None, None) => true
    case _ => false
  }

  function FactOf(document: Document, relationship: Relationship, source: GraphNode): Fact {
    Fact(document.id, relationship.key, source.id, source.key, relationship.edgeType, relationship.kind,
         relationship.target,
         relationship.aliases, relationship.externalRoots)
  }

  /** What a list of relationships has to satisfy to become facts. */
  predicate Assertable(document: Document, relationships: seq<Relationship>, nodes: seq<GraphNode>) {
    && (forall r | r in relationships ::
          && Trim(r.key) != "" && ValidConfidence(r) && ValidRange(r)
          && SourceNode(nodes, document.analyzerId, r.fromKey).Some?)
    && forall i, j | 0 <= i < j < |relationships| :: relationships[i].key != relationships[j].key
  }

  function Facts(document: Document, relationships: seq<Relationship>, nodes: seq<GraphNode>): (r: seq<Fact>)
    requires Assertable(document, relationships, nodes)
    ensures |r| == |relationships|
  {
    seq(|relationships|, i requires 0 <= i < |relationships| =>
      FactOf(document, relationships[i], SourceNode(nodes, document.analyzerId, relationships[i].fromKey).value))
  }

  method RelationshipsToFacts(document: Document, relationships: seq<Relationship>, nodes: seq<GraphNode>)
    returns (r: Result<seq<Fact>>)
    ensures r.Ok? <==> Assertable(document, relationships, nodes)
    ensures r.Ok? ==> r.value == Facts(document, relationships, nodes)
  {
    var keys: set<string> := {};
    var facts: seq<Fact> := [];
    for i := 0 to |relationships|
      invariant keys == RelationshipKeys(relationships[..i])
      invariant Assertable(document, relationships[..i], nodes)
      invariant facts == Facts(document, relationships[..i], nodes)
    {
      var relationship := relationships[i];
      NextAssertable(document, relationships, nodes, i);
      if Trim(relationship.key) == "" || relationship.key in keys {
        return Err("analyzer emitted an empty or duplicate relationship key");
      }
      if !ValidConfidence(relationship) {
        return Err("relationship has invalid confidence");
      }
      var source := SourceNode(nodes, document.analyzerId, relationship.fromKey);
      if source.None? {
        return Err("relationship refers to unknown source");
      }
      if !ValidRange(relationship) {
        return Err("relationship source range must be complete and ordered");
      }
      keys := keys + {relationship.key};
      facts := facts + [FactOf(document, relationship, source.value)];
    }
    assert relationships[..|relationships|] == relationships;
    r := Ok(facts);
  }

  ghost function RelationshipKeys(relationships: seq<Relationship>): set<string> {
    set r | r in relationships :: r.key
  }

  /** What one relationship has to satisfy behind others. */
  predicate Admissible(document: Document, keys: set<string>, relationship: Relationship, nodes: seq<GraphNode>) {
    && Trim(relationship.key) != "" && relationship.key !in keys && ValidConfidence(relationship)
    && SourceNode(nodes, document.analyzerId, relationship.fromKey).Some? && ValidRange(relationship)
  }

  /** The relationships up to the next one can be asserted exactly when it is acceptable; if it is not,
      neither are all of them. */
  lemma NextAssertable(document: Document, relationships: seq<Relationship>, nodes: seq<GraphNode>, i: nat)
    requires i < |relationships| && Assertable(document, relationships[..i], nodes)
    ensures RelationshipKeys(relationships[..i + 1]) == RelationshipKeys(relationships[..i]) + {relationships[i].key}
    ensures var ok := Admissible(document, RelationshipKeys(relationships[..i]), relationships[i], nodes);
      (Assertable(document, relationships[..i + 1], nodes) <==> ok)
        && (!ok ==> !Assertable(document, relationships, nodes))
    ensures Admissible(document, RelationshipKeys(relationships[..i]), relationships[i], nodes) ==>
      Facts(document, relationships[..i + 1], nodes)
        == Facts(document, relationships[..i], nodes)
           + [FactOf(document, relationships[i],
                     SourceNode(nodes, document.analyzerId, relationships[i].fromKey).value)]
  {
    var before, next := relationships[..i], relationships[i];
    assert relationships[..i + 1] == before + [next];
    assert next in relationships;
    if next.key in RelationshipKeys(before) {
      var k :| 0 <= k < i && before[k].key == next.key;
      assert relationships[k].key == relationships[i].key;
      assert (before + [next])[k].key == (before + [next])[i].key;
    }
  }

  // ---------- What is affected ----------

  ghost predicate Lists(entries: seq<string>, nodes: set<GraphNode>, term: Term) {
    forall e :: e in entries <==> e in Surface(nodes, term)
  }

  ghost predicate ListsAll(lists: map<Term, seq<string>>, nodes: set<GraphNode>) {
    lists.Keys == AllTerms(nodes) && forall t | t in lists :: Lists(lists[t], nodes, t)
  }

  ghost predicate IsSurface(surface: map<Term, seq<string>>, nodes: set<GraphNode>) {
    ListsAll(surface, nodes) && forall t | t in surface :: StrictlySorted(surface[t])
  }

  /** Pushes the node's entry onto the list of each of its terms. */
  function PushEntries(lists: map<Term, seq<string>>, node: GraphNode): map<Term, seq<string>> {
    lists + map t | t in NodeTerms(node) :: (if t in lists then lists[t] else []) + [Entry(node)]
  }

  lemma PushOne(lists: map<Term, seq<string>>, seen: set<GraphNode>, node: GraphNode, term: Term)
    requires ListsAll(lists, seen) && term in PushEntries(lists, node)
    ensures Lists(PushEntries(lists, node)[term], seen + {node}, term)
  {
    SurfaceGrows(seen, node, term);
    TermHasEntry(seen, term);
    if term in lists {
      assert Lists(lists[term], seen, term);
    }
  }

  lemma TermsGrow(seen: set<GraphNode>, node: GraphNode)
    ensures AllTerms(seen + {node}) == AllTerms(seen) + NodeTerms(node)
  {}

  lemma PushKeepsLists(lists: map<Term, seq<string>>, seen: set<GraphNode>, node: GraphNode)
    requires ListsAll(lists, seen)
    ensures ListsAll(PushEntries(lists, node), seen + {node})
  {
    TermsGrow(seen, node);
    forall t | t in PushEntries(lists, node) ensures Lists(PushEntries(lists, node)[t], seen + {node}, t) {
      PushOne(lists, seen, node, t);
    }
  }

  /** Terms with the sorted entries of the nodes that bear them. */
  method ResolutionSurface(nodes: seq<GraphNode>) returns (surface: map<Term, seq<string>>)
    ensures IsSurface(surface, NodeSet(nodes))
  {
    var lists: map<Term, seq<string>> := map[];
    for i := 0 to |nodes|
      invariant ListsAll(lists, NodeSet(nodes[..i]))
    {
      assert nodes[..i + 1] == nodes[..i] + [nodes[i]];
      assert NodeSet(nodes[..i + 1]) == NodeSet(nodes[..i]) + {nodes[i]};
      PushKeepsLists(lists, NodeSet(nodes[..i]), nodes[i]);
      lists := PushEntries(lists, nodes[i]);
    }
    assert nodes[..|nodes|] == nodes;
    surface := map t | t in lists :: SortDedup(lists[t]);
    forall t | t in surface ensures Lists(surface[t], NodeSet(nodes), t) {
      assert Lists(lists[t], NodeSet(nodes), t);
    }
  }

  lemma SurfaceGrows(seen: set<GraphNode>, node: GraphNode, term: Term)
    ensures Surface(seen + {node}, term) == Surface(seen, term) + if term in NodeTerms(node) then {Entry(node)} else {}
  {
    var all := seen + {node};
    forall e | e in Surface(all, term) && e !in Surface(seen, term)
      ensures term in NodeTerms(node) && e == Entry(node)
    {
      var n :| n in Bearers(all, term) && Entry(n) == e;
      assert n in seen ==> n in Bearers(seen, term) && Entry(n) in Surface(seen, term);
    }
    assert Bearers(seen, term) <= Bearers(all, term);
    assert term in NodeTerms(node) ==> node in Bearers(all, term) && Entry(node) in Surface(all, term);
  }

  method ChangedResolutionTerms(before: seq<GraphNode>, after: seq<GraphNode>) returns (changed: set<Term>)
    ensures changed == ChangedTerms(NodeSet(before), NodeSet(after))
  {
    var oldSurface := ResolutionSurface(before);
    var newSurface := ResolutionSurface(after);
    changed := set t | t in oldSurface.Keys + newSurface.Keys && !SameEntries(oldSurface, newSurface, t);
    forall t | t in oldSurface.Keys + newSurface.Keys
      ensures SameEntries(oldSurface, newSurface, t) <==> Surface(NodeSet(before), t) == Surface(NodeSet(after), t)
    {
      SurfacesCompare(oldSurface, NodeSet(before), newSurface, NodeSet(after), t);
    }
  }

  predicate SameEntries(a: map<Term, seq<string>>, b: map<Term, seq<string>>, term: Term) {
    if term in a then term in b && a[term] == b[term] else term !in b
  }

  lemma SurfacesCompare(a: map<Term, seq<string>>, before: set<GraphNode>, b: map<Term, seq<string>>,
                        after: set<GraphNode>, term: Term)
    requires IsSurface(a, before) && IsSurface(b, after)
    ensures SameEntries(a, b, term) <==> Surface(before, term) == Surface(after, term)
  {
    TermHasEntry(before, term);
    TermHasEntry(after, term);
    if term in a && term in b {
      assert Lists(a[term], before, term) && Lists(b[term], after, term);
      ListsCompare(a[term], before, b[term], after, term);
    }
  }

  lemma ListsCompare(a: seq<string>, before: set<GraphNode>, b: seq<string>, after: set<GraphNode>, term: Term)
    requires Lists(a, before, term) && Lists(b, after, term) && StrictlySorted(a) && StrictlySorted(b)
    ensures a == b <==> Surface(before, term) == Surface(after, term)
  {
    if a == b {
      assert forall e :: e in Surface(before, term) <==> e in a;
    } else if Surface(before, term) == Surface(after, term) {
      assert forall e :: e in a <==> e in b;
      SortedUnique(a, b);
    }
  }

  lemma TermHasEntry(nodes: set<GraphNode>, term: Term)
    ensures term in AllTerms(nodes) <==> Surface(nodes, term) != {}
  {
    if term in AllTerms(nodes) {
      var n :| n in nodes && term in NodeTerms(n);
      assert n in Bearers(nodes, term) && Entry(n) in Surface(nodes, term);
    }
    if Surface(nodes, term) != {} {
      var e :| e in Surface(nodes, term);
      var n :| n in Bearers(nodes, term) && Entry(n) == e;
      assert term in NodeTerms(n);
    }
  }

  method AffectedRelationships(document: string, oldFacts: seq<Fact>, desiredFacts: seq<Fact>,
                               rows: map<Identity, Projection>,
                               changed: set<Term>, removed: set<string>)
    returns (affected: set<Identity>)
    ensures affected ==
      (set f | f in FactSet(oldFacts) + FactSet(desiredFacts) && (f.documentId == document || FactTerm(f) in changed) ::
        f.Ident()) +
      (set i | i in rows && rows[i].Edge? && rows[i].toNode in removed)
  {
    var facts := oldFacts + desiredFacts;
    affected := {};
    for i := 0 to |facts|
      invariant affected == set f | f in facts[..i] && (f.documentId == document || FactTerm(f) in changed) :: f.Ident()
    {
      assert facts[..i + 1] == facts[..i] + [facts[i]];
      if facts[i].documentId == document || FactTerm(facts[i]) in changed {
        affected := affected + {facts[i].Ident()};
      }
    }
    assert facts[..|facts|] == facts;
    assert forall f :: f in facts <==> f in FactSet(oldFacts) + FactSet(desiredFacts);
    affected := affected + set i | i in rows && rows[i].Edge? && rows[i].toNode in removed;
  }

  // ---------- Projecting ----------

  /** Resolves the affected facts one by one; an unknown source node fails the whole batch. */
  method ProjectRelationships(nodes: seq<GraphNode>, facts: seq<Fact>, affected: set<Identity>)
    returns (r: Result<map<Identity, Projection>>)
    requires forall i, j | 0 <= i < j < |facts| :: facts[i].Ident() != facts[j].Ident()
    ensures r.Err? <==> exists f | f in facts && f.Ident() in affected :: SourceOf(NodeSet(nodes), f.fromNode) == {}
    ensures r.Ok? ==> r.value.Keys == Identities(FactSet(facts)) * affected
    ensures r.Ok? && Unique(NodeSet(nodes)) ==>
      forall f | f in facts && f.Ident() in affected :: Project(f, NodeSet(nodes)) == Some(r.value[f.Ident()])
  {
    var rows: map<Identity, Projection> := map[];
    for i := 0 to |facts|
      invariant rows.Keys == Identities(FactSet(facts[..i])) * affected
      invariant forall f | f in facts[..i] && f.Ident() in affected :: SourceOf(NodeSet(nodes), f.fromNode) != {}
      invariant Unique(NodeSet(nodes)) ==>
        forall f | f in facts[..i] && f.Ident() in affected :: Project(f, NodeSet(nodes)) == Some(rows[f.Ident()])
    {
      var fact := facts[i];
      assert facts[..i + 1] == facts[..i] + [fact];
      assert forall f | f in facts[..i] :: f.Ident() != fact.Ident();
      if fact.Ident() !in affected {
        continue;
      }
      var row := ProjectFact(fact, nodes);
      if row.None? {
        assert fact in facts;
        return Err("source graph node not found");
      }
      rows := rows[fact.Ident() := row.value];
    }
    assert facts[..|facts|] == facts;
    r := Ok(rows);
  }

  method ProjectFact(fact: Fact, nodes: seq<GraphNode>) returns (row: Option<Projection>)
    ensures row.None? <==> SourceOf(NodeSet(nodes), fact.fromNode) == {}
    ensures Unique(NodeSet(nodes)) ==> row == Project(fact, NodeSet(nodes))
  {
    ghost var s := NodeSet(nodes);
    var source := Find(nodes, (n: GraphNode) => n.id == fact.fromNode);
    var language := if source.Some? then source.value.language else None;
    assert source.None? ==> SourceOf(s, fact.fromNode) == {};
    assert source.Some? ==> source.value in SourceOf(s, fact.fromNode);
    assert Unique(s) && source.Some? ==> SourceOf(s, fact.fromNode) == {source.value};
    var resolution := ResolveAgainstNodes(RequestOf(fact, language), nodes);
    match resolution {
      case Found(outcome) => row := Some(Publish(fact, outcome));
      case SourceMissing(_) => row := None;
    }
  }

  // ---------- The store ----------

  ghost predicate DistinctFacts(facts: seq<Fact>) {
    forall i, j | 0 <= i < j < |facts| :: facts[i].Ident() != facts[j].Ident()
  }

  predicate DistinctKeys(nodes: seq<GraphNode>) {
    forall i, j | 0 <= i < j < |nodes| :: nodes[i].key != nodes[j].key
  }

  function OwnList(nodes: seq<GraphNode>, document: string): seq<GraphNode> {
    Filter(nodes, (n: GraphNode) => n.documentId == Some(document))
  }

  function OtherList(nodes: seq<GraphNode>, document: string): seq<GraphNode> {
    Filter(nodes, (n: GraphNode) => n.documentId != Some(document))
  }

  function OtherFacts(facts: seq<Fact>, document: string): (r: seq<Fact>)
    ensures forall f :: f in r <==> f in facts && f.documentId != document
    ensures DistinctFacts(facts) ==> DistinctFacts(r)
  {
    if facts == [] then [] else
      assert facts == [facts[0]] + facts[1..];
      (if facts[0].documentId != document then [facts[0]] else []) + OtherFacts(facts[1..], document)
  }

  /** A batch the store accepts: its nodes and facts belong to its document, without repeated keys. */
  predicate WellMade(batch: Batch) {
    && (forall n | n in batch.nodes :: n.documentId == Some(batch.document))
    && DistinctKeys(batch.nodes)
    && (forall f | f in batch.facts :: f.documentId == batch.document)
    && (forall i, j | 0 <= i < j < |batch.facts| :: batch.facts[i].relationshipKey != batch.facts[j].relationshipKey)
  }

  predicate KeyTaken(nodes: seq<GraphNode>, batch: Batch) {
    exists n, o | n in batch.nodes && o in nodes :: o.key == n.key && o.documentId != Some(batch.document)
  }

  function WithoutDocument(rows: map<Identity, Projection>, document: string): map<Identity, Projection> {
    map i | i in rows && i.documentId != document :: rows[i]
  }

  /** The store keeps one edge per relationship key, whichever document it comes from. */
  predicate EdgeKeysApart(rows: map<Identity, Projection>) {
    forall i, j | i in rows && j in rows && i.relationshipKey == j.relationshipKey ::
      rows[i].Edge? && rows[j].Edge? ==> i == j
  }

  /** The stored graph after a batch: rows upserted by stable key, cascades, then the new projection. */
  ghost function Applied(g: Graph, batch: Batch, own: seq<GraphNode>): Graph {
    var stored := NodeSet(Identified(batch.nodes, own));
    var kept := set n | n in batch.nodes :: n.key;
    var gone := set n | n in OwnNodes(g, batch.document) && n.key !in kept :: n.id;
    var rows := if batch.deletion then WithoutDocument(g.projection, batch.document) else g.projection;
    Graph(NodesAfter(g, batch.document, stored), FactsAfter(g, batch.document, FactSet(batch.facts)),
          (Cascade(rows, gone) - batch.affected) + batch.rows)
  }

  lemma AppliedParts(nodes: seq<GraphNode>, facts: seq<Fact>, rows: map<Identity, Projection>, batch: Batch)
    requires DistinctFacts(facts) && WellMade(batch)
    ensures var own := OwnList(nodes, batch.document);
      var kept := set n | n in batch.nodes :: n.key;
      var gone := set n | n in own && n.key !in kept :: n.id;
      var applied := Applied(Graph(NodeSet(nodes), FactSet(facts), rows), batch, own);
      && NodeSet(OtherList(nodes, batch.document) + Identified(batch.nodes, own)) == applied.nodes
      && FactSet(OtherFacts(facts, batch.document) + batch.facts) == applied.facts
      && var remaining := if batch.deletion then WithoutDocument(rows, batch.document) else rows;
         (Cascade(remaining, gone) - batch.affected) + batch.rows == applied.projection
    ensures DistinctFacts(OtherFacts(facts, batch.document) + batch.facts)
  {
    var g := Graph(NodeSet(nodes), FactSet(facts), rows);
    var own := OwnList(nodes, batch.document);
    assert forall n :: n in own <==> n in OwnNodes(g, batch.document);
    assert forall f | f in OtherFacts(facts, batch.document) :: f.documentId != batch.document;
    assert forall f | f in batch.facts :: f.documentId == batch.document;
    var kept := set n | n in batch.nodes :: n.key;
    assert (set n | n in own && n.key !in kept :: n.id)
      == (set n | n in OwnNodes(g, batch.document) && n.key !in kept :: n.id);
    assert FactSet(OtherFacts(facts, batch.document) + batch.facts)
      == FactsAfter(g, batch.document, FactSet(batch.facts));
    AppliedNodes(nodes, facts, rows, batch);
    AppliedFacts(facts, batch);
  }

  lemma AppliedNodes(nodes: seq<GraphNode>, facts: seq<Fact>, rows: map<Identity, Projection>, batch: Batch)
    ensures NodeSet(OtherList(nodes, batch.document) + Identified(batch.nodes, OwnList(nodes, batch.document)))
         == NodesAfter(Graph(NodeSet(nodes), FactSet(facts), rows), batch.document,
                       NodeSet(Identified(batch.nodes, OwnList(nodes, batch.document))))
  {}

  lemma AppliedFacts(facts: seq<Fact>, batch: Batch)
    requires DistinctFacts(facts) && WellMade(batch)
    ensures DistinctFacts(OtherFacts(facts, batch.document) + batch.facts)
  {
    var others := OtherFacts(facts, batch.document);
    var all := others + batch.facts;
    forall i, j | 0 <= i < j < |all| ensures all[i].Ident() != all[j].Ident() {
      if i < |others| && j >= |others| {
        assert all[i] in others && all[j] in batch.facts;
      }
    }
  }

  class GraphStorage {
    var nodes: seq<GraphNode>
    var facts: seq<Fact>
    var rows: map<Identity, Projection>

    ghost function View(): Graph
      reads this
    {
      Graph(NodeSet(nodes), FactSet(facts), rows)
    }

    ghost predicate Valid()
      reads this
    {
      Coherent(View()) && DistinctFacts(facts) && EdgeKeysApart(rows)
    }

    constructor ()
      ensures Valid() && View() == EMPTY_GRAPH
    {
      nodes, facts, rows := [], [], map[];
    }

    /** Applies a batch as one transaction, or rejects it and changes nothing. */
    method ApplyReconciliation(batch: Batch) returns (accepted: bool)
      requires DistinctFacts(facts)
      modifies this
      ensures accepted <==>
        && WellMade(batch) && !old(KeyTaken(nodes, batch))
        && EdgeKeysApart(Applied(old(View()), batch, old(OwnList(nodes, batch.document))).projection)
      ensures accepted ==>
        View() == Applied(old(View()), batch, old(OwnList(nodes, batch.document))) && DistinctFacts(facts)
      ensures !accepted ==> nodes == old(nodes) && facts == old(facts) && rows == old(rows)
    {
      if !WellMade(batch) || KeyTaken(nodes, batch) {
        return false;
      }
      var own := OwnList(nodes, batch.document);
      var kept := set n | n in batch.nodes :: n.key;
      var gone := set n | n in own && n.key !in kept :: n.id;
      AppliedParts(nodes, facts, rows, batch);
      var remaining := if batch.deletion then WithoutDocument(rows, batch.document) else rows;
      var published := (Cascade(remaining, gone) - batch.affected) + batch.rows;
      if !EdgeKeysApart(published) {
        return false;
      }
      nodes := OtherList(nodes, batch.document) + Identified(batch.nodes, own);
      facts := OtherFacts(facts, batch.document) + batch.facts;
      rows := published;
      return true;
    }
  }
}
