/** What the indexer publishes for a changed document, against resolving everything again. */
module GraphIncremental {
  import opened Prelude
  import opened Strings
  import opened GraphDomain
  import opened GraphResolver
  import opened GraphRegistry

  datatype Term = Term(kind: TargetKind, value: string)

  function AddTerm(kind: TargetKind, value: string): set<Term> {
    var trimmed := Trim(value);
    if trimmed == "" then {} else {Term(kind, trimmed)}
  }

  function AddOptionalTerm(kind: TargetKind, value: Option<string>): set<Term> {
    if value.Some? then AddTerm(kind, value.value) else {}
  }

  /** The names under which a node can be looked up. */
  function NodeTerms(node: GraphNode): set<Term> {
    AddTerm(LocalStableKey, node.key) + AddOptionalTerm(LocalStableKey, node.logicalKey) +
    AddTerm(QualifiedSymbol, node.name) + AddOptionalTerm(QualifiedSymbol, node.qualifiedName) +
    if ModuleLike(node) then
      AddTerm(ModulePath, node.name) + AddOptionalTerm(ModulePath, node.qualifiedName) +
      AddOptionalTerm(ModulePath, StripPrefix(node.key, FILE_PREFIX))
    else {}
  }

  function FactTerm(fact: Fact): Term {
    Term(fact.kind, Trim(fact.target))
  }

  /** What the surface of a term records about one of its nodes. */
  function Entry(node: GraphNode): string {
    node.key + "|" + node.nodeType.StorageName() + "|" + (if node.language.Some? then node.language.value else "")
  }

  ghost function Bearers(nodes: set<GraphNode>, term: Term): set<GraphNode> {
    set n | n in nodes && term in NodeTerms(n)
  }

  ghost function Surface(nodes: set<GraphNode>, term: Term): set<string> {
    set n | n in Bearers(nodes, term) :: Entry(n)
  }

  ghost function AllTerms(nodes: set<GraphNode>): set<Term> {
    set n, t | n in nodes && t in NodeTerms(n) :: t
  }

  /** The terms whose surface differs between two node sets. */
  ghost function ChangedTerms(before: set<GraphNode>, after: set<GraphNode>): set<Term> {
    set t | t in AllTerms(before) + AllTerms(after) && Surface(before, t) != Surface(after, t)
  }

  // ---------- Graphs ----------

  /** Everything stored about one workspace: nodes, facts, and one published row per fact. */
  datatype Graph = Graph(nodes: set<GraphNode>, facts: set<Fact>, projection: map<Identity, Projection>)

  const EMPTY_GRAPH := Graph({}, {}, map[])

  ghost predicate UniqueIdentities(facts: set<Fact>) {
    forall f, h | f in facts && h in facts && f.Ident() == h.Ident() :: f == h
  }

  ghost predicate SourceIs(nodes: set<GraphNode>, fact: Fact, source: GraphNode) {
    source in nodes && source.id == fact.fromNode && source.documentId == Some(fact.documentId)
  }

  ghost predicate Sourced(nodes: set<GraphNode>, fact: Fact) {
    exists source :: SourceIs(nodes, fact, source)
  }

  /** What the store enforces: unique keys, identifiers and relationship identities, and no row
      or source reference without what it refers to. */
  ghost predicate Coherent(g: Graph) {
    && Unique(g.nodes)
    && UniqueIdentities(g.facts)
    && (forall f | f in g.facts :: Sourced(g.nodes, f))
    && g.projection.Keys <= Identities(g.facts)
  }

  ghost predicate Valid(g: Graph) {
    Coherent(g) && forall n | n in g.nodes :: WellFormed(n)
  }

  ghost function Ids(nodes: set<GraphNode>): set<string> {
    set n | n in nodes :: n.id
  }

  ghost function Identities(facts: set<Fact>): set<Identity> {
    set f | f in facts :: f.Ident()
  }

  // ---------- Publishing one fact ----------

  function RequestOf(fact: Fact, language: Option<string>): Request {
    Request(fact.kind, fact.target, Some(fact.documentId), Some(fact.fromNode), language, fact.aliases,
            fact.externalRoots)
  }

  function Publish(fact: Fact, outcome: Outcome): Projection {
    match outcome
    case Resolved(node, basis) => Edge(fact.fromNode, node.id, fact.edgeType, basis)
    case Ambiguous(candidates, external, basis) => Dangling(IsAmbiguous, set n | n in candidates ::
      n.id, external, Some(basis))
    case ExternalTo(target) => Dangling(IsExternal, {}, [target], None)
    case UnresolvedAt(_) => Dangling(IsUnresolved, {}, [], None)
  }

  /** The row a fact deserves given all nodes, or nothing when its source is gone. */
  ghost function Project(fact: Fact, nodes: set<GraphNode>): Option<Projection> {
    var sources := SourceOf(nodes, fact.fromNode);
    var language := if sources == {} then None else Any(sources).language;
    match Meaning(RequestOf(fact, language), nodes)
    case Found(outcome) => Some(Publish(fact, outcome))
    case SourceMissing(_) => None
  }

  /** Every current fact has exactly the row that resolving it against every current node gives. */
  ghost predicate Synced(g: Graph) {
    && g.projection.Keys == Identities(g.facts)
    && forall f | f in g.facts :: Project(f, g.nodes) == Some(g.projection[f.Ident()])
  }

  // ---------- The update of one document ----------

  ghost function OwnNodes(g: Graph, document: string): set<GraphNode> {
    set n | n in g.nodes && n.documentId == Some(document)
  }

  ghost function NodesAfter(g: Graph, document: string, nodes: set<GraphNode>): set<GraphNode> {
    (g.nodes - OwnNodes(g, document)) + nodes
  }

  ghost function FactsAfter(g: Graph, document: string, facts: set<Fact>): set<Fact> {
    (set f | f in g.facts && f.documentId != document) + facts
  }

  ghost function Gone(g: Graph, document: string, nodes: set<GraphNode>): set<string> {
    Ids(OwnNodes(g, document)) - Ids(nodes)
  }

  /** The relationships whose rows are recomputed: those of the document itself, those whose own
      term changed, and those with an edge into a removed node. */
  ghost function Affected(g: Graph, document: string, nodes: set<GraphNode>, facts: set<Fact>): set<Identity> {
    var changed := ChangedTerms(OwnNodes(g, document), nodes);
    (set f | f in g.facts + FactsAfter(g, document, facts) && (f.documentId == document || FactTerm(f) in changed) ::
      f.Ident()) +
    (set i | i in g.projection && g.projection[i].Edge? && g.projection[i].toNode in Gone(g, document, nodes))
  }

  /** What deleting nodes does to a row: edges at them disappear, candidate lists lose them. */
  predicate Survives(row: Projection, gone: set<string>) {
    row.Edge? ==> row.fromNode !in gone && row.toNode !in gone
  }

  function Pruned(row: Projection, gone: set<string>): Projection {
    if row.Edge? then row else row.(candidates := row.candidates - gone)
  }

  function Cascade(projection: map<Identity, Projection>, gone: set<string>): map<Identity, Projection> {
    map i | i in projection && Survives(projection[i], gone) :: Pruned(projection[i], gone)
  }

  ghost function FactAt(facts: set<Fact>, i: Identity): (f: Fact)
    requires i in Identities(facts)
    ensures f in facts && f.Ident() == i
  {
    var f :| f in facts && f.Ident() == i; f
  }

  ghost function Reprojected(facts: set<Fact>, nodes: set<GraphNode>,
                             affected: set<Identity>): map<Identity, Projection>
    requires forall f | f in facts :: Project(f, nodes).Some?
  {
    map i | i in Identities(facts) && i in affected :: Project(FactAt(facts, i), nodes).value
  }

  ghost predicate Projectable(g: Graph, document: string, nodes: set<GraphNode>, facts: set<Fact>) {
    forall f | f in FactsAfter(g, document, facts) :: Project(f, NodesAfter(g, document, nodes)).Some?
  }

  /** The graph after one document is given new nodes and facts; deletion gives it none. */
  ghost function Updated(g: Graph, document: string, nodes: set<GraphNode>, facts: set<Fact>): Graph
    requires Projectable(g, document, nodes, facts)
  {
    var after, assertions := NodesAfter(g, document, nodes), FactsAfter(g, document, facts);
    var affected := Affected(g, document, nodes, facts);
    Graph(after, assertions,
          (Cascade(g.projection, Gone(g, document, nodes)) - affected) + Reprojected(assertions, after, affected))
  }

  ghost predicate KeepsIds(before: set<GraphNode>, after: set<GraphNode>) {
    forall o, n | o in before && n in after && o.key == n.key :: o.id == n.id
  }

  /** A stable key fixes the names of a node. */
  ghost predicate KeepsNames(before: set<GraphNode>, after: set<GraphNode>) {
    forall o, n | o in before && n in after && o.key == n.key ::
      o.name == n.name && o.qualifiedName == n.qualifiedName && o.logicalKey == n.logicalKey
  }

  /** What the indexer and the store together guarantee of a published update. */
  ghost predicate Publishable(g: Graph, document: string, nodes: set<GraphNode>, facts: set<Fact>) {
    && Unique(nodes)
    && (forall n | n in nodes :: n.documentId == Some(document))
    && UniqueIdentities(facts)
    && (forall f | f in facts :: f.documentId == document && Sourced(nodes, f))
    && KeepsIds(OwnNodes(g, document), nodes)
    && (forall o, n | o in g.nodes - OwnNodes(g, document) && n in nodes :: o.key != n.key)
    && (forall o, n | o in g.nodes && n in nodes && o.id == n.id :: o.key == n.key)
  }

  /** A published update whose nodes are well formed and keep the names of the keys they keep. */
  ghost predicate Acceptable(g: Graph, document: string, nodes: set<GraphNode>, facts: set<Fact>) {
    && Publishable(g, document, nodes, facts)
    && (forall n | n in nodes :: WellFormed(n))
    && KeepsNames(OwnNodes(g, document), nodes)
  }

  lemma SourceFound(nodes: set<GraphNode>, fact: Fact, source: GraphNode)
    requires UniqueIds(nodes) && SourceIs(nodes, fact, source)
    ensures SourceOf(nodes, fact.fromNode) == {source}
    ensures Project(fact, nodes)
      == Some(Publish(fact, OutcomeFrom(RequestOf(fact, source.language), Some(source), nodes)))
  {
    assert source in SourceOf(nodes, fact.fromNode);
  }

  /** A published update can always be projected and leaves the store coherent. */
  lemma UpdateCoherent(g: Graph, document: string, nodes: set<GraphNode>, facts: set<Fact>)
    requires Coherent(g) && Publishable(g, document, nodes, facts)
    ensures Unique(NodesAfter(g, document, nodes))
    ensures Projectable(g, document, nodes, facts)
    ensures Coherent(Updated(g, document, nodes, facts))
  {
    var after := NodesAfter(g, document, nodes);
    var assertions := FactsAfter(g, document, facts);
    assert Unique(after);
    forall f | f in assertions ensures Sourced(after, f) && Project(f, after).Some? {
      if f.documentId != document {
        var source :| SourceIs(g.nodes, f, source);
        assert SourceIs(after, f, source);
      } else {
        var source :| SourceIs(nodes, f, source);
        assert SourceIs(after, f, source);
      }
      var source :| SourceIs(after, f, source);
      SourceFound(after, f, source);
    }
    RowsHaveFacts(g, document, nodes, facts);
  }

  lemma RowsHaveFacts(g: Graph, document: string, nodes: set<GraphNode>, facts: set<Fact>)
    requires Coherent(g) && Projectable(g, document, nodes, facts)
    ensures Updated(g, document, nodes, facts).projection.Keys <= Identities(FactsAfter(g, document, facts))
  {
    var assertions := FactsAfter(g, document, facts);
    var rows := Updated(g, document, nodes, facts).projection;
    forall i | i in rows && i !in Affected(g, document, nodes, facts) ensures i in Identities(assertions) {
      assert i in Identities(g.facts);
      var f :| f in g.facts && f.Ident() == i;
      assert f in g.facts + assertions;
      assert f in assertions;
    }
  }

  /** An acceptable update keeps the graph valid. */
  lemma UpdateValid(g: Graph, document: string, nodes: set<GraphNode>, facts: set<Fact>)
    requires Valid(g) && Acceptable(g, document, nodes, facts)
    ensures Unique(NodesAfter(g, document, nodes))
    ensures Projectable(g, document, nodes, facts)
    ensures Valid(Updated(g, document, nodes, facts))
  {
    UpdateCoherent(g, document, nodes, facts);
  }
}
