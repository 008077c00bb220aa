/** The order in which documents are reconciled matters as soon as a fact finds nodes that do not bear its
    own term: the later document is missed by the search for affected facts. */
module GraphOrder {
  import opened Prelude
  import opened GraphDomain
  import opened GraphResolver
  import opened GraphRegistry
  import opened GraphIncremental
  import opened GraphExactness
  import opened GraphLookups
  import opened GraphIndexer
  import opened GraphReconciliation
  import opened GraphRuns
  import opened GraphHistory

  // ---------- Two documents, one after the other ----------

  /** Content whose nodes can be published on their own. */
  ghost predicate Standalone(event: Event) {
    && event.Upserted?
    && PlainDocument(event.content.document, event.content.symbols)
    && NodesOf(event.list, event.content)
    && Assertable(event.content.document, event.content.relationships, event.list)
    && Unique(NodeSet(event.list))
  }

  /** Different documents that share neither keys nor identifiers. */
  ghost predicate Separate(a: Event, b: Event) {
    && DocumentOf(a) != DocumentOf(b)
    && forall n, m | n in EventNodes(a) && m in EventNodes(b) :: n.key != m.key && n.id != m.id
  }

  lemma EventNodesOwned(event: Event)
    requires Standalone(event)
    ensures forall n | n in EventNodes(event) :: n.documentId == Some(DocumentOf(event))
  {
    ContentNodesOwned(event.content);
    forall i | 0 <= i < |event.list| ensures event.list[i].documentId == Some(DocumentOf(event)) {
      assert KeyedList(event.list)[i] == KeyedNode(event.list[i])
        && KeyedList(event.list)[i] in ContentNodes(event.content);
    }
  }

  /** The graph knows nothing of the event's document, its keys or its identifiers. */
  ghost predicate Beside(g: Graph, event: Event) {
    && (forall n | n in g.nodes :: n.documentId != Some(DocumentOf(event)))
    && (forall n, m | n in g.nodes && m in EventNodes(event) :: n.key != m.key && n.id != m.id)
    && (forall f | f in g.facts :: f.documentId != DocumentOf(event))
  }

  /** New nodes beside nodes of other documents can be published. */
  lemma StandaloneAcceptable(g: Graph, event: Event)
    requires Standalone(event) && Beside(g, event)
    ensures OwnNodes(g, DocumentOf(event)) == {}
    ensures Acceptable(g, DocumentOf(event), NodeSet(EventNodes(event)), FactSet(EventFacts(event)))
  {
    EventNodesOwned(event);
    EventNodesWellFormed(event);
    FactsPublishable(g, event.content.document, event.content.relationships, event.list);
    assert OwnNodes(g, DocumentOf(event)) == {};
  }

  /** The event leaves nodes and facts alone and adds its own. */
  ghost predicate Adds(g: Graph, event: Event, after: Graph) {
    after.nodes == g.nodes + NodeSet(EventNodes(event)) && after.facts == g.facts + FactSet(EventFacts(event))
  }

  lemma SomethingAdded(g: Graph, event: Event) returns (after: Graph)
    requires Valid(g) && Standalone(event) && Beside(g, event)
    ensures Happens(g, event, after) && Adds(g, event, after) && Valid(after)
  {
    var document, nodes, facts := DocumentOf(event), NodeSet(EventNodes(event)), FactSet(EventFacts(event));
    StandaloneAcceptable(g, event);
    UpdateValid(g, document, nodes, facts);
    after := Updated(g, document, nodes, facts);
    EventFactsOwned(event);
    assert g.nodes - {} == g.nodes;
    assert (set f | f in g.facts && f.documentId != document) == g.facts;
  }

  lemma EventFactsOwned(event: Event)
    ensures forall f | f in EventFacts(event) :: f.documentId == DocumentOf(event)
  {}

  /** The facts of the document that is reconciled always get the rows they deserve. */
  lemma OwnRowsAreRight(g: Graph, event: Event, after: Graph, fact: Fact)
    requires Valid(g) && Standalone(event) && Beside(g, event) && Happens(g, event, after) && fact in EventFacts(event)
    ensures RowIsRight(after, fact)
  {
    var document, nodes, facts := DocumentOf(event), NodeSet(EventNodes(event)), FactSet(EventFacts(event));
    StandaloneAcceptable(g, event);
    EventFactsOwned(event);
    UpdateValid(g, document, nodes, facts);
    assert fact in facts && fact in FactsAfter(g, document, facts) && fact.documentId == document;
    AffectedRowIsRight(g, document, nodes, facts, fact);
  }

  lemma RightRow(g: Graph, fact: Fact, source: GraphNode)
    requires UniqueIds(g.nodes) && SourceIs(g.nodes, fact, source) && fact.Ident() in g.projection
    ensures RowIsRight(g, fact) <==> g.projection[fact.Ident()] == Row(fact, source, g.nodes)
  {
    SourceFound(g.nodes, fact, source);
  }

  /** A new document leaves the row of a fact alone whose own term none of its nodes bears. */
  lemma NewDocumentMisses(g: Graph, event: Event, after: Graph, fact: Fact)
    requires Valid(g) && Standalone(event) && Beside(g, event) && Happens(g, event, after)
    requires fact in g.facts && fact.Ident() in g.projection && FactTerm(fact) !in AllTerms(NodeSet(EventNodes(event)))
    ensures fact.Ident() in after.projection
    ensures after.projection[fact.Ident()] == g.projection[fact.Ident()]
  {
    var document, nodes, facts := DocumentOf(event), NodeSet(EventNodes(event)), FactSet(EventFacts(event));
    assert OwnNodes(g, document) == {};
    NothingGone(g, document, nodes);
    OnlyItself(g, document, nodes, facts, fact);
    NothingPruned(g.projection[fact.Ident()]);
    UntouchedKept(g, document, nodes, facts, fact);
  }

  lemma NothingGone(g: Graph, document: string, nodes: set<GraphNode>)
    requires OwnNodes(g, document) == {}
    ensures Gone(g, document, nodes) == {}
    ensures ChangedTerms(OwnNodes(g, document), nodes) <= AllTerms(nodes)
  {
    assert AllTerms({}) == {};
  }

  lemma NothingPruned(row: Projection)
    ensures Survives(row, {}) && Pruned(row, {}) == row
  {
    assert row.Dangling? ==> row.candidates - {} == row.candidates;
  }

  lemma OnlyItself(g: Graph, document: string, nodes: set<GraphNode>, facts: set<Fact>, fact: Fact)
    requires Valid(g) && fact in g.facts && fact.documentId != document && Gone(g, document, nodes) == {}
    requires Publishable(g, document, nodes, facts)
    requires FactTerm(fact) !in ChangedTerms(OwnNodes(g, document), nodes)
    ensures fact.Ident() !in Affected(g, document, nodes, facts)
  {
    forall f | f in g.facts + FactsAfter(g, document, facts) && f.Ident() == fact.Ident() ensures f == fact {
      assert f.documentId == fact.documentId;
    }
  }

  // ---------- Either order ----------

  /** Two new documents and a graph that knows neither. */
  ghost predicate TwoNew(g: Graph, a: Event, b: Event) {
    Valid(g) && Standalone(a) && Standalone(b) && Separate(a, b) && Beside(g, a) && Beside(g, b)
  }

  /** From `g` on, the two events lead to `last` one after the other. */
  ghost predicate Leads(g: Graph, a: Event, b: Event, last: Graph) {
    exists alone :: Happens(g, a, alone) && Happens(alone, b, last)
  }

  /** The same contents, and of one fact the right row one way round and a wrong one the other way. */
  ghost predicate Disagree(g: Graph, a: Event, b: Event, fact: Fact, missed: Graph, found: Graph) {
    && Leads(g, a, b, missed) && Leads(g, b, a, found)
    && missed.nodes == found.nodes && missed.facts == found.facts && fact in found.facts
    && RowIsRight(found, fact) && !RowIsRight(missed, fact)
    && !SameByKey(missed, found)
  }

  ghost predicate OrderMatters(g: Graph, a: Event, b: Event) {
    exists fact, missed, found :: Disagree(g, a, b, fact, missed, found)
  }

  /** After any events, the contents do not depend on which of two documents comes last. */
  lemma SameContents(events: seq<Event>, a: Event, b: Event)
    requires a.Upserted? && b.Upserted? && DocumentOf(a) != DocumentOf(b)
    ensures ContentsAfter(events + [a, b]) == ContentsAfter(events + [b, a])
  {
    ContentsOfTwo(events, a, b);
    ContentsOfTwo(events, b, a);
  }

  lemma ContentsOfTwo(events: seq<Event>, a: Event, b: Event)
    ensures ContentsAfter(events + [a, b]) == Remembering(Remembering(ContentsAfter(events), a), b)
  {
    assert (events + [a, b])[..|events| + 1] == events + [a] && (events + [a])[..|events|] == events;
  }

  lemma StillBeside(g: Graph, first: Event, alone: Graph, second: Event)
    requires TwoNew(g, first, second) && Adds(g, first, alone)
    ensures Beside(alone, second)
  {
    EventNodesOwned(first);
    EventFactsOwned(first);
  }

  lemma OneThenTheOther(g: Graph, first: Event, second: Event) returns (alone: Graph, last: Graph)
    requires TwoNew(g, first, second)
    ensures Happens(g, first, alone) && Adds(g, first, alone) && Valid(alone) && Beside(alone, second)
    ensures Happens(alone, second, last) && Adds(alone, second, last) && Valid(last)
  {
    alone := SomethingAdded(g, first);
    StillBeside(g, first, alone, second);
    last := SomethingAdded(alone, second);
  }

  lemma Stepwise(g: Graph, a: Event, b: Event, alone: Graph, last: Graph)
    requires Happens(g, a, alone) && Happens(alone, b, last)
    ensures Leads(g, a, b, last)
  {}

  /** All nodes once both documents are there. */
  ghost function Both(g: Graph, a: Event, b: Event): set<GraphNode> {
    g.nodes + NodeSet(EventNodes(a)) + NodeSet(EventNodes(b))
  }

  /** Reconciled first, the fact keeps the row it had before the other document was there. */
  lemma FirstMisses(g: Graph, first: Event, second: Event, fact: Fact, source: GraphNode) returns (last: Graph)
    requires TwoNew(g, first, second) && fact in EventFacts(first) && SourceIs(NodeSet(EventNodes(first)), fact, source)
    requires FactTerm(fact) !in AllTerms(NodeSet(EventNodes(second)))
    ensures Leads(g, first, second, last) && Valid(last) && last.nodes == Both(g, first, second)
    ensures last.facts == g.facts + FactSet(EventFacts(first)) + FactSet(EventFacts(second))
    ensures fact.Ident() in last.projection
    ensures last.projection[fact.Ident()] == Row(fact, source, g.nodes + NodeSet(EventNodes(first)))
  {
    var alone;
    alone, last := OneThenTheOther(g, first, second);
    OwnRowsAreRight(g, first, alone, fact);
    RightRow(alone, fact, source);
    NewDocumentMisses(alone, second, last, fact);
    Stepwise(g, first, second, alone, last);
  }

  /** Reconciled second, it gets the row it deserves. */
  lemma SecondFinds(g: Graph, first: Event, second: Event, fact: Fact) returns (last: Graph)
    requires TwoNew(g, first, second) && fact in EventFacts(second)
    ensures Leads(g, first, second, last) && Valid(last) && last.nodes == Both(g, first, second)
    ensures last.facts == g.facts + FactSet(EventFacts(first)) + FactSet(EventFacts(second))
    ensures RowIsRight(last, fact)
  {
    var alone;
    alone, last := OneThenTheOther(g, first, second);
    OwnRowsAreRight(alone, second, last, fact);
    Stepwise(g, first, second, alone, last);
  }

  lemma EitherWayRound<T>(g: set<T>, a: set<T>, b: set<T>)
    ensures g + a + b == g + b + a
  {}

  /** Both orders end with the same nodes and facts. The second way round the row is right; the first way
      round it is so if and only if the other document makes no difference to it. */
  lemma BothOrders(g: Graph, first: Event, second: Event, fact: Fact, source: GraphNode)
    returns (missed: Graph, found: Graph)
    requires TwoNew(g, first, second) && fact in EventFacts(first) && SourceIs(NodeSet(EventNodes(first)), fact, source)
    requires FactTerm(fact) !in AllTerms(NodeSet(EventNodes(second)))
    ensures Leads(g, first, second, missed) && Leads(g, second, first, found)
    ensures Valid(found) && missed.nodes == found.nodes == Both(g, first, second)
    ensures missed.facts == found.facts && fact in found.facts
    ensures RowIsRight(found, fact) && fact.Ident() in missed.projection
    ensures missed.projection[fact.Ident()] == Row(fact, source, g.nodes + NodeSet(EventNodes(first)))
    ensures RowIsRight(missed, fact)
       <==> Row(fact, source, g.nodes + NodeSet(EventNodes(first))) == Row(fact, source, Both(g, first, second))
  {
    missed := FirstMisses(g, first, second, fact, source);
    found := SecondFinds(g, second, first, fact);
    EitherWayRound(g.nodes, NodeSet(EventNodes(first)), NodeSet(EventNodes(second)));
    EitherWayRound(g.facts, FactSet(EventFacts(first)), FactSet(EventFacts(second)));
    assert SourceIs(missed.nodes, fact, source);
    RightRow(missed, fact, source);
  }

  // ---------- Different rows are different by key ----------

  ghost predicate RowKnown(row: Projection, known: set<string>) {
    if row.Edge? then row.fromNode in known && row.toNode in known else row.candidates <= known
  }

  lemma RowIsKnown(fact: Fact, source: GraphNode, nodes: set<GraphNode>)
    requires Unique(nodes) && SourceIs(nodes, fact, source)
    ensures RowKnown(Row(fact, source, nodes), Ids(nodes))
  {
    OutcomeSound(RequestOf(fact, source.language), Some(source), nodes);
  }

  lemma KeysDecideIds(ids: set<string>, others: set<string>, nodes: set<GraphNode>)
    requires Unique(nodes) && ids <= Ids(nodes) && KeysOf(ids, nodes) == KeysOf(others, nodes)
    ensures ids <= others
  {
    forall i | i in ids ensures i in others {
      var n :| n in nodes && n.id == i;
      assert n.key in KeysOf(others, nodes);
      var m :| m in nodes && m.id in others && m.key == n.key;
    }
  }

  lemma KeyDecidesId(id: string, other: string, nodes: set<GraphNode>)
    requires Unique(nodes) && id in Ids(nodes) && other in Ids(nodes) && KeyOf(id, nodes) == KeyOf(other, nodes)
    ensures id == other
  {
    var n :| n in nodes && n.id == id;
    var m :| m in nodes && m.id == other;
    KeyOfNode(n, nodes);
    KeyOfNode(m, nodes);
  }

  lemma KeyedRowsDiffer(row: Projection, other: Projection, nodes: set<GraphNode>)
    requires Unique(nodes) && RowKnown(row, Ids(nodes)) && RowKnown(other, Ids(nodes)) && row != other
    ensures KeyedRow(row, nodes) != KeyedRow(other, nodes)
  {
    if KeyedRow(row, nodes) == KeyedRow(other, nodes) {
      if row.Edge? {
        KeyDecidesId(row.fromNode, other.fromNode, nodes);
        KeyDecidesId(row.toNode, other.toNode, nodes);
      } else {
        KeysDecideIds(row.candidates, other.candidates, nodes);
        KeysDecideIds(other.candidates, row.candidates, nodes);
      }
    }
  }

  lemma RowStaysKnown(row: Projection, known: set<string>, more: set<string>)
    requires RowKnown(row, known) && known <= more
    ensures RowKnown(row, more)
  {}

  lemma MoreIds(nodes: set<GraphNode>, all: set<GraphNode>)
    requires nodes <= all
    ensures Ids(nodes) <= Ids(all)
  {}

  /** Graphs that hold the same nodes and facts, but different rows of one fact. */
  lemma DifferentRows(missed: Graph, found: Graph, fact: Fact, source: GraphNode, before: set<GraphNode>)
    requires missed.nodes == found.nodes && Unique(found.nodes) && before <= found.nodes
    requires SourceIs(before, fact, source) && RowIsRight(found, fact) && fact.Ident() in missed.projection
    requires missed.projection[fact.Ident()] == Row(fact, source, before) != Row(fact, source, found.nodes)
    ensures !SameByKey(missed, found)
  {
    assert SourceIs(found.nodes, fact, source);
    RightRow(found, fact, source);
    RowIsKnown(fact, source, before);
    MoreIds(before, found.nodes);
    RowStaysKnown(Row(fact, source, before), Ids(before), Ids(found.nodes));
    RowIsKnown(fact, source, found.nodes);
    KeyedRowsDiffer(Row(fact, source, before), Row(fact, source, found.nodes), found.nodes);
  }

  /** Whenever nodes of another document change what a fact resolves to, without bearing the fact's own term,
      it matters which of the two documents is reconciled first. */
  lemma HiddenTargetMatters(g: Graph, first: Event, second: Event, fact: Fact, source: GraphNode)
    requires TwoNew(g, first, second) && fact in EventFacts(first) && SourceIs(NodeSet(EventNodes(first)), fact, source)
    requires FactTerm(fact) !in AllTerms(NodeSet(EventNodes(second)))
    requires Row(fact, source, g.nodes + NodeSet(EventNodes(first))) != Row(fact, source, Both(g, first, second))
    ensures OrderMatters(g, first, second)
  {
    var missed, found := BothOrders(g, first, second, fact, source);
    DifferentRows(missed, found, fact, source, g.nodes + NodeSet(EventNodes(first)));
    assert Disagree(g, first, second, fact, missed, found);
  }

  /** The order that finds everything leaves all rows right if nothing else asserts a fact. */
  lemma NothingElseIsRight(g: Graph, first: Event, second: Event, last: Graph)
    requires TwoNew(g, first, second) && Right(g) && g.facts == {} && EventFacts(first) == []
    requires Leads(g, first, second, last)
    ensures Right(last)
  {
    var alone :| Happens(g, first, alone) && Happens(alone, second, last);
    StandaloneAcceptable(g, first);
    NoticedUpdateExact(g, DocumentOf(first), NodeSet(EventNodes(first)), FactSet(EventFacts(first)));
    var added := SomethingAdded(g, first);
    assert alone == added;
    StillBeside(g, first, alone, second);
    StandaloneAcceptable(alone, second);
    assert alone.facts == {};
    NoticedUpdateExact(alone, DocumentOf(second), NodeSet(EventNodes(second)), FactSet(EventFacts(second)));
  }
}
