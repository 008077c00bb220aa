/** Graphs over whole runs of updates. */
module GraphRuns {
  import opened Prelude
  import opened Strings
  import opened GraphDomain
  import opened GraphResolver
  import opened GraphIncremental
  import opened GraphExactness
  import opened GraphLookups

  /** One published step: new nodes and facts for a document, or none when it is deleted. */
  datatype Update = Update(document: string, nodes: set<GraphNode>, facts: set<Fact>)

  ghost predicate Updates(g: Graph, update: Update, after: Graph) {
    && Acceptable(g, update.document, update.nodes, update.facts)
    && Projectable(g, update.document, update.nodes, update.facts)
    && after == Updated(g, update.document, update.nodes, update.facts)
  }

  /** A run: some graph, then one graph after each update. */
  ghost predicate Runs(graphs: seq<Graph>, updates: seq<Update>) {
    && |graphs| == |updates| + 1
    && forall i | 0 <= i < |updates| :: Updates(graphs[i], updates[i], graphs[i + 1])
  }

  ghost predicate Right(g: Graph) {
    Valid(g) && Synced(g)
  }

  lemma EmptyRight()
    ensures Right(EMPTY_GRAPH)
  {}

  /** Over any run in which every change of a lookup is noticed, the stored rows stay the fully resolved ones. */
  lemma {:induction false} RunStaysRight(graphs: seq<Graph>, updates: seq<Update>, i: nat)
    requires Runs(graphs, updates) && i < |graphs| && Right(graphs[0])
    requires forall k | 0 <= k < |updates| ::
      AllNoticed(graphs[k], updates[k].document, updates[k].nodes, updates[k].facts)
    ensures Right(graphs[i])
  {
    if i > 0 {
      RunStaysRight(graphs, updates, i - 1);
      var u := updates[i - 1];
      assert Updates(graphs[i - 1], u, graphs[i]);
      NoticedUpdateExact(graphs[i - 1], u.document, u.nodes, u.facts);
    }
  }

  // ---------- Conditions that mention no graph of the run ----------

  /** All nodes and facts that ever occur in the run. */
  ghost function RunNodes(first: Graph, updates: seq<Update>): set<GraphNode> {
    first.nodes + set u, n | u in updates && n in u.nodes :: n
  }

  ghost function RunFacts(first: Graph, updates: seq<Update>): set<Fact> {
    first.facts + set u, f | u in updates && f in u.facts :: f
  }

  ghost predicate AllOwnTermOnly(facts: set<Fact>, nodes: set<GraphNode>) {
    forall f, source | f in facts && source in nodes && source.id == f.fromNode :: OwnTermOnly(f, source, nodes)
  }

  lemma {:induction false} RunStaysWithin(graphs: seq<Graph>, updates: seq<Update>, i: nat)
    requires Runs(graphs, updates) && i < |graphs|
    ensures graphs[i].nodes <= RunNodes(graphs[0], updates) && graphs[i].facts <= RunFacts(graphs[0], updates)
  {
    if i > 0 {
      RunStaysWithin(graphs, updates, i - 1);
      var u := updates[i - 1];
      assert u in updates && Updates(graphs[i - 1], u, graphs[i]);
    }
  }

  /** Fewer nodes offer fewer candidates. */
  lemma OwnTermOnlyWithin(fact: Fact, source: GraphNode, part: set<GraphNode>, nodes: set<GraphNode>)
    requires part <= nodes && OwnTermOnly(fact, source, nodes)
    ensures OwnTermOnly(fact, source, part)
  {
    assert ContainerCandidates(Some(source), source.language, Trim(fact.target), part)
        <= ContainerCandidates(Some(source), source.language, Trim(fact.target), nodes);
  }

  lemma OwnTermStep(graphs: seq<Graph>, updates: seq<Update>, k: nat)
    requires Runs(graphs, updates) && k < |updates|
    requires AllOwnTermOnly(RunFacts(graphs[0], updates), RunNodes(graphs[0], updates))
    ensures AllNoticed(graphs[k], updates[k].document, updates[k].nodes, updates[k].facts)
  {
    var g, u, all := graphs[k], updates[k], RunNodes(graphs[0], updates);
    RunStaysWithin(graphs, updates, k);
    RunStaysWithin(graphs, updates, k + 1);
    assert Updates(g, u, graphs[k + 1]);
    forall f, source | f in Untouched(g, u.document, u.nodes, u.facts) && SourceIs(g.nodes, f, source)
      ensures Noticed(g, u.document, u.nodes, f, source)
    {
      OwnTermOnlyWithin(f, source, g.nodes, all);
      OwnTermOnlyWithin(f, source, NodesAfter(g, u.document, u.nodes), all);
    }
  }

  /** If no fact of the run looks up anything but its own term among all nodes of the run, every graph of
      the run holds the fully resolved rows. */
  lemma OwnTermRunStaysRight(graphs: seq<Graph>, updates: seq<Update>, i: nat)
    requires Runs(graphs, updates) && i < |graphs| && Right(graphs[0])
    requires AllOwnTermOnly(RunFacts(graphs[0], updates), RunNodes(graphs[0], updates))
    ensures Right(graphs[i])
  {
    forall k | 0 <= k < |updates|
      ensures AllNoticed(graphs[k], updates[k].document, updates[k].nodes, updates[k].facts)
    {
      OwnTermStep(graphs, updates, k);
    }
    RunStaysRight(graphs, updates, i);
  }
}
