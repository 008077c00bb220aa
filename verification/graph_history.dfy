/** The graph forgets how it was reached: equal contents give equal projections up to identifiers. */
module GraphHistory {
  import opened Prelude
  import opened Strings
  import opened GraphDomain
  import opened GraphResolver
  import opened GraphRegistry
  import opened GraphIncremental
  import opened GraphExactness
  import opened GraphLookups
  import opened GraphIndexer
  import opened GraphReconciliation
  import opened GraphRuns

  // ---------- Naming nodes by their keys instead of their identifiers ----------

  function KeyedNode(node: GraphNode): GraphNode {
    node.(id := node.key)
  }

  function KeyedFact(fact: Fact): Fact {
    fact.(fromNode := fact.fromKey)
  }

  ghost function KeyedNodes(nodes: set<GraphNode>): set<GraphNode> {
    set n | n in nodes :: KeyedNode(n)
  }

  ghost function KeyedFacts(facts: set<Fact>): set<Fact> {
    set f | f in facts :: KeyedFact(f)
  }

  /** The keys of the nodes with the given identifiers. */
  ghost function KeysOf(ids: set<string>, nodes: set<GraphNode>): set<string> {
    set n | n in nodes && n.id in ids :: n.key
  }

  ghost function KeyOf(id: string, nodes: set<GraphNode>): string {
    if KeysOf({id}, nodes) == {} then id else AnyId(KeysOf({id}, nodes))
  }

  ghost function KeyedRow(row: Projection, nodes: set<GraphNode>): Projection {
    if row.Edge? then row.(fromNode := KeyOf(row.fromNode, nodes), toNode := KeyOf(row.toNode, nodes))
    else row.(candidates := KeysOf(row.candidates, nodes))
  }

  lemma KeyOfNode(node: GraphNode, nodes: set<GraphNode>)
    requires UniqueIds(nodes) && node in nodes
    ensures KeyOf(node.id, nodes) == node.key
  {
    assert KeysOf({node.id}, nodes) == {node.key};
  }

  lemma KeysOfPart(part: set<GraphNode>, nodes: set<GraphNode>)
    requires UniqueIds(nodes) && part <= nodes
    ensures KeysOf(Ids(part), nodes) == Ids(KeyedNodes(part))
  {
    forall k ensures k in KeysOf(Ids(part), nodes) <==> k in Ids(KeyedNodes(part)) {
      if k in KeysOf(Ids(part), nodes) {
        var n :| n in nodes && n.id in Ids(part) && n.key == k;
        assert KeyedNode(n) in KeyedNodes(part);
      }
      if k in Ids(KeyedNodes(part)) {
        var m :| m in KeyedNodes(part) && m.id == k;
        var n :| n in part && KeyedNode(n) == m;
        assert n.id in Ids(part);
      }
    }
  }

  lemma KeyedCount(part: set<GraphNode>)
    requires Unique(part)
    ensures |Ids(KeyedNodes(part))| == |Ids(part)|
    ensures Unique(KeyedNodes(part))
  {
    IdsCount(part);
    IdsCount(KeyedNodes(part));
    SameCount(part);
  }

  lemma SameCount(part: set<GraphNode>)
    requires UniqueKeys(part)
    ensures |KeyedNodes(part)| == |part|
  {
    if part != {} {
      var n :| n in part;
      SameCount(part - {n});
      assert part == part - {n} + {n};
      KeyedUnion(part - {n}, {n});
      assert KeyedNodes({n}) == {KeyedNode(n)};
      assert KeyedNode(n) !in KeyedNodes(part - {n}) by {
        assert forall m | m in part - {n} :: KeyedNode(m).key != n.key;
      }
    }
  }

  /** The source of a fact, by identifier and by key. */
  ghost predicate KeyedSource(nodes: set<GraphNode>, fact: Fact, source: GraphNode) {
    SourceIs(nodes, fact, source) && source.key == fact.fromKey
  }

  lemma KeyedFinishRow(fact: Fact, source: GraphNode, part: set<GraphNode>, nodes: set<GraphNode>, basis: Basis)
    requires Unique(nodes) && part <= nodes && KeyedSource(nodes, fact, source)
    ensures KeyedRow(FinishRow(fact, Ids(part), basis), nodes)
      == FinishRow(KeyedFact(fact), Ids(KeyedNodes(part)), basis)
  {
    KeysOfPart(part, nodes);
    assert Unique(part);
    KeyedCount(part);
    KeyOfNode(source, nodes);
    if |Ids(part)| == 0 {
      assert Ids(part) == {} && Ids(KeyedNodes(part)) == {};
      assert KeysOf({}, nodes) == {};
    } else if |Ids(part)| == 1 {
      var i := AnyId(Ids(part));
      SingletonId(Ids(part), i);
      var n :| n in part && n.id == i;
      KeyOfNode(n, nodes);
      assert KeyedNode(n) in KeyedNodes(part) && n.key in Ids(KeyedNodes(part));
      SingletonId(Ids(KeyedNodes(part)), n.key);
    }
  }

  // ---------- Selecting nodes commutes with naming them by key ----------

  lemma KeyedSelections(nodes: set<GraphNode>, language: Option<string>, document: Option<string>, text: string,
                        names: seq<string>)
    ensures Keyed(KeyedNodes(nodes), text, language) == KeyedNodes(Keyed(nodes, text, language))
    ensures Logical(KeyedNodes(nodes), text, language) == KeyedNodes(Logical(nodes, text, language))
    ensures Named(KeyedNodes(nodes), text, language) == KeyedNodes(Named(nodes, text, language))
    ensures Local(KeyedNodes(nodes), document) == KeyedNodes(Local(nodes, document))
    ensures Qualified(KeyedNodes(nodes), names, language) == KeyedNodes(Qualified(nodes, names, language))
    ensures KeyedNodes(nodes) == {} <==> nodes == {}
  {
    assert nodes != {} ==> KeyedNode(Any(nodes)) in KeyedNodes(nodes);
  }

  lemma KeyedModules(fact: Fact, language: Option<string>, nodes: set<GraphNode>)
    ensures ModulePool(KeyedFact(fact), language, KeyedNodes(nodes)) == KeyedNodes(ModulePool(fact, language, nodes))
  {
    var target := Trim(fact.target);
    var found := ModuleCandidates(language, fact.aliases, target, nodes);
    assert ModuleCandidates(language, fact.aliases, target, KeyedNodes(nodes)) == KeyedNodes(found);
    assert NamedModules(language, target, KeyedNodes(nodes)) == KeyedNodes(NamedModules(language, target, nodes));
    KeyedSelections(found, language, None, target, []);
  }

  /** The nodes that decide the row of a local-key or symbol target, and by which rule. */
  ghost function Pool(fact: Fact, source: GraphNode, nodes: set<GraphNode>): (set<GraphNode>, Basis) {
    var target, language, document := Trim(fact.target), source.language, Some(fact.documentId);
    if fact.kind == LocalStableKey then
      var direct := Keyed(nodes, target, language);
      var symbol := Keyed(nodes, SymbolStableKey(source.analyzerId, target), language);
      var logical := Logical(nodes, target, language);
      (if direct != {} then direct else if symbol != {} then symbol
       else if Local(logical, document) != {} then Local(logical, document) else logical, ByLocalKey)
    else
      var (chosen, basis) := Chosen(fact, source, nodes);
      var exact, named := Qualified(nodes, [target], language), Named(nodes, target, language);
      if chosen != {} then (chosen, basis)
      else if exact != {} then (exact, ByQualifiedName)
      else if SimpleName(target) && Local(named, document) != {} then (Local(named, document), ByDocument)
      else if SimpleName(target) then (named, ByWorkspaceName)
      else ({}, ByWorkspaceName)
  }

  lemma SingleByKey(nodes: set<GraphNode>, key: string, language: Option<string>)
    requires UniqueKeys(nodes) && Keyed(nodes, key, language) != {}
    ensures |Keyed(nodes, key, language)| == 1
  {
    var n := Any(Keyed(nodes, key, language));
    assert Keyed(nodes, key, language) == {n};
  }

  lemma LocalPoolRow(fact: Fact, source: GraphNode, nodes: set<GraphNode>)
    requires Unique(nodes) && Trim(fact.target) != "" && fact.kind == LocalStableKey
    ensures var (pool, basis) := Pool(fact, source, nodes);
      pool <= nodes && Row(fact, source, nodes) == FinishRow(fact, Ids(pool), basis)
  {
    var (pool, basis) := Pool(fact, source, nodes);
    var target, language := Trim(fact.target), source.language;
    assert UniqueIds(pool);
    PublishFinish(fact, pool, basis, target);
    if Keyed(nodes, target, language) != {} {
      SingleByKey(nodes, target, language);
    } else if Keyed(nodes, SymbolStableKey(source.analyzerId, target), language) != {} {
      SingleByKey(nodes, SymbolStableKey(source.analyzerId, target), language);
    }
  }

  lemma QualifiedPoolRow(fact: Fact, source: GraphNode, nodes: set<GraphNode>)
    requires Unique(nodes) && Trim(fact.target) != "" && fact.kind == QualifiedSymbol
    ensures var (pool, basis) := Pool(fact, source, nodes);
      pool <= nodes && Row(fact, source, nodes) == FinishRow(fact, Ids(pool), basis)
  {
    var (pool, basis) := Pool(fact, source, nodes);
    ChosenRow(fact, source, nodes);
    assert pool <= nodes;
    assert UniqueIds(pool);
    PublishFinish(fact, pool, basis, Trim(fact.target));
  }

  lemma KeyedChosen(fact: Fact, source: GraphNode, nodes: set<GraphNode>)
    ensures var (chosen, basis) := Chosen(fact, source, nodes);
      Chosen(KeyedFact(fact), KeyedNode(source), KeyedNodes(nodes)) == (KeyedNodes(chosen), basis)
  {
    var target, language := Trim(fact.target), source.language;
    var expanded := Expansions(target, fact.aliases);
    KeyedSelections(nodes, language, None, target, expanded);
    KeyedSelections(Qualified(nodes, expanded, language), language, None, target, []);
    if source.qualifiedName.Some? {
      var sibling := SiblingName(source.qualifiedName.value, target);
      if sibling.Some? {
        KeyedSelections(nodes, language, None, target, [sibling.value]);
        KeyedSelections(Qualified(nodes, [sibling.value], language), language, None, target, []);
      }
    }
    assert KeyedNodes({}) == {};
  }

  lemma KeyedPool(fact: Fact, source: GraphNode, nodes: set<GraphNode>)
    ensures var (pool, basis) := Pool(fact, source, nodes);
      Pool(KeyedFact(fact), KeyedNode(source), KeyedNodes(nodes)) == (KeyedNodes(pool), basis)
  {
    var target, language, document := Trim(fact.target), source.language, Some(fact.documentId);
    if fact.kind == LocalStableKey {
      var symbolKey := SymbolStableKey(source.analyzerId, target);
      KeyedSelections(nodes, language, document, target, []);
      KeyedSelections(nodes, language, document, symbolKey, []);
      KeyedSelections(Keyed(nodes, target, language), language, document, target, []);
      KeyedSelections(Keyed(nodes, symbolKey, language), language, document, target, []);
      KeyedSelections(Logical(nodes, target, language), language, document, target, []);
      KeyedSelections(Local(Logical(nodes, target, language), document), language, document, target, []);
    } else {
      KeyedChosen(fact, source, nodes);
      var (chosen, basis) := Chosen(fact, source, nodes);
      KeyedSelections(chosen, language, document, target, []);
      KeyedSelections(nodes, language, document, target, [target]);
      KeyedSelections(Qualified(nodes, [target], language), language, document, target, []);
      KeyedSelections(Named(nodes, target, language), language, document, target, []);
      KeyedSelections(Local(Named(nodes, target, language), document), language, document, target, []);
      assert KeyedNodes({}) == {};
    }
  }

  /** Resolving the graph in which nodes are named by key gives the rows named by key. */
  lemma KeyedRowIs(fact: Fact, source: GraphNode, nodes: set<GraphNode>)
    requires Unique(nodes) && KeyedSource(nodes, fact, source)
    ensures KeyedRow(Row(fact, source, nodes), nodes) == Row(KeyedFact(fact), KeyedNode(source), KeyedNodes(nodes))
  {
    var target := Trim(fact.target);
    KeyedCount(nodes);
    assert KeysOf({}, nodes) == {};
    if target == "" || fact.kind !in {LocalStableKey, QualifiedSymbol, ModulePath} {
    } else if fact.kind == ModulePath {
      KeyedModuleRow(fact, source, nodes);
    } else {
      KeyedPool(fact, source, nodes);
      var (pool, basis) := Pool(fact, source, nodes);
      if fact.kind == LocalStableKey {
        LocalPoolRow(fact, source, nodes);
        LocalPoolRow(KeyedFact(fact), KeyedNode(source), KeyedNodes(nodes));
      } else {
        QualifiedPoolRow(fact, source, nodes);
        QualifiedPoolRow(KeyedFact(fact), KeyedNode(source), KeyedNodes(nodes));
      }
      KeyedFinishRow(fact, source, pool, nodes, basis);
    }
  }

  lemma KeyedModuleRow(fact: Fact, source: GraphNode, nodes: set<GraphNode>)
    requires Unique(nodes) && KeyedSource(nodes, fact, source)
    requires fact.kind == ModulePath && Trim(fact.target) != ""
    ensures KeyedRow(Row(fact, source, nodes), nodes) == Row(KeyedFact(fact), KeyedNode(source), KeyedNodes(nodes))
  {
    KeyedCount(nodes);
    KeyedModules(fact, source.language, nodes);
    ModuleRowIs(fact, source, nodes);
    ModuleRowIs(KeyedFact(fact), KeyedNode(source), KeyedNodes(nodes));
    var pool, used := ModulePool(fact, source.language, nodes), UsesAlias(Trim(fact.target), fact.aliases);
    KeyedFinishRow(fact, source, pool, nodes, if used then ByAlias else ByModule);
    KeysOfPart(pool, nodes);
    KeyedSelections(pool, None, None, "", []);
    assert KeysOf({}, nodes) == {};
    if pool != {} { IdsNonempty(KeyedNodes(pool)); }
  }

  // ---------- What a document contributes ----------

  /** Everything the analyzer says about one document. */
  datatype Content = Content(document: Document, symbols: seq<Symbol>, relationships: seq<Relationship>)

  function KeyedList(nodes: seq<GraphNode>): (r: seq<GraphNode>)
    ensures |r| == |nodes|
  {
    seq(|nodes|, i requires 0 <= i < |nodes| => KeyedNode(nodes[i]))
  }

  /** The content's nodes, named by key. */
  function ContentNodes(content: Content): seq<GraphNode> {
    KeyedList(DocumentNodes(content.document, content.symbols, seq(|content.symbols| + 1, _ => "")))
  }

  ghost function ContentFacts(content: Content): seq<Fact> {
    if Assertable(content.document, content.relationships, ContentNodes(content))
    then Facts(content.document, content.relationships, ContentNodes(content))
    else []
  }

  /** The list is the content's nodes under some identifiers. */
  predicate NodesOf(list: seq<GraphNode>, content: Content) {
    KeyedList(list) == ContentNodes(content)
  }

  lemma NewNodesOfContent(content: Content, ids: seq<string>, stored: seq<GraphNode>)
    requires |ids| == |content.symbols| + 1
    ensures NodesOf(NewNodes(content.document, content.symbols, ids, stored), content)
  {
    var list, named := NewNodes(content.document, content.symbols, ids, stored), ContentNodes(content);
    var blank := seq(|content.symbols| + 1, _ => "");
    forall i | 0 <= i < |list| ensures KeyedList(list)[i] == named[i] {
      IdsDoNotMatter(content, ids, blank, i);
    }
  }

  lemma IdsDoNotMatter(content: Content, ids: seq<string>, others: seq<string>, i: nat)
    requires |ids| == |others| == |content.symbols| + 1 && i < |ids|
    ensures KeyedNode(DocumentNodes(content.document, content.symbols, ids)[i])
         == KeyedNode(DocumentNodes(content.document, content.symbols, others)[i])
  {}

  lemma SourceNodeByKey(nodes: seq<GraphNode>, analyzerId: string, fromKey: string)
    ensures var source, keyed := SourceNode(nodes, analyzerId, fromKey),
        SourceNode(KeyedList(nodes), analyzerId, fromKey);
      if source.Some? then keyed == Some(KeyedNode(source.value)) else keyed.None?
  {
    FindByKey(nodes, (n: GraphNode) => n.key == fromKey);
    FindByKey(nodes, (n: GraphNode) => n.key == SymbolStableKey(analyzerId, fromKey));
    FindByKey(nodes, (n: GraphNode) => n.logicalKey == Some(fromKey));
  }

  lemma {:induction false} FindByKey(nodes: seq<GraphNode>, test: GraphNode -> bool)
    requires forall n: GraphNode :: test(n) == test(KeyedNode(n))
    ensures var found, keyed := Find(nodes, test), Find(KeyedList(nodes), test);
      if found.Some? then keyed == Some(KeyedNode(found.value)) else keyed.None?
  {
    if nodes != [] {
      assert KeyedList(nodes)[0] == KeyedNode(nodes[0]);
      assert KeyedList(nodes)[1..] == KeyedList(nodes[1..]);
      FindByKey(nodes[1..], test);
    }
  }

  /** Facts asserted over renamed nodes are the renamed facts. */
  lemma FactsByKey(document: Document, relationships: seq<Relationship>, nodes: seq<GraphNode>)
    requires Assertable(document, relationships, nodes)
    ensures Assertable(document, relationships, KeyedList(nodes))
    ensures var facts, keyed := Facts(document, relationships, nodes), Facts(document, relationships, KeyedList(nodes));
      forall i | 0 <= i < |relationships| :: keyed[i] == KeyedFact(facts[i])
  {
    forall r | r in relationships ensures SourceNode(KeyedList(nodes), document.analyzerId, r.fromKey).Some? {
      SourceNodeByKey(nodes, document.analyzerId, r.fromKey);
    }
    var facts, keyed := Facts(document, relationships, nodes), Facts(document, relationships, KeyedList(nodes));
    forall i | 0 <= i < |relationships| ensures keyed[i] == KeyedFact(facts[i]) {
      SourceNodeByKey(nodes, document.analyzerId, relationships[i].fromKey);
    }
  }

  // ---------- Contents of a graph ----------

  type Contents = map<string, Content>

  ghost function AllContentNodes(contents: Contents): set<GraphNode> {
    set d, n | d in contents && n in ContentNodes(contents[d]) :: n
  }

  ghost function AllContentFacts(contents: Contents): set<Fact> {
    set d, f | d in contents && f in ContentFacts(contents[d]) :: f
  }

  /** Up to identifiers, the graph holds exactly the nodes and facts of these contents. */
  ghost predicate Holding(g: Graph, contents: Contents) {
    && (forall d | d in contents :: contents[d].document.id == d)
    && KeyedNodes(g.nodes) == AllContentNodes(contents)
    && KeyedFacts(g.facts) == AllContentFacts(contents)
    && (forall f | f in g.facts :: exists source :: KeyedSource(g.nodes, f, source))
  }

  /** What happens to a graph: a document gets content, under whatever identifiers, or is deleted. */
  datatype Event = Upserted(content: Content, list: seq<GraphNode>) | Deleted(document: string)

  function DocumentOf(event: Event): string {
    match event case Upserted(content, _) => content.document.id case Deleted(document) => document
  }

  function EventNodes(event: Event): seq<GraphNode> {
    match event case Upserted(_, list) => list case Deleted(_) => []
  }

  ghost function EventFacts(event: Event): seq<Fact> {
    match event
    case Upserted(content, list) =>
      if Assertable(content.document, content.relationships, list) then
        Facts(content.document, content.relationships, list) else []
    case Deleted(_) => []
  }

  /** The event is what a successful reconciliation or deletion publishes. */
  ghost predicate Happens(g: Graph, event: Event, after: Graph) {
    var document, nodes, facts := DocumentOf(event), NodeSet(EventNodes(event)), FactSet(EventFacts(event));
    && (event.Upserted? ==>
      NodesOf(event.list, event.content) && Assertable(event.content.document, event.content.relationships, event.list))
    && Publishable(g, document, nodes, facts)
    && Projectable(g, document, nodes, facts)
    && after == Updated(g, document, nodes, facts)
  }

  /** A successful reconciliation is such an event. */
  lemma ReconciliationHappens(g: Graph, content: Content, ids: seq<string>, stored: seq<GraphNode>)
    requires Coherent(g) && g.nodes == NodeSet(stored)
    requires |ids| == |content.symbols| + 1 && Fresh(ids, stored)
    requires NoKeyConflict(content.document, content.symbols, ids, stored)
    requires Assertable(content.document, content.relationships,
                        NewNodes(content.document, content.symbols, ids, stored))
    ensures var list := NewNodes(content.document, content.symbols, ids, stored);
      var nodes, facts := NodeSet(list), FactSet(Facts(content.document, content.relationships, list));
      && Projectable(g, content.document.id, nodes, facts)
      && Happens(g, Upserted(content, list), Updated(g, content.document.id, nodes, facts))
  {
    var list := NewNodes(content.document, content.symbols, ids, stored);
    var nodes, facts := NodeSet(list), FactSet(Facts(content.document, content.relationships, list));
    NewNodesOfContent(content, ids, stored);
    ReconciliationPublishable(g, content.document, content.symbols, content.relationships, ids, stored);
    UpdateCoherent(g, content.document.id, nodes, facts);
  }

  function Remembering(contents: Contents, event: Event): Contents {
    match event
    case Upserted(content, _) => contents[content.document.id := content]
    case Deleted(document) => contents - {document}
  }

  /** A history: the empty graph, then one graph after each event. */
  ghost predicate History(events: seq<Event>, graphs: seq<Graph>) {
    && |graphs| == |events| + 1
    && graphs[0] == EMPTY_GRAPH
    && forall i | 0 <= i < |events| :: Happens(graphs[i], events[i], graphs[i + 1])
  }

  function ContentsAfter(events: seq<Event>): Contents {
    if events == [] then map[] else Remembering(ContentsAfter(events[..|events| - 1]), events[|events| - 1])
  }

  lemma ContentNodesOwned(content: Content)
    ensures forall n | n in ContentNodes(content) :: n.documentId == Some(content.document.id)
    ensures forall f | f in ContentFacts(content) :: f.documentId == content.document.id
  {}

  lemma KeyedListSet(list: seq<GraphNode>)
    ensures KeyedNodes(NodeSet(list)) == NodeSet(KeyedList(list))
  {
    forall i | 0 <= i < |list| ensures KeyedNode(list[i]) in KeyedList(list) && list[i] in NodeSet(list) {
      assert KeyedList(list)[i] == KeyedNode(list[i]);
    }
  }

  lemma EventNodesKeyed(event: Event)
    requires event.Upserted? ==> NodesOf(event.list, event.content)
    ensures KeyedNodes(NodeSet(EventNodes(event)))
         == if event.Upserted? then NodeSet(ContentNodes(event.content)) else {}
  {
    KeyedListSet(EventNodes(event));
  }

  lemma FactsKeyed(document: Document, relationships: seq<Relationship>, list: seq<GraphNode>)
    requires Assertable(document, relationships, list) && Assertable(document, relationships, KeyedList(list))
    ensures var facts, keyed := Facts(document, relationships, list), Facts(document, relationships, KeyedList(list));
      KeyedFacts(FactSet(facts)) == FactSet(keyed)
  {
    FactsByKey(document, relationships, list);
    var facts, keyed := Facts(document, relationships, list), Facts(document, relationships, KeyedList(list));
    forall i | 0 <= i < |facts| ensures facts[i] in FactSet(facts) && keyed[i] == KeyedFact(facts[i]) {}
  }

  lemma FactsKnowTheirSource(document: Document, relationships: seq<Relationship>, list: seq<GraphNode>)
    requires Assertable(document, relationships, list)
    ensures forall f | f in Facts(document, relationships, list) ::
      exists source :: source in list && source.id == f.fromNode && source.key == f.fromKey
  {
    var facts := Facts(document, relationships, list);
    forall i | 0 <= i < |facts|
      ensures exists source :: source in list && source.id == facts[i].fromNode && source.key == facts[i].fromKey
    {
      var source := SourceNode(list, document.analyzerId, relationships[i].fromKey).value;
      assert facts[i] == FactOf(document, relationships[i], source);
    }
  }

  lemma EventFactsKeyed(event: Event)
    requires event.Upserted? ==>
      NodesOf(event.list, event.content) && Assertable(event.content.document, event.content.relationships, event.list)
    ensures KeyedFacts(FactSet(EventFacts(event)))
         == if event.Upserted? then FactSet(ContentFacts(event.content)) else {}
    ensures forall f | f in EventFacts(event) ::
      exists source :: source in EventNodes(event) && source.id == f.fromNode && source.key == f.fromKey
  {
    if event.Upserted? {
      FactsByKey(event.content.document, event.content.relationships, event.list);
      FactsKeyed(event.content.document, event.content.relationships, event.list);
      FactsKnowTheirSource(event.content.document, event.content.relationships, event.list);
    }
  }

  lemma OtherNodesKeyed(g: Graph, contents: Contents, document: string)
    requires Holding(g, contents)
    ensures KeyedNodes(g.nodes - OwnNodes(g, document)) == AllContentNodes(contents - {document})
  {
    var others := AllContentNodes(contents - {document});
    forall m ensures m in KeyedNodes(g.nodes - OwnNodes(g, document)) <==> m in others {
      if m in KeyedNodes(g.nodes - OwnNodes(g, document)) {
        assert m in AllContentNodes(contents);
        var d :| d in contents && m in ContentNodes(contents[d]);
        ContentNodesOwned(contents[d]);
        assert d in contents - {document};
      }
      if m in others {
        var d :| d in contents - {document} && m in ContentNodes(contents[d]);
        ContentNodesOwned(contents[d]);
        assert m in KeyedNodes(g.nodes);
        var n :| n in g.nodes && KeyedNode(n) == m;
        assert n in g.nodes - OwnNodes(g, document);
      }
    }
  }

  lemma OtherFactsKeyed(g: Graph, contents: Contents, document: string)
    requires Holding(g, contents)
    ensures KeyedFacts(FactsAfter(g, document, {})) == AllContentFacts(contents - {document})
  {
    var others := AllContentFacts(contents - {document});
    forall m ensures m in KeyedFacts(FactsAfter(g, document, {})) <==> m in others {
      if m in KeyedFacts(FactsAfter(g, document, {})) {
        assert m in AllContentFacts(contents);
        var d :| d in contents && m in ContentFacts(contents[d]);
        ContentNodesOwned(contents[d]);
        assert d in contents - {document};
      }
      if m in others {
        var d :| d in contents - {document} && m in ContentFacts(contents[d]);
        ContentNodesOwned(contents[d]);
        assert m in KeyedFacts(g.facts);
        var f :| f in g.facts && KeyedFact(f) == m;
        assert f in FactsAfter(g, document, {});
      }
    }
  }

  lemma ContentsGain(contents: Contents, event: Event)
    requires event.Upserted?
    ensures var rest, all := contents - {event.content.document.id}, Remembering(contents, event);
      && AllContentNodes(all) == AllContentNodes(rest) + NodeSet(ContentNodes(event.content))
      && AllContentFacts(all) == AllContentFacts(rest) + FactSet(ContentFacts(event.content))
  {
    var rest, all := contents - {event.content.document.id}, Remembering(contents, event);
    assert all == rest[event.content.document.id := event.content];
    assert forall d | d in rest :: d in all && all[d] == rest[d];
    forall n | n in NodeSet(ContentNodes(event.content)) ensures n in AllContentNodes(all) {
      assert event.content.document.id in all;
    }
    forall f | f in FactSet(ContentFacts(event.content)) ensures f in AllContentFacts(all) {
      assert event.content.document.id in all;
    }
  }

  lemma KeyedUnion(a: set<GraphNode>, b: set<GraphNode>)
    ensures KeyedNodes(a + b) == KeyedNodes(a) + KeyedNodes(b)
  {}

  lemma KeyedFactUnion(a: set<Fact>, b: set<Fact>)
    ensures KeyedFacts(a + b) == KeyedFacts(a) + KeyedFacts(b)
  {}

  lemma EventNodesHold(g: Graph, contents: Contents, event: Event, after: Graph)
    requires Holding(g, contents) && Happens(g, event, after)
    ensures KeyedNodes(after.nodes) == AllContentNodes(Remembering(contents, event))
  {
    var document := DocumentOf(event);
    OtherNodesKeyed(g, contents, document);
    EventNodesKeyed(event);
    KeyedUnion(g.nodes - OwnNodes(g, document), NodeSet(EventNodes(event)));
    if event.Upserted? { ContentsGain(contents, event); }
  }

  lemma EventFactsHold(g: Graph, contents: Contents, event: Event, after: Graph)
    requires Holding(g, contents) && Happens(g, event, after)
    ensures KeyedFacts(after.facts) == AllContentFacts(Remembering(contents, event))
  {
    var document, facts := DocumentOf(event), FactSet(EventFacts(event));
    OtherFactsKeyed(g, contents, document);
    EventFactsKeyed(event);
    assert FactsAfter(g, document, facts) == FactsAfter(g, document, {}) + facts;
    KeyedFactUnion(FactsAfter(g, document, {}), facts);
    if event.Upserted? { ContentsGain(contents, event); }
  }

  /** Each event leaves a graph that holds the contents it should. */
  lemma EventHolds(g: Graph, contents: Contents, event: Event, after: Graph)
    requires Coherent(g) && Holding(g, contents) && Happens(g, event, after)
    ensures Coherent(after) && Holding(after, Remembering(contents, event))
  {
    UpdateCoherent(g, DocumentOf(event), NodeSet(EventNodes(event)), FactSet(EventFacts(event)));
    EventNodesHold(g, contents, event, after);
    EventFactsHold(g, contents, event, after);
    SourcesStayKeyed(g, contents, event, after);
  }

  lemma SourcesStayKeyed(g: Graph, contents: Contents, event: Event, after: Graph)
    requires Coherent(g) && Holding(g, contents) && Happens(g, event, after)
    ensures forall f | f in after.facts :: exists source :: KeyedSource(after.nodes, f, source)
  {
    var document := DocumentOf(event);
    EventFactsKeyed(event);
    forall f | f in after.facts ensures exists source :: KeyedSource(after.nodes, f, source) {
      if f in EventFacts(event) {
        var source :| source in EventNodes(event) && source.id == f.fromNode && source.key == f.fromKey;
        assert source in NodeSet(EventNodes(event));
        assert KeyedSource(after.nodes, f, source);
      } else {
        var source :| KeyedSource(g.nodes, f, source);
        assert KeyedSource(after.nodes, f, source);
      }
    }
  }

  lemma {:induction false} HistoryHolds(events: seq<Event>, graphs: seq<Graph>)
    requires History(events, graphs)
    ensures Coherent(graphs[|events|]) && Holding(graphs[|events|], ContentsAfter(events))
  {
    if events == [] {
      assert AllContentNodes(map[]) == {} && AllContentFacts(map[]) == {};
    } else {
      var earlier := events[..|events| - 1];
      HistoryHolds(earlier, graphs[..|events|]);
      EventHolds(graphs[|earlier|], ContentsAfter(earlier), events[|earlier|], graphs[|events|]);
    }
  }

  /** A fully resolved row, named by key, is what resolving the graph named by key gives. */
  lemma KeyedProjection(g: Graph, fact: Fact)
    requires Coherent(g) && Synced(g) && fact in g.facts
    requires exists source :: KeyedSource(g.nodes, fact, source)
    ensures fact.Ident() in g.projection
    ensures Project(KeyedFact(fact), KeyedNodes(g.nodes)) == Some(KeyedRow(g.projection[fact.Ident()], g.nodes))
  {
    assert fact.Ident() in Identities(g.facts);
    var source :| KeyedSource(g.nodes, fact, source);
    SourceFound(g.nodes, fact, source);
    KeyedCount(g.nodes);
    assert KeyedNode(source) in KeyedNodes(g.nodes);
    assert SourceIs(KeyedNodes(g.nodes), KeyedFact(fact), KeyedNode(source));
    SourceFound(KeyedNodes(g.nodes), KeyedFact(fact), KeyedNode(source));
    KeyedRowIs(fact, source, g.nodes);
  }

  // ---------- Histories in which every change is noticed ----------

  /** The document is plain and keeps the names of its keys. */
  ghost predicate Orderly(g: Graph, event: Event) {
    && (event.Upserted? ==> PlainDocument(event.content.document, event.content.symbols))
    && KeepsNames(OwnNodes(g, DocumentOf(event)), NodeSet(EventNodes(event)))
  }

  ghost predicate OrderlyHistory(events: seq<Event>, graphs: seq<Graph>) {
    History(events, graphs) && forall i | 0 <= i < |events| :: Orderly(graphs[i], events[i])
  }

  /** On top of that the search notices every change of a lookup. */
  ghost predicate SteadyHistory(events: seq<Event>, graphs: seq<Graph>) {
    && OrderlyHistory(events, graphs)
    && forall i | 0 <= i < |events| ::
         AllNoticed(graphs[i], DocumentOf(events[i]), NodeSet(EventNodes(events[i])), FactSet(EventFacts(events[i])))
  }

  ghost function UpdateOf(event: Event): Update {
    Update(DocumentOf(event), NodeSet(EventNodes(event)), FactSet(EventFacts(event)))
  }

  lemma EventNodesWellFormed(event: Event)
    requires event.Upserted? ==>
      NodesOf(event.list, event.content) && PlainDocument(event.content.document, event.content.symbols)
    ensures forall n | n in EventNodes(event) :: WellFormed(n)
  {
    if event.Upserted? {
      var document, symbols, list := event.content.document, event.content.symbols, event.list;
      var built := DocumentNodes(document, symbols, seq(|symbols| + 1, _ => ""));
      RegisteredNodesWellFormed(document, symbols, seq(|symbols| + 1, _ => ""));
      forall i | 0 <= i < |list| ensures WellFormed(list[i]) {
        assert KeyedList(list)[i] == KeyedList(built)[i];
        assert built[i] in built;
      }
    }
  }

  lemma OrderlyEventUpdates(g: Graph, event: Event, after: Graph)
    requires Happens(g, event, after) && Orderly(g, event)
    ensures Updates(g, UpdateOf(event), after)
  {
    EventNodesWellFormed(event);
  }

  ghost function UpdatesOf(events: seq<Event>): (r: seq<Update>)
    ensures |r| == |events| && forall i | 0 <= i < |r| :: r[i] == UpdateOf(events[i])
  {
    seq(|events|, i requires 0 <= i < |events| => UpdateOf(events[i]))
  }

  lemma OrderlyHistoryRuns(events: seq<Event>, graphs: seq<Graph>)
    requires OrderlyHistory(events, graphs)
    ensures Runs(graphs, UpdatesOf(events))
  {
    var updates := UpdatesOf(events);
    forall k | 0 <= k < |updates| ensures Updates(graphs[k], updates[k], graphs[k + 1]) {
      OrderlyEventUpdates(graphs[k], events[k], graphs[k + 1]);
    }
  }

  /** Along a history that starts empty and in which every change is noticed, all rows are fully resolved. */
  lemma HistoryStaysRight(events: seq<Event>, graphs: seq<Graph>, i: nat)
    requires SteadyHistory(events, graphs) && i < |graphs|
    ensures Right(graphs[i])
  {
    EmptyRight();
    OrderlyHistoryRuns(events, graphs);
    assert forall k | 0 <= k < |events| :: UpdatesOf(events)[k] == UpdateOf(events[k]);
    RunStaysRight(graphs, UpdatesOf(events), i);
  }

  /** Every change is noticed if, among all nodes that ever occur, no fact looks up anything but its own term. */
  lemma OwnTermHistoryIsSteady(events: seq<Event>, graphs: seq<Graph>)
    requires OrderlyHistory(events, graphs)
    requires AllOwnTermOnly(RunFacts(EMPTY_GRAPH, UpdatesOf(events)), RunNodes(EMPTY_GRAPH, UpdatesOf(events)))
    ensures SteadyHistory(events, graphs)
  {
    OrderlyHistoryRuns(events, graphs);
    forall k | 0 <= k < |events|
      ensures AllNoticed(graphs[k], DocumentOf(events[k]), NodeSet(EventNodes(events[k])),
                         FactSet(EventFacts(events[k])))
    {
      OwnTermStep(graphs, UpdatesOf(events), k);
    }
  }

  /** History independence: two histories in which every change is noticed and that end with the same contents
      hold the same nodes, facts and rows once nodes are named by stable key. */
  lemma SameContentsSameGraph(events: seq<Event>, graphs: seq<Graph>, others: seq<Event>, otherGraphs: seq<Graph>)
    requires SteadyHistory(events, graphs) && SteadyHistory(others, otherGraphs)
    requires ContentsAfter(events) == ContentsAfter(others)
    ensures SameByKey(graphs[|events|], otherGraphs[|others|])
  {
    HistoryHolds(events, graphs);
    HistoryHolds(others, otherGraphs);
    HistoryStaysRight(events, graphs, |events|);
    HistoryStaysRight(others, otherGraphs, |others|);
    var a, b := graphs[|events|], otherGraphs[|others|];
    SameKeyedFacts(a, b);
    forall i | i in a.projection ensures KeyedRow(a.projection[i], a.nodes) == KeyedRow(b.projection[i], b.nodes) {
      RowsAgree(a, b, i);
    }
  }

  /** The same nodes, facts and rows once nodes are named by stable key. */
  ghost predicate SameByKey(a: Graph, b: Graph) {
    && KeyedNodes(a.nodes) == KeyedNodes(b.nodes)
    && KeyedFacts(a.facts) == KeyedFacts(b.facts)
    && a.projection.Keys == b.projection.Keys
    && forall i | i in a.projection :: KeyedRow(a.projection[i], a.nodes) == KeyedRow(b.projection[i], b.nodes)
  }

  ghost predicate AllKeyed(g: Graph) {
    forall f | f in g.facts :: exists source :: KeyedSource(g.nodes, f, source)
  }

  lemma RowsAgree(a: Graph, b: Graph, i: Identity)
    requires Coherent(a) && Synced(a) && AllKeyed(a) && Coherent(b) && Synced(b) && AllKeyed(b)
    requires KeyedNodes(a.nodes) == KeyedNodes(b.nodes) && KeyedFacts(a.facts) == KeyedFacts(b.facts)
    requires i in a.projection && i in b.projection
    ensures KeyedRow(a.projection[i], a.nodes) == KeyedRow(b.projection[i], b.nodes)
  {
    assert i in Identities(a.facts);
    var f :| f in a.facts && f.Ident() == i;
    assert KeyedFact(f) in KeyedFacts(b.facts);
    var h :| h in b.facts && KeyedFact(h) == KeyedFact(f);
    assert h.Ident() == KeyedFact(h).Ident() == KeyedFact(f).Ident() == i;
    KeyedProjection(a, f);
    KeyedProjection(b, h);
  }

  lemma SameKeyedFacts(a: Graph, b: Graph)
    requires KeyedFacts(a.facts) == KeyedFacts(b.facts)
    ensures Identities(a.facts) == Identities(b.facts)
  {
    forall f | f in a.facts ensures f.Ident() in Identities(b.facts) {
      assert KeyedFact(f) in KeyedFacts(b.facts);
      var h :| h in b.facts && KeyedFact(h) == KeyedFact(f);
      assert h.Ident() == KeyedFact(h).Ident();
    }
    forall f | f in b.facts ensures f.Ident() in Identities(a.facts) {
      assert KeyedFact(f) in KeyedFacts(a.facts);
      var h :| h in a.facts && KeyedFact(h) == KeyedFact(f);
      assert h.Ident() == KeyedFact(h).Ident();
    }
  }
}
