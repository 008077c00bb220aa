/** Files for which the order of reconciling matters: an import with its candidate paths, an import that is not
    written normalised, and a call whose container offers a file. */
module GraphMissed {
  import opened Prelude
  import opened Strings
  import opened GraphDomain
  import opened GraphResolver
  import opened GraphRegistry
  import opened GraphIncremental
  import opened GraphExactness
  import opened GraphLookups
  import opened GraphIndexer
  import opened GraphRuns
  import opened GraphHistory
  import opened GraphOrder

  // ---------- New candidates that do not bear the target's own term ----------

  lemma HiddenNodesKeepBearers(before: set<GraphNode>, more: set<GraphNode>, term: Term)
    requires term !in AllTerms(more)
    ensures Bearers(before + more, term) == Bearers(before, term)
  {
    UnlistedTermHasNoBearers(more, term);
    UnionBearers(before, more, term);
  }

  lemma NoneGone(ids: set<string>)
    ensures ids * {} == {} && ids - {} == ids
  {}

  /** A fact that reaches further beyond its own term resolves to something else. */
  lemma NewReachNewRow(fact: Fact, source: GraphNode, before: set<GraphNode>, more: set<GraphNode>)
    requires Unique(before + more) && Trim(fact.target) != "" && fact.kind in {QualifiedSymbol, ModulePath}
    requires FactTerm(fact) !in AllTerms(more)
    requires Beyond(fact, source, before).ids != Beyond(fact, source, before + more).ids
    ensures Row(fact, source, before) != Row(fact, source, before + more)
  {
    var after := before + more;
    HiddenNodesKeepBearers(before, more, FactTerm(fact));
    NoneGone(Ids(after));
    NoneGone(Beyond(fact, source, before).ids);
    NothingPruned(Row(fact, source, before));
    if fact.kind == ModulePath {
      ModuleRowsAgree(fact, source, before, after, {});
    } else {
      TrimIdempotent(fact.target);
      PlainBearers(before, Some(fact.documentId), source.language, Trim(fact.target));
      PlainBearers(after, Some(fact.documentId), source.language, Trim(fact.target));
      QualifiedRowsAgree(fact, source, before, after, {});
    }
  }

  lemma UnionUnique(g: Graph, first: Event, second: Event)
    requires TwoNew(g, first, second)
    ensures Unique(Both(g, first, second))
  {}

  lemma NotThereBefore(g: Graph, first: Event, second: Event, node: GraphNode)
    requires TwoNew(g, first, second) && node in EventNodes(second)
    ensures node.id !in Ids(g.nodes + NodeSet(EventNodes(first)))
  {}

  /** The fact reaches a node of the other document that does not bear its own term. */
  lemma ReachMatters(g: Graph, first: Event, second: Event, fact: Fact, source: GraphNode, node: GraphNode)
    requires TwoNew(g, first, second) && fact in EventFacts(first) && SourceIs(NodeSet(EventNodes(first)), fact, source)
    requires Trim(fact.target) != "" && fact.kind in {QualifiedSymbol, ModulePath}
    requires FactTerm(fact) !in AllTerms(NodeSet(EventNodes(second)))
    requires node in EventNodes(second) && node.id in Beyond(fact, source, Both(g, first, second)).ids
    ensures OrderMatters(g, first, second)
  {
    var before := g.nodes + NodeSet(EventNodes(first));
    UnionUnique(g, first, second);
    NotThereBefore(g, first, second, node);
    BeyondKnown(fact, source, before);
    NewReachNewRow(fact, source, before, NodeSet(EventNodes(second)));
    HiddenTargetMatters(g, first, second, fact, source);
  }

  // ---------- Facts of relationships ----------

  /** The fact that a relationship of the event asserts, and the node it starts from. */
  ghost predicate Asserts(event: Event, r: Relationship, fact: Fact, source: GraphNode)
    requires event.Upserted?
  {
    && SourceNode(event.list, event.content.document.analyzerId, r.fromKey) == Some(source)
    && fact == FactOf(event.content.document, r, source)
  }

  lemma AssertedFact(event: Event, r: Relationship) returns (fact: Fact, source: GraphNode)
    requires Standalone(event) && r in event.content.relationships
    ensures Asserts(event, r, fact, source) && fact in EventFacts(event)
    ensures SourceIs(NodeSet(EventNodes(event)), fact, source)
    ensures source.language == Some(event.content.document.language)
  {
    var document, relationships := event.content.document, event.content.relationships;
    var i :| 0 <= i < |relationships| && relationships[i] == r;
    source := SourceNode(event.list, document.analyzerId, r.fromKey).value;
    fact := FactOf(document, r, source);
    assert Facts(document, relationships, event.list)[i] == fact;
    EventNodesOwned(event);
    EventNodesSpeak(event);
  }

  lemma EventNodesSpeak(event: Event)
    requires Standalone(event)
    ensures forall n | n in EventNodes(event) :: n.language == Some(event.content.document.language)
  {
    forall i | 0 <= i < |event.list| ensures event.list[i].language == Some(event.content.document.language) {
      assert KeyedList(event.list)[i] == KeyedNode(event.list[i]);
      ContentNodeSpeaks(event.content, i);
    }
  }

  lemma ContentNodeSpeaks(content: Content, i: nat)
    requires i < |ContentNodes(content)|
    ensures ContentNodes(content)[i].language == Some(content.document.language)
  {
    var blank := seq(|content.symbols| + 1, _ => "");
    assert ContentNodes(content)[i] == KeyedNode(DocumentNodes(content.document, content.symbols, blank)[i]);
  }

  // ---------- Imports ----------

  lemma CandidateOfMore(fact: Fact, language: Option<string>, node: GraphNode, part: set<GraphNode>,
                        nodes: set<GraphNode>)
    requires part <= nodes && node in ModuleCandidates(language, fact.aliases, Trim(fact.target), part)
    ensures node in part && node in ModuleCandidates(language, fact.aliases, Trim(fact.target), nodes)
  {}

  lemma ImportReaches(fact: Fact, source: GraphNode, node: GraphNode, part: set<GraphNode>, nodes: set<GraphNode>)
    requires fact.kind == ModulePath && Trim(fact.target) != ""
    requires part <= nodes && FactTerm(fact) !in AllTerms(part)
    requires node in ModuleCandidates(source.language, fact.aliases, Trim(fact.target), part)
    ensures node.id in Beyond(fact, source, nodes).ids
  {
    CandidateOfMore(fact, source.language, node, part, nodes);
    assert node !in Bearers(nodes, FactTerm(fact));
  }

  /** A module target that some node of the other document answers, although none there bears it. */
  lemma ImportMatters(g: Graph, first: Event, second: Event, fact: Fact, source: GraphNode, node: GraphNode)
    requires TwoNew(g, first, second) && fact in EventFacts(first) && SourceIs(NodeSet(EventNodes(first)), fact, source)
    requires fact.kind == ModulePath && Trim(fact.target) != ""
    requires FactTerm(fact) !in AllTerms(NodeSet(EventNodes(second)))
    requires node in ModuleCandidates(source.language, fact.aliases, Trim(fact.target), NodeSet(EventNodes(second)))
    ensures OrderMatters(g, first, second)
  {
    ImportReaches(fact, source, node, NodeSet(EventNodes(second)), Both(g, first, second));
    ReachMatters(g, first, second, fact, source, node);
  }

  /** The analyzer takes the import to name one of the candidate paths. */
  function CandidateAliases(target: string, candidates: seq<string>): (r: seq<Alias>)
    ensures |r| == |candidates|
  {
    seq(|candidates|, i requires 0 <= i < |candidates| => Alias(target, candidates[i]))
  }

  /** What the import looks for: its candidate paths, or the target itself when there are none. */
  function Sought(target: string, candidates: seq<string>): seq<string> {
    if candidates == [] then [Trim(target)] else candidates
  }

  ghost predicate Written(paths: seq<string>) {
    forall c | c in paths :: Trimmed(c) && c != ""
  }

  lemma CandidateHit(target: string, candidate: string)
    requires Trim(target) != "" && Trimmed(candidate) && candidate != ""
    ensures AliasHit(Trim(target), Alias(target, candidate)) == [candidate]
  {
    TrimIdempotent(candidate);
  }

  lemma {:induction false} CandidatesExpand(target: string, candidates: seq<string>)
    requires Trim(target) != "" && Written(candidates)
    ensures AliasHits(Trim(target), CandidateAliases(target, candidates)) == candidates
  {
    if candidates != [] {
      var aliases, last := CandidateAliases(target, candidates), candidates[|candidates| - 1];
      assert aliases[..|aliases| - 1] == CandidateAliases(target, candidates[..|candidates| - 1]);
      CandidatesExpand(target, candidates[..|candidates| - 1]);
      assert last in candidates;
      CandidateHit(target, last);
      assert candidates == candidates[..|candidates| - 1] + [last];
    }
  }

  lemma SoughtIsExpanded(target: string, candidates: seq<string>)
    requires Trim(target) != "" && Written(candidates)
    ensures var aliases := CandidateAliases(target, candidates);
      forall e :: e in Expansions(Trim(target), aliases) <==> e in Sought(target, candidates)
  {
    CandidatesExpand(target, candidates);
  }

  /** The path under which a file is registered. */
  function PathOf(event: Event): string
    requires event.Upserted?
  {
    NormalizedPath(event.content.document.relativePath)
  }

  /** The event of a file starts with the file's node. */
  lemma FileComesFirst(event: Event)
    requires Standalone(event)
    ensures |event.list| > 0 && event.list[0] == FileNode(event.content.document, event.list[0].id)
  {
    assert |KeyedList(event.list)| == |event.content.symbols| + 1;
    assert KeyedList(event.list)[0] == KeyedNode(event.list[0]);
    ContentStartsWithFile(event.content);
  }

  lemma ContentStartsWithFile(content: Content)
    ensures |ContentNodes(content)| > 0 && ContentNodes(content)[0] == KeyedNode(FileNode(content.document, ""))
  {}

  /** For every two files, whatever else they and the graph hold, and every import of one that looks for the path
      of the other while no node of the other bears the target as it is written: reconciled before the file it
      looks for, the import keeps a row that it does not deserve. */
  lemma ImportIsMissed(g: Graph, first: Event, second: Event, r: Relationship, candidates: seq<string>)
    requires TwoNew(g, first, second) && first.content.document.language == second.content.document.language
    requires r in first.content.relationships && r.kind == ModulePath && Trim(r.target) != ""
    requires r.aliases == CandidateAliases(r.target, candidates) && Written(candidates)
    requires exists e | e in Sought(r.target, candidates) :: FileStableKey(e) == FileStableKey(PathOf(second))
    requires Term(ModulePath, Trim(r.target)) !in AllTerms(NodeSet(EventNodes(second)))
    ensures OrderMatters(g, first, second)
  {
    var fact, source := AssertedFact(first, r);
    SoughtIsExpanded(r.target, candidates);
    FileComesFirst(second);
    EventNodesSpeak(second);
    var node := second.list[0];
    var e :| e in Sought(r.target, candidates) && FileStableKey(e) == FileStableKey(PathOf(second));
    AnswersByPath(fact, source.language, node, e, NodeSet(EventNodes(second)));
    ImportMatters(g, first, second, fact, source, node);
  }

  lemma AnswersByPath(fact: Fact, language: Option<string>, node: GraphNode, path: string, nodes: set<GraphNode>)
    requires node in nodes && node.language == language && node.key == FileStableKey(path)
    requires path in Expansions(Trim(fact.target), fact.aliases)
    ensures node in ModuleCandidates(language, fact.aliases, Trim(fact.target), nodes)
  {}

  // ---------- Calls ----------

  lemma CallReaches(fact: Fact, source: GraphNode, node: GraphNode, part: set<GraphNode>, nodes: set<GraphNode>)
    requires fact.kind == QualifiedSymbol && Trim(fact.target) != "" && !UsesAlias(Trim(fact.target), fact.aliases)
    requires part <= nodes && FactTerm(fact) !in AllTerms(part)
    requires node in ContainerCandidates(Some(source), source.language, Trim(fact.target), part)
    ensures node.id in Beyond(fact, source, nodes).ids
  {
    SiblingOfMore(source, Trim(fact.target), node, part, nodes);
    assert AliasCandidates(source.language, fact.aliases, Trim(fact.target), nodes) == {};
    assert node in Chosen(fact, source, nodes).0;
    assert node !in Bearers(nodes, FactTerm(fact));
  }

  lemma SiblingOfMore(source: GraphNode, target: string, node: GraphNode, part: set<GraphNode>, nodes: set<GraphNode>)
    requires part <= nodes && node in ContainerCandidates(Some(source), source.language, target, part)
    ensures node in part && node in ContainerCandidates(Some(source), source.language, target, nodes)
  {}

  /** A symbol target to which no alias applies and that the caller's container answers with a node of the other
      document, although none there bears it. */
  lemma CallMatters(g: Graph, first: Event, second: Event, fact: Fact, source: GraphNode, node: GraphNode)
    requires TwoNew(g, first, second) && fact in EventFacts(first) && SourceIs(NodeSet(EventNodes(first)), fact, source)
    requires fact.kind == QualifiedSymbol && Trim(fact.target) != "" && !UsesAlias(Trim(fact.target), fact.aliases)
    requires FactTerm(fact) !in AllTerms(NodeSet(EventNodes(second)))
    requires node in ContainerCandidates(Some(source), source.language, Trim(fact.target), NodeSet(EventNodes(second)))
    ensures OrderMatters(g, first, second)
  {
    CallReaches(fact, source, node, NodeSet(EventNodes(second)), Both(g, first, second));
    ReachMatters(g, first, second, fact, source, node);
  }

  /** The target's sibling name in the container of the source. */
  ghost predicate ContainerNames(source: GraphNode, target: string, name: string) {
    SimpleName(target) && source.qualifiedName.Some? && SiblingName(source.qualifiedName.value, target) == Some(name)
  }

  lemma AnswersByContainer(source: GraphNode, target: string, node: GraphNode, name: string, nodes: set<GraphNode>)
    requires node in nodes && node.language == source.language && node.qualifiedName == Some(name)
    requires ContainerNames(source, target, name)
    ensures node in ContainerCandidates(Some(source), source.language, target, nodes)
  {}

  /** For every two files, whatever else they and the graph hold, and every call in one whose container has the
      path of the other as the sibling name of the target, which no node of the other bears by itself. */
  lemma CallIsMissed(g: Graph, first: Event, second: Event, r: Relationship, source: GraphNode)
    requires TwoNew(g, first, second) && first.content.document.language == second.content.document.language
    requires r in first.content.relationships && r.kind == QualifiedSymbol && Trim(r.target) != "" && r.aliases == []
    requires SourceNode(first.list, first.content.document.analyzerId, r.fromKey) == Some(source)
    requires ContainerNames(source, Trim(r.target), PathOf(second))
    requires Term(QualifiedSymbol, Trim(r.target)) !in AllTerms(NodeSet(EventNodes(second)))
    ensures OrderMatters(g, first, second)
  {
    var fact, origin := AssertedFact(first, r);
    FileComesFirst(second);
    EventNodesSpeak(second);
    AnswersByContainer(source, Trim(r.target), second.list[0], PathOf(second), NodeSet(EventNodes(second)));
    CallMatters(g, first, second, fact, source, second.list[0]);
  }

  // ---------- Files with a single statement ----------

  /** A path as it is stored. */
  ghost predicate Tidy(path: string) {
    path != "" && Trimmed(path) && NormalizedPath(path) == path
  }

  /** The names a target can have without the search finding the file behind it. */
  ghost predicate NotItsName(target: string, path: string) {
    target != path && target != Trim(LastComponent(path))
  }

  lemma OneTerm(kind: TargetKind, value: string, term: Term)
    requires kind != term.kind || Trim(value) != term.value
    ensures term !in AddTerm(kind, value)
  {}

  lemma OtherName(node: GraphNode, path: string, term: Term)
    requires term.kind in {ModulePath, QualifiedSymbol} && node.qualifiedName == Some(path) && node.logicalKey == None
    requires StripPrefix(node.key, FILE_PREFIX) == Some(path)
    requires Trim(node.name) != term.value && Trim(path) != term.value
    ensures term !in NodeTerms(node)
  {
    OneTerm(LocalStableKey, node.key, term);
    OneTerm(QualifiedSymbol, node.name, term);
    OneTerm(QualifiedSymbol, path, term);
    OneTerm(ModulePath, node.name, term);
    OneTerm(ModulePath, path, term);
  }

  lemma FileShape(document: Document, id: string)
    requires Tidy(document.relativePath)
    ensures var node, path := FileNode(document, id), document.relativePath;
      && node.name == LastComponent(path) && node.qualifiedName == Some(path) && node.logicalKey == None
      && node.key == FILE_PREFIX + path && StripPrefix(node.key, FILE_PREFIX) == Some(path)
  {
    PrefixOff(FILE_PREFIX, document.relativePath);
  }

  lemma PrefixOff(prefix: string, rest: string)
    ensures StripPrefix(prefix + rest, prefix) == Some(rest)
  {}

  lemma OneNodeTerms(node: GraphNode, term: Term)
    requires term !in NodeTerms(node)
    ensures term !in AllTerms(NodeSet([node]))
  {}

  /** The event of a file without symbols, its node under the given identifier. */
  function Reconciled(content: Content, id: string): Event
    requires content.symbols == []
  {
    Upserted(content, [FileNode(content.document, id)])
  }

  lemma FileTerms(content: Content, id: string, term: Term)
    requires content.symbols == [] && Tidy(content.document.relativePath)
    requires term.kind in {ModulePath, QualifiedSymbol} && NotItsName(term.value, content.document.relativePath)
    ensures term !in AllTerms(NodeSet(EventNodes(Reconciled(content, id))))
  {
    TrimIdempotent(content.document.relativePath);
    FileShape(content.document, id);
    OtherName(FileNode(content.document, id), content.document.relativePath, term);
    OneNodeTerms(FileNode(content.document, id), term);
  }

  lemma ReconciledNodes(content: Content, id: string)
    requires content.symbols == []
    ensures NodesOf(Reconciled(content, id).list, content)
  {
    assert KeyedList([FileNode(content.document, id)])[0] == KeyedNode(FileNode(content.document, id));
    ContentStartsWithFile(content);
  }

  lemma AloneStands(event: Event)
    requires event.Upserted? && |event.list| == 1
    requires PlainDocument(event.content.document, event.content.symbols) && NodesOf(event.list, event.content)
    requires Assertable(event.content.document, event.content.relationships, event.list)
    ensures Standalone(event)
  {}

  lemma EmptyFileStands(document: Document, id: string)
    requires PlainDocument(document, [])
    ensures Standalone(Reconciled(Content(document, [], []), id))
  {
    var content := Content(document, [], []);
    ReconciledNodes(content, id);
    NothingToAssert(document, [FileNode(document, id)]);
    AloneStands(Reconciled(content, id));
  }

  lemma NothingToAssert(document: Document, list: seq<GraphNode>)
    ensures Assertable(document, [], list)
  {}

  lemma FilesApart(first: Event, second: Event, path: string, other: string)
    requires first.Upserted? && second.Upserted? && DocumentOf(first) != DocumentOf(second)
    requires |first.list| == 1 && |second.list| == 1 && first.list[0].id != second.list[0].id
    requires first.list[0].key == FILE_PREFIX + path && second.list[0].key == FILE_PREFIX + other && path != other
    ensures Separate(first, second)
  {
    PrefixOff(FILE_PREFIX, path);
    PrefixOff(FILE_PREFIX, other);
  }

  lemma NewToEmpty(first: Event, second: Event)
    requires Standalone(first) && Standalone(second) && Separate(first, second)
    ensures TwoNew(EMPTY_GRAPH, first, second)
  {
    EmptyRight();
    BesideNothing(first);
    BesideNothing(second);
  }

  lemma BesideNothing(event: Event)
    ensures Beside(EMPTY_GRAPH, event)
  {}

  function ImportRelationship(document: Document, key: string, edgeType: string, target: string,
                              candidates: seq<string>): Relationship {
    Relationship(key, FILE_PREFIX + document.relativePath, edgeType, ModulePath, target,
                 CandidateAliases(target, candidates), [], Finite(1.0), None, None)
  }

  /** What the analyzer says of a file whose only statement is an import; `keys` are the relationships' hashed keys. */
  function Importing(document: Document, keys: (string, string), target: string, candidates: seq<string>): Content {
    Content(document, [], [ImportRelationship(document, keys.0, "depends_on", target, candidates),
                           ImportRelationship(document, keys.1, "imports", target, candidates)])
  }

  ghost predicate GoodKeys(keys: (string, string)) {
    keys.0 != keys.1 && Trim(keys.0) != "" && Trim(keys.1) != ""
  }

  lemma SingleSource(node: GraphNode, analyzerId: string)
    ensures SourceNode([node], analyzerId, node.key) == Some(node)
  {}

  lemma ImportAssertable(content: Content, document: Document, keys: (string, string), target: string,
                         candidates: seq<string>, node: GraphNode)
    requires content == Importing(document, keys, target, candidates) && GoodKeys(keys)
    requires SourceNode([node], document.analyzerId, FILE_PREFIX + document.relativePath) == Some(node)
    ensures Assertable(document, content.relationships, [node])
  {}

  lemma ImportingStands(document: Document, keys: (string, string), target: string, candidates: seq<string>, id: string)
    requires PlainDocument(document, []) && Tidy(document.relativePath) && GoodKeys(keys)
    ensures Standalone(Reconciled(Importing(document, keys, target, candidates), id))
  {
    var content := Importing(document, keys, target, candidates);
    ReconciledNodes(content, id);
    FileShape(document, id);
    SingleSource(FileNode(document, id), document.analyzerId);
    ImportAssertable(content, document, keys, target, candidates, FileNode(document, id));
    AloneStands(Reconciled(content, id));
  }

  /** The import looks for a path, and is not written as that path or its last component. */
  ghost predicate LooksFor(target: string, candidates: seq<string>, path: string) {
    && Trim(target) == target != "" && Written(candidates) && NotItsName(target, path)
    && exists e | e in Sought(target, candidates) :: NormalizedPath(e) == path
  }

  /** A plain document of the given path. */
  ghost predicate FileAt(document: Document, path: string) {
    PlainDocument(document, []) && document.relativePath == path && Tidy(path)
  }

  lemma SingleImportIsMissed(importing: Document, keys: (string, string), target: string, candidates: seq<string>,
                             id: string, imported: Document, otherId: string)
    requires FileAt(importing, importing.relativePath) && FileAt(imported, imported.relativePath) && GoodKeys(keys)
    requires importing.id != imported.id && id != otherId && importing.relativePath != imported.relativePath
    requires importing.language == imported.language && LooksFor(target, candidates, imported.relativePath)
    ensures OrderMatters(EMPTY_GRAPH, Reconciled(Importing(importing, keys, target, candidates), id),
                         Reconciled(Content(imported, [], []), otherId))
  {
    var content, other := Importing(importing, keys, target, candidates), Content(imported, [], []);
    var first, second := Reconciled(content, id), Reconciled(other, otherId);
    ImportingStands(importing, keys, target, candidates, id);
    EmptyFileStands(imported, otherId);
    FileShape(importing, id);
    FileShape(imported, otherId);
    FilesApart(first, second, importing.relativePath, imported.relativePath);
    NewToEmpty(first, second);
    FileTerms(other, otherId, Term(ModulePath, target));
    ImportIsMissed(EMPTY_GRAPH, first, second, content.relationships[1], candidates);
  }

  // ---------- Examples ----------

  /** A single path component. */
  ghost predicate Component(s: string) {
    '/' !in s && '\\' !in s && s != "" && s != "." && Trimmed(s)
  }

  lemma {:induction false} NoBackslash(s: string)
    requires '\\' !in s
    ensures Slashed(s) == s
  {
    if s != [] {
      NoBackslash(s[1..]);
      assert s == [s[0]] + s[1..];
    }
  }

  lemma {:induction false} FirstComponent(s: string, rest: string)
    requires '/' !in s
    ensures SplitSlash(s) == [s]
    ensures SplitSlash(s + "/" + rest) == [s] + SplitSlash(rest)
  {
    var whole := s + "/" + rest;
    if s != [] {
      FirstComponent(s[1..], rest);
      assert s == [s[0]] + s[1..];
      assert whole[1..] == s[1..] + "/" + rest;
    } else {
      assert whole[1..] == rest;
    }
  }

  lemma LastIsItself(s: string)
    requires '/' !in s
    ensures LastComponent(s) == s
  {
    forall i | 0 <= i <= |s| ensures !("/" <= s[i..]) {
      assert i < |s| ==> s[i..][0] == s[i] && s[i] in s;
    }
  }

  lemma ComponentTidy(s: string)
    requires Component(s)
    ensures Tidy(s) && LastComponent(s) == s && Trim(s) == s
  {
    TrimIdempotent(s);
    NoBackslash(s);
    FirstComponent(s, "");
    assert Keep([s]) == [s] + Keep([]);
    LastIsItself(s);
  }

  predicate Kept(part: string) {
    part != "" && part != "."
  }

  lemma KeepPair(a: string, b: string)
    requires Kept(b)
    ensures Keep([a, b]) == if Kept(a) then [a, b] else [b]
  {
    assert [a, b][1..] == [b] && [b][1..] == [];
    assert Keep([b]) == [b];
  }

  lemma PairComponents(a: string, b: string)
    requires '/' !in a && '/' !in b && '\\' !in a && '\\' !in b && Kept(b) && Trimmed(a + "/" + b)
    ensures NormalizedPath(a + "/" + b) == if Kept(a) then a + "/" + b else b
  {
    var path := a + "/" + b;
    TrimIdempotent(path);
    NoBackslash(path);
    FirstComponent(a, b);
    FirstComponent(b, "");
    assert SplitSlash(path) == [a, b];
    KeepPair(a, b);
    assert Join([a, b]) == a + "/" + Join([b]) by { assert [a, b][1..] == [b]; }
  }

  lemma PairTidy(a: string, b: string)
    requires Component(a) && Component(b)
    ensures Tidy(a + "/" + b)
  {
    var path := a + "/" + b;
    assert path[0] == a[0] && path[|path| - 1] == b[|b| - 1];
    PairComponents(a, b);
  }

  lemma PythonNames(target: string, own: string, other: string, index: string)
    requires target == "b" && own == "a.py" && other == "b.py" && index == "index.py"
    ensures Component(target) && Component(own) && Component(other) && Component(index)
    ensures target != other && own != other && target + "/" + index == "b/index.py"
  {}

  lemma PythonLooksFor(target: string, candidates: seq<string>, own: string, other: string, index: string)
    requires target == "b" && own == "a.py" && other == "b.py" && index == "index.py"
    requires candidates == [other, target + "/" + index]
    ensures LooksFor(target, candidates, other) && Tidy(own) && Tidy(other) && own != other
  {
    PythonNames(target, own, other, index);
    ComponentTidy(target);
    ComponentTidy(own);
    ComponentTidy(other);
    PairTidy(target, index);
    assert other in Sought(target, candidates);
  }

  lemma PythonCandidates(target: string, candidates: seq<string>, other: string, index: string)
    requires target == "b" && candidates == ["b.py", "b/index.py"] && other == "b.py" && index == "index.py"
    ensures candidates == [other, target + "/" + index]
  {
    assert target + "/" + index == "b/index.py";
  }

  /** `import b` in a.py, which the Python analyzer takes to name b.py or b/index.py. */
  lemma PythonImport(importing: Document, keys: (string, string), target: string, candidates: seq<string>, id: string,
                     imported: Document, otherId: string)
    requires PlainDocument(importing, []) && importing.relativePath == "a.py" && importing.language == "python"
    requires PlainDocument(imported, []) && imported.relativePath == "b.py" && imported.language == "python"
    requires importing.id != imported.id && id != otherId && GoodKeys(keys)
    requires target == "b" && candidates == ["b.py", "b/index.py"]
    ensures OrderMatters(EMPTY_GRAPH, Reconciled(Importing(importing, keys, target, candidates), id),
                         Reconciled(Content(imported, [], []), otherId))
  {
    PythonCandidates(target, candidates, imported.relativePath, "index.py");
    PythonLooksFor(target, candidates, importing.relativePath, imported.relativePath, "index.py");
    SingleImportIsMissed(importing, keys, target, candidates, id, imported, otherId);
  }

  lemma RootedNames(own: string, other: string)
    requires own == "a.js" && other == "b.js"
    ensures Component(own) && Component(other) && own != other && '/' !in other
  {}

  lemma RootedLooksFor(target: string, own: string, other: string)
    requires own == "a.js" && other == "b.js" && target == "" + "/" + other
    ensures LooksFor(target, [], other) && Tidy(own) && Tidy(other) && own != other
  {
    RootedNames(own, other);
    ComponentTidy(own);
    ComponentTidy(other);
    TrimIdempotent(target);
    PairComponents("", other);
    assert target in Sought(target, []);
    assert target[0] == '/';
  }

  /** `import "/b.js"` in a.js: no candidates, and not written as the path it resolves to. */
  lemma RootedImport(importing: Document, keys: (string, string), target: string, id: string, imported: Document,
                     otherId: string)
    requires PlainDocument(importing, []) && importing.relativePath == "a.js" && importing.language == "javascript"
    requires PlainDocument(imported, []) && imported.relativePath == "b.js" && imported.language == "javascript"
    requires importing.id != imported.id && id != otherId && GoodKeys(keys) && target == "/b.js"
    ensures OrderMatters(EMPTY_GRAPH, Reconciled(Importing(importing, keys, target, []), id),
                         Reconciled(Content(imported, [], []), otherId))
  {
    assert target == "" + "/" + imported.relativePath;
    RootedLooksFor(target, importing.relativePath, imported.relativePath);
    SingleImportIsMissed(importing, keys, target, [], id, imported, otherId);
  }

  lemma LastDot(prefix: string, name: string)
    requires ':' !in prefix && ':' !in name && '.' !in name
    ensures LastIndexOf(prefix + "." + name, "::") == None && LastIndexOf(prefix + "." + name, ".") == Some(|prefix|)
  {
    var whole := prefix + "." + name;
    forall i | 0 <= i <= |whole| ensures !("::" <= whole[i..]) {
      assert i < |whole| ==> whole[i..][0] == whole[i] != ':';
    }
    forall i | |prefix| < i <= |whole| ensures !("." <= whole[i..]) {
      assert i < |whole| ==> whole[i..][0] == whole[i] == name[i - |prefix| - 1];
    }
    assert whole[|prefix|..][0] == '.';
  }

  lemma SiblingNames(container: string, caller: string, target: string, path: string)
    requires container == "s" && caller == "t" && target == "js" && path == container + "." + target
    ensures SimpleName(target) && SiblingName(container + "." + caller, target) == Some(path)
    ensures NotItsName(target, path) && Tidy(path) && Trim(target) == target
  {
    LastDot(container, caller);
    assert (container + "." + caller)[..1] == container;
    ComponentTidy(path);
    ComponentTidy(target);
    forall i | 0 <= i <= |target| ensures !("::" <= target[i..]) {
      assert i < |target| ==> target[i..][0] == target[i] != ':';
    }
  }

  function SymbolRelationship(key: string, fromKey: string, edgeType: string, kind: TargetKind,
                              target: string): Relationship {
    Relationship(key, fromKey, edgeType, kind, target, [], [], Finite(0.9), None, None)
  }

  /** What the analyzer says of a file whose only statement is a test that calls `target`; `keys` are the
      relationships' hashed keys. */
  function Testing(document: Document, symbol: Symbol, keys: seq<string>, target: string): Content
    requires |keys| == 5
  {
    var file, test := FILE_PREFIX + document.relativePath, symbol.stableKey;
    Content(document, [symbol], [
      SymbolRelationship(keys[0], test, "calls", QualifiedSymbol, target),
      SymbolRelationship(keys[1], test, "declared_in", LocalStableKey, file),
      SymbolRelationship(keys[2], test, "references", QualifiedSymbol, target),
      SymbolRelationship(keys[3], test, "tests", QualifiedSymbol, target),
      SymbolRelationship(keys[4], file, "contains", LocalStableKey, test)])
  }

  ghost predicate FiveKeys(keys: seq<string>) {
    |keys| == 5 && (forall k | k in keys :: Trim(k) != "") && forall i, j | 0 <= i < j < 5 :: keys[i] != keys[j]
  }

  /** The event of a file with one symbol. */
  function WithSymbol(content: Content, id: string, symbolId: string): Event
    requires |content.symbols| == 1
  {
    Upserted(content, [FileNode(content.document, id), SymbolNode(content.document, content.symbols[0], symbolId)])
  }

  lemma WithSymbolNodes(content: Content, id: string, symbolId: string)
    requires |content.symbols| == 1
    ensures NodesOf(WithSymbol(content, id, symbolId).list, content)
  {
    var list, blank := WithSymbol(content, id, symbolId).list, seq(2, _ => "");
    assert DocumentNodes(content.document, content.symbols, [id, symbolId]) == list;
    forall i | 0 <= i < 2 ensures KeyedList(list)[i] == ContentNodes(content)[i] {
      IdsDoNotMatter(content, [id, symbolId], blank, i);
    }
  }

  /** A test's own key is no node's stable key as it stands. */
  lemma TestSource(file: GraphNode, test: GraphNode, analyzerId: string, key: string)
    requires file.key != key && test.key != key && test.key == SymbolStableKey(analyzerId, key) && file.key != test.key
    ensures SourceNode([file, test], analyzerId, key) == Some(test)
    ensures SourceNode([file, test], analyzerId, file.key) == Some(file)
  {
    var list := [file, test];
    assert file in list && test in list && forall n | n in list :: n == file || n == test;
  }

  lemma TestAssertable(content: Content, document: Document, symbol: Symbol, keys: seq<string>, target: string,
                       file: GraphNode, test: GraphNode)
    requires FiveKeys(keys) && content == Testing(document, symbol, keys, target)
    requires SourceNode([file, test], document.analyzerId, symbol.stableKey).Some?
    requires SourceNode([file, test], document.analyzerId, FILE_PREFIX + document.relativePath).Some?
    ensures Assertable(document, content.relationships, [file, test])
  {
    var relationships := content.relationships;
    forall i | 0 <= i < 5
      ensures relationships[i].key == keys[i]
      ensures relationships[i].fromKey in {FILE_PREFIX + document.relativePath, symbol.stableKey}
      ensures ValidConfidence(relationships[i]) && ValidRange(relationships[i])
    {
      assert i == 0 || i == 1 || i == 2 || i == 3 || i == 4;
    }
    FineRelationships(document, relationships, keys, [file, test], symbol.stableKey);
  }

  lemma FineRelationships(document: Document, relationships: seq<Relationship>, keys: seq<string>, list: seq<GraphNode>,
                          other: string)
    requires FiveKeys(keys) && |relationships| == 5
    requires forall i | 0 <= i < 5 ::
      relationships[i].key == keys[i] && relationships[i].fromKey in {FILE_PREFIX + document.relativePath, other}
    requires forall i | 0 <= i < 5 :: ValidConfidence(relationships[i]) && ValidRange(relationships[i])
    requires SourceNode(list, document.analyzerId, FILE_PREFIX + document.relativePath).Some?
    requires SourceNode(list, document.analyzerId, other).Some?
    ensures Assertable(document, relationships, list)
  {
    forall r | r in relationships
      ensures Trim(r.key) != "" && ValidConfidence(r) && ValidRange(r)
      ensures SourceNode(list, document.analyzerId, r.fromKey).Some?
    {
      var i :| 0 <= i < 5 && relationships[i] == r;
      assert keys[i] in keys;
    }
  }

  lemma KeyHeads(path: string, analyzerId: string, key: string)
    ensures (FILE_PREFIX + path)[0] == 'f' && SymbolStableKey(analyzerId, key)[0] == 's'
  {}

  /** A key that begins like neither kind of stable key. */
  ghost predicate OwnKey(key: string) {
    Trim(key) == key != "" && key[0] != 'f' && key[0] != 's'
  }

  lemma TestingStands(document: Document, symbol: Symbol, keys: seq<string>, target: string, id: string,
                      symbolId: string)
    requires PlainDocument(document, [symbol]) && Tidy(document.relativePath) && FiveKeys(keys)
    requires OwnKey(symbol.stableKey) && id != symbolId
    ensures var event := WithSymbol(Testing(document, symbol, keys, target), id, symbolId);
      Standalone(event) && SourceNode(event.list, document.analyzerId, symbol.stableKey) == Some(event.list[1])
  {
    var content := Testing(document, symbol, keys, target);
    var file, test := FileNode(document, id), SymbolNode(document, symbol, symbolId);
    FileShape(document, id);
    KeyHeads(document.relativePath, document.analyzerId, symbol.stableKey);
    TestSource(file, test, document.analyzerId, symbol.stableKey);
    TestAssertable(content, document, symbol, keys, target, file, test);
    WithSymbolNodes(content, id, symbolId);
    PairUnique(file, test);
  }

  lemma PairUnique(a: GraphNode, b: GraphNode)
    requires a.key != b.key && a.id != b.id
    ensures Unique(NodeSet([a, b]))
  {}

  lemma TestApart(first: Event, second: Event, path: string, other: string, analyzerId: string, key: string)
    requires first.Upserted? && second.Upserted? && DocumentOf(first) != DocumentOf(second)
    requires |first.list| == 2 && |second.list| == 1
    requires first.list[0].id != second.list[0].id && first.list[1].id != second.list[0].id
    requires first.list[0].key == FILE_PREFIX + path && second.list[0].key == FILE_PREFIX + other && path != other
    requires first.list[1].key == SymbolStableKey(analyzerId, key)
    ensures Separate(first, second)
  {
    PrefixOff(FILE_PREFIX, path);
    PrefixOff(FILE_PREFIX, other);
    KeyHeads(other, analyzerId, key);
  }

  /** A test titled "s.t" in a.js that calls `js`, and the file s.js. */
  lemma JavaScriptCall(document: Document, symbol: Symbol, keys: seq<string>, id: string, symbolId: string,
                       other: Document, otherId: string)
    requires PlainDocument(document, [symbol]) && document.relativePath == "a.js" && document.language == "javascript"
    requires PlainDocument(other, []) && other.relativePath == "s.js" && other.language == "javascript"
    requires symbol.name == "s.t" && symbol.qualifiedName == Some("s.t") && OwnKey(symbol.stableKey)
    requires FiveKeys(keys) && document.id != other.id && id != symbolId && id != otherId && symbolId != otherId
    ensures OrderMatters(EMPTY_GRAPH, WithSymbol(Testing(document, symbol, keys, "js"), id, symbolId),
                         Reconciled(Content(other, [], []), otherId))
  {
    var container, caller, target := "s", "t", "js";
    assert container + "." + caller == "s.t" && container + "." + target == "s.js";
    SiblingNames(container, caller, target, other.relativePath);
    ScriptPath(document.relativePath, other.relativePath);
    SingleCallIsMissed(document, symbol, keys, target, id, symbolId, other, otherId);
  }

  lemma ScriptPath(path: string, other: string)
    requires path == "a.js" && other == "s.js"
    ensures Tidy(path) && path != other
  {
    assert Component(path);
    ComponentTidy(path);
  }

  lemma SingleCallIsMissed(document: Document, symbol: Symbol, keys: seq<string>, target: string, id: string,
                           symbolId: string, other: Document, otherId: string)
    requires PlainDocument(document, [symbol]) && Tidy(document.relativePath) && FiveKeys(keys)
    requires FileAt(other, other.relativePath) && document.relativePath != other.relativePath
    requires OwnKey(symbol.stableKey) && document.language == other.language
    requires document.id != other.id && id != symbolId && id != otherId && symbolId != otherId
    requires Trim(target) == target != "" && NotItsName(target, other.relativePath)
    requires SimpleName(target) && symbol.qualifiedName.Some?
    requires SiblingName(symbol.qualifiedName.value, target) == Some(other.relativePath)
    ensures OrderMatters(EMPTY_GRAPH, WithSymbol(Testing(document, symbol, keys, target), id, symbolId),
                         Reconciled(Content(other, [], []), otherId))
  {
    var content, empty := Testing(document, symbol, keys, target), Content(other, [], []);
    var first, second := WithSymbol(content, id, symbolId), Reconciled(empty, otherId);
    TestingStands(document, symbol, keys, target, id, symbolId);
    EmptyFileStands(other, otherId);
    FileShape(document, id);
    FileShape(other, otherId);
    TestApart(first, second, document.relativePath, other.relativePath, document.analyzerId, symbol.stableKey);
    NewToEmpty(first, second);
    FileTerms(empty, otherId, Term(QualifiedSymbol, target));
    CallIsMissed(EMPTY_GRAPH, first, second, content.relationships[0], first.list[1]);
  }
}
