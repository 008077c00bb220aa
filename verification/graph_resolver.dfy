/** Resolving one relationship target against a list of nodes.
    The functions over sets say what a target means; the methods, over lists, are the resolver. */
module GraphResolver {
  import opened Prelude
  import opened Strings
  import opened GraphDomain

  datatype Request = Request(
    kind: TargetKind,
    target: string,
    sourceDocument: Option<string>,
    sourceNode: Option<string>,
    language: Option<string>,
    aliases: seq<Alias>,
    externalRoots: seq<string>)

  datatype Outcome =
    | Resolved(node: GraphNode, basis: Basis)
    | Ambiguous(candidates: seq<GraphNode>, externalTargets: seq<string>, ambiguousBasis: Basis)
    | ExternalTo(external: string)
    | UnresolvedAt(missing: string)

  datatype Resolution = Found(outcome: Outcome) | SourceMissing(nodeId: string)

  // ---------- Node lists and node sets ----------

  ghost function NodeSet(nodes: seq<GraphNode>): set<GraphNode> {
    set n | n in nodes
  }

  ghost predicate UniqueKeys(s: set<GraphNode>) {
    forall n, m | n in s && m in s && n.key == m.key :: n == m
  }

  ghost predicate UniqueIds(s: set<GraphNode>) {
    forall n, m | n in s && m in s && n.id == m.id :: n == m
  }

  ghost predicate Unique(s: set<GraphNode>) {
    UniqueKeys(s) && UniqueIds(s)
  }

  function Filter(nodes: seq<GraphNode>, keep: GraphNode -> bool): (r: seq<GraphNode>)
    ensures forall n :: n in r <==> n in nodes && keep(n)
  {
    if nodes == [] then [] else
      assert nodes == [nodes[0]] + nodes[1..];
      (if keep(nodes[0]) then [nodes[0]] else []) + Filter(nodes[1..], keep)
  }

  /** The first node that passes the test. */
  function Find(nodes: seq<GraphNode>, test: GraphNode -> bool): (r: Option<GraphNode>)
    ensures r.Some? ==> r.value in nodes && test(r.value)
    ensures r.None? ==> forall n | n in nodes :: !test(n)
  {
    if nodes == [] then None
    else if test(nodes[0]) then Some(nodes[0])
    else Find(nodes[1..], test)
  }

  predicate Before(a: GraphNode, b: GraphNode) {
    Less(a.key, b.key) || (a.key == b.key && Less(a.id, b.id))
  }

  predicate NotAfter(a: GraphNode, b: GraphNode) {
    Before(a, b) || (a.key == b.key && a.id == b.id)
  }

  lemma NotAfterTransitive(a: GraphNode, b: GraphNode, c: GraphNode)
    requires NotAfter(a, b) && NotAfter(b, c)
    ensures NotAfter(a, c)
  {
    if Less(a.key, b.key) && Less(b.key, c.key) { LessTransitive(a.key, b.key, c.key); }
    if Less(a.id, b.id) && Less(b.id, c.id) { LessTransitive(a.id, b.id, c.id); }
  }

  lemma NotAfterTotal(a: GraphNode, b: GraphNode)
    ensures NotAfter(a, b) || NotAfter(b, a)
  {
    LessTotal(a.key, b.key);
    LessTotal(a.id, b.id);
  }

  predicate Ordered(s: seq<GraphNode>) {
    forall i, j | 0 <= i < j < |s| :: NotAfter(s[i], s[j])
  }

  function Insert(n: GraphNode, s: seq<GraphNode>): (r: seq<GraphNode>)
    requires Ordered(s)
    ensures Ordered(r) && |r| == |s| + 1
    ensures forall m :: m in r <==> m == n || m in s
  {
    if s == [] then [n]
    else if NotAfter(n, s[0]) then
      assert forall j | 0 < j < |s| :: NotAfter(n, s[j]) by {
        forall j | 0 < j < |s| ensures NotAfter(n, s[j]) { NotAfterTransitive(n, s[0], s[j]); }
      }
      [n] + s
    else
      var rest := Insert(n, s[1..]);
      assert s == [s[0]] + s[1..];
      assert NotAfter(s[0], n) by { NotAfterTotal(n, s[0]); }
      assert forall m | m in rest :: NotAfter(s[0], m);
      [s[0]] + rest
  }

  function Sort(nodes: seq<GraphNode>): (r: seq<GraphNode>)
    ensures Ordered(r)
    ensures forall m :: m in r <==> m in nodes
  {
    if nodes == [] then [] else
      assert nodes == [nodes[0]] + nodes[1..];
      Insert(nodes[0], Sort(nodes[1..]))
  }

  function Keys(s: seq<GraphNode>): (r: seq<string>)
    ensures |r| == |s|
  {
    seq(|s|, i requires 0 <= i < |s| => s[i].key)
  }

  /** The members of a set in the order of their keys. */
  ghost function Listing(s: set<GraphNode>): (r: seq<GraphNode>)
    ensures Ordered(r) && |r| == |s|
    ensures forall m :: m in r <==> m in s
  {
    if s == {} then [] else
      var n :| n in s;
      Insert(n, Listing(s - {n}))
  }

  /** A list in key order without repeated keys is determined by its members. */
  lemma ListingUnique(r: seq<GraphNode>, s: set<GraphNode>)
    requires UniqueKeys(s)
    requires StrictlySorted(Keys(r))
    requires forall m :: m in r <==> m in s
    ensures r == Listing(s)
  {
    var l := Listing(s);
    assert forall i | 0 <= i < |l| :: l[i] in s;
    assert forall i | 0 <= i < |r| :: r[i] in s;
    ListingKeysSorted(s);
    forall k ensures k in Keys(r) <==> k in Keys(l) {
      if k in Keys(r) {
        var i :| 0 <= i < |r| && Keys(r)[i] == k;
        assert r[i] in l;
        var j :| 0 <= j < |l| && l[j] == r[i];
        assert Keys(l)[j] == k;
      }
      if k in Keys(l) {
        var j :| 0 <= j < |l| && Keys(l)[j] == k;
        assert l[j] in r;
        var i :| 0 <= i < |r| && r[i] == l[j];
        assert Keys(r)[i] == k;
      }
    }
    SortedUnique(Keys(r), Keys(l));
    assert |r| == |l|;
    forall i | 0 <= i < |r| ensures r[i] == l[i] {
      assert Keys(r)[i] == r[i].key && Keys(l)[i] == l[i].key;
    }
  }

  lemma ListingKeysSorted(s: set<GraphNode>)
    requires UniqueKeys(s)
    ensures StrictlySorted(Keys(Listing(s)))
  {
    var l := Listing(s);
    ListingDistinct(s);
    forall i, j | 0 <= i < j < |l| ensures Less(l[i].key, l[j].key) {
      assert NotAfter(l[i], l[j]);
      assert l[i] in s && l[j] in s && l[i] != l[j];
    }
  }

  lemma ListingDistinct(s: set<GraphNode>)
    ensures forall i, j | 0 <= i < j < |Listing(s)| :: Listing(s)[i] != Listing(s)[j]
  {
    var l := Listing(s);
    forall i, j | 0 <= i < j < |l| ensures l[i] != l[j] {
      if l[i] == l[j] {
        WithoutRepeat(l, i, j);
        SetNoLongerThanList(s, l[..j] + l[j + 1..]);
      }
    }
  }

  /** Leaving out an element that occurs earlier loses nothing. */
  lemma WithoutRepeat(l: seq<GraphNode>, i: nat, j: nat)
    requires i < j < |l| && l[i] == l[j]
    ensures forall m | m in l :: m in l[..j] + l[j + 1..]
  {
    var shorter := l[..j] + l[j + 1..];
    forall m | m in l ensures m in shorter {
      var k :| 0 <= k < |l| && l[k] == m;
      assert if k < j then shorter[k] == m else if k > j then shorter[k - 1] == m else shorter[i] == m;
    }
  }

  lemma SetNoLongerThanList(s: set<GraphNode>, l: seq<GraphNode>)
    requires forall m | m in s :: m in l
    ensures |s| <= |l|
  {
    if l != [] {
      assert forall m | m in s - {l[0]} :: m in l[1..];
      SetNoLongerThanList(s - {l[0]}, l[1..]);
      assert |s - {l[0]}| >= |s| - 1;
    } else {
      assert s == {};
    }
  }

  // ---------- What a target means ----------

  predicate Speaks(node: GraphNode, language: Option<string>) {
    language.None? || node.language == language
  }

  predicate StartsWithSeparator(s: string) {
    StartsWith(s, "::") || StartsWith(s, ".") || StartsWith(s, "/")
  }

  predicate SimpleName(target: string) {
    !Contains(target, "::") && '.' !in target && '/' !in target && '\\' !in target
  }

  /** What one alias turns the target into, if it applies. */
  function AliasHit(target: string, alias: Alias): seq<string> {
    var name, replacement := Trim(alias.alias), Trim(alias.target);
    if name == "" || replacement == "" then []
    else if target == name then [replacement]
    else
      match StripPrefix(target, name)
      case Some(suffix) => if StartsWithSeparator(suffix) then [replacement + suffix] else []
      case None => []
  }

  function AliasHits(target: string, aliases: seq<Alias>): seq<string> {
    if aliases == [] then [] else AliasHits(target, aliases[..|aliases| - 1]) + AliasHit(target, aliases[|aliases| - 1])
  }

  predicate UsesAlias(target: string, aliases: seq<Alias>) {
    AliasHits(target, aliases) != []
  }

  function Expansions(target: string, aliases: seq<Alias>): seq<string> {
    if UsesAlias(target, aliases) then SortDedup(AliasHits(target, aliases)) else [target]
  }

  predicate BelongsTo(target: string, root: string) {
    var root := Trim(root);
    target == root || match StripPrefix(target, root) case Some(rest) => StartsWithSeparator(rest) case None => false
  }

  function ExternalTargets(expanded: seq<string>, roots: seq<string>): seq<string> {
    SortDedup(FilterRooted(expanded, roots))
  }

  function FilterRooted(expanded: seq<string>, roots: seq<string>): seq<string> {
    if expanded == [] then []
    else
      var rooted := exists r | r in roots :: BelongsTo(expanded[0], r);
      (if rooted then [expanded[0]] else []) + FilterRooted(expanded[1..], roots)
  }

  /** The name `target` would have next to `source` in the same container. */
  function SiblingName(source: string, target: string): Option<string> {
    match (LastIndexOf(source, "::"), LastIndexOf(source, "."))
    case (None, None) => None
    case (Some(i), None) => Some(source[..i] + "::" + target)
    case (None, Some(j)) => Some(source[..j] + "." + target)
    case (Some(i), Some(j)) => if j >= i then Some(source[..j] + "." + target) else Some(source[..i] + "::" + target)
  }

  ghost function Named(s: set<GraphNode>, name: string, language: Option<string>): set<GraphNode> {
    set n | n in s && n.name == name && Speaks(n, language)
  }

  ghost function Qualified(s: set<GraphNode>, names: seq<string>, language: Option<string>): set<GraphNode> {
    set n | n in s && n.qualifiedName.Some? && n.qualifiedName.value in names && Speaks(n, language)
  }

  ghost function Keyed(s: set<GraphNode>, key: string, language: Option<string>): set<GraphNode> {
    set n | n in s && n.key == key && Speaks(n, language)
  }

  ghost function Logical(s: set<GraphNode>, key: string, language: Option<string>): set<GraphNode> {
    set n | n in s && n.logicalKey == Some(key) && Speaks(n, language)
  }

  ghost function Local(s: set<GraphNode>, document: Option<string>): set<GraphNode> {
    if document.None? then {} else set n | n in s && n.documentId == document
  }

  ghost function Any(s: set<GraphNode>): (n: GraphNode)
    requires s != {}
    ensures n in s
  {
    var n :| n in s; n
  }

  /** No candidate, one candidate, or all of them in key order. */
  ghost function Finish(candidates: set<GraphNode>, basis: Basis, target: string): Outcome {
    if candidates == {} then UnresolvedAt(target)
    else if |candidates| == 1 then Resolved(Any(candidates), basis)
    else Ambiguous(Listing(candidates), [], basis)
  }

  ghost function SourceOf(s: set<GraphNode>, id: string): set<GraphNode> {
    set n | n in s && n.id == id
  }

  ghost function LocalKeyOutcome(source: Option<GraphNode>, document: Option<string>, language: Option<string>,
                                 target: string, s: set<GraphNode>): Outcome {
    var direct := Keyed(s, target, language);
    var symbol := if source.Some? then Keyed(s, SymbolStableKey(source.value.analyzerId, target), language) else {};
    var logical := Logical(s, target, language);
    if target == "" then UnresolvedAt(target)
    else if direct != {} then Resolved(Any(direct), ByLocalKey)
    else if symbol != {} then Resolved(Any(symbol), ByLocalKey)
    else Finish(if Local(logical, document) != {} then Local(logical, document) else logical, ByLocalKey, target)
  }

  /** Nodes that bear an alias expansion of the target as their qualified name. */
  ghost function AliasCandidates(language: Option<string>, aliases: seq<Alias>, target: string,
                                 s: set<GraphNode>): set<GraphNode> {
    if UsesAlias(target, aliases) then Qualified(s, Expansions(target, aliases), language) else {}
  }

  /** Nodes that would be siblings of the source under the target's name. */
  ghost function ContainerCandidates(source: Option<GraphNode>, language: Option<string>, target: string,
                                     s: set<GraphNode>): set<GraphNode> {
    if SimpleName(target) && source.Some? && source.value.qualifiedName.Some? then
      match SiblingName(source.value.qualifiedName.value, target)
      case Some(name) => Qualified(s, [name], language)
      case None => {}
    else {}
  }

  /** What is left once neither an alias nor the source's container has a candidate. */
  ghost function PlainOutcome(document: Option<string>, language: Option<string>, target: string,
                              s: set<GraphNode>): Outcome {
    var exact := Qualified(s, [target], language);
    var named := Named(s, target, language);
    if exact != {} then Finish(exact, ByQualifiedName, target)
    else if SimpleName(target) && Local(named, document) != {} then Finish(Local(named, document), ByDocument, target)
    else if SimpleName(target) && named != {} then Finish(named, ByWorkspaceName, target)
    else UnresolvedAt(target)
  }

  ghost function QualifiedOutcome(source: Option<GraphNode>, document: Option<string>, language: Option<string>,
                                  aliases: seq<Alias>, target: string, s: set<GraphNode>): Outcome {
    var aliased := AliasCandidates(language, aliases, target, s);
    var siblings := ContainerCandidates(source, language, target, s);
    if target == "" then UnresolvedAt(target)
    else if aliased != {} then Finish(aliased, ByAlias, target)
    else if siblings != {} then Finish(siblings, ByContainer, target)
    else PlainOutcome(document, language, target, s)
  }

  /** Modules found under any expansion, by qualified name or by file path. */
  ghost function ModuleCandidates(language: Option<string>, aliases: seq<Alias>, target: string,
                                  s: set<GraphNode>): set<GraphNode> {
    var expanded := Expansions(target, aliases);
    set n | n in s && Speaks(n, language) &&
            ((ModuleLike(n) && n.qualifiedName.Some? && n.qualifiedName.value in expanded) ||
             exists e | e in expanded :: n.key == FileStableKey(e))
  }

  ghost function NamedModules(language: Option<string>, target: string, s: set<GraphNode>): set<GraphNode> {
    if SimpleName(target) then set n | n in Named(s, target, language) && ModuleLike(n) else {}
  }

  ghost function ModuleChoice(candidates: set<GraphNode>, external: seq<string>, usedAlias: bool,
                              target: string): Outcome {
    if (usedAlias && candidates != {} && external != []) || |external| > 1 then
      Ambiguous(Listing(candidates), external, ByAlias)
    else if candidates != {} then Finish(candidates, if usedAlias then ByAlias else ByModule, target)
    else if external != [] then ExternalTo(external[|external| - 1])
    else UnresolvedAt(target)
  }

  ghost function ModuleOutcome(language: Option<string>, aliases: seq<Alias>, roots: seq<string>, target: string,
                               s: set<GraphNode>): Outcome {
    var found := ModuleCandidates(language, aliases, target, s);
    if target == "" then UnresolvedAt(target)
    else ModuleChoice(
      if found != {} then found else NamedModules(language, target, s),
      ExternalTargets(Expansions(target, aliases), roots),
      UsesAlias(target, aliases),
      target)
  }

  ghost function RequestLanguage(request: Request, source: Option<GraphNode>): Option<string> {
    if request.language.Some? then request.language
    else if source.Some? then source.value.language
    else None
  }

  ghost function RequestDocument(request: Request, source: Option<GraphNode>): Option<string> {
    if request.sourceDocument.Some? then request.sourceDocument
    else if source.Some? then source.value.documentId
    else None
  }

  ghost function OutcomeFrom(request: Request, source: Option<GraphNode>, s: set<GraphNode>): Outcome {
    var language, document, target := RequestLanguage(request, source), RequestDocument(request, source),
        Trim(request.target);
    match request.kind
    case LocalStableKey => LocalKeyOutcome(source, document, language, target, s)
    case QualifiedSymbol => QualifiedOutcome(source, document, language, request.aliases, target, s)
    case ModulePath => ModuleOutcome(language, request.aliases, request.externalRoots, target, s)
    case External => if target == "" then UnresolvedAt(target) else ExternalTo(target)
    case Unresolved => UnresolvedAt(target)
    case OtherKind(_) => UnresolvedAt(target)
  }

  /** The meaning of a request: it depends on which nodes there are, not on their order. */
  ghost function Meaning(request: Request, s: set<GraphNode>): Resolution {
    match request.sourceNode
    case None => Found(OutcomeFrom(request, None, s))
    case Some(id) =>
      if SourceOf(s, id) == {} then SourceMissing(id)
      else Found(OutcomeFrom(request, Some(Any(SourceOf(s, id))), s))
  }

  // ---------- What a resolution guarantees ----------

  ghost function MeaningLanguage(request: Request, s: set<GraphNode>): Option<string> {
    if request.sourceNode.Some? && SourceOf(s, request.sourceNode.value) != {}
    then RequestLanguage(request, Some(Any(SourceOf(s, request.sourceNode.value))))
    else request.language
  }

  /** A resolved node is one of the nodes and speaks the language; ambiguous candidates do too, are listed in
      key order without repetition, and are at least two unless external targets add to the ambiguity. */
  ghost predicate SoundOutcome(outcome: Outcome, s: set<GraphNode>, language: Option<string>) {
    match outcome
    case Resolved(node, _) => node in s && Speaks(node, language)
    case Ambiguous(candidates, external, _) =>
      && StrictlySorted(Keys(candidates)) && DistinctIds(candidates)
      && (forall n | n in candidates :: n in s && Speaks(n, language))
      && StrictlySorted(external)
      && (external == [] ==> |candidates| >= 2)
    case _ => true
  }

  lemma ListingSound(part: set<GraphNode>, s: set<GraphNode>)
    requires Unique(s) && part <= s
    ensures StrictlySorted(Keys(Listing(part))) && DistinctIds(Listing(part))
  {
    ListingKeysSorted(part);
    ListingDistinct(part);
    var l := Listing(part);
    forall i, j | 0 <= i < j < |l| ensures l[i].id != l[j].id {
      assert l[i] in part && l[j] in part && l[i] != l[j];
    }
  }

  lemma FinishSound(part: set<GraphNode>, basis: Basis, target: string, s: set<GraphNode>, language: Option<string>)
    requires Unique(s) && part <= s && forall n | n in part :: Speaks(n, language)
    ensures SoundOutcome(Finish(part, basis, target), s, language)
  {
    ListingSound(part, s);
    if part != {} && |part| != 1 {
      assert |part| >= 2;
    }
  }

  lemma KeyedSound(s: set<GraphNode>, key: string, language: Option<string>)
    requires Keyed(s, key, language) != {}
    ensures var n := Any(Keyed(s, key, language)); n in s && Speaks(n, language)
  {
    assert Any(Keyed(s, key, language)) in Keyed(s, key, language);
  }

  lemma LocalKeySound(source: Option<GraphNode>, document: Option<string>, language: Option<string>, target: string,
                      s: set<GraphNode>)
    requires Unique(s)
    ensures SoundOutcome(LocalKeyOutcome(source, document, language, target, s), s, language)
  {
    var logical := Logical(s, target, language);
    var symbol := if source.Some? then SymbolStableKey(source.value.analyzerId, target) else "";
    if target == "" {
    } else if Keyed(s, target, language) != {} {
      KeyedSound(s, target, language);
    } else if source.Some? && Keyed(s, symbol, language) != {} {
      KeyedSound(s, symbol, language);
    } else {
      var pool := if Local(logical, document) != {} then Local(logical, document) else logical;
      FinishSound(pool, ByLocalKey, target, s, language);
    }
  }

  lemma QualifiedSound(source: Option<GraphNode>, document: Option<string>, language: Option<string>,
                       aliases: seq<Alias>, target: string, s: set<GraphNode>)
    requires Unique(s)
    ensures SoundOutcome(QualifiedOutcome(source, document, language, aliases, target, s), s, language)
  {
    var named := Named(s, target, language);
    FinishSound(AliasCandidates(language, aliases, target, s), ByAlias, target, s, language);
    FinishSound(ContainerCandidates(source, language, target, s), ByContainer, target, s, language);
    FinishSound(Qualified(s, [target], language), ByQualifiedName, target, s, language);
    FinishSound(Local(named, document), ByDocument, target, s, language);
    FinishSound(named, ByWorkspaceName, target, s, language);
  }

  lemma ModuleChoiceSound(pool: set<GraphNode>, external: seq<string>, used: bool, target: string, s: set<GraphNode>,
                          language: Option<string>)
    requires Unique(s) && pool <= s && StrictlySorted(external)
    requires forall n | n in pool :: Speaks(n, language)
    ensures SoundOutcome(ModuleChoice(pool, external, used, target), s, language)
  {
    FinishSound(pool, if used then ByAlias else ByModule, target, s, language);
    if (used && pool != {} && external != []) || |external| > 1 {
      ListingSound(pool, s);
    }
  }

  lemma ModuleSound(language: Option<string>, aliases: seq<Alias>, roots: seq<string>, target: string,
                    s: set<GraphNode>)
    requires Unique(s)
    ensures SoundOutcome(ModuleOutcome(language, aliases, roots, target, s), s, language)
  {
    var found, named := ModuleCandidates(language, aliases, target, s), NamedModules(language, target, s);
    var external := ExternalTargets(Expansions(target, aliases), roots);
    ModuleChoiceSound(if found != {} then found else named, external, UsesAlias(target, aliases), target, s, language);
  }

  lemma OutcomeSound(request: Request, source: Option<GraphNode>, s: set<GraphNode>)
    requires Unique(s)
    ensures SoundOutcome(OutcomeFrom(request, source, s), s, RequestLanguage(request, source))
  {
    var language, document, target := RequestLanguage(request, source), RequestDocument(request, source),
        Trim(request.target);
    match request.kind {
      case LocalStableKey => LocalKeySound(source, document, language, target, s);
      case QualifiedSymbol => QualifiedSound(source, document, language, request.aliases, target, s);
      case ModulePath => ModuleSound(language, request.aliases, request.externalRoots, target, s);
      case External =>
      case _ =>
    }
  }

  lemma ResolutionSound(request: Request, s: set<GraphNode>)
    requires Unique(s)
    ensures Meaning(request, s).Found? ==> SoundOutcome(Meaning(request, s).outcome, s, MeaningLanguage(request, s))
  {
    if request.sourceNode.None? {
      OutcomeSound(request, None, s);
    } else if SourceOf(s, request.sourceNode.value) != {} {
      OutcomeSound(request, Some(Any(SourceOf(s, request.sourceNode.value))), s);
    }
  }

  lemma PermutedSet(nodes: seq<GraphNode>, permuted: seq<GraphNode>)
    requires multiset(nodes) == multiset(permuted)
    ensures NodeSet(nodes) == NodeSet(permuted)
  {
    assert forall n :: n in nodes <==> n in multiset(permuted);
  }

  ghost predicate DistinctIds(r: seq<GraphNode>) {
    forall i, j | 0 <= i < j < |r| :: r[i].id != r[j].id
  }

  // ---------- The resolver ----------

  ghost function IdSet(nodes: seq<GraphNode>): set<string> {
    set n | n in nodes :: n.id
  }

  ghost predicate SameIds(a: seq<GraphNode>, b: seq<GraphNode>) {
    IdSet(a) == IdSet(b)
  }

  /** Sorts by key and id, then keeps the first node of each id. */
  method Deduplicate(candidates: seq<GraphNode>, ghost universe: set<GraphNode>) returns (r: seq<GraphNode>)
    requires NodeSet(candidates) <= universe
    ensures Ordered(r) && DistinctIds(r)
    ensures forall n | n in r :: n in candidates
    ensures SameIds(candidates, r)
    ensures Unique(universe) ==> r == Listing(NodeSet(candidates))
  {
    var sorted := Sort(candidates);
    var ids: set<string> := {};
    r := [];
    for k := 0 to |sorted|
      invariant ids == IdSet(r)
      invariant forall n | n in r :: n in sorted[..k]
      invariant ids == IdSet(sorted[..k])
      invariant Ordered(r) && DistinctIds(r)
    {
      var node := sorted[k];
      if node.id !in ids {
        forall n | n in r ensures NotAfter(n, node) {
          var i :| 0 <= i < |sorted[..k]| && sorted[..k][i] == n;
          assert NotAfter(sorted[i], sorted[k]);
        }
        ids := ids + {node.id};
        r := r + [node];
      }
    }
    assert sorted[..|sorted|] == sorted;
    if Unique(universe) {
      SubsetUnique(universe, NodeSet(candidates));
      DeduplicatedIsListing(candidates, r);
    }
  }

  lemma DeduplicatedIsListing(candidates: seq<GraphNode>, r: seq<GraphNode>)
    requires Unique(NodeSet(candidates))
    requires Ordered(r) && DistinctIds(r)
    requires forall n | n in r :: n in candidates
    requires SameIds(candidates, r)
    ensures r == Listing(NodeSet(candidates))
  {
    var s := NodeSet(candidates);
    forall n | n in s ensures n in r {
      assert n.id in IdSet(candidates);
      var m :| m in r && m.id == n.id;
      assert m in s;
    }
    KeysAscend(r, s);
    ListingUnique(r, s);
  }

  lemma KeysAscend(r: seq<GraphNode>, s: set<GraphNode>)
    requires UniqueKeys(s) && Ordered(r) && DistinctIds(r)
    requires forall n | n in r :: n in s
    ensures StrictlySorted(Keys(r))
  {
    var keys := Keys(r);
    forall i, j | 0 <= i < j < |keys| ensures Less(keys[i], keys[j]) {
      var a, b := r[i], r[j];
      assert a in s && b in s;
      assert NotAfter(a, b) && a.id != b.id;
    }
  }

  method FinishList(candidates: seq<GraphNode>, basis: Basis, target: string, ghost universe: set<GraphNode>)
    returns (outcome: Outcome)
    requires NodeSet(candidates) <= universe
    ensures Unique(universe) ==> outcome == Finish(NodeSet(candidates), basis, target)
  {
    var distinct := Deduplicate(candidates, universe);
    ghost var s := NodeSet(candidates);
    if |distinct| == 0 {
      outcome := UnresolvedAt(target);
    } else if |distinct| == 1 {
      outcome := Resolved(distinct[0], basis);
      assert Unique(universe) ==> Any(s) in distinct;
    } else {
      outcome := Ambiguous(distinct, [], basis);
    }
  }

  method ExpandAliases(target: string, aliases: seq<Alias>) returns (expanded: seq<string>, used: bool)
    ensures used == UsesAlias(target, aliases)
    ensures expanded == Expansions(target, aliases)
    ensures StrictlySorted(expanded) && expanded != []
  {
    expanded := [];
    for i := 0 to |aliases|
      invariant expanded == AliasHits(target, aliases[..i])
    {
      assert aliases[..i + 1][..i] == aliases[..i];
      var name, replacement := Trim(aliases[i].alias), Trim(aliases[i].target);
      if name == "" || replacement == "" {
        continue;
      }
      if target == name {
        expanded := expanded + [replacement];
        continue;
      }
      var suffix := StripPrefix(target, name);
      if suffix.Some? && StartsWithSeparator(suffix.value) {
        expanded := expanded + [replacement + suffix.value];
      }
    }
    assert aliases[..|aliases|] == aliases;
    used := expanded != [];
    if !used {
      expanded := expanded + [target];
    }
    var unsorted := expanded;
    expanded := SortDedup(expanded);
    if !used {
      SortedUnique(expanded, [target]);
    } else {
      assert unsorted[0] in expanded;
    }
  }

  lemma SubsetUnique(s: set<GraphNode>, t: set<GraphNode>)
    requires Unique(s) && t <= s
    ensures Unique(t)
  {}

  method ResolveLocalKey(source: Option<GraphNode>, document: Option<string>, language: Option<string>,
                         rawTarget: string, nodes: seq<GraphNode>)
    returns (outcome: Outcome)
    ensures Unique(NodeSet(nodes)) ==>
      outcome == LocalKeyOutcome(source, document, language, Trim(rawTarget), NodeSet(nodes))
  {
    var target := Trim(rawTarget);
    if target == "" {
      return UnresolvedAt(target);
    }
    var s := NodeSet(nodes);
    var hit := Find(nodes, (n: GraphNode) => n.key == target);
    if hit.Some? && Speaks(hit.value, language) {
      assert Unique(s) ==> Keyed(s, target, language) == {hit.value};
      return Resolved(hit.value, ByLocalKey);
    }
    assert Unique(s) ==> Keyed(s, target, language) == {};
    if source.Some? {
      var key := SymbolStableKey(source.value.analyzerId, target);
      hit := Find(nodes, (n: GraphNode) => n.key == key);
      if hit.Some? && Speaks(hit.value, language) {
        assert Unique(s) ==> Keyed(s, key, language) == {hit.value};
        return Resolved(hit.value, ByLocalKey);
      }
      assert Unique(s) ==> Keyed(s, key, language) == {};
    }
    outcome := ResolveLogicalKey(document, language, target, nodes);
  }

  /** The nodes with that logical key; of these, the ones of the document if there are any. */
  method ResolveLogicalKey(document: Option<string>, language: Option<string>, target: string, nodes: seq<GraphNode>)
    returns (outcome: Outcome)
    ensures Unique(NodeSet(nodes)) ==>
      outcome == var logical := Logical(NodeSet(nodes), target, language);
        Finish(if Local(logical, document) != {} then Local(logical, document) else logical, ByLocalKey, target)
  {
    var candidates := Filter(nodes, (n: GraphNode) => Speaks(n, language) && n.logicalKey == Some(target));
    assert NodeSet(candidates) == Logical(NodeSet(nodes), target, language);
    if document.Some? {
      var local := Filter(candidates, (n: GraphNode) => n.documentId == document);
      assert NodeSet(local) == Local(NodeSet(candidates), document);
      EmptyListEmptySet(local);
      if local != [] {
        candidates := local;
      }
    }
    assert NodeSet(candidates) <= NodeSet(nodes);
    outcome := FinishList(candidates, ByLocalKey, target, NodeSet(nodes));
  }

  method ByQualifiedNameList(nodes: seq<GraphNode>, names: seq<string>, language: Option<string>)
    returns (r: seq<GraphNode>)
    ensures NodeSet(r) == Qualified(NodeSet(nodes), names, language)
    ensures r == [] <==> NodeSet(r) == {}
  {
    r := Filter(nodes,
                (n: GraphNode) => n.qualifiedName.Some? && n.qualifiedName.value in names && Speaks(n, language));
    assert r != [] ==> r[0] in NodeSet(r);
  }

  method ByNameList(nodes: seq<GraphNode>, name: string, language: Option<string>) returns (r: seq<GraphNode>)
    ensures NodeSet(r) == Named(NodeSet(nodes), name, language)
    ensures r == [] <==> NodeSet(r) == {}
  {
    r := Filter(nodes, (n: GraphNode) => n.name == name && Speaks(n, language));
    assert r != [] ==> r[0] in NodeSet(r);
  }

  /** Qualified-name matches of any of the given names, deduplicated. */
  method QualifiedCandidates(nodes: seq<GraphNode>, language: Option<string>, names: seq<string>)
    returns (r: seq<GraphNode>)
    ensures Unique(NodeSet(nodes)) ==> NodeSet(r) == Qualified(NodeSet(nodes), names, language)
    ensures NodeSet(r) <= NodeSet(nodes)
    ensures r == [] <==> NodeSet(r) == {}
  {
    var matches := ByQualifiedNameList(nodes, names, language);
    assert NodeSet(matches) <= NodeSet(nodes);
    r := Deduplicate(matches, NodeSet(nodes));
    assert Unique(NodeSet(nodes)) ==> NodeSet(r) == NodeSet(matches);
    assert r != [] ==> r[0] in NodeSet(r);
  }

  method ResolveQualified(source: Option<GraphNode>, document: Option<string>, language: Option<string>,
                          aliases: seq<Alias>, rawTarget: string, nodes: seq<GraphNode>)
    returns (outcome: Outcome)
    ensures Unique(NodeSet(nodes)) ==>
      outcome == QualifiedOutcome(source, document, language, aliases, Trim(rawTarget), NodeSet(nodes))
  {
    var target := Trim(rawTarget);
    if target == "" {
      return UnresolvedAt(target);
    }
    ghost var s := NodeSet(nodes);
    var expanded, used := ExpandAliases(target, aliases);
    if used {
      var aliased := QualifiedCandidates(nodes, language, expanded);
      if aliased != [] {
        assert NodeSet(aliased) <= NodeSet(nodes);
        outcome := FinishList(aliased, ByAlias, target, NodeSet(nodes));
        return;
      }
    }
    if SimpleName(target) && source.Some? && source.value.qualifiedName.Some? {
      var sibling := SiblingName(source.value.qualifiedName.value, target);
      if sibling.Some? {
        var siblings := ByQualifiedNameList(nodes, [sibling.value], language);
        if siblings != [] {
          assert NodeSet(siblings) <= NodeSet(nodes);
          outcome := FinishList(siblings, ByContainer, target, NodeSet(nodes));
          return;
        }
      }
    }
    outcome := ResolvePlain(document, language, target, nodes);
  }

  method ResolvePlain(document: Option<string>, language: Option<string>, target: string, nodes: seq<GraphNode>)
    returns (outcome: Outcome)
    ensures Unique(NodeSet(nodes)) ==> outcome == PlainOutcome(document, language, target, NodeSet(nodes))
  {
    var exact := ByQualifiedNameList(nodes, [target], language);
    assert NodeSet(exact) <= NodeSet(nodes);
    if exact != [] {
      outcome := FinishList(exact, ByQualifiedName, target, NodeSet(nodes));
      return;
    }
    if SimpleName(target) {
      var named := ByNameList(nodes, target, language);
      assert NodeSet(named) <= NodeSet(nodes);
      if document.Some? {
        var local := Filter(named, (n: GraphNode) => n.documentId == document);
        assert NodeSet(local) == Local(NodeSet(named), document);
        assert local != [] <==> NodeSet(local) != {} by { assert local != [] ==> local[0] in NodeSet(local); }
        if local != [] {
          assert NodeSet(local) <= NodeSet(nodes);
          outcome := FinishList(local, ByDocument, target, NodeSet(nodes));
          return;
        }
      }
      if named != [] {
        outcome := FinishList(named, ByWorkspaceName, target, NodeSet(nodes));
        return;
      }
    }
    outcome := UnresolvedAt(target);
  }

  predicate IsFileOf(node: GraphNode, language: Option<string>, paths: seq<string>) {
    Speaks(node, language) && exists e | e in paths :: node.key == FileStableKey(e)
  }

  lemma OneMorePath(node: GraphNode, language: Option<string>, paths: seq<string>, k: nat)
    requires k < |paths|
    ensures IsFileOf(node, language, paths[..k + 1])
       <==> IsFileOf(node, language, paths[..k]) || (Speaks(node, language) && node.key == FileStableKey(paths[k]))
  {
    assert paths[..k + 1] == paths[..k] + [paths[k]];
  }

  /** Module candidates by qualified name, then one file node per expansion pushed behind them. */
  method ModuleCandidateList(language: Option<string>, expanded: seq<string>, nodes: seq<GraphNode>)
    returns (candidates: seq<GraphNode>)
    ensures forall n | n in candidates :: n in nodes
    ensures Unique(NodeSet(nodes)) ==>
      forall n :: n in candidates <==>
        n in nodes && Speaks(n, language) &&
        ((ModuleLike(n) && n.qualifiedName.Some? && n.qualifiedName.value in expanded) ||
         exists e | e in expanded :: n.key == FileStableKey(e))
  {
    ghost var s := NodeSet(nodes);
    candidates := QualifiedCandidates(nodes, language, expanded);
    candidates := Filter(candidates, (n: GraphNode) => ModuleLike(n));
    ghost var named := candidates;
    assert Unique(s) ==> forall n :: n in named <==> n in Qualified(s, expanded, language) && ModuleLike(n) by {
      var found := Qualified(s, expanded, language);
      assert Unique(s) ==> forall n :: n in found <==> n in NodeSet(candidates) || (n in found && !ModuleLike(n));
    }
    assert forall n | n in candidates :: n in s;
    for k := 0 to |expanded|
      invariant forall n | n in candidates :: n in nodes
      invariant Unique(s) ==>
        forall n :: n in candidates <==> n in named || (n in nodes && IsFileOf(n, language, expanded[..k]))
    {
      var fileKey := FileStableKey(expanded[k]);
      var hit := Find(nodes, (n: GraphNode) => n.key == fileKey);
      ghost var before := candidates;
      if hit.Some? && Speaks(hit.value, language) {
        candidates := candidates + [hit.value];
      }
      if Unique(s) {
        forall n
          ensures n in candidates <==> n in named || (n in nodes && IsFileOf(n, language, expanded[..k + 1]))
        {
          OneMorePath(n, language, expanded, k);
          assert n in nodes && n.key == fileKey ==> hit.Some? && hit.value in s && n in s && n == hit.value;
          assert n in candidates <==> n in before || (n in nodes && Speaks(n, language) && n.key == fileKey);
        }
      }
    }
    assert expanded[..|expanded|] == expanded;
  }

  /** The module candidates; failing these, the modules that bear the target as their name. */
  method ModulePoolList(language: Option<string>, aliases: seq<Alias>, target: string, expanded: seq<string>,
                        nodes: seq<GraphNode>)
    returns (candidates: seq<GraphNode>)
    requires expanded == Expansions(target, aliases)
    ensures NodeSet(candidates) <= NodeSet(nodes)
    ensures Unique(NodeSet(nodes)) ==>
      NodeSet(candidates) ==
        var found := ModuleCandidates(language, aliases, target, NodeSet(nodes));
        if found != {} then found else NamedModules(language, target, NodeSet(nodes))
  {
    ghost var s := NodeSet(nodes);
    candidates := ModuleCandidateList(language, expanded, nodes);
    assert Unique(s) ==> NodeSet(candidates) == ModuleCandidates(language, aliases, target, s);
    EmptyListEmptySet(candidates);
    if candidates == [] && SimpleName(target) {
      var named := ByNameList(nodes, target, language);
      candidates := Filter(named, (n: GraphNode) => ModuleLike(n));
      assert forall n | n in named :: n in NodeSet(named);
    }
  }

  lemma EmptyListEmptySet(nodes: seq<GraphNode>)
    ensures nodes == [] <==> NodeSet(nodes) == {}
  {
    assert nodes != [] ==> nodes[0] in NodeSet(nodes);
  }

  method ChooseModule(candidates: seq<GraphNode>, external: seq<string>, used: bool, target: string,
                      ghost universe: set<GraphNode>)
    returns (outcome: Outcome)
    requires NodeSet(candidates) <= universe
    ensures Unique(universe) ==> outcome == ModuleChoice(NodeSet(candidates), external, used, target)
  {
    EmptyListEmptySet(candidates);
    if (used && candidates != [] && external != []) || |external| > 1 {
      var distinct := Deduplicate(candidates, universe);
      return Ambiguous(distinct, external, ByAlias);
    }
    if candidates != [] {
      outcome := FinishList(candidates, if used then ByAlias else ByModule, target, universe);
      return;
    }
    if external != [] {
      return ExternalTo(external[|external| - 1]);
    }
    outcome := UnresolvedAt(target);
  }

  method ResolveModule(language: Option<string>, aliases: seq<Alias>, roots: seq<string>, rawTarget: string,
                       nodes: seq<GraphNode>)
    returns (outcome: Outcome)
    ensures Unique(NodeSet(nodes)) ==>
      outcome == ModuleOutcome(language, aliases, roots, Trim(rawTarget), NodeSet(nodes))
  {
    var target := Trim(rawTarget);
    if target == "" {
      return UnresolvedAt(target);
    }
    var expanded, used := ExpandAliases(target, aliases);
    var candidates := ModulePoolList(language, aliases, target, expanded, nodes);
    outcome := ChooseModule(candidates, ExternalTargets(expanded, roots), used, target, NodeSet(nodes));
  }

  method ResolveAgainstNodes(request: Request, nodes: seq<GraphNode>) returns (resolution: Resolution)
    ensures Unique(NodeSet(nodes)) ==> resolution == Meaning(request, NodeSet(nodes))
    ensures resolution.SourceMissing? <==>
      request.sourceNode.Some? && (forall n | n in nodes :: n.id != request.sourceNode.value)
  {
    var source: Option<GraphNode> := None;
    if request.sourceNode.Some? {
      var id := request.sourceNode.value;
      source := Find(nodes, (n: GraphNode) => n.id == id);
      if source.None? {
        assert SourceOf(NodeSet(nodes), id) == {};
        return SourceMissing(id);
      }
      assert source.value in SourceOf(NodeSet(nodes), id);
      assert Unique(NodeSet(nodes)) ==> SourceOf(NodeSet(nodes), id) == {source.value};
    }
    var language := if request.language.Some? then request.language else if source.Some? then source.value.language
      else None;
    var document := if request.sourceDocument.Some? then request.sourceDocument else if source.Some? then
      source.value.documentId else None;
    var outcome;
    match request.kind {
      case LocalStableKey =>
        outcome := ResolveLocalKey(source, document, language, request.target, nodes);
      case QualifiedSymbol =>
        outcome := ResolveQualified(source, document, language, request.aliases, request.target, nodes);
      case ModulePath =>
        outcome := ResolveModule(language, request.aliases, request.externalRoots, request.target, nodes);
      case External =>
        outcome := if Trim(request.target) == "" then UnresolvedAt(Trim(request.target))
          else ExternalTo(Trim(request.target));
      case _ =>
        outcome := UnresolvedAt(Trim(request.target));
    }
    resolution := Found(outcome);
  }

  /** Resolving against the same nodes in another order gives the same resolution. */
  method OrderNeverMatters(request: Request, nodes: seq<GraphNode>, permuted: seq<GraphNode>)
    returns (resolution: Resolution, other: Resolution)
    requires Unique(NodeSet(nodes)) && multiset(nodes) == multiset(permuted)
    ensures resolution == other
  {
    PermutedSet(nodes, permuted);
    resolution := ResolveAgainstNodes(request, nodes);
    other := ResolveAgainstNodes(request, permuted);
  }
}
