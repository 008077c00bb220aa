/** The rows of the symbol graph and the keys that name them. */
module GraphDomain {
  import opened Prelude
  import opened Strings

  datatype NodeType =
    | Workspace | Module | Namespace | Package | File
    | Class | Struct | Enum | Trait | Interface
    | Function | Method | Constructor | Type | Constant | Test | UnknownSymbol
    | Other(name: string)
  {
    function StorageName(): string {
      match this
      case Workspace => "workspace"
      case Module => "module"
      case Namespace => "namespace"
      case Package => "package"
      case File => "file"
      case Class => "class"
      case Struct => "struct"
      case Enum => "enum"
      case Trait => "trait"
      case Interface => "interface"
      case Function => "function"
      case Method => "method"
      case Constructor => "constructor"
      case Type => "type"
      case Constant => "constant"
      case Test => "test"
      case UnknownSymbol => "unknown_symbol"
      case Other(value) => "other:" + value
    }
  }

  /** Storage names tell node types apart. */
  lemma StorageNameInjective(a: NodeType, b: NodeType)
    requires a.StorageName() == b.StorageName()
    ensures a == b
  {
    var x, y := a.StorageName(), b.StorageName();
    assert a.Other? <==> x[0] == 'o';
    assert b.Other? <==> y[0] == 'o';
    if a.Other? {
      assert x[6..] == a.name && y[6..] == b.name;
    } else {
      assert |x| == |y| && x[0] == y[0] && x[1] == y[1] && x[2] == y[2] && x[3] == y[3];
    }
  }

  datatype GraphNode = GraphNode(
    id: string,
    key: string,
    nodeType: NodeType,
    language: Option<string>,
    name: string,
    qualifiedName: Option<string>,
    documentId: Option<string>,
    analyzerId: string,
    logicalKey: Option<string>)

  datatype TargetKind = LocalStableKey | QualifiedSymbol | ModulePath | External | Unresolved | OtherKind(kind: string)

  datatype Alias = Alias(alias: string, target: string)

  /** A source-owned assertion that its node is related to whatever the target names. */
  datatype Fact = Fact(
    documentId: string,
    relationshipKey: string,
    fromNode: string,
    fromKey: string,
    edgeType: string,
    kind: TargetKind,
    target: string,
    aliases: seq<Alias>,
    externalRoots: seq<string>)
  {
    function Ident(): Identity { Identity(documentId, relationshipKey) }
  }

  datatype Identity = Identity(documentId: string, relationshipKey: string)

  datatype Basis = ByLocalKey | ByAlias | ByContainer | ByQualifiedName | ByDocument | ByWorkspaceName | ByModule

  /** What a relationship is published as: an edge, or a row that lists its candidates. */
  datatype Projection =
    | Edge(fromNode: string, toNode: string, edgeType: string, basis: Basis)
    | Dangling(state: DanglingState, candidates: set<string>, externalTargets: seq<string>, ambiguity: Option<Basis>)

  datatype DanglingState = IsAmbiguous | IsExternal | IsUnresolved

  predicate ModuleLike(node: GraphNode) {
    node.nodeType in {Module, Namespace, Package, File}
  }

  const FILE_PREFIX := "file:"
  const SYMBOL_PREFIX := "symbol:"

  function FileStableKey(path: string): string {
    FILE_PREFIX + NormalizedPath(path)
  }

  function SymbolStableKey(analyzerId: string, analyzerKey: string): string {
    SYMBOL_PREFIX + analyzerId + ":" + analyzerKey
  }

  /** Splitting at the first `:` undoes the symbol key, as long as analyzer ids hold no `:`. */
  lemma SymbolStableKeyInjective(a: string, k: string, b: string, m: string)
    requires ':' !in a && ':' !in b
    requires SymbolStableKey(a, k) == SymbolStableKey(b, m)
    ensures a == b && k == m
  {
    var left, right := SymbolStableKey(a, k), SymbolStableKey(b, m);
    assert left[7..] == a + ":" + k && right[7..] == b + ":" + m;
    SplitAtFirst(a, k, b, m, ':');
  }

  lemma SplitAtFirst(a: string, k: string, b: string, m: string, c: char)
    requires c !in a && c !in b
    requires a + [c] + k == b + [c] + m
    ensures a == b && k == m
  {
    var whole := a + [c] + k;
    assert whole[|a|] == c && whole[|b|] == c;
    assert forall i | 0 <= i < |a| :: whole[i] == a[i] != c;
    assert forall i | 0 <= i < |b| :: whole[i] == b[i] != c;
    assert |a| == |b|;
    assert a == whole[..|a|] && b == whole[..|b|];
    assert k == whole[|a| + 1..] && m == whole[|b| + 1..];
  }

  lemma SplitAtLast(a: string, k: string, b: string, m: string, c: char)
    requires c !in k && c !in m
    requires a + [c] + k == b + [c] + m
    ensures a == b && k == m
  {
    var whole := a + [c] + k;
    assert whole[|a|] == c && whole[|b|] == c;
    assert forall i | |a| < i < |whole| :: whole[i] == k[i - |a| - 1] != c;
    assert forall i | |b| < i < |whole| :: whole[i] == m[i - |b| - 1] != c;
    assert |a| == |b|;
    assert a == whole[..|a|] && b == whole[..|b|];
    assert k == whole[|a| + 1..] && m == whole[|b| + 1..];
  }

  /** Slashes only, no empty or `.` components, no surrounding blanks. */
  function NormalizedPath(path: string): string {
    Join(Components(Slashed(Trim(path))))
  }

  function Slashed(s: string): string {
    if s == [] then [] else [if s[0] == '\\' then '/' else s[0]] + Slashed(s[1..])
  }

  function Components(s: string): seq<string> {
    Keep(SplitSlash(s))
  }

  function Keep(parts: seq<string>): seq<string> {
    if parts == [] then []
    else (if parts[0] == "" || parts[0] == "." then [] else [parts[0]]) + Keep(parts[1..])
  }

  function Join(parts: seq<string>): string {
    if parts == [] then ""
    else if |parts| == 1 then parts[0]
    else parts[0] + "/" + Join(parts[1..])
  }
}
