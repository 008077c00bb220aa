/** Building the nodes of one document, and what every built node is known to satisfy. */
module GraphRegistry {
  import opened Prelude
  import opened Strings
  import opened GraphDomain

  datatype SymbolKind =
    | FunctionSymbol | MethodSymbol | ClassSymbol | StructSymbol | EnumSymbol | TraitSymbol | InterfaceSymbol
    | ModuleSymbol | NamespaceSymbol | TypeSymbol | ConstantSymbol | VariableSymbol | ImplementationSymbol
    | OtherSymbol(other: string)

  datatype Symbol = Symbol(
    stableKey: string,
    name: string,
    qualifiedName: Option<string>,
    kind: SymbolKind,
    isTest: bool,
    startByte: nat,
    endByte: nat)

  datatype Document = Document(id: string, relativePath: string, language: string, analyzerId: string, sizeBytes: int)

  datatype Registration = Registered(nodes: seq<GraphNode>) | Rejected(reason: string)

  const FILE_ANALYZER_ID := "graph-core"

  function NodeTypeOf(kind: SymbolKind, isTest: bool): NodeType {
    if isTest then Test else
    match kind
    case FunctionSymbol => NodeType.Function
    case MethodSymbol => NodeType.Method
    case ClassSymbol => NodeType.Class
    case StructSymbol => NodeType.Struct
    case EnumSymbol => NodeType.Enum
    case TraitSymbol => NodeType.Trait
    case InterfaceSymbol => NodeType.Interface
    case ModuleSymbol => NodeType.Module
    case NamespaceSymbol => NodeType.Namespace
    case TypeSymbol => NodeType.Type
    case ConstantSymbol => NodeType.Constant
    case VariableSymbol => NodeType.Other("variable")
    case ImplementationSymbol => NodeType.Other("implementation")
    case OtherSymbol(value) => NodeType.Other(value)
  }

  function LastComponent(path: string): string {
    match LastIndexOf(path, "/")
    case Some(i) => path[i + 1..]
    case None => path
  }

  function FileNode(document: Document, id: string): GraphNode {
    var path := NormalizedPath(document.relativePath);
    GraphNode(id, FileStableKey(path), NodeType.File, Some(document.language), LastComponent(path), Some(path),
              Some(document.id), FILE_ANALYZER_ID, None)
  }

  function SymbolNode(document: Document, symbol: Symbol, id: string): GraphNode {
    GraphNode(id, SymbolStableKey(document.analyzerId, Trim(symbol.stableKey)), NodeTypeOf(symbol.kind, symbol.isTest),
              Some(document.language), symbol.name, symbol.qualifiedName, Some(document.id), document.analyzerId,
              Some(symbol.stableKey))
  }

  predicate ValidSymbol(symbol: Symbol) {
    Trim(symbol.stableKey) != "" && Trim(symbol.name) != "" && symbol.startByte <= symbol.endByte
  }

  /** Whether the document and all of its symbols can be registered. */
  predicate Registrable(document: Document, symbols: seq<Symbol>) {
    NormalizedPath(document.relativePath) != "" && document.sizeBytes >= 0 && forall s | s in symbols :: ValidSymbol(s)
  }

  /** The file node, then one node per symbol in order; `ids` supplies the fresh identifiers. */
  function DocumentNodes(document: Document, symbols: seq<Symbol>, ids: seq<string>): (r: seq<GraphNode>)
    requires |ids| == |symbols| + 1
    ensures |r| == |symbols| + 1
    ensures forall i | 0 <= i < |r| :: r[i].id == ids[i] && r[i].documentId == Some(document.id)
  {
    [FileNode(document, ids[0])] + SymbolNodes(document, symbols, ids)
  }

  function SymbolNodes(document: Document, symbols: seq<Symbol>, ids: seq<string>): (r: seq<GraphNode>)
    requires |ids| == |symbols| + 1
    ensures |r| == |symbols|
    ensures forall i | 0 <= i < |r| :: r[i] == SymbolNode(document, symbols[i], ids[i + 1])
    ensures forall i | 0 <= i < |r| :: r[i].id == ids[i + 1] && r[i].documentId == Some(document.id)
  {
    seq(|symbols|, i requires 0 <= i < |symbols| => SymbolNode(document, symbols[i], ids[i + 1]))
  }

  function SymbolFault(symbol: Symbol): (fault: Option<string>)
    ensures fault.None? <==> ValidSymbol(symbol)
  {
    if Trim(symbol.stableKey) == "" then Some("empty symbol stable key")
    else if Trim(symbol.name) == "" then Some("unnamed symbol")
    else if symbol.endByte < symbol.startByte then Some("invalid source range")
    else None
  }

  method NodesForDocument(document: Document, symbols: seq<Symbol>, ids: seq<string>) returns (r: Registration)
    requires |ids| == |symbols| + 1
    ensures r.Registered? <==> Registrable(document, symbols)
    ensures r.Registered? ==> r.nodes == DocumentNodes(document, symbols, ids)
  {
    if NormalizedPath(document.relativePath) == "" {
      return Rejected("symbol registration requires a non-empty document path");
    }
    if document.sizeBytes < 0 {
      return Rejected("document size cannot be negative during registration");
    }
    var fault := FirstFault(symbols);
    if fault.Some? {
      return Rejected(fault.value);
    }
    var nodes := PushSymbols(document, symbols, ids);
    r := Registered(nodes);
  }

  /** Each symbol is checked before its node is built. */
  method FirstFault(symbols: seq<Symbol>) returns (fault: Option<string>)
    ensures fault.None? <==> forall s | s in symbols :: ValidSymbol(s)
  {
    for i := 0 to |symbols|
      invariant forall j | 0 <= j < i :: ValidSymbol(symbols[j])
    {
      fault := SymbolFault(symbols[i]);
      if fault.Some? {
        assert symbols[i] in symbols;
        return;
      }
    }
    fault := None;
  }

  method PushSymbols(document: Document, symbols: seq<Symbol>, ids: seq<string>) returns (nodes: seq<GraphNode>)
    requires |ids| == |symbols| + 1
    ensures nodes == DocumentNodes(document, symbols, ids)
  {
    var file := FileNode(document, ids[0]);
    ghost var all := SymbolNodes(document, symbols, ids);
    nodes := [file];
    for i := 0 to |symbols|
      invariant nodes == [file] + all[..i]
    {
      var node := SymbolNode(document, symbols[i], ids[i + 1]);
      assert node == all[i];
      nodes := nodes + [node];
    }
    assert all[..|symbols|] == all;
  }

  /** What registration guarantees of a node once analyzer ids hold no `:` and
      languages and type names hold no `|`, the two characters keys are joined with. */
  predicate WellFormed(node: GraphNode) {
    && node.documentId.Some?
    && node.language.Some?
    && '|' !in node.language.value
    && '|' !in node.nodeType.StorageName()
    && (match node.logicalKey
        case None =>
          node.nodeType == NodeType.File && FILE_PREFIX <= node.key && node.analyzerId == FILE_ANALYZER_ID
        case Some(logical) =>
          ':' !in node.analyzerId && node.key == SymbolStableKey(node.analyzerId, Trim(logical)))
  }

  /** What an analyzer has to respect for its nodes to be well formed. */
  predicate PlainDocument(document: Document, symbols: seq<Symbol>) {
    && ':' !in document.analyzerId
    && '|' !in document.language
    && forall s | s in symbols :: s.kind.OtherSymbol? ==> '|' !in s.kind.other
  }

  lemma RegisteredNodesWellFormed(document: Document, symbols: seq<Symbol>, ids: seq<string>)
    requires |ids| == |symbols| + 1 && PlainDocument(document, symbols)
    ensures forall n | n in DocumentNodes(document, symbols, ids) :: WellFormed(n) && n.documentId == Some(document.id)
  {
    var nodes := SymbolNodes(document, symbols, ids);
    FileNodeWellFormed(document, ids[0]);
    forall k | 0 <= k < |nodes| ensures WellFormed(nodes[k]) {
      assert symbols[k] in symbols;
      SymbolNodeWellFormed(document, symbols[k], ids[k + 1]);
    }
  }

  lemma FileNodeWellFormed(document: Document, id: string)
    requires '|' !in document.language
    ensures WellFormed(FileNode(document, id))
  {
    FixedNamePlain(NodeType.File);
  }

  lemma SymbolNodeWellFormed(document: Document, symbol: Symbol, id: string)
    requires ':' !in document.analyzerId && '|' !in document.language
    requires symbol.kind.OtherSymbol? ==> '|' !in symbol.kind.other
    ensures WellFormed(SymbolNode(document, symbol, id))
  {
    TypeNamePlain(symbol);
  }

  lemma FixedNamePlain(nodeType: NodeType)
    requires !nodeType.Other?
    ensures '|' !in nodeType.StorageName()
  {
    match nodeType {
      case Workspace => assert '|' !in "workspace";
      case Module => assert '|' !in "module";
      case Namespace => assert '|' !in "namespace";
      case Package => assert '|' !in "package";
      case File => assert '|' !in "file";
      case Class => assert '|' !in "class";
      case Struct => assert '|' !in "struct";
      case Enum => assert '|' !in "enum";
      case Trait => assert '|' !in "trait";
      case Interface => assert '|' !in "interface";
      case Function => assert '|' !in "function";
      case Method => assert '|' !in "method";
      case Constructor => assert '|' !in "constructor";
      case Type => assert '|' !in "type";
      case Constant => assert '|' !in "constant";
      case Test => assert '|' !in "test";
      case UnknownSymbol => assert '|' !in "unknown_symbol";
    }
  }

  lemma TypeNamePlain(symbol: Symbol)
    requires symbol.kind.OtherSymbol? ==> '|' !in symbol.kind.other
    ensures '|' !in NodeTypeOf(symbol.kind, symbol.isTest).StorageName()
  {
    var nodeType := NodeTypeOf(symbol.kind, symbol.isTest);
    if nodeType.Other? {
      assert nodeType.StorageName() == "other:" + nodeType.name;
    } else {
      FixedNamePlain(nodeType);
    }
  }

  /** A well-formed symbol key never looks like a file key. */
  lemma KeysDoNotMix(node: GraphNode, path: string)
    requires WellFormed(node) && node.key == FILE_PREFIX + path
    ensures node.logicalKey.None? && node.nodeType == NodeType.File
  {
    assert FILE_PREFIX[0] == 'f' && SYMBOL_PREFIX[0] == 's' && node.key[0] == 'f';
  }
}
