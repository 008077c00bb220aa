/** Everything a fact looks up, and updates during which no lookup changes unnoticed. */
module GraphLookups {
  import opened Prelude
  import opened Strings
  import opened GraphDomain
  import opened GraphResolver
  import opened GraphRegistry
  import opened GraphIncremental
  import opened GraphExactness

  // ---------- The terms a fact looks up ----------

  /** The name the target would have in the source's container. */
  function SiblingTerms(fact: Fact, source: GraphNode): set<Term> {
    if SimpleName(Trim(fact.target)) && source.qualifiedName.Some? then
      match SiblingName(source.qualifiedName.value, Trim(fact.target))
      case Some(name) => {Term(QualifiedSymbol, Trim(name))}
      case None => {}
    else {}
  }

  /** The target's own term, and those of its alias expansions, normalised paths and sibling name. */
  function LookupTerms(fact: Fact, source: GraphNode): set<Term> {
    var expanded := Expansions(Trim(fact.target), fact.aliases);
    {FactTerm(fact)} +
    match fact.kind
    case QualifiedSymbol => (set e | e in expanded :: Term(QualifiedSymbol, Trim(e))) + SiblingTerms(fact, source)
    case ModulePath =>
      (set e | e in expanded :: Term(ModulePath, Trim(e)))
        + (set e | e in expanded :: Term(ModulePath, Trim(NormalizedPath(e))))
    case _ => {}
  }

  /** The same nodes bear the term before and after, and it is not blank: no node bears a blank term. */
  ghost predicate SameBearers(before: set<GraphNode>, after: set<GraphNode>, term: Term) {
    term.value != "" && Bearers(before, term) == Bearers(after, term)
  }

  lemma QualifiedKept(before: set<GraphNode>, after: set<GraphNode>, names: seq<string>, language: Option<string>)
    requires forall e | e in names :: SameBearers(before, after, Term(QualifiedSymbol, Trim(e)))
    ensures Qualified(before, names, language) <= Qualified(after, names, language)
  {
    forall n | n in Qualified(before, names, language) ensures n in after {
      assert n in Bearers(before, Term(QualifiedSymbol, Trim(n.qualifiedName.value)));
    }
  }

  lemma SiblingsKept(fact: Fact, source: GraphNode, before: set<GraphNode>, after: set<GraphNode>)
    requires forall t | t in SiblingTerms(fact, source) :: SameBearers(before, after, t)
    ensures ContainerCandidates(Some(source), source.language, Trim(fact.target), before)
         <= ContainerCandidates(Some(source), source.language, Trim(fact.target), after)
  {
    if SimpleName(Trim(fact.target)) && source.qualifiedName.Some? {
      var sibling := SiblingName(source.qualifiedName.value, Trim(fact.target));
      if sibling.Some? {
        assert Term(QualifiedSymbol, Trim(sibling.value)) in SiblingTerms(fact, source);
        QualifiedKept(before, after, [sibling.value], source.language);
      }
    }
  }

  lemma FileKept(before: set<GraphNode>, after: set<GraphNode>, node: GraphNode, path: string)
    requires WellFormed(node) && node in before && node.key == FileStableKey(path)
    requires SameBearers(before, after, Term(ModulePath, Trim(NormalizedPath(path))))
    ensures node in after
  {
    KeysDoNotMix(node, NormalizedPath(path));
    assert StripPrefix(node.key, FILE_PREFIX) == Some(NormalizedPath(path));
    assert node in Bearers(before, Term(ModulePath, Trim(NormalizedPath(path))));
  }

  lemma ModulesKept(fact: Fact, language: Option<string>, before: set<GraphNode>, after: set<GraphNode>)
    requires forall n | n in before :: WellFormed(n)
    requires forall e | e in Expansions(Trim(fact.target), fact.aliases) ::
      SameBearers(before, after, Term(ModulePath, Trim(e)))
        && SameBearers(before, after, Term(ModulePath, Trim(NormalizedPath(e))))
    ensures ModuleCandidates(language, fact.aliases, Trim(fact.target), before)
         <= ModuleCandidates(language, fact.aliases, Trim(fact.target), after)
  {
    var expanded := Expansions(Trim(fact.target), fact.aliases);
    forall n | n in ModuleCandidates(language, fact.aliases, Trim(fact.target), before) ensures n in after {
      if ModuleLike(n) && n.qualifiedName.Some? && n.qualifiedName.value in expanded {
        assert n in Bearers(before, Term(ModulePath, Trim(n.qualifiedName.value)));
      } else {
        var e :| e in expanded && n.key == FileStableKey(e);
        FileKept(before, after, n, e);
      }
    }
  }

  ghost predicate LookupsSame(fact: Fact, source: GraphNode, before: set<GraphNode>, after: set<GraphNode>) {
    forall t | t in LookupTerms(fact, source) :: SameBearers(before, after, t)
  }

  lemma SymbolReachKept(fact: Fact, source: GraphNode, before: set<GraphNode>, after: set<GraphNode>)
    requires fact.kind == QualifiedSymbol && Trim(fact.target) != "" && LookupsSame(fact, source, before, after)
    ensures Chosen(fact, source, before) == Chosen(fact, source, after)
  {
    var expanded := Expansions(Trim(fact.target), fact.aliases);
    assert forall e | e in expanded :: Term(QualifiedSymbol, Trim(e)) in LookupTerms(fact, source);
    QualifiedKept(before, after, expanded, source.language);
    QualifiedKept(after, before, expanded, source.language);
    assert Qualified(before, expanded, source.language) == Qualified(after, expanded, source.language);
    SiblingsKept(fact, source, before, after);
    SiblingsKept(fact, source, after, before);
    assert ContainerCandidates(Some(source), source.language, Trim(fact.target), before)
        == ContainerCandidates(Some(source), source.language, Trim(fact.target), after);
  }

  lemma ModuleReachKept(fact: Fact, source: GraphNode, before: set<GraphNode>, after: set<GraphNode>)
    requires forall n | n in before + after :: WellFormed(n)
    requires fact.kind == ModulePath && Trim(fact.target) != "" && LookupsSame(fact, source, before, after)
    ensures ModuleCandidates(source.language, fact.aliases, Trim(fact.target), before)
         == ModuleCandidates(source.language, fact.aliases, Trim(fact.target), after)
    ensures NamedModules(source.language, Trim(fact.target), before)
      == NamedModules(source.language, Trim(fact.target), after)
  {
    assert forall e | e in Expansions(Trim(fact.target), fact.aliases) ::
      Term(ModulePath, Trim(e)) in LookupTerms(fact, source)
        && Term(ModulePath, Trim(NormalizedPath(e))) in LookupTerms(fact, source);
    ModulesKept(fact, source.language, before, after);
    ModulesKept(fact, source.language, after, before);
    assert SameBearers(before, after, FactTerm(fact));
    NamedModulesOwn(fact, source.language, before);
    NamedModulesOwn(fact, source.language, after);
  }

  /** A fact whose lookups find the same nodes reaches the same nodes. */
  lemma SameLookupsSameReach(fact: Fact, source: GraphNode, before: set<GraphNode>, after: set<GraphNode>)
    requires forall n | n in before + after :: WellFormed(n)
    requires LookupsSame(fact, source, before, after)
    ensures Beyond(fact, source, before) == Beyond(fact, source, after)
  {
    assert SameBearers(before, after, FactTerm(fact));
    if fact.kind == QualifiedSymbol {
      SymbolReachKept(fact, source, before, after);
    } else if fact.kind == ModulePath {
      ModuleReachKept(fact, source, before, after);
    }
  }

  // ---------- Lookups during an update ----------

  /** No term the fact looks up changes its surface, and none is blank. */
  ghost predicate LookupsUnchanged(g: Graph, document: string, nodes: set<GraphNode>, fact: Fact, source: GraphNode) {
    forall t | t in LookupTerms(fact, source) :: t.value != "" && t !in ChangedTerms(OwnNodes(g, document), nodes)
  }

  lemma SameReachHolds(reach: Reach, known: set<string>, gone: set<string>)
    requires known * gone == {} && reach.ids <= known
    ensures Holds(reach, reach, gone)
  {
    Apart(known, gone);
    assert reach.ids - gone == reach.ids;
  }

  lemma BeyondKnown(fact: Fact, source: GraphNode, nodes: set<GraphNode>)
    ensures Beyond(fact, source, nodes).ids <= Ids(nodes)
  {
    var target := Trim(fact.target);
    assert Chosen(fact, source, nodes).0 <= nodes;
    assert ModuleCandidates(source.language, fact.aliases, target, nodes) <= nodes;
  }

  /** Nothing is hidden from a fact none of whose lookups changed. */
  lemma UnchangedLookupsHold(g: Graph, document: string, nodes: set<GraphNode>, facts: set<Fact>, fact: Fact,
                             source: GraphNode)
    requires Valid(g) && Acceptable(g, document, nodes, facts)
    requires LookupsUnchanged(g, document, nodes, fact, source)
    ensures Holds(Beyond(fact, source, g.nodes), Beyond(fact, source, NodesAfter(g, document, nodes)),
                  Gone(g, document, nodes))
  {
    var after := NodesAfter(g, document, nodes);
    UpdateValid(g, document, nodes, facts);
    GoneIsGone(g, document, nodes, facts);
    forall t | t in LookupTerms(fact, source) ensures SameBearers(g.nodes, after, t) {
      UnchangedTermKeepsBearers(g, document, nodes, facts, t);
    }
    SameLookupsSameReach(fact, source, g.nodes, after);
    BeyondKnown(fact, source, after);
    SameReachHolds(Beyond(fact, source, after), Ids(after), Gone(g, document, nodes));
  }

  // ---------- Facts that only look up their own term ----------

  /** No alias applies, module targets are written normalised, and nodes the source's container
      offers under the target's name really bear that name. */
  ghost predicate OwnTermOnly(fact: Fact, source: GraphNode, nodes: set<GraphNode>) {
    var target := Trim(fact.target);
    && !UsesAlias(target, fact.aliases)
    && (fact.kind == ModulePath ==> NormalizedPath(target) == target)
    && (fact.kind == QualifiedSymbol ==>
          forall n | n in ContainerCandidates(Some(source), source.language, target, nodes) :: n.name == target)
  }

  lemma ContainerBearers(fact: Fact, source: GraphNode, nodes: set<GraphNode>)
    requires OwnTermOnly(fact, source, nodes) && fact.kind == QualifiedSymbol && Trim(fact.target) != ""
    ensures Chosen(fact, source, nodes) == Chosen(fact, source, Bearers(nodes, FactTerm(fact)))
    ensures Chosen(fact, source, nodes).0 <= Bearers(nodes, FactTerm(fact))
  {
    var target, own := Trim(fact.target), Bearers(nodes, FactTerm(fact));
    TrimIdempotent(fact.target);
    TrimmedTerm(QualifiedSymbol, target);
    var siblings := ContainerCandidates(Some(source), source.language, target, nodes);
    forall n | n in siblings ensures n in own {
      assert n.name == target;
    }
    SelectionsKeepOwn(fact, source, nodes, FactTerm(fact));
    assert siblings * own == siblings;
  }

  lemma ModuleBearers(fact: Fact, source: GraphNode, nodes: set<GraphNode>)
    requires OwnTermOnly(fact, source, nodes) && fact.kind == ModulePath && Trim(fact.target) != ""
    requires forall n | n in nodes :: WellFormed(n)
    ensures ModuleCandidates(source.language, fact.aliases, Trim(fact.target), nodes) <= Bearers(nodes, FactTerm(fact))
  {
    var target := Trim(fact.target);
    TrimIdempotent(fact.target);
    TrimmedTerm(ModulePath, target);
    assert Expansions(target, fact.aliases) == [target];
    forall n | n in ModuleCandidates(source.language, fact.aliases, target, nodes)
      ensures n in Bearers(nodes, FactTerm(fact))
    {
      if n.key == FileStableKey(target) {
        KeysDoNotMix(n, target);
        assert StripPrefix(n.key, FILE_PREFIX) == Some(target);
      }
    }
  }

  /** Such a fact has no candidate that does not bear its own term. */
  lemma OwnTermReach(fact: Fact, source: GraphNode, before: set<GraphNode>, after: set<GraphNode>)
    requires forall n | n in before + after :: WellFormed(n)
    requires Bearers(before, FactTerm(fact)) == Bearers(after, FactTerm(fact))
    requires OwnTermOnly(fact, source, before) && OwnTermOnly(fact, source, after)
    ensures Beyond(fact, source, before).ids == {} == Beyond(fact, source, after).ids
    ensures Beyond(fact, source, before).rule == Beyond(fact, source, after).rule
  {
    if Trim(fact.target) != "" && fact.kind == QualifiedSymbol {
      ContainerBearers(fact, source, before);
      ContainerBearers(fact, source, after);
    } else if Trim(fact.target) != "" && fact.kind == ModulePath {
      ModuleBearers(fact, source, before);
      ModuleBearers(fact, source, after);
    }
  }

  // ---------- Exact updates ----------

  /** The search notices whatever could change what the fact finds: no lookup of it changes, or it
      only looks up its own term. */
  ghost predicate Noticed(g: Graph, document: string, nodes: set<GraphNode>, fact: Fact, source: GraphNode) {
    || LookupsUnchanged(g, document, nodes, fact, source)
    || (OwnTermOnly(fact, source, g.nodes) && OwnTermOnly(fact, source, NodesAfter(g, document, nodes)))
  }

  /** That holds for every fact the update leaves alone. */
  ghost predicate AllNoticed(g: Graph, document: string, nodes: set<GraphNode>, facts: set<Fact>) {
    forall f, source | f in Untouched(g, document, nodes, facts) && SourceIs(g.nodes, f, source) ::
      Noticed(g, document, nodes, f, source)
  }

  lemma NoticedHolds(g: Graph, document: string, nodes: set<GraphNode>, facts: set<Fact>, fact: Fact, source: GraphNode)
    requires Valid(g) && Acceptable(g, document, nodes, facts)
    requires FactTerm(fact) !in ChangedTerms(OwnNodes(g, document), nodes)
    requires Noticed(g, document, nodes, fact, source)
    ensures Holds(Beyond(fact, source, g.nodes), Beyond(fact, source, NodesAfter(g, document, nodes)),
                  Gone(g, document, nodes))
  {
    if LookupsUnchanged(g, document, nodes, fact, source) {
      UnchangedLookupsHold(g, document, nodes, facts, fact, source);
    } else {
      UpdateValid(g, document, nodes, facts);
      UnchangedTermKeepsBearers(g, document, nodes, facts, FactTerm(fact));
      OwnTermReach(fact, source, g.nodes, NodesAfter(g, document, nodes));
      assert {} - Gone(g, document, nodes) == {};
    }
  }

  lemma NoticedNothingHidden(g: Graph, document: string, nodes: set<GraphNode>, facts: set<Fact>)
    requires Valid(g) && Acceptable(g, document, nodes, facts) && AllNoticed(g, document, nodes, facts)
    ensures NothingHidden(g, document, nodes, facts)
  {
    forall f | f in Untouched(g, document, nodes, facts)
      ensures SourceOf(g.nodes, f.fromNode) != {} && StillHolds(g, document, nodes, f)
    {
      var source :| SourceIs(g.nodes, f, source);
      SourceFound(g.nodes, f, source);
      assert Any({source}) == source;
      if FactTerm(f) in ChangedTerms(OwnNodes(g, document), nodes) {
        ChangedTermAffects(g, document, nodes, facts, f);
      }
      NoticedHolds(g, document, nodes, facts, f, source);
    }
  }

  /** If no lookup of an untouched fact changes, or the fact only looks up its own term, the update is exact. */
  lemma NoticedUpdateExact(g: Graph, document: string, nodes: set<GraphNode>, facts: set<Fact>)
    requires Valid(g) && Synced(g) && Acceptable(g, document, nodes, facts)
    requires AllNoticed(g, document, nodes, facts)
    ensures Projectable(g, document, nodes, facts)
    ensures Valid(Updated(g, document, nodes, facts)) && Synced(Updated(g, document, nodes, facts))
  {
    UpdateValid(g, document, nodes, facts);
    NoticedNothingHidden(g, document, nodes, facts);
    UpdateExact(g, document, nodes, facts);
  }
}
