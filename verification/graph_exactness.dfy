/** When an incremental update publishes exactly what resolving everything again would. */
module GraphExactness {
  import opened Prelude
  import opened Strings
  import opened GraphDomain
  import opened GraphResolver
  import opened GraphRegistry
  import opened GraphIncremental

  // ---------- Unchanged terms keep their nodes ----------

  lemma EntryInjective(a: GraphNode, b: GraphNode)
    requires WellFormed(a) && WellFormed(b) && Entry(a) == Entry(b)
    ensures a.key == b.key && a.nodeType == b.nodeType && a.language == b.language
  {
    var aHead, bHead := a.key + "|" + a.nodeType.StorageName(), b.key + "|" + b.nodeType.StorageName();
    SplitAtLast(aHead, a.language.value, bHead, b.language.value, '|');
    SplitAtLast(a.key, a.nodeType.StorageName(), b.key, b.nodeType.StorageName(), '|');
    StorageNameInjective(a.nodeType, b.nodeType);
  }

  /** Two nodes of one document with the same entry are the same node. */
  lemma EntryDecidesNode(before: set<GraphNode>, after: set<GraphNode>, a: GraphNode, b: GraphNode)
    requires KeepsIds(before, after) && KeepsNames(before, after)
    requires a in before && b in after && WellFormed(a) && WellFormed(b)
    requires a.documentId == b.documentId && Entry(a) == Entry(b)
    ensures a == b
  {
    EntryInjective(a, b);
    if a.logicalKey.Some? {
      SymbolStableKeyInjective(a.analyzerId, Trim(a.logicalKey.value), b.analyzerId, Trim(b.logicalKey.value));
    }
  }

  ghost predicate OfDocument(nodes: set<GraphNode>, document: string) {
    forall n | n in nodes :: WellFormed(n) && n.documentId == Some(document)
  }

  lemma SameSurfaceSameBearers(before: set<GraphNode>, after: set<GraphNode>, document: string, term: Term)
    requires KeepsIds(before, after) && KeepsNames(before, after) && OfDocument(before, document)
    requires OfDocument(after, document)
    requires Surface(before, term) == Surface(after, term)
    ensures Bearers(before, term) == Bearers(after, term)
  {
    forall n | n in Bearers(before, term) ensures n in Bearers(after, term) {
      assert Entry(n) in Surface(after, term);
      var m :| m in Bearers(after, term) && Entry(m) == Entry(n);
      EntryDecidesNode(before, after, n, m);
    }
    forall n | n in Bearers(after, term) ensures n in Bearers(before, term) {
      assert Entry(n) in Surface(before, term);
      var m :| m in Bearers(before, term) && Entry(m) == Entry(n);
      EntryDecidesNode(before, after, m, n);
    }
  }

  lemma UnlistedTermHasNoBearers(nodes: set<GraphNode>, term: Term)
    requires term !in AllTerms(nodes)
    ensures Bearers(nodes, term) == {}
  {}

  lemma UnionBearers(a: set<GraphNode>, b: set<GraphNode>, term: Term)
    ensures Bearers(a + b, term) == Bearers(a, term) + Bearers(b, term)
  {}

  /** The bearers of a term whose surface did not change are the same nodes before and after. */
  lemma UnchangedTermKeepsBearers(g: Graph, document: string, nodes: set<GraphNode>, facts: set<Fact>, term: Term)
    requires Valid(g) && Acceptable(g, document, nodes, facts)
    requires term !in ChangedTerms(OwnNodes(g, document), nodes)
    ensures Bearers(g.nodes, term) == Bearers(NodesAfter(g, document, nodes), term)
  {
    var own := OwnNodes(g, document);
    if term !in AllTerms(own) + AllTerms(nodes) {
      UnlistedTermHasNoBearers(own, term);
      UnlistedTermHasNoBearers(nodes, term);
    } else {
      SameSurfaceSameBearers(own, nodes, document, term);
    }
    assert g.nodes == (g.nodes - own) + own;
    UnionBearers(g.nodes - own, own, term);
    UnionBearers(g.nodes - own, nodes, term);
  }

  // ---------- Which candidates bear the target's own term ----------

  lemma TrimmedTerm(kind: TargetKind, value: string)
    requires Trimmed(value) && value != ""
    ensures AddTerm(kind, value) == {Term(kind, value)}
  {
    TrimIdempotent(value);
  }

  /** Every node the local-key rules can pick bears the local-key term of the target. */
  lemma LocalKeyBearers(nodes: set<GraphNode>, source: GraphNode, language: Option<string>, target: string)
    requires WellFormed(source) && forall n | n in nodes :: WellFormed(n)
    requires Trimmed(target) && target != ""
    ensures var bearers := Bearers(nodes, Term(LocalStableKey, target));
            && Keyed(nodes, target, language) == Keyed(bearers, target, language)
            && Keyed(nodes, SymbolStableKey(source.analyzerId, target), language)
            == Keyed(bearers, SymbolStableKey(source.analyzerId, target), language)
            && Logical(nodes, target, language) == Logical(bearers, target, language)
  {
    TrimmedTerm(LocalStableKey, target);
    var key := SymbolStableKey(source.analyzerId, target);
    forall n | n in nodes && n.key == key ensures Term(LocalStableKey, target) in NodeTerms(n) {
      assert key[0] == 's' && FILE_PREFIX[0] == 'f';
      assert n.logicalKey.Some?;
      if source.logicalKey.Some? {
        SymbolStableKeyInjective(source.analyzerId, target, n.analyzerId, Trim(n.logicalKey.value));
      } else {
        assert ':' !in FILE_ANALYZER_ID;
        SymbolStableKeyInjective(source.analyzerId, target, n.analyzerId, Trim(n.logicalKey.value));
      }
    }
  }

  lemma PlainBearers(nodes: set<GraphNode>, document: Option<string>, language: Option<string>, target: string)
    requires Trimmed(target) && target != ""
    ensures var bearers := Bearers(nodes, Term(QualifiedSymbol, target));
            && Qualified(nodes, [target], language) == Qualified(bearers, [target], language)
            && Named(nodes, target, language) == Named(bearers, target, language)
            && PlainOutcome(document, language, target, nodes) == PlainOutcome(document, language, target, bearers)
  {
    TrimmedTerm(QualifiedSymbol, target);
    var bearers := Bearers(nodes, Term(QualifiedSymbol, target));
    forall n | n in Qualified(nodes, [target], language) ensures n in bearers {
      assert AddOptionalTerm(QualifiedSymbol, n.qualifiedName) == {Term(QualifiedSymbol, target)};
    }
    assert Qualified(nodes, [target], language) == Qualified(bearers, [target], language);
    assert Named(nodes, target, language) == Named(bearers, target, language);
  }

  // ---------- The rules that look beyond the target's own term ----------

  /** Which rule applies, what it selects beyond the bearers of the target's own term, and whether the
      row stays ambiguous when some of that is lost. */
  datatype Reach = Reach(rule: Basis, ids: set<string>, ambiguous: bool)

  ghost function ModulePool(fact: Fact, language: Option<string>, nodes: set<GraphNode>): set<GraphNode> {
    var target := Trim(fact.target);
    var found := ModuleCandidates(language, fact.aliases, target, nodes);
    if found != {} then found else NamedModules(language, target, nodes)
  }

  function FactExternal(fact: Fact): seq<string> {
    ExternalTargets(Expansions(Trim(fact.target), fact.aliases), fact.externalRoots)
  }

  /** What the alias rule selects for a symbol target; failing that, what the container rule does. */
  ghost function Chosen(fact: Fact, source: GraphNode, nodes: set<GraphNode>): (set<GraphNode>, Basis) {
    var target, language := Trim(fact.target), source.language;
    var aliased := AliasCandidates(language, fact.aliases, target, nodes);
    var siblings := ContainerCandidates(Some(source), language, target, nodes);
    if aliased != {} then (aliased, ByAlias)
    else if siblings != {} then (siblings, ByContainer)
    else ({}, ByQualifiedName)
  }

  ghost predicate ModuleStaysAmbiguous(fact: Fact, found: set<GraphNode>, named: set<GraphNode>) {
    var external, used := FactExternal(fact), UsesAlias(Trim(fact.target), fact.aliases);
    || |Ids(found)| >= 2
    || (|external| > 1 && (found != {} || named == {}))
    || (used && external != [] && found != {})
  }

  /** What the alias, container and module-path rules select among the nodes that do not bear the target's
      own term, which is all that the search for affected relationships looks at. */
  ghost function Beyond(fact: Fact, source: GraphNode, nodes: set<GraphNode>): Reach {
    var target, language, own := Trim(fact.target), source.language, Bearers(nodes, FactTerm(fact));
    if target == "" then Reach(ByLocalKey, {}, false) else
    match fact.kind
    case QualifiedSymbol =>
      var (chosen, basis) := Chosen(fact, source, nodes);
      Reach(basis, Ids(chosen - own), |Ids(chosen)| >= 2)
    case ModulePath =>
      var found, named := ModuleCandidates(language, fact.aliases, target, nodes),
          NamedModules(language, target, nodes);
      Reach(if UsesAlias(target, fact.aliases) then ByAlias else ByModule, Ids(found - own),
            ModuleStaysAmbiguous(fact, found, named))
    case _ => Reach(ByLocalKey, {}, false)
  }

  /** The same rule selects the same hidden nodes; or it lost only deleted ones and stays ambiguous. */
  ghost predicate Holds(before: Reach, after: Reach, gone: set<string>) {
    && before.rule == after.rule
    && after.ids == before.ids - gone
    && (after.ids == before.ids || after.ambiguous)
  }

  lemma IdsCount(nodes: set<GraphNode>)
    requires UniqueIds(nodes)
    ensures |Ids(nodes)| == |nodes|
  {
    if nodes != {} {
      var n :| n in nodes;
      IdsCount(nodes - {n});
      assert Ids(nodes) == Ids(nodes - {n}) + {n.id};
      assert n.id !in Ids(nodes - {n});
    }
  }

  /** The published form of a candidate set only depends on its identifiers. */
  ghost function FinishRow(fact: Fact, ids: set<string>, basis: Basis): Projection {
    if ids == {} then Dangling(IsUnresolved, {}, [], None)
    else if |ids| == 1 then Edge(fact.fromNode, AnyId(ids), fact.edgeType, basis)
    else Dangling(IsAmbiguous, ids, [], Some(basis))
  }

  ghost function AnyId(ids: set<string>): (i: string)
    requires ids != {}
    ensures i in ids
  {
    var i :| i in ids; i
  }

  lemma SingletonId(ids: set<string>, i: string)
    requires |ids| == 1 && i in ids
    ensures ids == {i}
  {
    assert |ids - {i}| == 0;
  }

  lemma PublishOne(fact: Fact, nodes: set<GraphNode>, basis: Basis, target: string)
    requires |nodes| == 1 && |Ids(nodes)| == 1
    ensures Publish(fact, Finish(nodes, basis, target)) == FinishRow(fact, Ids(nodes), basis)
  {
    var n := Any(nodes);
    assert n.id in Ids(nodes);
    SingletonId(Ids(nodes), n.id);
    assert AnyId(Ids(nodes)) == n.id;
  }

  lemma PublishFinish(fact: Fact, nodes: set<GraphNode>, basis: Basis, target: string)
    requires UniqueIds(nodes)
    ensures Publish(fact, Finish(nodes, basis, target)) == FinishRow(fact, Ids(nodes), basis)
  {
    IdsCount(nodes);
    var outcome := Finish(nodes, basis, target);
    if |nodes| == 0 {
      assert nodes == {} && outcome == UnresolvedAt(target);
    } else if |nodes| == 1 {
      PublishOne(fact, nodes, basis, target);
    } else {
      PublishMany(fact, nodes, basis, target);
    }
  }

  lemma PublishMany(fact: Fact, nodes: set<GraphNode>, basis: Basis, target: string)
    requires |nodes| >= 2 && |Ids(nodes)| == |nodes|
    ensures Publish(fact, Finish(nodes, basis, target)) == FinishRow(fact, Ids(nodes), basis)
  {
    ListedIds(nodes);
    assert Finish(nodes, basis, target) == Ambiguous(Listing(nodes), [], basis);
  }

  lemma ListedIds(nodes: set<GraphNode>)
    ensures (set n | n in Listing(nodes) :: n.id) == Ids(nodes)
  {}

  /** Two rows of one rule agree after the cascade exactly when the rule's selection holds. */
  lemma FinishRowsAgree(fact: Fact, before: set<string>, after: set<string>, gone: set<string>, basis: Basis)
    requires before != {} && after * gone == {}
    requires Survives(FinishRow(fact, before, basis), gone)
    ensures Pruned(FinishRow(fact, before, basis), gone) == FinishRow(fact, after, basis)
        <==> (after == before - gone && (after == before || |after| >= 2))
  {
    if |before| == 1 {
      SingletonId(before, AnyId(before));
      if |after| == 1 {
        SingletonId(after, AnyId(after));
      }
    } else if after == before - gone {
      SubsetSize(after, before);
    }
    assert before - {} == before;
  }

  // ---------- One unaffected fact ----------

  ghost function Row(fact: Fact, source: GraphNode, nodes: set<GraphNode>): Projection {
    Publish(fact, OutcomeFrom(RequestOf(fact, source.language), Some(source), nodes))
  }

  function RowBasis(row: Projection): Option<Basis> {
    if row.Edge? then Some(row.basis) else row.ambiguity
  }

  lemma FinishRowBasis(fact: Fact, ids: set<string>, basis: Basis)
    requires ids != {}
    ensures RowBasis(FinishRow(fact, ids, basis)) == Some(basis)
  {}

  lemma FinishKnown(fact: Fact, candidates: set<GraphNode>, basis: Basis, target: string, nodes: set<GraphNode>)
    requires candidates <= nodes
    ensures var row := Publish(fact, Finish(candidates, basis, target)); row.Dangling? ==> row.candidates <= Ids(nodes)
    ensures RowBasis(Publish(fact, Finish(candidates, basis, target))) in {None, Some(basis)}
  {
    if |candidates| > 1 {
      ListedIds(candidates);
      assert Ids(candidates) <= Ids(nodes);
    }
  }

  lemma PlainKnown(fact: Fact, document: Option<string>, language: Option<string>, target: string,
                   nodes: set<GraphNode>)
    ensures var row := Publish(fact, PlainOutcome(document, language, target, nodes));
            && (row.Dangling? ==> row.candidates <= Ids(nodes))
            && RowBasis(row) != Some(ByAlias) && RowBasis(row) != Some(ByContainer)
  {
    var exact, named := Qualified(nodes, [target], language), Named(nodes, target, language);
    if exact != {} {
      FinishKnown(fact, exact, ByQualifiedName, target, nodes);
    } else if SimpleName(target) && Local(named, document) != {} {
      FinishKnown(fact, Local(named, document), ByDocument, target, nodes);
    } else if SimpleName(target) && named != {} {
      FinishKnown(fact, named, ByWorkspaceName, target, nodes);
    }
  }

  lemma LocalKeyKnown(fact: Fact, source: GraphNode, document: Option<string>, language: Option<string>,
                      target: string, nodes: set<GraphNode>)
    ensures var row := Publish(fact, LocalKeyOutcome(Some(source), document, language, target, nodes));
            row.Dangling? ==> row.candidates <= Ids(nodes)
  {
    var logical := Logical(nodes, target, language);
    FinishKnown(fact, logical, ByLocalKey, target, nodes);
    FinishKnown(fact, Local(logical, document), ByLocalKey, target, nodes);
  }

  /** The same rule selects the same identifiers; or it lost only deleted ones and two are left. */
  ghost predicate SelectionHolds(was: set<string>, wasBasis: Basis, now: set<string>, nowBasis: Basis,
                                 gone: set<string>) {
    wasBasis == nowBasis && now == was - gone && (now == was || |now| >= 2)
  }

  /** A rule that applies on neither, one or both sides: rows, with everything else abstracted. */
  lemma ChoicesAgree(fact: Fact, was: set<string>, wasBasis: Basis, now: set<string>, nowBasis: Basis,
                     plain: Projection, gone: set<string>)
    requires RowBasis(plain) != Some(ByAlias) && RowBasis(plain) != Some(ByContainer)
    requires plain.Dangling? ==> plain.candidates * gone == {}
    requires now * gone == {}
    requires if was == {} then wasBasis == ByQualifiedName else wasBasis in {ByAlias, ByContainer}
    requires if now == {} then nowBasis == ByQualifiedName else nowBasis in {ByAlias, ByContainer}
    requires was != {} ==> Survives(FinishRow(fact, was, wasBasis), gone)
    ensures (Pruned(if was != {} then FinishRow(fact, was, wasBasis) else plain, gone)
             == if now != {} then FinishRow(fact, now, nowBasis) else plain)
        <==> SelectionHolds(was, wasBasis, now, nowBasis, gone)
  {
    if was != {} && now != {} && wasBasis == nowBasis {
      FinishRowsAgree(fact, was, now, gone, wasBasis);
    } else if was == {} && now == {} {
      assert plain.Dangling? ==> plain.candidates - gone == plain.candidates;
    } else {
      if was != {} { FinishRowBasis(fact, was, wasBasis); }
      if now != {} { FinishRowBasis(fact, now, nowBasis); }
    }
  }

  /** Candidates that bear the own term are the same before and after, so only the others count. */
  lemma OwnPartCancels(was: set<GraphNode>, before: set<GraphNode>, now: set<GraphNode>, after: set<GraphNode>,
                       own: set<GraphNode>, gone: set<string>)
    requires UniqueIds(before) && UniqueIds(after) && Ids(after) * gone == {}
    requires was <= before && now <= after && own <= before * after && was * own == now * own
    ensures Ids(now) == Ids(was) <==> Ids(now - own) == Ids(was - own)
    ensures Ids(now) == Ids(was) - gone <==> Ids(now - own) == Ids(was - own) - gone
  {
    IdsSplit(was, before, own);
    IdsSplit(now, after, own);
    IdsDisjoint(own, after, gone);
    SharedPartCancels(Ids(was * own), Ids(was - own), Ids(now - own), Ids(own), gone);
  }

  lemma SharedPartCancels(shared: set<string>, was: set<string>, now: set<string>, own: set<string>, gone: set<string>)
    requires shared <= own && own * gone == {} && own * was == {} && own * now == {}
    ensures shared + now == shared + was <==> now == was
    ensures shared + now == (shared + was) - gone <==> now == was - gone
  {
    Apart(own, gone);
    Apart(own, was);
    Apart(own, now);
    assert (shared + was) - shared == was && (shared + now) - shared == now;
    assert ((shared + was) - gone) - shared == was - gone;
    assert (shared + was) - gone == shared + (was - gone);
  }

  lemma IdsSplit(part: set<GraphNode>, nodes: set<GraphNode>, own: set<GraphNode>)
    requires UniqueIds(nodes) && part <= nodes && own <= nodes
    ensures Ids(part) == Ids(part * own) + Ids(part - own)
    ensures Ids(own) * Ids(part - own) == {}
  {
    assert part == part * own + (part - own);
    assert forall n, m | n in own && m in part - own :: n.id != m.id;
  }

  lemma ChosenKeepsOwn(fact: Fact, source: GraphNode, before: set<GraphNode>, after: set<GraphNode>)
    requires Bearers(before, FactTerm(fact)) == Bearers(after, FactTerm(fact))
    requires Chosen(fact, source, before).1 == Chosen(fact, source, after).1
    ensures Chosen(fact, source, before).0 * Bearers(after, FactTerm(fact))
         == Chosen(fact, source, after).0 * Bearers(after, FactTerm(fact))
  {
    SelectionsKeepOwn(fact, source, before, FactTerm(fact));
    SelectionsKeepOwn(fact, source, after, FactTerm(fact));
  }

  /** Selecting among the bearers of a term is selecting and then looking which bear it. */
  lemma SelectionsKeepOwn(fact: Fact, source: GraphNode, nodes: set<GraphNode>, term: Term)
    ensures var target, language, own := Trim(fact.target), source.language, Bearers(nodes, term);
      && AliasCandidates(language, fact.aliases, target, nodes) * own
        == AliasCandidates(language, fact.aliases, target, own)
      && ContainerCandidates(Some(source), language, target, nodes) * own
      == ContainerCandidates(Some(source), language, target, own)
      && ModuleCandidates(language, fact.aliases, target, nodes) * own
        == ModuleCandidates(language, fact.aliases, target, own)
  {}

  lemma QualifiedRowsAgree(fact: Fact, source: GraphNode, before: set<GraphNode>, after: set<GraphNode>,
                           gone: set<string>)
    requires UniqueIds(before) && UniqueIds(after) && Ids(after) * gone == {}
    requires fact.kind == QualifiedSymbol && Trim(fact.target) != ""
    requires Bearers(before, FactTerm(fact)) == Bearers(after, FactTerm(fact))
    requires PlainOutcome(Some(fact.documentId), source.language, Trim(fact.target), before)
          == PlainOutcome(Some(fact.documentId), source.language, Trim(fact.target), after)
    requires Survives(Row(fact, source, before), gone)
    ensures Pruned(Row(fact, source, before), gone) == Row(fact, source, after)
        <==> Holds(Beyond(fact, source, before), Beyond(fact, source, after), gone)
  {
    var (was, wasBasis) := Chosen(fact, source, before);
    var (now, nowBasis) := Chosen(fact, source, after);
    ChosenRow(fact, source, before);
    ChosenRow(fact, source, after);
    PlainKnown(fact, Some(fact.documentId), source.language, Trim(fact.target), after);
    IdsDisjoint(now, after, gone);
    var plain := Publish(fact, PlainOutcome(Some(fact.documentId), source.language, Trim(fact.target), after));
    ChoicesAgree(fact, Ids(was), wasBasis, Ids(now), nowBasis, plain, gone);
    if wasBasis == nowBasis {
      ChosenKeepsOwn(fact, source, before, after);
      OwnPartCancels(was, before, now, after, Bearers(after, FactTerm(fact)), gone);
    }
  }

  lemma ChosenShape(fact: Fact, source: GraphNode, nodes: set<GraphNode>)
    ensures var (chosen, basis) := Chosen(fact, source, nodes);
      chosen <= nodes && if chosen == {} then basis == ByQualifiedName else basis in {ByAlias, ByContainer}
  {}

  /** The resolver's outcome for a symbol target, by the rule that applies. */
  lemma ChosenOutcome(fact: Fact, source: GraphNode, nodes: set<GraphNode>)
    requires fact.kind == QualifiedSymbol && Trim(fact.target) != ""
    ensures var (chosen, basis) := Chosen(fact, source, nodes);
      OutcomeFrom(RequestOf(fact, source.language), Some(source), nodes)
      == if chosen != {} then Finish(chosen, basis, Trim(fact.target))
         else PlainOutcome(Some(fact.documentId), source.language, Trim(fact.target), nodes)
  {}

  lemma ChosenRow(fact: Fact, source: GraphNode, nodes: set<GraphNode>)
    requires UniqueIds(nodes) && fact.kind == QualifiedSymbol && Trim(fact.target) != ""
    ensures var (chosen, basis) := Chosen(fact, source, nodes);
            && chosen <= nodes && (chosen == {} <==> Ids(chosen) == {})
            && (if chosen == {} then basis == ByQualifiedName else basis in {ByAlias, ByContainer})
            && Beyond(fact, source, nodes)
            == Reach(basis, Ids(chosen - Bearers(nodes, FactTerm(fact))), |Ids(chosen)| >= 2)
            && Row(fact, source, nodes) ==
               if chosen != {} then FinishRow(fact, Ids(chosen), basis)
               else Publish(fact, PlainOutcome(Some(fact.documentId), source.language, Trim(fact.target), nodes))
  {
    var (chosen, basis) := Chosen(fact, source, nodes);
    ChosenShape(fact, source, nodes);
    ChosenOutcome(fact, source, nodes);
    NoIdsNoNodes(chosen);
    PartUnique(chosen, nodes);
    PublishFinish(fact, chosen, basis, Trim(fact.target));
  }

  lemma PartUnique(part: set<GraphNode>, nodes: set<GraphNode>)
    requires UniqueIds(nodes) && part <= nodes
    ensures UniqueIds(part)
  {}

  lemma IdsNonempty(nodes: set<GraphNode>)
    requires nodes != {}
    ensures Ids(nodes) != {}
  {
    var n :| n in nodes;
    assert n.id in Ids(nodes);
  }

  lemma IdsDisjoint(part: set<GraphNode>, nodes: set<GraphNode>, gone: set<string>)
    requires part <= nodes && Ids(nodes) * gone == {}
    ensures Ids(part) * gone == {}
  {
    assert Ids(part) <= Ids(nodes);
  }

  /** The row of a module target, in terms of the identifiers its pool holds. */
  ghost function ModuleRow(fact: Fact, ids: set<string>, external: seq<string>, used: bool): Projection {
    if (used && ids != {} && external != []) || |external| > 1 then Dangling(IsAmbiguous, ids, external, Some(ByAlias))
    else if ids != {} then FinishRow(fact, ids, if used then ByAlias else ByModule)
    else if external != [] then Dangling(IsExternal, {}, [external[|external| - 1]], None)
    else Dangling(IsUnresolved, {}, [], None)
  }

  lemma ModuleRowIs(fact: Fact, source: GraphNode, nodes: set<GraphNode>)
    requires UniqueIds(nodes) && fact.kind == ModulePath && Trim(fact.target) != ""
    ensures var pool := ModulePool(fact, source.language, nodes);
            && pool <= nodes && (pool == {} <==> Ids(pool) == {})
            && Row(fact, source, nodes)
              == ModuleRow(fact, Ids(pool), FactExternal(fact), UsesAlias(Trim(fact.target), fact.aliases))
  {
    var pool, used := ModulePool(fact, source.language, nodes), UsesAlias(Trim(fact.target), fact.aliases);
    assert UniqueIds(pool);
    if pool != {} { IdsNonempty(pool); }
    PublishChoice(fact, pool, FactExternal(fact), used, Trim(fact.target));
  }

  lemma PublishChoice(fact: Fact, pool: set<GraphNode>, external: seq<string>, used: bool, target: string)
    requires UniqueIds(pool) && (pool == {} <==> Ids(pool) == {})
    ensures Publish(fact, ModuleChoice(pool, external, used, target)) == ModuleRow(fact, Ids(pool), external, used)
  {
    PublishFinish(fact, pool, if used then ByAlias else ByModule, target);
    ListedIds(pool);
  }

  /** Modules that bear the target as their name bear its own term. */
  lemma NamedModulesOwn(fact: Fact, language: Option<string>, nodes: set<GraphNode>)
    requires fact.kind == ModulePath && Trim(fact.target) != ""
    ensures NamedModules(language, Trim(fact.target), nodes)
         == NamedModules(language, Trim(fact.target), Bearers(nodes, FactTerm(fact)))
  {
    TrimIdempotent(fact.target);
    TrimmedTerm(ModulePath, Trim(fact.target));
  }

  /** Two pools of one module target, as the rows see them. */
  ghost predicate PoolHolds(fact: Fact, was: set<string>, now: set<string>, gone: set<string>) {
    var external, used := FactExternal(fact), UsesAlias(Trim(fact.target), fact.aliases);
    && now == was - gone
    && (now == was || |now| >= 2 || |external| > 1 || (used && now != {} && external != []))
  }

  lemma ModuleRowsByPool(fact: Fact, source: GraphNode, before: set<GraphNode>, after: set<GraphNode>,
                         gone: set<string>)
    requires UniqueIds(before) && UniqueIds(after) && Ids(after) * gone == {}
    requires fact.kind == ModulePath && Trim(fact.target) != ""
    requires Survives(Row(fact, source, before), gone)
    ensures Pruned(Row(fact, source, before), gone) == Row(fact, source, after)
        <==> PoolHolds(fact, Ids(ModulePool(fact, source.language, before)),
                       Ids(ModulePool(fact, source.language, after)), gone)
  {
    ModuleRowIs(fact, source, before);
    ModuleRowIs(fact, source, after);
    var was, now := Ids(ModulePool(fact, source.language, before)), Ids(ModulePool(fact, source.language, after));
    var external, used := FactExternal(fact), UsesAlias(Trim(fact.target), fact.aliases);
    var basis := if used then ByAlias else ByModule;
    IdsDisjoint(ModulePool(fact, source.language, after), after, gone);
    if |external| > 1 {
    } else if used && external != [] {
    } else if was != {} {
      FinishRowsAgree(fact, was, now, gone, basis);
      if now == {} { FinishRowBasis(fact, was, basis); }
    } else if now != {} {
      FinishRowBasis(fact, now, basis);
    }
  }

  /** What the pools are made of: the same bearers of the own term before and after, and the others. */
  ghost predicate PoolsShareOwn(was: set<GraphNode>, before: set<GraphNode>, now: set<GraphNode>, after: set<GraphNode>,
                                named: set<GraphNode>, own: set<GraphNode>) {
    && was <= before && now <= after && own <= before * after && named <= own && was * own == now * own
  }

  lemma PoolsHold(fact: Fact, was: set<GraphNode>, before: set<GraphNode>, now: set<GraphNode>, after: set<GraphNode>,
                  named: set<GraphNode>, own: set<GraphNode>, gone: set<string>)
    requires UniqueIds(before) && UniqueIds(after) && Ids(after) * gone == {}
    requires PoolsShareOwn(was, before, now, after, named, own)
    ensures PoolHolds(fact, Ids(if was != {} then was else named), Ids(if now != {} then now else named), gone)
       <==> (Ids(now - own) == Ids(was - own) - gone
             && (Ids(now - own) == Ids(was - own) || ModuleStaysAmbiguous(fact, now, named)))
  {
    OwnPartCancels(was, before, now, after, own, gone);
    NoIdsNoNodes(was);
    NoIdsNoNodes(now);
    NoIdsNoNodes(named);
    IdsDisjoint(named, after, gone);
    if was == {} && now == {} {
      assert Ids(named) - gone == Ids(named);
    } else if was == {} {
      HiddenApart(now, after, named, own);
    } else if now == {} {
      HiddenApart(was, before, named, own);
    }
  }

  /** A selection without bearers of the own term shares no identifier with nodes that bear it. */
  lemma HiddenApart(part: set<GraphNode>, nodes: set<GraphNode>, named: set<GraphNode>, own: set<GraphNode>)
    requires UniqueIds(nodes) && part <= nodes && own <= nodes && named <= own && part * own == {}
    ensures part - own == part && Ids(named) * Ids(part) == {}
  {
    IdsSplit(part, nodes, own);
    Apart(part, own);
    assert part - own == part;
    assert Ids(named) <= Ids(own);
  }

  lemma NoIdsNoNodes(nodes: set<GraphNode>)
    ensures nodes == {} <==> Ids(nodes) == {}
  {
    if nodes != {} { IdsNonempty(nodes); }
  }

  lemma ModuleRowsAgree(fact: Fact, source: GraphNode, before: set<GraphNode>, after: set<GraphNode>, gone: set<string>)
    requires UniqueIds(before) && UniqueIds(after) && Ids(after) * gone == {}
    requires fact.kind == ModulePath && Trim(fact.target) != ""
    requires Bearers(before, FactTerm(fact)) == Bearers(after, FactTerm(fact))
    requires Survives(Row(fact, source, before), gone)
    ensures Pruned(Row(fact, source, before), gone) == Row(fact, source, after)
        <==> Holds(Beyond(fact, source, before), Beyond(fact, source, after), gone)
  {
    var target, language, own := Trim(fact.target), source.language, Bearers(after, FactTerm(fact));
    SelectionsKeepOwn(fact, source, before, FactTerm(fact));
    SelectionsKeepOwn(fact, source, after, FactTerm(fact));
    NamedModulesOwn(fact, language, before);
    NamedModulesOwn(fact, language, after);
    ModuleRowsByPool(fact, source, before, after, gone);
    PoolsHold(fact, ModuleCandidates(language, fact.aliases, target, before), before,
              ModuleCandidates(language, fact.aliases, target, after), after, NamedModules(language, target, after),
                  own, gone);
  }

  lemma LocalKeyRow(g: Graph, document: string, nodes: set<GraphNode>, facts: set<Fact>, fact: Fact, source: GraphNode)
    requires Valid(g) && Acceptable(g, document, nodes, facts)
    requires source in g.nodes && FactTerm(fact) !in ChangedTerms(OwnNodes(g, document), nodes)
    requires fact.kind == LocalStableKey && Trim(fact.target) != ""
    ensures Row(fact, source, g.nodes) == Row(fact, source, NodesAfter(g, document, nodes))
    ensures var row := Row(fact, source, NodesAfter(g, document, nodes)); row.Dangling? ==>
      row.candidates <= Ids(NodesAfter(g, document, nodes))
  {
    var after, target := NodesAfter(g, document, nodes), Trim(fact.target);
    UpdateValid(g, document, nodes, facts);
    TrimIdempotent(fact.target);
    UnchangedTermKeepsBearers(g, document, nodes, facts, FactTerm(fact));
    LocalKeyBearers(g.nodes, source, source.language, target);
    LocalKeyBearers(after, source, source.language, target);
    LocalKeyKnown(fact, source, Some(fact.documentId), source.language, target, after);
  }

  lemma PlainUnchanged(g: Graph, document: string, nodes: set<GraphNode>, facts: set<Fact>, fact: Fact,
                       source: GraphNode)
    requires Valid(g) && Acceptable(g, document, nodes, facts)
    requires FactTerm(fact) !in ChangedTerms(OwnNodes(g, document), nodes)
    requires fact.kind == QualifiedSymbol && Trim(fact.target) != ""
    ensures PlainOutcome(Some(fact.documentId), source.language, Trim(fact.target), g.nodes)
         == PlainOutcome(Some(fact.documentId), source.language, Trim(fact.target), NodesAfter(g, document, nodes))
  {
    TrimIdempotent(fact.target);
    UnchangedTermKeepsBearers(g, document, nodes, facts, FactTerm(fact));
    PlainBearers(g.nodes, Some(fact.documentId), source.language, Trim(fact.target));
    PlainBearers(NodesAfter(g, document, nodes), Some(fact.documentId), source.language, Trim(fact.target));
  }

  /** A fact whose own term kept its surface: after the cascade its row is the freshly resolved one
      exactly when the rules that look beyond that term still hold. */
  lemma UnchangedTermRow(g: Graph, document: string, nodes: set<GraphNode>, facts: set<Fact>, fact: Fact,
                         source: GraphNode)
    requires Valid(g) && Acceptable(g, document, nodes, facts)
    requires source in g.nodes && FactTerm(fact) !in ChangedTerms(OwnNodes(g, document), nodes)
    requires Survives(Row(fact, source, g.nodes), Gone(g, document, nodes))
    ensures var after, gone := NodesAfter(g, document, nodes), Gone(g, document, nodes);
      Pruned(Row(fact, source, g.nodes), gone) == Row(fact, source, after)
      <==> Holds(Beyond(fact, source, g.nodes), Beyond(fact, source, after), gone)
  {
    var after, gone := NodesAfter(g, document, nodes), Gone(g, document, nodes);
    UpdateValid(g, document, nodes, facts);
    GoneIsGone(g, document, nodes, facts);
    if Trim(fact.target) == "" || fact.kind !in {LocalStableKey, QualifiedSymbol, ModulePath} {
      NamelessRow(fact, source, g.nodes, after, gone);
    } else if fact.kind == LocalStableKey {
      LocalKeyRow(g, document, nodes, facts, fact, source);
      DisjointPrune(Row(fact, source, after), Ids(after), gone);
    } else if fact.kind == QualifiedSymbol {
      PlainUnchanged(g, document, nodes, facts, fact, source);
      UnchangedTermKeepsBearers(g, document, nodes, facts, FactTerm(fact));
      QualifiedRowsAgree(fact, source, g.nodes, after, gone);
    } else {
      UnchangedTermKeepsBearers(g, document, nodes, facts, FactTerm(fact));
      ModuleRowsAgree(fact, source, g.nodes, after, gone);
    }
  }

  lemma NamelessRow(fact: Fact, source: GraphNode, before: set<GraphNode>, after: set<GraphNode>, gone: set<string>)
    requires Trim(fact.target) == "" || fact.kind !in {LocalStableKey, QualifiedSymbol, ModulePath}
    ensures Pruned(Row(fact, source, before), gone) == Row(fact, source, after)
    ensures Holds(Beyond(fact, source, before), Beyond(fact, source, after), gone)
  {
    assert {} - gone == {};
  }

  lemma DisjointPrune(row: Projection, known: set<string>, gone: set<string>)
    requires known * gone == {}
    requires row.Dangling? ==> row.candidates <= known
    ensures Pruned(row, gone) == row
  {
    if row.Dangling? {
      assert forall i | i in row.candidates :: i in known && i !in known * gone;
      assert row.candidates - gone == row.candidates;
    }
  }

  lemma GoneIsGone(g: Graph, document: string, nodes: set<GraphNode>, facts: set<Fact>)
    requires Valid(g) && Acceptable(g, document, nodes, facts)
    ensures Ids(NodesAfter(g, document, nodes)) * Gone(g, document, nodes) == {}
  {
    var own := OwnNodes(g, document);
    assert forall n, o | n in g.nodes - own && o in own :: n.id != o.id;
    assert forall n | n in g.nodes - own :: n.id !in Ids(own);
  }

  // ---------- The whole update ----------

  /** The current facts that the update leaves alone. */
  ghost function Untouched(g: Graph, document: string, nodes: set<GraphNode>, facts: set<Fact>): set<Fact> {
    set f | f in g.facts && f.documentId != document && f.Ident() !in Affected(g, document, nodes, facts)
  }

  ghost predicate StillHolds(g: Graph, document: string, nodes: set<GraphNode>, fact: Fact)
    requires SourceOf(g.nodes, fact.fromNode) != {}
  {
    var source := Any(SourceOf(g.nodes, fact.fromNode));
    Holds(Beyond(fact, source, g.nodes), Beyond(fact, source, NodesAfter(g, document, nodes)), Gone(g, document, nodes))
  }

  /** For every fact the update leaves alone, the rules beyond its own term still hold. */
  ghost predicate NothingHidden(g: Graph, document: string, nodes: set<GraphNode>, facts: set<Fact>) {
    forall f | f in Untouched(g, document, nodes, facts) ::
      SourceOf(g.nodes, f.fromNode) != {} && StillHolds(g, document, nodes, f)
  }

  lemma ChangedTermAffects(g: Graph, document: string, nodes: set<GraphNode>, facts: set<Fact>, fact: Fact)
    requires fact in g.facts && FactTerm(fact) in ChangedTerms(OwnNodes(g, document), nodes)
    ensures fact.Ident() in Affected(g, document, nodes, facts)
  {
    assert fact in g.facts + FactsAfter(g, document, facts);
  }

  /** One untouched fact: it keeps a row, and the row is right exactly when its rules still hold. */
  lemma UntouchedRow(g: Graph, document: string, nodes: set<GraphNode>, facts: set<Fact>, fact: Fact)
    requires Valid(g) && Synced(g) && Acceptable(g, document, nodes, facts)
    requires fact in Untouched(g, document, nodes, facts)
    ensures SourceOf(g.nodes, fact.fromNode) != {}
    ensures Survives(g.projection[fact.Ident()], Gone(g, document, nodes))
    ensures var row := Pruned(g.projection[fact.Ident()], Gone(g, document, nodes));
      Some(row) == Project(fact, NodesAfter(g, document, nodes)) <==> StillHolds(g, document, nodes, fact)
  {
    var after, gone := NodesAfter(g, document, nodes), Gone(g, document, nodes);
    var source :| SourceIs(g.nodes, fact, source);
    UpdateValid(g, document, nodes, facts);
    SourceFound(g.nodes, fact, source);
    assert SourceIs(after, fact, source);
    SourceFound(after, fact, source);
    assert Any({source}) == source;
    assert g.projection[fact.Ident()] == Row(fact, source, g.nodes);
    GoneIsGone(g, document, nodes, facts);
    assert source.id in Ids(after);
    if FactTerm(fact) in ChangedTerms(OwnNodes(g, document), nodes) {
      ChangedTermAffects(g, document, nodes, facts, fact);
    }
    RowSource(fact, source, g.nodes);
    UnchangedTermRow(g, document, nodes, facts, fact, source);
  }

  lemma RowSource(fact: Fact, source: GraphNode, nodes: set<GraphNode>)
    ensures var row := Row(fact, source, nodes); row.Edge? ==> row.fromNode == fact.fromNode
  {}

  ghost predicate RowIsRight(g: Graph, fact: Fact) {
    fact.Ident() in g.projection && Project(fact, g.nodes) == Some(g.projection[fact.Ident()])
  }

  lemma AffectedRowIsRight(g: Graph, document: string, nodes: set<GraphNode>, facts: set<Fact>, fact: Fact)
    requires Projectable(g, document, nodes, facts)
    requires UniqueIdentities(FactsAfter(g, document, facts)) && fact in FactsAfter(g, document, facts)
    requires fact.Ident() in Affected(g, document, nodes, facts)
    ensures RowIsRight(Updated(g, document, nodes, facts), fact)
  {
    var assertions := FactsAfter(g, document, facts);
    assert fact.Ident() in Identities(assertions);
    assert FactAt(assertions, fact.Ident()) == fact;
  }

  lemma UntouchedRowIsRight(g: Graph, document: string, nodes: set<GraphNode>, facts: set<Fact>, fact: Fact)
    requires Valid(g) && Synced(g) && Acceptable(g, document, nodes, facts)
    requires Projectable(g, document, nodes, facts)
    requires fact in Untouched(g, document, nodes, facts)
    ensures fact in FactsAfter(g, document, facts)
    ensures SourceOf(g.nodes, fact.fromNode) != {}
    ensures RowIsRight(Updated(g, document, nodes, facts), fact) <==> StillHolds(g, document, nodes, fact)
  {
    UntouchedRow(g, document, nodes, facts, fact);
    UntouchedKept(g, document, nodes, facts, fact);
  }

  /** The update leaves such a row as the cascade leaves it. */
  lemma UntouchedKept(g: Graph, document: string, nodes: set<GraphNode>, facts: set<Fact>, fact: Fact)
    requires Projectable(g, document, nodes, facts) && fact in Untouched(g, document, nodes, facts)
    requires fact.Ident() in g.projection && Survives(g.projection[fact.Ident()], Gone(g, document, nodes))
    ensures fact in FactsAfter(g, document, facts) && fact.Ident() in Updated(g, document, nodes, facts).projection
    ensures Updated(g, document, nodes, facts).projection[fact.Ident()]
      == Pruned(g.projection[fact.Ident()], Gone(g, document, nodes))
  {}

  lemma SyncedIsRight(g: Graph)
    requires g.projection.Keys == Identities(g.facts)
    ensures Synced(g) <==> forall f | f in g.facts :: RowIsRight(g, f)
  {
    assert forall f | f in g.facts :: f.Ident() in Identities(g.facts);
  }

  /** The incremental update equals full resolution exactly when nothing hidden changed. */
  lemma UpdateExact(g: Graph, document: string, nodes: set<GraphNode>, facts: set<Fact>)
    requires Valid(g) && Synced(g) && Acceptable(g, document, nodes, facts)
    ensures Projectable(g, document, nodes, facts)
    ensures Synced(Updated(g, document, nodes, facts)) <==> NothingHidden(g, document, nodes, facts)
  {
    UpdateValid(g, document, nodes, facts);
    var assertions := FactsAfter(g, document, facts);
    var updated := Updated(g, document, nodes, facts);
    UpdatedKeys(g, document, nodes, facts);
    SyncedIsRight(updated);
    forall f | f in assertions && f.Ident() in Affected(g, document, nodes, facts) ensures RowIsRight(updated, f) {
      AffectedRowIsRight(g, document, nodes, facts, f);
    }
    forall f | f in Untouched(g, document, nodes, facts)
      ensures f in assertions && SourceOf(g.nodes, f.fromNode) != {}
      ensures RowIsRight(updated, f) <==> StillHolds(g, document, nodes, f)
    {
      UntouchedRowIsRight(g, document, nodes, facts, f);
    }
    forall f | f in assertions && f.Ident() !in Affected(g, document, nodes, facts)
      ensures f in Untouched(g, document, nodes, facts)
    {
      OwnFactsAffected(g, document, nodes, facts, f);
    }
  }

  lemma OwnFactsAffected(g: Graph, document: string, nodes: set<GraphNode>, facts: set<Fact>, fact: Fact)
    requires fact in g.facts + FactsAfter(g, document, facts) && fact.Ident() !in Affected(g, document, nodes, facts)
    ensures fact.documentId != document
  {}

  lemma UpdatedKeys(g: Graph, document: string, nodes: set<GraphNode>, facts: set<Fact>)
    requires Valid(g) && Synced(g) && Acceptable(g, document, nodes, facts)
    requires Projectable(g, document, nodes, facts)
    ensures Updated(g, document, nodes, facts).projection.Keys == Identities(FactsAfter(g, document, facts))
  {
    var assertions := FactsAfter(g, document, facts);
    var affected := Affected(g, document, nodes, facts);
    var rows := Updated(g, document, nodes, facts).projection;
    forall i ensures i in rows <==> i in Identities(assertions) {
      if i in rows && i !in affected {
        assert i in Identities(g.facts);
        var f :| f in g.facts && f.Ident() == i;
        assert f in g.facts + assertions;
        assert f.documentId != document;
        assert f in assertions;
      }
      if i in Identities(assertions) && i !in affected {
        var f :| f in assertions && f.Ident() == i;
        assert f in Untouched(g, document, nodes, facts);
        UntouchedRow(g, document, nodes, facts, f);
        assert i in Identities(g.facts);
      }
    }
  }
}
