/** Reconciling and deleting one document: prepare a batch from the store, then apply it. */
module GraphReconciliation {
  import opened Prelude
  import opened Strings
  import opened GraphDomain
  import opened GraphResolver
  import opened GraphRegistry
  import opened GraphIncremental
  import opened GraphExactness
  import opened GraphLookups
  import opened GraphIndexer

  /** Identifiers as they are generated for new nodes: never used before. */
  ghost predicate Fresh(ids: seq<string>, nodes: seq<GraphNode>) {
    && (forall i, j | 0 <= i < j < |ids| :: ids[i] != ids[j])
    && (forall n | n in nodes :: n.id !in ids)
  }

  function NewNodes(document: Document, symbols: seq<Symbol>, ids: seq<string>, stored: seq<GraphNode>): seq<GraphNode>
    requires |ids| == |symbols| + 1
  {
    Identified(DocumentNodes(document, symbols, ids), OwnList(stored, document.id))
  }

  /** Whether the analyzer's output can be turned into a batch at all. */
  predicate Preparable(document: Document, structureVersion: string, symbols: seq<Symbol>,
                       relationships: seq<Relationship>,
                       ids: seq<string>, stored: seq<GraphNode>)
    requires |ids| == |symbols| + 1
  {
    && Trim(document.analyzerId) != "" && Trim(structureVersion) != ""
    && Registrable(document, symbols)
    && Assertable(document, relationships, NewNodes(document, symbols, ids, stored))
  }

  /** The batch carries what the update of its document needs, projected from the desired nodes. */
  ghost predicate Prepared(batch: Batch, g: Graph) {
    var nodes, facts := NodeSet(batch.nodes), FactSet(batch.facts);
    && batch.affected == Affected(g, batch.document, nodes, facts)
    && batch.rows.Keys == Identities(FactsAfter(g, batch.document, facts)) * batch.affected
    && (Unique(NodesAfter(g, batch.document, nodes)) ==>
          forall f | f in FactsAfter(g, batch.document, facts) && f.Ident() in batch.affected ::
            Project(f, NodesAfter(g, batch.document, nodes)) == Some(batch.rows[f.Ident()]))
  }

  /** The affected relationships of a batch and their rows. */
  method PrepareRows(storage: GraphStorage, document: string, nodes: seq<GraphNode>, facts: seq<Fact>)
    returns (affected: set<Identity>, r: Result<map<Identity, Projection>>)
    requires storage.Valid()
    requires forall f | f in facts :: f.documentId == document && exists n :: n in nodes && n.id == f.fromNode
    requires DistinctFacts(facts)
    ensures r.Ok?
    ensures r.Ok? ==> Prepared(Batch(document, false, nodes, facts, affected, r.value), storage.View())
  {
    ghost var g := storage.View();
    var own := OwnList(storage.nodes, document);
    assert NodeSet(own) == OwnNodes(g, document);
    var desiredNodes := OtherList(storage.nodes, document) + nodes;
    assert NodeSet(desiredNodes) == NodesAfter(g, document, NodeSet(nodes));
    var desiredFacts := OtherFacts(storage.facts, document) + facts;
    assert FactSet(desiredFacts) == FactsAfter(g, document, FactSet(facts));
    var changed := ChangedResolutionTerms(own, nodes);
    var removed := set o | o in own && (forall n | n in nodes :: n.id != o.id) :: o.id;
    assert removed == Gone(g, document, NodeSet(nodes)) by { RemovedAreGone(own, nodes); }
    affected := AffectedRelationships(document, storage.facts, desiredFacts, storage.rows, changed, removed);
    DesiredFactsDistinct(storage.facts, document, facts);
    r := ProjectRelationships(desiredNodes, desiredFacts, affected);
    DesiredFactsSourced(g, document, nodes, facts);
    assert forall f | f in desiredFacts :: f in FactSet(desiredFacts);
  }

  lemma RemovedAreGone(own: seq<GraphNode>, nodes: seq<GraphNode>)
    ensures (set o | o in own && (forall n | n in nodes :: n.id != o.id) :: o.id)
      == Ids(NodeSet(own)) - Ids(NodeSet(nodes))
  {
    forall o | o in own ensures (forall n | n in nodes :: n.id != o.id) <==> o.id !in Ids(NodeSet(nodes)) {
      if o.id in Ids(NodeSet(nodes)) {
        var n :| n in NodeSet(nodes) && n.id == o.id;
        assert n in nodes;
      }
    }
  }

  lemma DesiredFactsDistinct(stored: seq<Fact>, document: string, facts: seq<Fact>)
    requires DistinctFacts(stored) && DistinctFacts(facts)
    requires forall f | f in facts :: f.documentId == document
    ensures DistinctFacts(OtherFacts(stored, document) + facts)
  {
    var others := OtherFacts(stored, document);
    var all := others + facts;
    forall i, j | 0 <= i < j < |all| ensures all[i].Ident() != all[j].Ident() {
      if i < |others| && j >= |others| {
        assert all[i] in others && all[j] in facts;
      }
    }
  }

  lemma DesiredFactsSourced(g: Graph, document: string, nodes: seq<GraphNode>, facts: seq<Fact>)
    requires Coherent(g)
    requires forall f | f in facts :: f.documentId == document && exists n :: n in nodes && n.id == f.fromNode
    ensures forall f | f in FactsAfter(g, document, FactSet(facts)) ::
      SourceOf(NodesAfter(g, document, NodeSet(nodes)), f.fromNode) != {}
  {
    var after := NodesAfter(g, document, NodeSet(nodes));
    forall f | f in FactsAfter(g, document, FactSet(facts)) ensures SourceOf(after, f.fromNode) != {} {
      if f.documentId != document {
        var source :| SourceIs(g.nodes, f, source);
        assert source in SourceOf(after, f.fromNode);
      } else {
        var n :| n in nodes && n.id == f.fromNode;
        assert n in SourceOf(after, f.fromNode);
      }
    }
  }

  method PrepareDocumentBatch(storage: GraphStorage, document: Document, structureVersion: string, symbols: seq<Symbol>,
                              relationships: seq<Relationship>, ids: seq<string>)
    returns (r: Result<Batch>)
    requires storage.Valid() && |ids| == |symbols| + 1
    ensures r.Ok? <==> Preparable(document, structureVersion, symbols, relationships, ids, storage.nodes)
    ensures r.Ok? ==>
      && r.value.document == document.id && !r.value.deletion
      && r.value.nodes == NewNodes(document, symbols, ids, storage.nodes)
      && r.value.facts == Facts(document, relationships, r.value.nodes)
      && Prepared(r.value, storage.View())
  {
    if Trim(document.analyzerId) == "" || Trim(structureVersion) == "" {
      return Err("graph indexing requires analyzer and structure identities");
    }
    var registration := NodesForDocument(document, symbols, ids);
    if registration.Rejected? {
      return Err(registration.reason);
    }
    var built := registration.nodes;
    var slots := new GraphNode[|built|](i requires 0 <= i < |built| => built[i]);
    PreserveNodeIdentity(slots, OwnList(storage.nodes, document.id));
    var nodes := slots[..];
    assert nodes == NewNodes(document, symbols, ids, storage.nodes);
    var asserted := RelationshipsToFacts(document, relationships, nodes);
    if asserted.Err? {
      return Err(asserted.reason);
    }
    var facts := asserted.value;
    FactsHaveSources(document, relationships, nodes);
    var affected, rows := PrepareRows(storage, document.id, nodes, facts);
    r := Ok(Batch(document.id, false, nodes, facts, affected, rows.value));
  }

  lemma FactsHaveSources(document: Document, relationships: seq<Relationship>, nodes: seq<GraphNode>)
    requires Assertable(document, relationships, nodes)
    ensures var facts := Facts(document, relationships, nodes);
      && DistinctFacts(facts)
      && forall f | f in facts :: f.documentId == document.id && exists n :: n in nodes && n.id == f.fromNode
  {
    var facts := Facts(document, relationships, nodes);
    forall i | 0 <= i < |facts| ensures exists n :: n in nodes && n.id == facts[i].fromNode {
      var source := SourceNode(nodes, document.analyzerId, relationships[i].fromKey).value;
      assert facts[i] == FactOf(document, relationships[i], source);
    }
  }

  method PrepareDeletionBatch(storage: GraphStorage, document: string) returns (batch: Batch)
    requires storage.Valid()
    ensures batch.document == document && batch.deletion && batch.nodes == [] && batch.facts == []
    ensures Prepared(batch, storage.View())
  {
    var affected, rows := PrepareRows(storage, document, [], []);
    batch := Batch(document, true, [], [], affected, rows.value);
  }

  // ---------- Applying what was prepared ----------

  lemma OwnListIs(nodes: seq<GraphNode>, document: string, g: Graph)
    requires g.nodes == NodeSet(nodes)
    ensures NodeSet(OwnList(nodes, document)) == OwnNodes(g, document)
  {}

  /** Every node has the stored identifier of its key, or its own fresh one. */
  ghost predicate IdsAssigned(nodes: seq<GraphNode>, own: seq<GraphNode>, ids: seq<string>) {
    |nodes| == |ids| &&
    forall i | 0 <= i < |nodes| ::
      nodes[i].id == if nodes[i].key in NodesByKey(own) then NodesByKey(own)[nodes[i].key].id else ids[i]
  }

  lemma NewNodesAssigned(document: Document, symbols: seq<Symbol>, ids: seq<string>, stored: seq<GraphNode>)
    requires |ids| == |symbols| + 1
    ensures var nodes := NewNodes(document, symbols, ids, stored);
      && IdsAssigned(nodes, OwnList(stored, document.id), ids)
      && forall n | n in nodes :: n.documentId == Some(document.id)
  {
    var built := DocumentNodes(document, symbols, ids);
    assert forall i | 0 <= i < |built| :: built[i].id == ids[i] && built[i].documentId == Some(document.id);
  }

  lemma AssignedUnique(g: Graph, nodes: seq<GraphNode>, own: seq<GraphNode>, stored: seq<GraphNode>, ids: seq<string>)
    requires Unique(g.nodes) && g.nodes == NodeSet(stored) && Fresh(ids, stored)
    requires forall o | o in own :: o in g.nodes
    requires IdsAssigned(nodes, own, ids) && DistinctKeys(nodes)
    ensures Unique(NodeSet(nodes))
  {
    forall i, j | 0 <= i < j < |nodes| ensures nodes[i].id != nodes[j].id {
      IdsApart(g, own, stored, ids, nodes[i], i, nodes[j], j);
    }
  }

  lemma AssignedIdsAgree(g: Graph, nodes: seq<GraphNode>, own: seq<GraphNode>, stored: seq<GraphNode>, ids: seq<string>)
    requires Unique(g.nodes) && g.nodes == NodeSet(stored) && Fresh(ids, stored)
    requires forall o | o in own :: o in g.nodes
    requires IdsAssigned(nodes, own, ids)
    ensures KeepsIds(NodeSet(own), NodeSet(nodes))
    ensures forall o, n | o in g.nodes && n in NodeSet(nodes) && o.id == n.id :: o.key == n.key
  {
    var byKey := NodesByKey(own);
    forall o, n | o in own && n in nodes && o.key == n.key ensures o.id == n.id {
      assert n.key in byKey && byKey[n.key] in own;
    }
    forall o, n | o in g.nodes && n in nodes && o.id == n.id ensures o.key == n.key {
      assert n.key in byKey ==> byKey[n.key] in g.nodes;
      assert o in stored;
    }
  }

  /** The nodes of a document, once they keep the identifiers of their keys, can be published. */
  lemma NewNodesPublishable(g: Graph, document: Document, symbols: seq<Symbol>, ids: seq<string>,
                            stored: seq<GraphNode>)
    requires Coherent(g) && g.nodes == NodeSet(stored)
    requires |ids| == |symbols| + 1 && Fresh(ids, stored)
    requires DistinctKeys(NewNodes(document, symbols, ids, stored))
    ensures var nodes := NodeSet(NewNodes(document, symbols, ids, stored));
      && Unique(nodes)
      && KeepsIds(OwnNodes(g, document.id), nodes)
      && (forall o, n | o in g.nodes && n in nodes && o.id == n.id :: o.key == n.key)
      && (forall n | n in nodes :: n.documentId == Some(document.id))
  {
    var own, nodes := OwnList(stored, document.id), NewNodes(document, symbols, ids, stored);
    OwnListIs(stored, document.id, g);
    assert forall o | o in own :: o in NodeSet(own);
    NewNodesAssigned(document, symbols, ids, stored);
    AssignedUnique(g, nodes, own, stored, ids);
    AssignedIdsAgree(g, nodes, own, stored, ids);
  }

  lemma IdsApart(g: Graph, own: seq<GraphNode>, stored: seq<GraphNode>, ids: seq<string>, a: GraphNode, i: nat,
                 b: GraphNode, j: nat)
    requires Unique(g.nodes) && g.nodes == NodeSet(stored) && Fresh(ids, stored)
    requires forall o | o in own :: o in g.nodes
    requires i < j < |ids| && a.key != b.key
    requires if a.key in NodesByKey(own) then a.id == NodesByKey(own)[a.key].id else a.id == ids[i]
    requires if b.key in NodesByKey(own) then b.id == NodesByKey(own)[b.key].id else b.id == ids[j]
    ensures a.id != b.id
  {
    var byKey := NodesByKey(own);
    assert a.key in byKey ==> byKey[a.key] in g.nodes && byKey[a.key] in stored;
    assert b.key in byKey ==> byKey[b.key] in g.nodes && byKey[b.key] in stored;
  }

  lemma FactsPublishable(g: Graph, document: Document, relationships: seq<Relationship>, nodes: seq<GraphNode>)
    requires Assertable(document, relationships, nodes)
    requires forall n | n in nodes :: n.documentId == Some(document.id)
    ensures var facts := FactSet(Facts(document, relationships, nodes));
      && UniqueIdentities(facts)
      && forall f | f in facts :: f.documentId == document.id && Sourced(NodeSet(nodes), f)
  {
    FactsHaveSources(document, relationships, nodes);
    forall f | f in Facts(document, relationships, nodes) ensures Sourced(NodeSet(nodes), f) {
      var n :| n in nodes && n.id == f.fromNode;
      assert SourceIs(NodeSet(nodes), f, n);
    }
  }

  /** What the store makes of a prepared batch is the update of its document. */
  lemma AppliedIsUpdated(g: Graph, batch: Batch, own: seq<GraphNode>)
    requires Coherent(g) && Prepared(batch, g) && NodeSet(own) == OwnNodes(g, batch.document)
    requires Publishable(g, batch.document, NodeSet(batch.nodes), FactSet(batch.facts))
    ensures Projectable(g, batch.document, NodeSet(batch.nodes), FactSet(batch.facts))
    ensures Applied(g, batch, own) == Updated(g, batch.document, NodeSet(batch.nodes), FactSet(batch.facts))
  {
    var nodes, facts := NodeSet(batch.nodes), FactSet(batch.facts);
    UpdateCoherent(g, batch.document, nodes, facts);
    IdentifiedAlready(batch.nodes, own);
    GoneByKey(g, batch);
    RowsPrepared(g, batch);
    var gone := Gone(g, batch.document, nodes);
    OwnRowsAffected(g, batch);
    DroppingOwnRows(g.projection, batch.document, gone, batch.affected);
  }

  lemma DroppingOwnRows(rows: map<Identity, Projection>, document: string, gone: set<string>, affected: set<Identity>)
    requires forall i | i in rows && i.documentId == document :: i in affected
    ensures Cascade(WithoutDocument(rows, document), gone) - affected == Cascade(rows, gone) - affected
  {}

  lemma IdentifiedAlready(nodes: seq<GraphNode>, own: seq<GraphNode>)
    requires KeepsIds(NodeSet(own), NodeSet(nodes))
    ensures Identified(nodes, own) == nodes
  {
    forall i | 0 <= i < |nodes| ensures Identified(nodes, own)[i] == nodes[i] {
      var byKey := NodesByKey(own);
      assert nodes[i].key in byKey ==> byKey[nodes[i].key] in NodeSet(own);
      assert nodes[i] in NodeSet(nodes);
    }
  }

  lemma GoneByKey(g: Graph, batch: Batch)
    requires Publishable(g, batch.document, NodeSet(batch.nodes), FactSet(batch.facts))
    ensures var kept := set n | n in batch.nodes :: n.key;
      (set n | n in OwnNodes(g, batch.document) && n.key !in kept :: n.id)
        == Gone(g, batch.document, NodeSet(batch.nodes))
  {
    var kept := set n | n in batch.nodes :: n.key;
    var nodes := NodeSet(batch.nodes);
    forall o | o in OwnNodes(g, batch.document) ensures o.key in kept <==> o.id in Ids(nodes) {
      if o.key in kept {
        var n :| n in batch.nodes && n.key == o.key;
        assert n in nodes;
      }
      if o.id in Ids(nodes) {
        var n :| n in nodes && n.id == o.id;
        assert n in batch.nodes;
      }
    }
  }

  lemma RowsPrepared(g: Graph, batch: Batch)
    requires Prepared(batch, g)
    requires var nodes, facts := NodeSet(batch.nodes), FactSet(batch.facts);
      Unique(NodesAfter(g, batch.document, nodes)) && Projectable(g, batch.document, nodes, facts)
    ensures var nodes, facts := NodeSet(batch.nodes), FactSet(batch.facts);
      batch.rows
        == Reprojected(FactsAfter(g, batch.document, facts), NodesAfter(g, batch.document, nodes), batch.affected)
  {
    var facts := FactsAfter(g, batch.document, FactSet(batch.facts));
    var after := NodesAfter(g, batch.document, NodeSet(batch.nodes));
    forall i | i in batch.rows ensures batch.rows[i] == Project(FactAt(facts, i), after).value {
      var f := FactAt(facts, i);
      assert f.Ident() == i;
    }
  }

  lemma OwnRowsAffected(g: Graph, batch: Batch)
    requires Coherent(g) && batch.affected == Affected(g, batch.document, NodeSet(batch.nodes), FactSet(batch.facts))
    ensures forall i | i in g.projection && i.documentId == batch.document :: i in batch.affected
  {
    forall i | i in g.projection && i.documentId == batch.document ensures i in batch.affected {
      var f :| f in g.facts && f.Ident() == i;
      assert f in g.facts + FactsAfter(g, batch.document, FactSet(batch.facts));
    }
  }

  // ---------- Reconciling and deleting ----------

  /** The document's new nodes share no stable key with each other or with another document. */
  predicate NoKeyConflict(document: Document, symbols: seq<Symbol>, ids: seq<string>, stored: seq<GraphNode>)
    requires |ids| == |symbols| + 1
  {
    var nodes := NewNodes(document, symbols, ids, stored);
    DistinctKeys(nodes)
      && !exists n, o | n in nodes && o in stored :: o.key == n.key && o.documentId != Some(document.id)
  }

  /** After the update no two documents share the relationship key of an edge. */
  ghost predicate EdgesApart(g: Graph, document: string, nodes: set<GraphNode>, facts: set<Fact>) {
    Projectable(g, document, nodes, facts) && EdgeKeysApart(Updated(g, document, nodes, facts).projection)
  }

  /** Replaces everything the graph knows of one document. It fails exactly on unusable analyzer output, a
      stable key that is already owned, or an edge whose relationship key another document uses, and then
      changes nothing. */
  method ReconcileDocument(storage: GraphStorage, document: Document, structureVersion: string, symbols: seq<Symbol>,
                           relationships: seq<Relationship>, ids: seq<string>)
    returns (ok: bool)
    requires storage.Valid() && |ids| == |symbols| + 1 && Fresh(ids, storage.nodes)
    modifies storage
    ensures storage.Valid()
    ensures var g, list := old(storage.View()), old(NewNodes(document, symbols, ids, storage.nodes));
      ok <==>
        && old(Preparable(document, structureVersion, symbols, relationships, ids, storage.nodes))
        && old(NoKeyConflict(document, symbols, ids, storage.nodes))
        && EdgesApart(g, document.id, NodeSet(list), FactSet(Facts(document, relationships, list)))
    ensures !ok ==> storage.View() == old(storage.View())
    ensures ok ==>
      var g, list := old(storage.View()), old(NewNodes(document, symbols, ids, storage.nodes));
      var nodes, facts := NodeSet(list), FactSet(Facts(document, relationships, list));
      && Publishable(g, document.id, nodes, facts)
      && storage.View() == Updated(g, document.id, nodes, facts)
  {
    ghost var g := storage.View();
    ghost var stored := storage.nodes;
    var prepared := PrepareDocumentBatch(storage, document, structureVersion, symbols, relationships, ids);
    if prepared.Err? {
      return false;
    }
    var batch := prepared.value;
    FactsWellMade(document, relationships, batch.nodes);
    BatchWellMade(document, symbols, ids, stored, batch);
    if NoKeyConflict(document, symbols, ids, stored) {
      ReconciliationApplied(g, document, symbols, relationships, ids, stored, batch);
    }
    ok := storage.ApplyReconciliation(batch);
  }

  lemma ReconciliationApplied(g: Graph, document: Document, symbols: seq<Symbol>, relationships: seq<Relationship>,
                              ids: seq<string>, stored: seq<GraphNode>, batch: Batch)
    requires Coherent(g) && g.nodes == NodeSet(stored) && |ids| == |symbols| + 1 && Fresh(ids, stored)
    requires NoKeyConflict(document, symbols, ids, stored) && Prepared(batch, g) && batch.document == document.id
    requires batch.nodes == NewNodes(document, symbols, ids, stored) && Assertable(document, relationships, batch.nodes)
    requires batch.facts == Facts(document, relationships, batch.nodes)
    ensures var nodes, facts := NodeSet(batch.nodes), FactSet(batch.facts);
      && Publishable(g, document.id, nodes, facts) && Projectable(g, document.id, nodes, facts)
      && Applied(g, batch, OwnList(stored, document.id)) == Updated(g, document.id, nodes, facts)
      && Coherent(Updated(g, document.id, nodes, facts))
  {
    ReconciliationPublishable(g, document, symbols, relationships, ids, stored);
    OwnListIs(stored, document.id, g);
    AppliedIsUpdated(g, batch, OwnList(stored, document.id));
    UpdateCoherent(g, document.id, NodeSet(batch.nodes), FactSet(batch.facts));
  }

  lemma FactsWellMade(document: Document, relationships: seq<Relationship>, nodes: seq<GraphNode>)
    requires Assertable(document, relationships, nodes)
    ensures var facts := Facts(document, relationships, nodes);
      && (forall f | f in facts :: f.documentId == document.id)
      && forall i, j | 0 <= i < j < |facts| :: facts[i].relationshipKey != facts[j].relationshipKey
  {}

  lemma BatchWellMade(document: Document, symbols: seq<Symbol>, ids: seq<string>, stored: seq<GraphNode>, batch: Batch)
    requires |ids| == |symbols| + 1
    requires batch.document == document.id && batch.nodes == NewNodes(document, symbols, ids, stored)
    requires forall f | f in batch.facts :: f.documentId == document.id
    requires forall i, j | 0 <= i < j < |batch.facts| ::
      batch.facts[i].relationshipKey != batch.facts[j].relationshipKey
    ensures WellMade(batch) && !KeyTaken(stored, batch) <==> NoKeyConflict(document, symbols, ids, stored)
  {
    var built := DocumentNodes(document, symbols, ids);
    forall i | 0 <= i < |batch.nodes| ensures batch.nodes[i].documentId == Some(document.id) {
      assert built[i].documentId == Some(document.id);
    }
  }

  /** Removes everything the graph knows of one document. It fails exactly when a row that resolves anew
      becomes an edge whose relationship key another document uses, and then changes nothing. */
  method DeleteDocument(storage: GraphStorage, document: string) returns (ok: bool)
    requires storage.Valid()
    modifies storage
    ensures storage.Valid() && Publishable(old(storage.View()), document, {}, {})
    ensures ok <==> EdgesApart(old(storage.View()), document, {}, {})
    ensures !ok ==> storage.View() == old(storage.View())
    ensures ok ==> storage.View() == Updated(old(storage.View()), document, {}, {})
  {
    ghost var g := storage.View();
    ghost var stored := storage.nodes;
    var batch := PrepareDeletionBatch(storage, document);
    OwnListIs(stored, document, g);
    DeletionApplied(g, batch, OwnList(stored, document));
    ok := storage.ApplyReconciliation(batch);
  }

  lemma DeletionApplied(g: Graph, batch: Batch, own: seq<GraphNode>)
    requires Coherent(g) && Prepared(batch, g) && NodeSet(own) == OwnNodes(g, batch.document)
    requires batch.nodes == [] && batch.facts == []
    ensures Publishable(g, batch.document, {}, {}) && Projectable(g, batch.document, {}, {})
    ensures Applied(g, batch, own) == Updated(g, batch.document, {}, {}) && Coherent(Applied(g, batch, own))
  {
    assert NodeSet(batch.nodes) == {} && FactSet(batch.facts) == {};
    AppliedIsUpdated(g, batch, own);
    UpdateCoherent(g, batch.document, {}, {});
  }

  // ---------- Exactness of the steps ----------

  /** What a reconciliation that meets no key conflict publishes. */
  lemma ReconciliationPublishable(g: Graph, document: Document, symbols: seq<Symbol>, relationships: seq<Relationship>,
                                  ids: seq<string>, stored: seq<GraphNode>)
    requires Coherent(g) && g.nodes == NodeSet(stored) && |ids| == |symbols| + 1 && Fresh(ids, stored)
    requires NoKeyConflict(document, symbols, ids, stored)
    requires Assertable(document, relationships, NewNodes(document, symbols, ids, stored))
    ensures var list := NewNodes(document, symbols, ids, stored);
      Publishable(g, document.id, NodeSet(list), FactSet(Facts(document, relationships, list)))
  {
    var list := NewNodes(document, symbols, ids, stored);
    NewNodesPublishable(g, document, symbols, ids, stored);
    assert forall n | n in list :: n in NodeSet(list);
    FactsPublishable(g, document, relationships, list);
    assert forall o, n | o in g.nodes - OwnNodes(g, document.id) && n in NodeSet(list) :: o in stored && n in list;
  }

  lemma NewNodesWellFormed(document: Document, symbols: seq<Symbol>, ids: seq<string>, stored: seq<GraphNode>)
    requires |ids| == |symbols| + 1 && PlainDocument(document, symbols)
    ensures forall n | n in NewNodes(document, symbols, ids, stored) :: WellFormed(n)
  {
    var list := NewNodes(document, symbols, ids, stored);
    RegisteredNodesWellFormed(document, symbols, ids);
    forall i | 0 <= i < |list| ensures WellFormed(list[i]) {
      assert DocumentNodes(document, symbols, ids)[i] in DocumentNodes(document, symbols, ids);
    }
  }

  /** For a plain document that keeps the names of its keys, a successful reconciliation publishes exactly
      what resolving every fact again would, if and only if nothing hidden changed; which is so when the
      search notices every change of a lookup. */
  lemma ReconciliationExact(g: Graph, document: Document, symbols: seq<Symbol>, relationships: seq<Relationship>,
                            ids: seq<string>, stored: seq<GraphNode>)
    requires Valid(g) && Synced(g) && g.nodes == NodeSet(stored)
    requires |ids| == |symbols| + 1 && Fresh(ids, stored) && PlainDocument(document, symbols)
    requires NoKeyConflict(document, symbols, ids, stored)
    requires Assertable(document, relationships, NewNodes(document, symbols, ids, stored))
    requires KeepsNames(OwnNodes(g, document.id), NodeSet(NewNodes(document, symbols, ids, stored)))
    ensures var list := NewNodes(document, symbols, ids, stored);
      var nodes, facts := NodeSet(list), FactSet(Facts(document, relationships, list));
      && Projectable(g, document.id, nodes, facts)
      && Valid(Updated(g, document.id, nodes, facts))
      && (Synced(Updated(g, document.id, nodes, facts)) <==> NothingHidden(g, document.id, nodes, facts))
      && (AllNoticed(g, document.id, nodes, facts) ==> Synced(Updated(g, document.id, nodes, facts)))
  {
    var list := NewNodes(document, symbols, ids, stored);
    var nodes, facts := NodeSet(list), FactSet(Facts(document, relationships, list));
    ReconciliationPublishable(g, document, symbols, relationships, ids, stored);
    NewNodesWellFormed(document, symbols, ids, stored);
    assert Acceptable(g, document.id, nodes, facts);
    UpdateValid(g, document.id, nodes, facts);
    UpdateExact(g, document.id, nodes, facts);
    if AllNoticed(g, document.id, nodes, facts) {
      NoticedNothingHidden(g, document.id, nodes, facts);
    }
  }
}
