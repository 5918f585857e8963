/** Small stores on which the builder's response is worked out in full. They
    pin down behaviour that follows from the code as written: collection
    nodes are deduplicated per document only, edges never; second-shell
    documents give ids but no nodes; pruning can leave an edge whose end has
    no node; a peer outside the first shell gives no edge. */
module GraphExamples {
  import opened Wrappers
  import opened Items
  import opened GraphSpec
  import GraphProperties

  function PeerLink(peer: ItemId, relation: string): Relationship {
    Relationship(None, Some(relation), Present(peer), Absent)
  }

  function CollectionLink(key: ImmutableId): Relationship {
    Relationship(Some(CollectionsType), None, Absent, Present(key))
  }

  // ---------------------------------------------------------------------
  // Unfolding the specification on short lists

  // Each lemma below only unfolds a definition of the specification on a
  // list of one or two elements, or on one branch of `Select`, so that the
  // worked examples further down can state whole responses.

  /** The specification functions on a single relationship. */
  lemma OneRelationship(target: ItemId, r: Relationship, collections: map<ImmutableId, Collection>,
                        nodeIds: set<ItemId>)
    ensures RelationshipsMissingKey([r]) == RelationshipMissingKey(r)
    ensures EdgesOf(target, [r], collections, nodeIds) == RelationshipEdges(target, r, collections, nodeIds)
    ensures SeenCollections([r], collections) == if Resolved(r, collections) then {r.immutableId.value} else {}
    ensures CollectionNodesOf([r], collections)
         == if Resolved(r, collections) then [CollectionNodeFor(collections[r.immutableId.value])] else []
  {
    assert [r][..0] == [];
  }

  /** The specification functions on a single document. */
  lemma OneDocument(d: Document, collections: map<ImmutableId, Collection>, nodeIds: set<ItemId>)
    ensures DocumentsMissingKey([d]) == RelationshipsMissingKey(d.relationships)
    ensures AllNodes([d], collections) == DocumentNodes(d, collections)
    ensures AllEdges([d], collections, nodeIds) == EdgesOf(d.itemId, d.relationships, collections, nodeIds)
    ensures Ids([d]) == {d.itemId}
  {
    assert [d][..0] == [];
  }

  /** The specification functions on two documents. */
  lemma TwoDocuments(d1: Document, d2: Document, collections: map<ImmutableId, Collection>, nodeIds: set<ItemId>)
    ensures DocumentsMissingKey([d1, d2])
         == if RelationshipsMissingKey(d1.relationships).Some? then RelationshipsMissingKey(d1.relationships)
            else RelationshipsMissingKey(d2.relationships)
    ensures AllNodes([d1, d2], collections) == DocumentNodes(d1, collections) + DocumentNodes(d2, collections)
    ensures AllEdges([d1, d2], collections, nodeIds)
         == EdgesOf(d1.itemId, d1.relationships, collections, nodeIds)
            + EdgesOf(d2.itemId, d2.relationships, collections, nodeIds)
  {
    assert [d1, d2][..1] == [d1];
    OneDocument(d1, collections, nodeIds);
  }

  /** The identifiers of two documents. */
  lemma IdsOfTwo(d1: Document, d2: Document)
    ensures Ids([d1, d2]) == {d1.itemId, d2.itemId}
  {
    assert d1 in [d1, d2] && d2 in [d1, d2];
  }

  /** A query over a store of two documents. */
  lemma QueryTwo(d1: Document, d2: Document, ids: set<ItemId>)
    ensures Query([d1, d2], ids) == (if Matches(d1, ids) then [d1] else []) + (if Matches(d2, ids) then [d2] else [])
  {
    assert [d1, d2][..1] == [d1] && [d1][..0] == [];
    assert Query([d1], ids) == (if Matches(d1, ids) then [d1] else []);
  }

  /** A query over a store of three documents. */
  lemma QueryThree(d1: Document, d2: Document, d3: Document, ids: set<ItemId>)
    ensures Query([d1, d2, d3], ids)
         == (if Matches(d1, ids) then [d1] else []) + (if Matches(d2, ids) then [d2] else [])
            + (if Matches(d3, ids) then [d3] else [])
  {
    assert [d1, d2, d3][..2] == [d1, d2];
    QueryTwo(d1, d2, ids);
  }

  /** Pruning a single node. */
  lemma PruneOne(n: Node, whitelist: set<string>)
    ensures Prune([n], whitelist) == if Keep(n, whitelist) then [n] else []
  {
    assert [n][..0] == [];
  }

  /** `Select` when the first shell holds more than one id. */
  lemma SelectWide(store: seq<Document>, f: ItemId, shell: seq<Document>, ids: set<ItemId>, more: set<ItemId>)
    requires shell == Query(store, {f}) && ids == Ids(shell) && |ids| > 1
    requires more == Ids(Query(store, ids - {f}))
    ensures Select(store, Some(f)) == Selection(shell, ids + more)
  {
  }

  /** A list whose every node is kept is returned whole. */
  lemma {:induction false} PruneAllKept(nodes: seq<Node>, whitelist: set<string>)
    requires forall n :: n in nodes ==> Keep(n, whitelist)
    ensures Prune(nodes, whitelist) == nodes
    decreases |nodes|
  {
    if nodes != [] {
      var earlier := nodes[..|nodes| - 1];
      var last := nodes[|nodes| - 1];
      assert nodes == earlier + [last];
      assert Keep(last, whitelist);
      PruneAllKept(earlier, whitelist);
    }
  }

  // ---------------------------------------------------------------------
  // A parent outside the first shell

  // A sample A whose parent is B, and B with no relationships.
  function ParentA(): Document { Document("A", "Sample A", "samples", [PeerLink("B", "parent")]) }
  function ParentB(): Document { Document("B", "Sample B", "samples", []) }

  /** Asking for A selects A alone, and its only id: B neither is A nor
      mentions A, so no second query runs. */
  lemma ParentSelection()
    ensures Select([ParentA(), ParentB()], Some("A")) == Selection([ParentA()], {"A"})
  {
    var a, b := ParentA(), ParentB();
    QueryTwo(a, b, {"A"});
    assert Matches(a, {"A"});
    assert !Matches(b, {"A"}) by {
      assert "B" != "A";
    }
    assert Query([a, b], {"A"}) == [a];
    OneDocument(a, map[], {});
    assert Ids([a]) == {"A"};
    assert |{"A"}| == 1;
  }

  /** Processing A alone with the node id A: B is not a node id, so no edge. */
  lemma ParentResponse()
    ensures BuildGraph([ParentA()], map[], {"A"}) == Graph([ItemNode("A", "Sample A", "samples", {})], [])
    ensures DocumentsMissingKey([ParentA()]) == None
  {
    var a := ParentA();
    var nodeA := ItemNode("A", "Sample A", "samples", {});
    OneDocument(a, map[], {"A"});
    OneRelationship("A", PeerLink("B", "parent"), map[], {"A"});
    assert !LinksPeer(PeerLink("B", "parent"), {"A"}) by {
      assert "B" != "A";
    }
    assert AllEdges([a], map[], {"A"}) == [];
    assert AllNodes([a], map[]) == [nodeA];
    PruneOne(nodeA, {});
  }

  /** A sample A whose parent is B, and B with no relationships. Asking for
      A's graph gives A alone and no edge: B neither is A nor mentions A, so
      it is not in the first shell, and the first shell's single id means no
      second query runs. */
  lemma ParentOutsideFirstShell()
    ensures GraphCyFormat([ParentA(), ParentB()], map[], Some("A"))
         == Ok(Graph([ItemNode("A", "Sample A", "samples", {})], []))
  {
    ParentSelection();
    ParentResponse();
  }

  // ---------------------------------------------------------------------
  // Ids from the second shell

  // Three samples A, B, D: A's parent is D, B's parent is A, D's parent is B.
  function ChainA(): Document { Document("A", "a", "samples", [PeerLink("D", "parent")]) }
  function ChainB(): Document { Document("B", "b", "samples", [PeerLink("A", "parent")]) }
  function ChainD(): Document { Document("D", "d", "samples", [PeerLink("B", "parent")]) }

  /** The query for A finds A and B, which mentions A; the query for B finds
      B and D, which mentions B. */
  lemma ChainShells()
    ensures Query([ChainA(), ChainB(), ChainD()], {"A"}) == [ChainA(), ChainB()]
    ensures Query([ChainA(), ChainB(), ChainD()], {"B"}) == [ChainB(), ChainD()]
  {
    var a, b, d := ChainA(), ChainB(), ChainD();
    QueryThree(a, b, d, {"A"});
    QueryThree(a, b, d, {"B"});
    assert Matches(a, {"A"});
    assert Matches(b, {"A"}) by {
      assert PeerLink("A", "parent") in b.relationships;
    }
    assert !Matches(d, {"A"}) by {
      assert "D" != "A" && "B" != "A";
    }
    assert !Matches(a, {"B"}) by {
      assert "A" != "B" && "D" != "B";
    }
    assert Matches(b, {"B"});
    assert Matches(d, {"B"}) by {
      assert PeerLink("B", "parent") in d.relationships;
    }
  }

  /** Asking for A selects A and B for processing, with node ids A, B, D. */
  lemma ChainSelection()
    ensures Select([ChainA(), ChainB(), ChainD()], Some("A")) == Selection([ChainA(), ChainB()], {"A", "B", "D"})
  {
    var a, b, d := ChainA(), ChainB(), ChainD();
    var store := [a, b, d];
    ChainShells();
    IdsOfTwo(a, b);
    IdsOfTwo(b, d);
    var ids := {"A", "B"};
    assert |ids| == 2 by {
      assert "A" != "B";
    }
    assert ids - {"A"} == {"B"};
    SelectWide(store, "A", [a, b], ids, {"B", "D"});
    assert ids + {"B", "D"} == {"A", "B", "D"};
  }

  /** Processing A and B alone with the node ids A, B and D. */
  lemma ChainResponse()
    ensures BuildGraph([ChainA(), ChainB()], map[], {"A", "B", "D"})
         == Graph([ItemNode("A", "a", "samples", {}), ItemNode("B", "b", "samples", {})],
                  [EdgeBetween("D", "A"), EdgeBetween("A", "B")])
    ensures DocumentsMissingKey([ChainA(), ChainB()]) == None
  {
    var a, b := ChainA(), ChainB();
    var ids := {"A", "B", "D"};
    TwoDocuments(a, b, map[], ids);
    OneRelationship("A", PeerLink("D", "parent"), map[], ids);
    OneRelationship("B", PeerLink("A", "parent"), map[], ids);
    var nodes := [ItemNode("A", "a", "samples", {}), ItemNode("B", "b", "samples", {})];
    assert AllNodes([a, b], map[]) == nodes;
    var edges := [EdgeBetween("D", "A"), EdgeBetween("A", "B")];
    assert AllEdges([a, b], map[], ids) == edges;
    PruneAllKept(nodes, Sources(edges));
  }

  /** Asking for A's graph: the first shell is A and B, the second query
      (for B) finds B and D, so D is a node id and the edge D->A is drawn;
      but D's document is never processed, so no node has the id D. */
  lemma SecondShellGivesIdsButNoNodes()
    ensures
      GraphCyFormat([ChainA(), ChainB(), ChainD()], map[], Some("A"))
        == Ok(Graph([ItemNode("A", "a", "samples", {}), ItemNode("B", "b", "samples", {})],
                    [EdgeBetween("D", "A"), EdgeBetween("A", "B")]))
  {
    ChainSelection();
    ChainResponse();
  }

  // ---------------------------------------------------------------------
  // An edge into a pruned node

  // A sample P and a starting material M whose parent is P.
  function PrunedP(): Document { Document("P", "precursor", "samples", []) }
  function PrunedM(): Document { Document("M", "reagent", "starting_materials", [PeerLink("P", "parent")]) }

  /** Before pruning: both item nodes and the edge P->M. */
  lemma PrunedBuild()
    ensures DocumentsMissingKey([PrunedP(), PrunedM()]) == None
    ensures Ids([PrunedP(), PrunedM()]) == {"P", "M"}
    ensures AllEdges([PrunedP(), PrunedM()], map[], {"P", "M"}) == [EdgeBetween("P", "M")]
    ensures AllNodes([PrunedP(), PrunedM()], map[])
         == [ItemNode("P", "precursor", "samples", {}), ItemNode("M", "reagent", "starting_materials", {})]
  {
    var ids := {"P", "M"};
    TwoDocuments(PrunedP(), PrunedM(), map[], ids);
    IdsOfTwo(PrunedP(), PrunedM());
    OneRelationship("M", PeerLink("P", "parent"), map[], ids);
  }

  /** Pruning with the whitelist {P} drops M. */
  lemma PrunedNodes()
    ensures Prune([ItemNode("P", "precursor", "samples", {}), ItemNode("M", "reagent", "starting_materials", {})],
                  Sources([EdgeBetween("P", "M")]))
         == [ItemNode("P", "precursor", "samples", {})]
  {
    var nodeP := ItemNode("P", "precursor", "samples", {});
    var nodeM := ItemNode("M", "reagent", "starting_materials", {});
    assert Sources([EdgeBetween("P", "M")]) == {"P"};
    assert !Keep(nodeM, {"P"}) by {
      assert "M" != "P";
      assert !IsWhitelistedType("starting_materials");
    }
    PruneOne(nodeP, {"P"});
    PruneOne(nodeM, {"P"});
    GraphProperties.PruneKeepsOrder([nodeP], [nodeM], {"P"});
    assert [nodeP] + [nodeM] == [nodeP, nodeM];
  }

  /** A starting material M whose parent is the sample P: the edge P->M is
      drawn, but M is neither a sample nor a cell nor any edge's source, so
      its node is pruned while the edge pointing at it stays. */
  lemma PrunedTargetKeepsItsEdge()
    ensures GraphCyFormat([PrunedP(), PrunedM()], map[], None)
         == Ok(Graph([ItemNode("P", "precursor", "samples", {})], [EdgeBetween("P", "M")]))
  {
    PrunedBuild();
    PrunedNodes();
  }

  // ---------------------------------------------------------------------
  // Collection nodes repeated across documents

  // The collection c1 ("batch-1"), mentioned twice by the sample X and once by the cell Y.
  function Batch(): Collection { Collection("batch-1", "Batch 1", "collections") }
  function Triangle(): Node { CollectionNode("Collection: batch-1", "Batch 1", "collections", "triangle") }

  /** Two mentions of c1: one triangle node, but two edges from it. */
  lemma TwoMentions(target: ItemId)
    ensures var rels := [CollectionLink("c1"), CollectionLink("c1")];
      && RelationshipsMissingKey(rels) == None
      && SeenCollections(rels, map["c1" := Batch()]) == {"c1"}
      && CollectionNodesOf(rels, map["c1" := Batch()]) == [Triangle()]
      && EdgesOf(target, rels, map["c1" := Batch()], {"X", "Y"})
         == [EdgeBetween("Collection: batch-1", target), EdgeBetween("Collection: batch-1", target)]
  {
    var collections := map["c1" := Batch()];
    var link := CollectionLink("c1");
    assert Resolved(link, collections);
    assert CollectionNodeFor(Batch()) == Triangle();
    OneRelationship(target, link, collections, {"X", "Y"});
    assert [link, link][..1] == [link];
  }

  /** X mentions collection c1 twice and Y once. X gets one triangle node
      for c1 but two edges from it; Y gets a second, identical triangle
      node, since deduplication does not reach across documents. */
  lemma CollectionNodesRepeatAcrossDocuments()
    ensures
      var x := Document("X", "x", "samples", [CollectionLink("c1"), CollectionLink("c1")]);
      var y := Document("Y", "y", "cells", [CollectionLink("c1")]);
      GraphCyFormat([x, y], map["c1" := Batch()], None)
        == Ok(Graph([Triangle(), ItemNode("X", "x", "samples", {"c1"}), Triangle(), ItemNode("Y", "y", "cells", {"c1"})],
                    [EdgeBetween("Collection: batch-1", "X"), EdgeBetween("Collection: batch-1", "X"),
                     EdgeBetween("Collection: batch-1", "Y")]))
  {
    var collections := map["c1" := Batch()];
    var link := CollectionLink("c1");
    var x := Document("X", "x", "samples", [link, link]);
    var y := Document("Y", "y", "cells", [link]);
    var ids := {"X", "Y"};
    TwoDocuments(x, y, collections, ids);
    IdsOfTwo(x, y);
    TwoMentions("X");
    assert Resolved(link, collections);
    assert CollectionNodeFor(Batch()) == Triangle();
    OneRelationship("Y", link, collections, ids);
    var nodes := [Triangle(), ItemNode("X", "x", "samples", {"c1"}), Triangle(), ItemNode("Y", "y", "cells", {"c1"})];
    assert AllNodes([x, y], collections) == nodes;
    var toX, toY := EdgeBetween("Collection: batch-1", "X"), EdgeBetween("Collection: batch-1", "Y");
    assert AllEdges([x, y], collections, ids) == [toX, toX, toY];
    assert Triangle().id in Sources([toX, toX, toY]);
    PruneAllKept(nodes, Sources([toX, toX, toY]));
  }

  // ---------------------------------------------------------------------
  // A missing key

  /** An "is_part_of" relationship without a peer id makes the whole request
      fail, whatever came before it. */
  lemma MissingPeerFailsRequest()
    ensures
      var ok := Document("K", "k", "samples", [CollectionLink("unknown")]);
      var broken := Document("Q", "q", "samples", [Relationship(None, Some("is_part_of"), Absent, Absent)]);
      GraphCyFormat([ok, broken], map[], None) == Err(KeyError("item_id"))
  {
    var ok := Document("K", "k", "samples", [CollectionLink("unknown")]);
    var broken := Relationship(None, Some("is_part_of"), Absent, Absent);
    TwoDocuments(ok, Document("Q", "q", "samples", [broken]), map[], {"K", "Q"});
    OneRelationship("K", CollectionLink("unknown"), map[], {});
    OneRelationship("Q", broken, map[], {});
  }

  // ---------------------------------------------------------------------
  // Null keys

  /** A "parent" link whose `item_id` is null and a collection link whose
      `immutable_id` is null are present keys, so nothing raises: the first
      is not among the node ids and the second finds no collection. The
      request succeeds with the document's own node alone. */
  lemma NullKeysAreSkipped()
    ensures
      var d := Document("A", "a", "samples", [Relationship(None, Some("parent"), Null, Absent),
                                              Relationship(Some(CollectionsType), None, Absent, Null)]);
      GraphCyFormat([d], map[], None) == Ok(Graph([ItemNode("A", "a", "samples", {})], []))
  {
    var p := Relationship(None, Some("parent"), Null, Absent);
    var c := Relationship(Some(CollectionsType), None, Absent, Null);
    var d := Document("A", "a", "samples", [p, c]);
    var node := ItemNode("A", "a", "samples", {});
    assert d.relationships[..1] == [p];
    OneRelationship("A", p, map[], {"A"});
    OneRelationship("A", c, map[], {"A"});
    assert RelationshipsMissingKey(d.relationships) == None;
    assert EdgesOf("A", d.relationships, map[], {"A"}) == [];
    assert SeenCollections(d.relationships, map[]) == {};
    assert CollectionNodesOf(d.relationships, map[]) == [];
    OneDocument(d, map[], {"A"});
    PruneOne(node, {});
  }
}
