/** What the graph builder's specification means: which documents a request
    processes, which ids count as nodes, which relationships give nodes and
    edges, how pruning treats the node list, and when the request fails. */
module GraphProperties {
  import opened Wrappers
  import opened Items
  import opened GraphSpec

  // ---------------------------------------------------------------------
  // Selecting documents

  /** The query for `ids` returns exactly the stored documents it matches. */
  lemma {:induction false} QueryMembership(store: seq<Document>, ids: set<ItemId>, d: Document)
    ensures d in Query(store, ids) <==> d in store && Matches(d, ids)
    decreases |store|
  {
    if store != [] {
      var earlier := store[..|store| - 1];
      QueryMembership(earlier, ids, d);
      assert store == earlier + [store[|store| - 1]];
    }
  }

  /** The query keeps the store's order: querying two stretches of the store
      and joining the answers is querying the whole. */
  lemma {:induction false} QueryKeepsOrder(a: seq<Document>, b: seq<Document>, ids: set<ItemId>)
    ensures Query(a + b, ids) == Query(a, ids) + Query(b, ids)
    decreases |b|
  {
    if b == [] {
      assert a + b == a;
    } else {
      var earlier := b[..|b| - 1];
      QueryKeepsOrder(a, earlier, ids);
      assert (a + b)[..|a + b| - 1] == a + earlier;
    }
  }

  /** Without a focal item every visible document is processed, `nodeIds` is
      exactly their ids, and before pruning each of them has its item node,
      in store order. */
  lemma UnfocusedSelection(store: seq<Document>, collections: map<ImmutableId, Collection>)
    ensures Select(store, None).documents == store
    ensures forall id :: id in Select(store, None).nodeIds <==> exists d :: d in store && d.itemId == id
    ensures ItemNodes(AllNodes(Select(store, None).documents, collections)) == ItemNodesFor(store, collections)
  {
    ItemNodesInOrder(store, collections);
  }

  /** With a focal item `f` the processed documents are exactly the first
      shell: the visible documents whose id is `f` or which mention `f`. The
      second query runs only when the first shell holds more than one id,
      matches on the ids other than `f`, and contributes ids only. */
  lemma FocusedSelection(store: seq<Document>, f: ItemId)
    ensures var selection := Select(store, Some(f));
      forall d :: d in selection.documents <==> d in store && (d.itemId == f || MentionsAny(d, {f}))
    ensures var selection := Select(store, Some(f));
      |Ids(selection.documents)| <= 1 ==> selection.nodeIds == Ids(selection.documents)
    ensures var selection := Select(store, Some(f));
      var others := Ids(selection.documents) - {f};
      |Ids(selection.documents)| > 1 ==>
        forall id :: id in selection.nodeIds <==>
          id in Ids(selection.documents) || exists d :: d in store && d.itemId == id && Matches(d, others)
  {
    var selection := Select(store, Some(f));
    forall d ensures d in selection.documents <==> d in store && (d.itemId == f || MentionsAny(d, {f})) {
      QueryMembership(store, {f}, d);
    }
    var others := Ids(selection.documents) - {f};
    if |Ids(selection.documents)| > 1 {
      forall id
        ensures id in selection.nodeIds <==>
          id in Ids(selection.documents) || exists d :: d in store && d.itemId == id && Matches(d, others)
      {
        if id in selection.nodeIds && id !in Ids(selection.documents) {
          var d :| d in Query(store, others) && d.itemId == id;
          QueryMembership(store, others, d);
        }
        if exists d :: d in store && d.itemId == id && Matches(d, others) {
          var d :| d in store && d.itemId == id && Matches(d, others);
          QueryMembership(store, others, d);
        }
      }
    }
  }

  /** `nodeIds` holds the ids of every processed document and only ids of
      visible documents: the expansion only adds ids. */
  lemma NodeIdsBounds(store: seq<Document>, focal: Option<ItemId>)
    ensures Ids(Select(store, focal).documents) <= Select(store, focal).nodeIds
    ensures Select(store, focal).nodeIds <= Ids(store)
  {
    if focal.Some? {
      var f := focal.value;
      var shell := Query(store, {f});
      forall id | id in Ids(shell) ensures id in Ids(store) {
        var d :| d in shell && d.itemId == id;
        QueryMembership(store, {f}, d);
      }
      var next := Query(store, Ids(shell) - {f});
      forall id | id in Ids(next) ensures id in Ids(store) {
        var d :| d in next && d.itemId == id;
        QueryMembership(store, Ids(shell) - {f}, d);
      }
    }
  }

  // ---------------------------------------------------------------------
  // Failing on a missing key

  /** One more relationship: how the specification functions on a prefix of
      `rels` grow by the relationship that follows it. */
  lemma RelationshipsStep(target: ItemId, rels: seq<Relationship>, j: nat,
                          collections: map<ImmutableId, Collection>, nodeIds: set<ItemId>)
    requires j < |rels|
    ensures var done, next, r := rels[..j], rels[..j + 1], rels[j];
      && (RelationshipsMissingKey(done) == None ==> RelationshipsMissingKey(next) == RelationshipMissingKey(r))
      && SeenCollections(next, collections)
         == SeenCollections(done, collections) + (if Resolved(r, collections) then {r.immutableId.value} else {})
      && CollectionNodesOf(next, collections)
         == CollectionNodesOf(done, collections)
            + (if Resolved(r, collections) && r.immutableId.value !in SeenCollections(done, collections)
               then [CollectionNodeFor(collections[r.immutableId.value])] else [])
      && EdgesOf(target, next, collections, nodeIds)
         == EdgesOf(target, done, collections, nodeIds) + RelationshipEdges(target, r, collections, nodeIds)
  {
    assert rels[..j + 1][..j] == rels[..j];
  }

  /** Once a prefix of the relationships lacks a key, the first missing key
      of the whole list is that prefix's. */
  lemma {:induction false} RelationshipsMissingKeyPrefix(rels: seq<Relationship>, n: nat)
    requires n <= |rels|
    requires RelationshipsMissingKey(rels[..n]).Some?
    ensures RelationshipsMissingKey(rels) == RelationshipsMissingKey(rels[..n])
    decreases |rels| - n
  {
    if n < |rels| {
      var earlier := rels[..|rels| - 1];
      assert earlier[..n] == rels[..n];
      RelationshipsMissingKeyPrefix(earlier, n);
    } else {
      assert rels[..n] == rels;
    }
  }

  lemma {:induction false} DocumentsMissingKeyPrefix(docs: seq<Document>, n: nat)
    requires n <= |docs|
    requires DocumentsMissingKey(docs[..n]).Some?
    ensures DocumentsMissingKey(docs) == DocumentsMissingKey(docs[..n])
    decreases |docs| - n
  {
    if n < |docs| {
      var earlier := docs[..|docs| - 1];
      assert earlier[..n] == docs[..n];
      DocumentsMissingKeyPrefix(earlier, n);
    } else {
      assert docs[..n] == docs;
    }
  }

  /** The request fails with the key of the first relationship, in
      processing order, that lacks the key the builder looks up. */
  lemma FirstMissingKey(docs: seq<Document>, i: nat, j: nat)
    requires i < |docs| && j < |docs[i].relationships|
    requires DocumentsMissingKey(docs[..i]) == None
    requires RelationshipsMissingKey(docs[i].relationships[..j]) == None
    requires RelationshipMissingKey(docs[i].relationships[j]).Some?
    ensures DocumentsMissingKey(docs) == RelationshipMissingKey(docs[i].relationships[j])
  {
    var rels := docs[i].relationships;
    assert rels[..j + 1][..j] == rels[..j];
    RelationshipsMissingKeyPrefix(rels, j + 1);
    assert docs[..i + 1][..i] == docs[..i];
    DocumentsMissingKeyPrefix(docs, i + 1);
  }

  /** No key is missing in `rels` exactly when every relationship has the
      key the builder looks up. */
  lemma {:induction false} NoMissingKeyInRelationships(rels: seq<Relationship>)
    ensures RelationshipsMissingKey(rels).None? <==> forall r :: r in rels ==> RelationshipMissingKey(r).None?
    decreases |rels|
  {
    if rels != [] {
      var earlier := rels[..|rels| - 1];
      NoMissingKeyInRelationships(earlier);
      assert rels == earlier + [rels[|rels| - 1]];
    }
  }

  lemma {:induction false} NoMissingKeyInDocuments(docs: seq<Document>)
    ensures DocumentsMissingKey(docs).None? <==>
      forall d, r :: d in docs && r in d.relationships ==> RelationshipMissingKey(r).None?
    decreases |docs|
  {
    if docs != [] {
      var earlier := docs[..|docs| - 1];
      NoMissingKeyInDocuments(earlier);
      NoMissingKeyInRelationships(docs[|docs| - 1].relationships);
      assert docs == earlier + [docs[|docs| - 1]];
    }
  }

  // ---------------------------------------------------------------------
  // Nodes and edges of one document

  /** `node_collections` is the set of ids of the resolved collections the
      relationships mention. */
  lemma {:induction false} SeenCollectionsMembership(rels: seq<Relationship>, collections: map<ImmutableId, Collection>,
                                                     k: ImmutableId)
    ensures k in SeenCollections(rels, collections) <==>
      exists r :: r in rels && Resolved(r, collections) && r.immutableId.value == k
    decreases |rels|
  {
    if rels != [] {
      var earlier := rels[..|rels| - 1];
      SeenCollectionsMembership(earlier, collections, k);
      assert rels == earlier + [rels[|rels| - 1]];
    }
  }

  /** Within one document each resolved collection gives exactly one
      triangle node, however often it is mentioned, and nothing else gives
      one. */
  lemma {:induction false} CollectionNodesOnePerCollection(rels: seq<Relationship>,
                                                           collections: map<ImmutableId, Collection>)
    ensures SeenCollections(rels, collections) <= collections.Keys
    ensures |CollectionNodesOf(rels, collections)| == |SeenCollections(rels, collections)|
    ensures forall n :: n in CollectionNodesOf(rels, collections) <==>
      exists k :: k in SeenCollections(rels, collections) && k in collections && n == CollectionNodeFor(collections[k])
    decreases |rels|
  {
    if rels != [] {
      var earlier := rels[..|rels| - 1];
      var r := rels[|rels| - 1];
      CollectionNodesOnePerCollection(earlier, collections);
      var before := SeenCollections(earlier, collections);
      if Resolved(r, collections) && r.immutableId.value !in before {
        assert SeenCollections(rels, collections) == before + {r.immutableId.value};
        assert |before + {r.immutableId.value}| == |before| + 1;
      } else if Resolved(r, collections) {
        assert SeenCollections(rels, collections) == before;
      }
    }
  }

  /** Each relationship gives its edges independently of the others: edges
      are never deduplicated. */
  lemma {:induction false} EdgesCompose(target: ItemId, a: seq<Relationship>, b: seq<Relationship>,
                                        collections: map<ImmutableId, Collection>, nodeIds: set<ItemId>)
    ensures EdgesOf(target, a + b, collections, nodeIds)
         == EdgesOf(target, a, collections, nodeIds) + EdgesOf(target, b, collections, nodeIds)
    decreases |b|
  {
    if b == [] {
      assert a + b == a;
    } else {
      var earlier := b[..|b| - 1];
      EdgesCompose(target, a, earlier, collections, nodeIds);
      assert (a + b)[..|a + b| - 1] == a + earlier;
      assert (a + b)[|a + b| - 1] == b[|b| - 1];
    }
  }

  /** An edge of a document comes from one of its relationships: from the
      triangle node of a resolved collection, or from a "parent" or
      "is_part_of" peer that is one of `nodeIds`; in both cases it points at
      the document itself. */
  lemma {:induction false} EdgeOrigin(target: ItemId, rels: seq<Relationship>, collections: map<ImmutableId, Collection>,
                                      nodeIds: set<ItemId>, e: Edge)
    ensures e in EdgesOf(target, rels, collections, nodeIds) <==>
      exists r :: r in rels &&
        ((Resolved(r, collections) && e == EdgeBetween(CollectionNodeId(collections[r.immutableId.value]), target))
         || (LinksPeer(r, nodeIds) && e == EdgeBetween(r.itemId.value, target)))
    decreases |rels|
  {
    if rels != [] {
      var earlier := rels[..|rels| - 1];
      EdgeOrigin(target, earlier, collections, nodeIds, e);
      assert rels == earlier + [rels[|rels| - 1]];
    }
  }

  /** A collection link whose `immutable_id` is present but finds no
      collection (null or unknown), a "parent"/"is_part_of" link whose
      `item_id` is null, and a link of any other kind give no node, no edge
      and no error: taking such a relationship out of the list changes
      nothing. */
  predicate Inert(r: Relationship, collections: map<ImmutableId, Collection>) {
    if IsCollectionLink(r) then !r.immutableId.Absent? && !Resolved(r, collections)
    else !IsPeerRelation(r.relation) || r.itemId.Null?
  }

  /** A relationship that gives no edge of its own can be taken out of the
      list without changing its edges. */
  lemma {:induction false} InertRelationshipGivesNoEdge(target: ItemId, a: seq<Relationship>, r: Relationship,
                                                        b: seq<Relationship>, collections: map<ImmutableId, Collection>,
                                                        nodeIds: set<ItemId>)
    requires RelationshipEdges(target, r, collections, nodeIds) == []
    ensures EdgesOf(target, a + [r] + b, collections, nodeIds) == EdgesOf(target, a + b, collections, nodeIds)
    decreases |b|
  {
    var whole, without := a + [r] + b, a + b;
    if b == [] {
      assert whole[..|whole| - 1] == a && whole[|whole| - 1] == r;
      assert without == a;
    } else {
      var earlier, last := b[..|b| - 1], b[|b| - 1];
      InertRelationshipGivesNoEdge(target, a, r, earlier, collections, nodeIds);
      assert whole == (a + [r] + earlier) + [last];
      assert without == (a + earlier) + [last];
      EdgesCompose(target, a + [r] + earlier, [last], collections, nodeIds);
      EdgesCompose(target, a + earlier, [last], collections, nodeIds);
    }
  }

  /** What an inert relationship gives on its own: nothing. */
  lemma InertRelationshipGivesNoStep(target: ItemId, r: Relationship, collections: map<ImmutableId, Collection>,
                                     nodeIds: set<ItemId>)
    requires Inert(r, collections)
    ensures RelationshipEdges(target, r, collections, nodeIds) == []
    ensures !Resolved(r, collections)
    ensures RelationshipMissingKey(r) == None
  {
  }

  /** A relationship naming no found collection can be taken out of the
      list without changing the seen collections or the triangle nodes. */
  lemma {:induction false} InertRelationshipGivesNoNode(a: seq<Relationship>, r: Relationship, b: seq<Relationship>,
                                                        collections: map<ImmutableId, Collection>)
    requires !Resolved(r, collections)
    ensures SeenCollections(a + [r] + b, collections) == SeenCollections(a + b, collections)
    ensures CollectionNodesOf(a + [r] + b, collections) == CollectionNodesOf(a + b, collections)
    decreases |b|
  {
    var whole, without := a + [r] + b, a + b;
    if b == [] {
      assert whole[..|whole| - 1] == a && whole[|whole| - 1] == r;
      assert without == a;
    } else {
      var earlier, last := b[..|b| - 1], b[|b| - 1];
      InertRelationshipGivesNoNode(a, r, earlier, collections);
      assert whole[..|whole| - 1] == a + [r] + earlier && whole[|whole| - 1] == last;
      assert without[..|without| - 1] == a + earlier && without[|without| - 1] == last;
    }
  }

  /** A relationship lacking no key can be taken out of the list without
      changing the missing-key outcome. */
  lemma {:induction false} InertRelationshipGivesNoError(a: seq<Relationship>, r: Relationship, b: seq<Relationship>)
    requires RelationshipMissingKey(r) == None
    ensures RelationshipsMissingKey(a + [r] + b) == RelationshipsMissingKey(a + b)
    decreases |b|
  {
    var whole, without := a + [r] + b, a + b;
    if b == [] {
      assert whole[..|whole| - 1] == a && whole[|whole| - 1] == r;
      assert without == a;
    } else {
      var earlier, last := b[..|b| - 1], b[|b| - 1];
      InertRelationshipGivesNoError(a, r, earlier);
      assert whole[..|whole| - 1] == a + [r] + earlier && whole[|whole| - 1] == last;
      assert without[..|without| - 1] == a + earlier && without[|without| - 1] == last;
    }
  }

  lemma InertRelationshipIgnored(target: ItemId, a: seq<Relationship>, r: Relationship, b: seq<Relationship>,
                                 collections: map<ImmutableId, Collection>, nodeIds: set<ItemId>)
    requires Inert(r, collections)
    ensures EdgesOf(target, a + [r] + b, collections, nodeIds) == EdgesOf(target, a + b, collections, nodeIds)
    ensures SeenCollections(a + [r] + b, collections) == SeenCollections(a + b, collections)
    ensures CollectionNodesOf(a + [r] + b, collections) == CollectionNodesOf(a + b, collections)
    ensures RelationshipsMissingKey(a + [r] + b) == RelationshipsMissingKey(a + b)
  {
    InertRelationshipGivesNoStep(target, r, collections, nodeIds);
    InertRelationshipGivesNoEdge(target, a, r, b, collections, nodeIds);
    InertRelationshipGivesNoNode(a, r, b, collections);
    InertRelationshipGivesNoError(a, r, b);
  }

  // ---------------------------------------------------------------------
  // Nodes and edges of all processed documents

  /** The item nodes of a node list, in order. */
  function ItemNodes(nodes: seq<Node>): seq<Node>
    decreases |nodes|
  {
    if nodes == [] then []
    else
      var n := nodes[|nodes| - 1];
      ItemNodes(nodes[..|nodes| - 1]) + (if n.ItemNode? then [n] else [])
  }

  /** The item node of each document, in order. */
  function ItemNodesFor(docs: seq<Document>, collections: map<ImmutableId, Collection>): seq<Node>
    decreases |docs|
  {
    if docs == [] then []
    else ItemNodesFor(docs[..|docs| - 1], collections) + [ItemNodeFor(docs[|docs| - 1], collections)]
  }

  lemma {:induction false} ItemNodesCompose(a: seq<Node>, b: seq<Node>)
    ensures ItemNodes(a + b) == ItemNodes(a) + ItemNodes(b)
    decreases |b|
  {
    if b == [] {
      assert a + b == a;
    } else {
      var earlier := b[..|b| - 1];
      ItemNodesCompose(a, earlier);
      assert (a + b)[..|a + b| - 1] == a + earlier;
    }
  }

  lemma {:induction false} NoItemNodeAmongCollectionNodes(rels: seq<Relationship>,
                                                          collections: map<ImmutableId, Collection>)
    ensures ItemNodes(CollectionNodesOf(rels, collections)) == []
    decreases |rels|
  {
    if rels != [] {
      var earlier := rels[..|rels| - 1];
      var r := rels[|rels| - 1];
      NoItemNodeAmongCollectionNodes(earlier, collections);
      var added := if Resolved(r, collections) && r.immutableId.value !in SeenCollections(earlier, collections)
                   then [CollectionNodeFor(collections[r.immutableId.value])] else [];
      ItemNodesCompose(CollectionNodesOf(earlier, collections), added);
      if added != [] {
        assert added[..0] == [];
      }
    }
  }

  /** Before pruning there is exactly one item node per processed document,
      in document order, carrying the document's id, name, type and the
      resolved collections it mentions. */
  lemma {:induction false} ItemNodesInOrder(docs: seq<Document>, collections: map<ImmutableId, Collection>)
    ensures ItemNodes(AllNodes(docs, collections)) == ItemNodesFor(docs, collections)
    decreases |docs|
  {
    if docs != [] {
      var earlier := docs[..|docs| - 1];
      var d := docs[|docs| - 1];
      ItemNodesInOrder(earlier, collections);
      ItemNodesCompose(AllNodes(earlier, collections), DocumentNodes(d, collections));
      ItemNodesCompose(CollectionNodesOf(d.relationships, collections), [ItemNodeFor(d, collections)]);
      NoItemNodeAmongCollectionNodes(d.relationships, collections);
      assert [ItemNodeFor(d, collections)][..0] == [];
    }
  }

  /** Every edge has value 1 and id `source->target`; it points at a
      processed document; and it starts at a node id (`nodeIds`) or at the
      triangle node of a visible collection. */
  lemma {:induction false} EdgeShape(docs: seq<Document>, collections: map<ImmutableId, Collection>,
                                     nodeIds: set<ItemId>, e: Edge)
    requires e in AllEdges(docs, collections, nodeIds)
    ensures e.value == 1 && e.id == e.source + "->" + e.target
    ensures e.target in Ids(docs)
    ensures e.source in nodeIds || exists k :: k in collections && e.source == CollectionNodeId(collections[k])
    decreases |docs|
  {
    var earlier := docs[..|docs| - 1];
    var d := docs[|docs| - 1];
    assert docs == earlier + [d];
    if e in AllEdges(earlier, collections, nodeIds) {
      EdgeShape(earlier, collections, nodeIds, e);
    } else {
      EdgeOrigin(d.itemId, d.relationships, collections, nodeIds, e);
      var r :| r in d.relationships &&
        ((Resolved(r, collections) && e == EdgeBetween(CollectionNodeId(collections[r.immutableId.value]), d.itemId))
         || (LinksPeer(r, nodeIds) && e == EdgeBetween(r.itemId.value, d.itemId)));
    }
  }

  // ---------------------------------------------------------------------
  // Pruning

  /** A node survives pruning exactly when it is kept by the whitelist rule. */
  lemma {:induction false} PruneMembership(nodes: seq<Node>, whitelist: set<string>, n: Node)
    ensures n in Prune(nodes, whitelist) <==> n in nodes && Keep(n, whitelist)
    decreases |nodes|
  {
    if nodes != [] {
      var earlier := nodes[..|nodes| - 1];
      PruneMembership(earlier, whitelist, n);
      assert nodes == earlier + [nodes[|nodes| - 1]];
    }
  }

  /** Pruning keeps the surviving nodes in their original relative order. */
  lemma {:induction false} PruneKeepsOrder(a: seq<Node>, b: seq<Node>, whitelist: set<string>)
    ensures Prune(a + b, whitelist) == Prune(a, whitelist) + Prune(b, whitelist)
    decreases |b|
  {
    if b == [] {
      assert a + b == a;
    } else {
      var earlier := b[..|b| - 1];
      PruneKeepsOrder(a, earlier, whitelist);
      assert (a + b)[..|a + b| - 1] == a + earlier;
    }
  }

  /** Pruning a pruned list changes nothing. */
  lemma {:induction false} PruneIdempotent(nodes: seq<Node>, whitelist: set<string>)
    ensures Prune(Prune(nodes, whitelist), whitelist) == Prune(nodes, whitelist)
    decreases |nodes|
  {
    if nodes != [] {
      var earlier := nodes[..|nodes| - 1];
      var n := nodes[|nodes| - 1];
      PruneIdempotent(earlier, whitelist);
      var kept := if Keep(n, whitelist) then [n] else [];
      PruneKeepsOrder(Prune(earlier, whitelist), kept, whitelist);
      if kept != [] {
        assert kept[..0] == [];
      }
    }
  }

  // ---------------------------------------------------------------------
  // The whole request

  /** The request fails exactly when a processed document has a
      relationship lacking the key the builder looks up. Otherwise the
      edges are those of the processed documents, untouched by pruning, and
      a node is returned exactly when it was built and its type is samples
      or cells or it is the source of some returned edge. */
  lemma GraphCyFormatOutcome(store: seq<Document>, collections: map<ImmutableId, Collection>, focal: Option<ItemId>)
    ensures var selection := Select(store, focal);
      GraphCyFormat(store, collections, focal).Err? <==>
        exists d, r :: d in selection.documents && r in d.relationships && RelationshipMissingKey(r).Some?
    ensures var selection := Select(store, focal);
      var outcome := GraphCyFormat(store, collections, focal);
      outcome.Ok? ==>
        outcome.value.edges == AllEdges(selection.documents, collections, selection.nodeIds)
        && forall n :: n in outcome.value.nodes <==>
             n in AllNodes(selection.documents, collections)
             && (IsWhitelistedType(n.kind) || exists e :: e in outcome.value.edges && e.source == n.id)
  {
    var selection := Select(store, focal);
    NoMissingKeyInDocuments(selection.documents);
    var edges := AllEdges(selection.documents, collections, selection.nodeIds);
    forall n ensures n in Prune(AllNodes(selection.documents, collections), Sources(edges)) <==>
      n in AllNodes(selection.documents, collections) && Keep(n, Sources(edges))
    {
      PruneMembership(AllNodes(selection.documents, collections), Sources(edges), n);
    }
  }
}
