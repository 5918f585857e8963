/** The item-graph builder, step by step: select the documents, walk each
    document's relationships appending nodes and edges, then prune the
    node list. Store lookups are replaced by the inputs `store` (the item
    documents the user may read, in store order) and `collections` (the
    collection documents the user may read, by their `immutable_id`). */
module Graphs {
  import opened Wrappers
  import opened Items
  import opened GraphSpec
  import GraphProperties

  /** Handles one relationship `r` of the document `target`: a collection
      link appends the collection's triangle node (at its first mention in
      the document) and an edge from it; a "parent" or "is_part_of" link to
      one of `nodeIds` appends an edge from the peer; a link lacking the key
      looked up reports that key. */
  method AddRelationship(target: ItemId, r: Relationship, collections: map<ImmutableId, Collection>,
                         nodeIds: set<ItemId>, seenBefore: set<ImmutableId>,
                         nodesBefore: seq<Node>, edgesBefore: seq<Edge>)
    returns (missing: Option<string>, nodes: seq<Node>, edges: seq<Edge>, nodeCollections: set<ImmutableId>)
    ensures missing == RelationshipMissingKey(r)
    ensures missing.None? ==>
      && nodes == nodesBefore
           + (if Resolved(r, collections) && r.immutableId.value !in seenBefore
              then [CollectionNodeFor(collections[r.immutableId.value])] else [])
      && edges == edgesBefore + RelationshipEdges(target, r, collections, nodeIds)
      && nodeCollections == seenBefore + (if Resolved(r, collections) then {r.immutableId.value} else {})
  {
    missing, nodes, edges, nodeCollections := None, nodesBefore, edgesBefore, seenBefore;
    if r.relType == Some(CollectionsType) {
      if r.immutableId.Absent? {
        return Some(ImmutableIdKey), nodes, edges, nodeCollections;
      }
      // A null id finds no collection.
      if r.immutableId.Present? && r.immutableId.value in collections {
        var key := r.immutableId.value;
        var c := collections[key];
        if key !in nodeCollections {
          nodes := nodes + [CollectionNodeFor(c)];
          nodeCollections := nodeCollections + {key};
        }
        edges := edges + [EdgeBetween(CollectionNodeId(c), target)];
      }
    } else if IsPeerRelation(r.relation) {
      if r.itemId.Absent? {
        return Some(ItemIdKey), nodes, edges, nodeCollections;
      }
      // A null peer is not among the node ids.
      if r.itemId.Present? && r.itemId.value in nodeIds {
        edges := edges + [EdgeBetween(r.itemId.value, target)];
      }
    }
  }

  /** Walks the relationships of the document `d`, appending its collection
      nodes to `nodes` and its edges to `edges` and collecting the resolved
      collections it mentions; stops at the first relationship that lacks
      the key looked up and reports that key. */
  method AddRelationships(d: Document, collections: map<ImmutableId, Collection>, nodeIds: set<ItemId>,
                          nodesBefore: seq<Node>, edgesBefore: seq<Edge>)
    returns (missing: Option<string>, nodes: seq<Node>, edges: seq<Edge>, nodeCollections: set<ImmutableId>)
    ensures missing == RelationshipsMissingKey(d.relationships)
    ensures missing.None? ==>
      && nodes == nodesBefore + CollectionNodesOf(d.relationships, collections)
      && edges == edgesBefore + EdgesOf(d.itemId, d.relationships, collections, nodeIds)
      && nodeCollections == SeenCollections(d.relationships, collections)
  {
    var rels := d.relationships;
    nodes, edges, nodeCollections := nodesBefore, edgesBefore, {};
    var j := 0;
    while j < |rels|
      invariant 0 <= j <= |rels|
      invariant RelationshipsMissingKey(rels[..j]) == None
      invariant nodeCollections == SeenCollections(rels[..j], collections)
      invariant nodes == nodesBefore + CollectionNodesOf(rels[..j], collections)
      invariant edges == edgesBefore + EdgesOf(d.itemId, rels[..j], collections, nodeIds)
    {
      GraphProperties.RelationshipsStep(d.itemId, rels, j, collections, nodeIds);
      missing, nodes, edges, nodeCollections :=
        AddRelationship(d.itemId, rels[j], collections, nodeIds, nodeCollections, nodes, edges);
      if missing.Some? {
        GraphProperties.RelationshipsMissingKeyPrefix(rels, j + 1);
        return;
      }
      j := j + 1;
    }
    assert rels[..j] == rels;
    missing := None;
  }

  /** Builds the response for the selected documents: walks each document,
      appending its collection nodes, edges and own node, fails on the first
      missing key, and prunes the nodes that are neither samples, cells nor
      the source of an edge. */
  method BuildResponse(documents: seq<Document>, collections: map<ImmutableId, Collection>,
                       nodeIds: set<ItemId>) returns (result: Result<Graph, Error>)
    ensures result == Respond(documents, collections, nodeIds)
  {
    var nodes: seq<Node> := [];
    var edges: seq<Edge> := [];
    var i := 0;
    while i < |documents|
      invariant 0 <= i <= |documents|
      invariant DocumentsMissingKey(documents[..i]) == None
      invariant nodes == AllNodes(documents[..i], collections)
      invariant edges == AllEdges(documents[..i], collections, nodeIds)
    {
      var d := documents[i];
      ghost var done, next := documents[..i], documents[..i + 1];
      assert next[..i] == done && next[i] == d;
      assert DocumentsMissingKey(next) == RelationshipsMissingKey(d.relationships);
      assert AllNodes(next, collections) == AllNodes(done, collections) + DocumentNodes(d, collections);
      assert AllEdges(next, collections, nodeIds)
          == AllEdges(done, collections, nodeIds) + EdgesOf(d.itemId, d.relationships, collections, nodeIds);
      var missing, nodeCollections;
      missing, nodes, edges, nodeCollections := AddRelationships(d, collections, nodeIds, nodes, edges);
      if missing.Some? {
        GraphProperties.DocumentsMissingKeyPrefix(documents, i + 1);
        return Err(KeyError(missing.value));
      }
      nodes := nodes + [ItemNode(d.itemId, d.name, d.itemType, nodeCollections)];
      i := i + 1;
    }
    assert documents[..i] == documents;

    // Keep samples, cells and every node that is the source of an edge.
    var whitelist := Sources(edges);
    result := Ok(Graph(Prune(nodes, whitelist), edges));
  }

  /** The endpoint: selects the documents to process and the ids that count
      as nodes, then builds the response from them. */
  method GetGraphCyFormat(store: seq<Document>, collections: map<ImmutableId, Collection>,
                          focal: Option<ItemId>) returns (result: Result<Graph, Error>)
    ensures result == GraphCyFormat(store, collections, focal)
  {
    var selection := Select(store, focal);
    result := BuildResponse(selection.documents, collections, selection.nodeIds);
  }
}
