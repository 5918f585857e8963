/** The graph builder as functions: which documents it selects, which nodes
    and edges each document contributes, how the node list is pruned, and
    when the request fails. The method in module Graphs is proved to compute
    exactly `GraphCyFormat`; module GraphProperties proves what it means. */
module GraphSpec {
  import opened Wrappers
  import opened Items

  // ---------------------------------------------------------------------
  // Selecting documents

  /** `d` mentions some id of `ids` in one of its relationships. */
  predicate MentionsAny(d: Document, ids: set<ItemId>) {
    exists r :: r in d.relationships && r.itemId.Present? && r.itemId.value in ids
  }

  /** The store query "`item_id` is one of `ids`, or some relationship's
      `item_id` is one of `ids`". */
  predicate Matches(d: Document, ids: set<ItemId>) {
    d.itemId in ids || MentionsAny(d, ids)
  }

  /** The documents of `store` the query for `ids` returns, in store order. */
  function Query(store: seq<Document>, ids: set<ItemId>): seq<Document>
    decreases |store|
  {
    if store == [] then []
    else
      var last := store[|store| - 1];
      Query(store[..|store| - 1], ids) + (if Matches(last, ids) then [last] else [])
  }

  /** The identifiers of a list of documents (`node_ids`). */
  function Ids(docs: seq<Document>): set<ItemId> {
    set d | d in docs :: d.itemId
  }

  /** The documents the builder processes and the ids it treats as nodes. */
  datatype Selection = Selection(documents: seq<Document>, nodeIds: set<ItemId>)

  /** With no focal item every visible document is taken. With a focal item
      the first shell is the query for it; when that shell holds more than
      one id, a second query over the other ids adds its ids to `nodeIds`.
      The second shell's documents are NOT processed: the result cursor is
      used up when its ids are collected, so extending the document list
      with it afterwards adds nothing. */
  function Select(store: seq<Document>, focal: Option<ItemId>): Selection {
    match focal
    case None => Selection(store, Ids(store))
    case Some(f) =>
      var shell := Query(store, {f});
      var ids := Ids(shell);
      if |ids| > 1 then Selection(shell, ids + Ids(Query(store, ids - {f})))
      else Selection(shell, ids)
  }

  // ---------------------------------------------------------------------
  // Failing on a missing key

  /** The key a relationship lacks when the builder looks it up. A key that
      is present with a null value is not missing. */
  function RelationshipMissingKey(r: Relationship): Option<string> {
    if IsCollectionLink(r) then
      (if r.immutableId.Absent? then Some(ImmutableIdKey) else None)
    else if IsPeerRelation(r.relation) && r.itemId.Absent? then Some(ItemIdKey)
    else None
  }

  /** The missing key of the first relationship of `rels` that lacks one. */
  function RelationshipsMissingKey(rels: seq<Relationship>): Option<string>
    decreases |rels|
  {
    if rels == [] then None
    else
      var earlier := RelationshipsMissingKey(rels[..|rels| - 1]);
      if earlier.Some? then earlier else RelationshipMissingKey(rels[|rels| - 1])
  }

  /** The missing key of the first relationship, over all documents in
      order, that lacks one. */
  function DocumentsMissingKey(docs: seq<Document>): Option<string>
    decreases |docs|
  {
    if docs == [] then None
    else
      var earlier := DocumentsMissingKey(docs[..|docs| - 1]);
      if earlier.Some? then earlier else RelationshipsMissingKey(docs[|docs| - 1].relationships)
  }

  // ---------------------------------------------------------------------
  // Nodes and edges of one document

  /** A collection relationship whose collection is found. A null
      `immutable_id` finds no collection. */
  predicate Resolved(r: Relationship, collections: map<ImmutableId, Collection>) {
    IsCollectionLink(r) && r.immutableId.Present? && r.immutableId.value in collections
  }

  /** A peer relationship ("parent" or "is_part_of", not a collection link)
      whose peer is one of `nodeIds`. A null peer is never one of them. */
  predicate LinksPeer(r: Relationship, nodeIds: set<ItemId>) {
    !IsCollectionLink(r) && IsPeerRelation(r.relation) && r.itemId.Present? && r.itemId.value in nodeIds
  }

  /** The edges one relationship of the document `target` gives. */
  function RelationshipEdges(target: ItemId, r: Relationship, collections: map<ImmutableId, Collection>,
                             nodeIds: set<ItemId>): seq<Edge>
  {
    if Resolved(r, collections) then [EdgeBetween(CollectionNodeId(collections[r.immutableId.value]), target)]
    else if LinksPeer(r, nodeIds) then [EdgeBetween(r.itemId.value, target)]
    else []
  }

  /** The edges the relationships `rels` of the document `target` give, in order. */
  function EdgesOf(target: ItemId, rels: seq<Relationship>, collections: map<ImmutableId, Collection>,
                   nodeIds: set<ItemId>): seq<Edge>
    decreases |rels|
  {
    if rels == [] then []
    else
      EdgesOf(target, rels[..|rels| - 1], collections, nodeIds)
        + RelationshipEdges(target, rels[|rels| - 1], collections, nodeIds)
  }

  /** The resolved collections seen in `rels` (`node_collections`). */
  function SeenCollections(rels: seq<Relationship>, collections: map<ImmutableId, Collection>): set<ImmutableId>
    decreases |rels|
  {
    if rels == [] then {}
    else
      var r := rels[|rels| - 1];
      SeenCollections(rels[..|rels| - 1], collections)
        + (if Resolved(r, collections) then {r.immutableId.value} else {})
  }

  /** The triangle nodes the relationships `rels` of one document give: one
      for each resolved collection, at its first mention. */
  function CollectionNodesOf(rels: seq<Relationship>, collections: map<ImmutableId, Collection>): seq<Node>
    decreases |rels|
  {
    if rels == [] then []
    else
      var earlier := rels[..|rels| - 1];
      var r := rels[|rels| - 1];
      CollectionNodesOf(earlier, collections)
        + (if Resolved(r, collections) && r.immutableId.value !in SeenCollections(earlier, collections)
           then [CollectionNodeFor(collections[r.immutableId.value])] else [])
  }

  /** The node standing for a document itself. */
  function ItemNodeFor(d: Document, collections: map<ImmutableId, Collection>): Node {
    ItemNode(d.itemId, d.name, d.itemType, SeenCollections(d.relationships, collections))
  }

  /** The nodes one document gives: its collection nodes, then its own node. */
  function DocumentNodes(d: Document, collections: map<ImmutableId, Collection>): seq<Node> {
    CollectionNodesOf(d.relationships, collections) + [ItemNodeFor(d, collections)]
  }

  // ---------------------------------------------------------------------
  // Nodes and edges of all processed documents

  function AllNodes(docs: seq<Document>, collections: map<ImmutableId, Collection>): seq<Node>
    decreases |docs|
  {
    if docs == [] then []
    else AllNodes(docs[..|docs| - 1], collections) + DocumentNodes(docs[|docs| - 1], collections)
  }

  function AllEdges(docs: seq<Document>, collections: map<ImmutableId, Collection>,
                    nodeIds: set<ItemId>): seq<Edge>
    decreases |docs|
  {
    if docs == [] then []
    else
      var d := docs[|docs| - 1];
      AllEdges(docs[..|docs| - 1], collections, nodeIds) + EdgesOf(d.itemId, d.relationships, collections, nodeIds)
  }

  // ---------------------------------------------------------------------
  // Pruning

  /** The ids that are the source of some edge (the whitelist). */
  function Sources(edges: seq<Edge>): set<string> {
    set e | e in edges :: e.source
  }

  /** A node survives pruning when its type is samples or cells, or when it
      is the source of some edge. */
  predicate Keep(n: Node, whitelist: set<string>) {
    IsWhitelistedType(n.kind) || n.id in whitelist
  }

  /** The nodes that survive pruning, in their original order. */
  function Prune(nodes: seq<Node>, whitelist: set<string>): seq<Node>
    decreases |nodes|
  {
    if nodes == [] then []
    else
      var n := nodes[|nodes| - 1];
      Prune(nodes[..|nodes| - 1], whitelist) + (if Keep(n, whitelist) then [n] else [])
  }

  // ---------------------------------------------------------------------
  // The whole request

  /** The payload for the documents `docs`, before and after pruning. */
  function BuildGraph(docs: seq<Document>, collections: map<ImmutableId, Collection>,
                      nodeIds: set<ItemId>): Graph
  {
    var edges := AllEdges(docs, collections, nodeIds);
    Graph(Prune(AllNodes(docs, collections), Sources(edges)), edges)
  }

  /** The response for the selected documents `docs` and node ids: the
      first missing key, or the pruned graph. */
  function Respond(docs: seq<Document>, collections: map<ImmutableId, Collection>,
                   nodeIds: set<ItemId>): Result<Graph, Error>
  {
    match DocumentsMissingKey(docs)
    case Some(key) => Err(KeyError(key))
    case None => Ok(BuildGraph(docs, collections, nodeIds))
  }

  /** The response of the builder for the visible documents `store`, the
      visible collections `collections` and the optional focal item. */
  function GraphCyFormat(store: seq<Document>, collections: map<ImmutableId, Collection>,
                         focal: Option<ItemId>): Result<Graph, Error>
  {
    var selection := Select(store, focal);
    Respond(selection.documents, collections, selection.nodeIds)
  }
}
