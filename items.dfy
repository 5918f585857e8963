/** The records the graph builder reads (item documents, their embedded
    relationships, collection documents) and the payload it returns (nodes
    and edges in the graph front end's format). */
module Items {
  import opened Wrappers

  /** The human-readable identifier of an item (`item_id`). */
  type ItemId = string

  /** The store's internal key of a collection document (`immutable_id`, a
      database object id, kept here as an opaque string). */
  type ImmutableId = string

  /** A key of a stored sub-document that is read with `[]`: it may be
      absent (the lookup raises), present with a null value, or present
      with a value. */
  datatype Field<+T> = Absent | Null | Present(value: T)

  /** A relationship embedded in an item document. Every key is optional in
      the stored sub-document: `type` is "collections" for a collection
      membership, `relation` names the kind of link to a peer item
      ("parent", "is_part_of", or anything else), `item_id` is the peer and
      `immutable_id` the referenced collection. `type` and `relation` are
      read with `get`, so an absent key and a null one read alike (`None`);
      `item_id` and `immutable_id` are read with `[]`, so the two differ. */
  datatype Relationship = Relationship(
    relType: Option<string>,
    relation: Option<string>,
    itemId: Field<ItemId>,
    immutableId: Field<ImmutableId>)

  /** The projection of an item document the builder asks for. An absent
      `relationships` key reads as the empty list. */
  datatype Document = Document(
    itemId: ItemId,
    name: string,
    itemType: string,
    relationships: seq<Relationship>)

  /** The projection of a collection document the builder asks for. */
  datatype Collection = Collection(collectionId: string, title: string, collType: string)

  /** A node of the payload: one per processed item document, and triangle
      nodes for the collections those documents belong to. `kind` is the
      node's `type` field. */
  datatype Node =
    | ItemNode(id: string, name: string, kind: string, collections: set<ImmutableId>)
    | CollectionNode(id: string, name: string, kind: string, shape: string)

  /** An edge of the payload, from `source` to `target`. */
  datatype Edge = Edge(id: string, source: string, target: string, value: int)

  datatype Graph = Graph(nodes: seq<Node>, edges: seq<Edge>)

  /** The request fails, as a dictionary lookup of a missing key does. */
  datatype Error = KeyError(key: string)

  const CollectionsType := "collections"
  const TriangleShape := "triangle"
  const CollectionPrefix := "Collection: "
  const ImmutableIdKey := "immutable_id"
  const ItemIdKey := "item_id"

  /** The relationship is a collection membership (`type == "collections"`). */
  predicate IsCollectionLink(r: Relationship) {
    r.relType == Some(CollectionsType)
  }

  /** The relation kinds that give an edge from the peer item. */
  predicate IsPeerRelation(relation: Option<string>) {
    relation == Some("parent") || relation == Some("is_part_of")
  }

  /** The node types that survive pruning whatever the edges are. */
  predicate IsWhitelistedType(kind: string) {
    kind == "samples" || kind == "cells"
  }

  /** The id of the triangle node standing for a collection. */
  function CollectionNodeId(c: Collection): string {
    CollectionPrefix + c.collectionId
  }

  function CollectionNodeFor(c: Collection): Node {
    CollectionNode(CollectionNodeId(c), c.title, c.collType, TriangleShape)
  }

  /** Every edge the builder emits: id `source->target`, value 1. */
  function EdgeBetween(source: string, target: string): Edge {
    Edge(source + "->" + target, source, target, 1)
  }
}
