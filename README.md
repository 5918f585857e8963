# Item-relationship graph builder (pydatalab `get_graph_cy_format`)

This project models the endpoint of the pydatalab laboratory-data server that
turns the item documents a user may read into a node list and an edge list
for the graph front end (`GET /item-graph` and `GET /item-graph/<item_id>`).
It proves what that response contains.

The builder works in three steps, and the model keeps them:

1. **Select documents.** With no focal item, every visible document is
   processed and `node_ids` is the set of their `item_id`s. With a focal item
   `f`, the first shell is every visible document whose `item_id` is `f` or
   one of whose relationships has `item_id == f`. When that shell holds more
   than one distinct id, a second query matches the other ids in the same
   two ways. Its ids are added to `node_ids`.
2. **Build nodes and edges.** For each processed document, the builder walks
   its relationships in order:
   - A `collections` relationship whose collection is found gives a triangle
     node `Collection: <collection_id>`. This happens at most once per
     collection per document. The relationship also gives an edge from that
     node to the document.
   - A `parent` or `is_part_of` relationship whose peer is in `node_ids`
     gives an edge from the peer to the document.
   - Each document then gives its own item node.
3. **Prune.** A node is kept when its type is `samples` or `cells`, or when
   it is the source of some edge. Edges are not touched.

The store is replaced by inputs. `store` is the sequence of item documents
the user may read, in the order the store returns them. `collections` maps
each readable collection's `immutable_id` to its record. The permission
filter is taken as already applied to both.

## How the model follows the code

- **The second shell adds ids, not documents.** At
  `graphs.py:43` the second query's cursor is read to the end to collect its
  ids. At `graphs.py:44` the document list is extended from that same
  cursor, which is not rewound (contrast `rewind()` at line 17), so it adds
  nothing. The model takes this literally: the processed documents are the
  first shell only. `GraphExamples.SecondShellGivesIdsButNoNodes` shows the
  consequence. An edge can start at a second-shell id that has no node.
- **Deduplication is per document only.** The set of seen collections is
  reset for every document. A collection mentioned by two documents gives
  two identical triangle nodes. Edges are never deduplicated.
- **Missing keys fail the request; null keys do not.** The code looks up
  `relationship["immutable_id"]` for a collection link and
  `relationship["item_id"]` for a `parent`/`is_part_of` link. A missing key
  raises, and the whole request fails. The model returns
  `Err(KeyError(key))` for the first such relationship in processing order.
  These two keys are therefore modelled in three states: absent, null, or a
  value. A null `immutable_id` finds no collection, and a null `item_id` is
  not among the node ids, so either one gives nothing
  (`GraphExamples.NullKeysAreSkipped`).
- **Payload integrity does not hold and is not claimed.** Pruning can drop a
  node whose incoming edge stays (`GraphExamples.PrunedTargetKeepsItsEdge`).
- **Asking about an item does not reach its parent's document.** A has
  parent B and B has no relationships. A's graph is node A alone with no
  edge, because B neither is A nor mentions A, so B is not in `node_ids`
  (`GraphExamples.ParentOutsideFirstShell`).

Files:
- `wrappers.dfy` defines `Option` and `Result`.
- `items.dfy` defines the documents, relationships, collections, nodes, edges
  and the constants.
- `graph_spec.dfy` is the builder as functions.
- `graphs.dfy` is the builder as methods with loops, proved equal to those
  functions.
- `graph_properties.dfy` holds what the functions mean.
- `graph_examples.dfy` holds worked responses on small stores.

## Model

| member | source | states |
|---|---|---|
| `Graphs.GetGraphCyFormat` | pydatalab/pydatalab/routes/v0_1/graphs.py:9-126 | The response built step by step (select, walk every document's relationships, append its item node, prune by the whitelist) is exactly `GraphCyFormat`, including failing with the first missing key. |
| `Graphs.BuildResponse` | pydatalab/pydatalab/routes/v0_1/graphs.py:46-126 | The loop over the selected documents, appending each one's collection nodes, edges and item node and then pruning, returns exactly `Respond`: the first missing key in processing order, or the pruned graph of all documents. |
| `Graphs.AddRelationship` | pydatalab/pydatalab/routes/v0_1/graphs.py:53-104 | One relationship: an absent looked-up key is reported; otherwise a found collection adds its triangle node only at its first mention in the document and always an edge, a `parent`/`is_part_of` link to a node id adds an edge, and nothing else changes. |
| `Graphs.AddRelationships` | pydatalab/pydatalab/routes/v0_1/graphs.py:50-104 | Walking one document's relationships either reports the first missing key of the list, or appends exactly that document's collection nodes and edges and yields its seen-collection set. |
| `GraphProperties.QueryMembership` | pydatalab/pydatalab/routes/v0_1/graphs.py:20-41 | A store query for a set of ids returns exactly the documents whose `item_id` is in the set or which have a relationship whose `item_id` is in the set. |
| `GraphProperties.QueryKeepsOrder` | pydatalab/pydatalab/routes/v0_1/graphs.py:20-28 | A query keeps store order: querying two stretches of the store and joining the answers equals querying the whole. |
| `GraphProperties.UnfocusedSelection` | pydatalab/pydatalab/routes/v0_1/graphs.py:11-17 | With no focal item every visible document is processed, `node_ids` is exactly their ids, and before pruning each has its item node, in store order. |
| `GraphProperties.FocusedSelection` | pydatalab/pydatalab/routes/v0_1/graphs.py:19-44 | With a focal item the processed documents are exactly those whose id is the focal id or which mention it. With at most one id in that shell, `node_ids` is its ids. Otherwise an id is in `node_ids` iff it is in the shell or belongs to a visible document matching the shell's other ids. |
| `GraphProperties.NodeIdsBounds` | pydatalab/pydatalab/routes/v0_1/graphs.py:30-43 | `node_ids` contains every processed document's id and only ids of visible documents: the expansion only adds ids. |
| `GraphProperties.FirstMissingKey` | pydatalab/pydatalab/routes/v0_1/graphs.py:48-92 | If every relationship before one that lacks its looked-up key has its key, the request fails with that relationship's missing key. |
| `GraphProperties.NoMissingKeyInDocuments` | pydatalab/pydatalab/routes/v0_1/graphs.py:48-92 | No key is missing iff every relationship of every processed document has the key the builder looks up for its kind. |
| `GraphProperties.SeenCollectionsMembership` | pydatalab/pydatalab/routes/v0_1/graphs.py:50-73 | An id is in a document's `node_collections` iff some relationship of that document is a `collections` link to a collection that is found under that id. |
| `GraphProperties.CollectionNodesOnePerCollection` | pydatalab/pydatalab/routes/v0_1/graphs.py:50-73 | Within one document the number of triangle nodes equals the number of distinct found collections. A node is among them iff it is the triangle node of one of those collections. |
| `GraphProperties.EdgesCompose` | pydatalab/pydatalab/routes/v0_1/graphs.py:74-104 | The edges of a relationship list are the edges of its parts joined: each relationship gives its edge whatever came before, so duplicates are kept. |
| `GraphProperties.EdgeOrigin` | pydatalab/pydatalab/routes/v0_1/graphs.py:53-104 | An edge belongs to a document iff one of its relationships is a found collection link and the edge runs from that collection's node to the document, or is a `parent`/`is_part_of` link to a peer in `node_ids` and the edge runs from the peer to the document. |
| `GraphProperties.InertRelationshipIgnored` | pydatalab/pydatalab/routes/v0_1/graphs.py:53-94 | A collection link whose present `immutable_id` (null or unknown) finds no collection, a `parent`/`is_part_of` link with a null `item_id`, and a link of any other kind give nothing. Removing one leaves the edges, the collection nodes, the seen collections and the missing-key outcome unchanged. |
| `GraphProperties.ItemNodesInOrder` | pydatalab/pydatalab/routes/v0_1/graphs.py:106-115 | Before pruning, the item nodes are exactly one per processed document, in document order. Each carries the document's id, name, type and set of found collections. |
| `GraphProperties.EdgeShape` | pydatalab/pydatalab/routes/v0_1/graphs.py:74-104 | Every edge has value 1, id `source->target`, and a processed document as target. Its source is in `node_ids` or is the triangle-node id of a visible collection. |
| `GraphProperties.PruneMembership` | pydatalab/pydatalab/routes/v0_1/graphs.py:118-124 | A node survives pruning iff it was built and its type is `samples` or `cells` or its id is in the whitelist. |
| `GraphProperties.PruneKeepsOrder` | pydatalab/pydatalab/routes/v0_1/graphs.py:120-124 | Pruning distributes over concatenation, so surviving nodes keep their relative order. |
| `GraphProperties.PruneIdempotent` | pydatalab/pydatalab/routes/v0_1/graphs.py:120-124 | Pruning an already pruned list with the same whitelist changes nothing. |
| `GraphProperties.GraphCyFormatOutcome` | pydatalab/pydatalab/routes/v0_1/graphs.py:46-126 | The request fails iff a processed document has a relationship missing its looked-up key. Otherwise the edges are all built edges, untouched by pruning. A node is returned iff it was built and its type is `samples`/`cells` or it is some returned edge's source. |
| `GraphExamples.ParentOutsideFirstShell` | pydatalab/pydatalab/routes/v0_1/graphs.py:20-94 | A has parent B and B has no relationships. A's graph is node A alone with no edge, because B is not in `node_ids`. |
| `GraphExamples.SecondShellGivesIdsButNoNodes` | pydatalab/pydatalab/routes/v0_1/graphs.py:31-44 | The chain A<-D, B<-A, D<-B, asked about A: the second shell puts D in `node_ids`, giving edge D->A, yet no node has id D. |
| `GraphExamples.PrunedTargetKeepsItsEdge` | pydatalab/pydatalab/routes/v0_1/graphs.py:118-124 | A starting material with a sample parent loses its node in pruning, but the edge into it stays. |
| `GraphExamples.CollectionNodesRepeatAcrossDocuments` | pydatalab/pydatalab/routes/v0_1/graphs.py:50-85 | A collection mentioned twice by X and once by Y gives one triangle node per document (two in all) and three edges, two of them identical. |
| `GraphExamples.MissingPeerFailsRequest` | pydatalab/pydatalab/routes/v0_1/graphs.py:88-92 | An `is_part_of` relationship without an `item_id` makes the whole request fail with the key `item_id`. |
| `GraphExamples.NullKeysAreSkipped` | pydatalab/pydatalab/routes/v0_1/graphs.py:53-94 | A `parent` link with a null `item_id` and a collection link with a null `immutable_id` raise nothing and give nothing: the response is the document's own node alone. |

## Left out

- The database queries are not modelled: the `flask_mongo` calls, cursors,
  projections and the store's matching engine. Each query becomes a filter
  over the `store` input that keeps store order. A query matches a document
  when its `item_id` is one of the ids, or when one of its relationships has
  such an `item_id`.
- `get_default_permissions` is not modelled. Both inputs are assumed already
  restricted to what the user may read.
- The queries at lines 22-25, 33-39 and 55-58 merge the permission filter
  into the query dictionary with `**`. A top-level key the filter shares
  with the query (`$or`, `_id`) would replace the query's condition rather
  than be combined with it; a shared `$or` would make the focused query
  return every visible document. The model assumes the filter shares no
  top-level key with the query, so both conditions hold together.
- `jsonify`, the HTTP status tuple (line 126) and the `ENDPOINTS` routing
  table (lines 132-135) are not modelled.
- Documents are assumed to carry `item_id`, `name` and `type`. The code would
  fail on a document lacking one of them; the model does not cover that.
  A missing `relationships` key is modelled as the empty list, as the code
  reads it. `relationships` is assumed absent or a list: a stored null makes
  the loop at line 51 raise `TypeError` and the request fail, and the model
  does not cover that.
- Found collection documents are assumed to carry `collection_id`, `title`
  and `type`. The code reads them with `[]` (lines 66-68 on a collection's
  first mention in a document, line 74 on every mention) and would fail on a
  collection lacking one of them; the model does not cover that.
- The `collections` list of an item node is built from a set, so its order
  is arbitrary. The model keeps it as a set.
- Collection `immutable_id`s (database object ids) are modelled as opaque
  strings.
- Concurrent writes between the two shell queries are not modelled. Each
  request is modelled over one fixed store.
- pydatalab/pydatalab/bokeh_plots.py is not part of this model. It is plot
  configuration over charting and signal-processing libraries.
- pydatalab/scripts/import_chem_inventory.py is not part of this model. It is
  a spreadsheet import script made of I/O and random id generation.
