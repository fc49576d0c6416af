# kg-vis graph core in Dafny

A model of the client-side core of kg-vis, a knowledge-graph explorer that queries a SPARQL endpoint and draws the graph it finds. The model covers:

- **GraphModel** (`graph.dfy`, src/api/graph.ts). The current `Graph` class owns the node list and the edge list.
  - Nodes are deduplicated by id.
  - Edges are deduplicated by predicate and unordered endpoints.
  - An edge is visible exactly when both its endpoints are distinct visible nodes.
  - The render view of the two vis `DataSet`s is modelled as a set of node ids and a set of (from, uri, to) edge keys. `update_data` brings it into step with the visible part of the graph.
  - The merge loops of `load_nodes` and `load_related_nodes` take the fetched results as inputs. Their effect is stated against the pure specification `MergeAll`.
- **DraftGraph** (`draft_graph.dfy`, ui/packages/graph/src/types.ts). The earlier version of the same graph, whose view holds the node and edge objects themselves. `load_data` moves and shows every fetched node. It draws a node's relations when it has any, and the subject–property edge otherwise.
- **D3Graph** (`rdf_types.dfy`, ui/packages/graph/src/types/rdf.types.ts). The d3-era graph.
  - Each graph node keeps a property → targets dictionary.
  - `add_triple` creates missing nodes and appends targets.
  - `update_d3` rebuilds the simulation nodes. It adds links without repeating a (source, target) pair.
- **Sparql** (`sparql.dfy`, src/api/sparql.ts) and **DraftApi** (`draft_api.dfy`, ui/packages/graph/src/api.ts). The query-shaping and result-shaping logic of the two SPARQL clients:
  - the status check of `query`;
  - the relations `VALUES` block;
  - the batch loops over `rate_limit` slices;
  - the label lookups and their fallbacks;
  - property counts;
  - progress reports.

  The endpoint is an oracle from an abstract query to a response, and `isUrl` is a parameter.
- **Bindings** and **ValuesBlock** (`bindings.dfy`, `values_block.dfy`). The result terms and bindings of section 3.2 of the W3C SPARQL 1.1 Query Results JSON Format, and the small records built from them. ValuesBlock renders the inline-data block of section 10.2 of the W3C SPARQL 1.1 Query Language, together with a reader that proves the round trip.
- **RdfParse** (`rdf_parse.dfy`, src/lib/api/rdf.ts). `parse_data` and the binding projections of `fetch_data` and `fetch_properties`.
- **Settings** (`settings.dfy`, src/settings.ts). The default-fill of a stored settings record, the store that loads, saves and reloads it, and the default settings.
- **Common** (`common.dfy`). Shared vocabulary: `Option`/`Result`, and the JavaScript idioms the code uses (`filter`, consecutive `slice` batches, a `map` whose callback may throw, and `+s` on count strings).

Where the code's behaviour is narrower than a plain reading suggests, the model follows the code:

- In `load_related_nodes` (src/api/graph.ts:324-331), a node that was already visible stays visible when the call asks for hidden nodes. Only nodes that were hidden take the requested visibility.
- `fetch_labels` of the earlier client (ui/packages/graph/src/api.ts:127-135) throws on an empty result for any number of subjects other than one.
- `load_related_nodes` (src/api/graph.ts:310) calls `fetch_data` without its `nodes` argument. The call then throws as soon as the property has a related node, so as written an expansion adds nothing. The model records this as a finding and merges what the intended call yields.
- With the default `visible = true`, `load_related_nodes` (src/api/graph.ts:316-331) creates a missing related node already visible, so its `!node.visible` test sends it to `already_exists`. Freshly created related nodes therefore never reach `new_nodes`, and the follow-up `fetch_multiple_relations` and `fetch_images` (src/api/graph.ts:339-357) skip them. `MergeAllVisibleNothingNew` states this.
- In the storage listener of src/settings.ts:35, `value !== get(store)` compares a freshly parsed object with the store's object. It is therefore always true, and the model always fills and sets.

## Model

| member | source | states |
|---|---|---|
| GraphModel.Node.constructor | src/api/graph.ts:50-70 | a new node has the given id, label, type, visibility, position and lock, is unfetched with no properties, and is drawn as a dot unless a non-empty image is given |
| GraphModel.Node.UpdateImage | src/api/graph.ts:72-76 | the node shows the image as a circular image on a transparent background; no other field changes |
| GraphModel.Node.SetProperties | src/api/graph.ts:255-262 | the node is marked fetched and holds exactly the given properties; no other field changes |
| GraphModel.CompareIsKeyEquality | src/api/graph.ts:92-98 | two edges compare equal exactly when their source, predicate and target agree, whatever their labels; the comparison is symmetric |
| GraphModel.IndexOf | src/api/graph.ts:199 | the first position holding a node with the id, or -1 exactly when no node has it |
| GraphModel.IndexOfSnoc | src/api/graph.ts:200-203 | pushing a node whose id is absent keeps ids unique, and the node is found at the end while every other lookup is unchanged |
| GraphModel.WithEdgeConnects | src/api/graph.ts:239-253 | after `create_edge` the two endpoints are joined through the predicate in both orientations, earlier edges stay in place and at most one edge is added |
| GraphModel.WithEdgeKeepsUnique | src/api/graph.ts:239-253 | `create_edge` never introduces a second edge with the same predicate between the same two nodes, in either orientation |
| GraphModel.WithEdgeIdempotent | src/api/graph.ts:239-253 | creating the same edge again, reversed or under another name, leaves the edge list as it is |
| GraphModel.WithEdgesConnects | src/api/graph.ts:333 | one `create_edge` per fetched entry joins every entry to the subject, keeps earlier edges and keeps the list free of duplicates |
| GraphModel.EdgeVisibleIff | src/api/graph.ts:119-131 | with unique ids an edge is visible exactly when its endpoints differ and both are visible nodes; a self-loop is never visible |
| GraphModel.WithRelationEdgesKeeps | src/api/graph.ts:339-354 | the relation edges keep the edge list free of duplicates and keep every earlier edge in place |
| GraphModel.WithRelationEdgesMeaning | src/api/graph.ts:339-354 | when every relation binding is complete, each relation ends up joining its subject and object through its property |
| GraphModel.LastImageOf | src/api/graph.ts:355-365 | the image of the last record naming the uri, and none exactly when no record names it |
| GraphModel.Lookup | src/api/graph.ts:199 | on snapshots: the first position with the id, or -1 exactly when the id is absent |
| GraphModel.LookupSnapshot | src/api/graph.ts:199 | looking up a snapshot finds what `find` finds on the nodes, and ids are unique in one exactly when in the other |
| GraphModel.PutAt | src/api/graph.ts:188-205 | replacing or appending the node with one id gives it the new fields and leaves every other id's fields as they were |
| GraphModel.PutShape | src/api/graph.ts:188-205 | that update keeps ids unique, keeps every existing id in place and appends only for a new id |
| GraphModel.MergedMeaning | src/api/graph.ts:315-331 | one loop pass leaves a visible node alone; a hidden node, or a missing one when `visible` is false, is reported new and ends with the requested visibility at the given position; every other node, including one created with `visible` set, ends visible and is reported as already there |
| GraphModel.MergeStepAt | src/api/graph.ts:315-336 | one pass changes only the node for the entry, keeps ids unique and keeps existing nodes in place |
| GraphModel.MergeStepReports | src/api/graph.ts:324-331 | one pass lists the entry's uri in exactly one of the new and the already-present lists |
| GraphModel.MergeAllUntouched | src/api/graph.ts:315-336 | the loop keeps ids unique, only appends nodes, and leaves every node whose uri was not fetched as it was |
| GraphModel.MergeAllFetched | src/api/graph.ts:315-336 | every fetched uri has a node afterwards, visible when the entries were loaded visible |
| GraphModel.MergeAllCreated | src/api/graph.ts:316-323 | a node the loop creates is exactly a new node built from a fetched entry about it: its label and type, the requested visibility, the position, no image, unlocked |
| GraphModel.MergeAllChanges | src/api/graph.ts:324-331 | an existing node changes at most its visibility and position, and only when it was hidden; without `visible` no hidden node becomes visible |
| GraphModel.MergeAllGrows | src/api/graph.ts:324-331 | the loop only appends to the two lists it reports |
| GraphModel.MergeAllReports | src/api/graph.ts:315-336 | together the two reported lists hold each fetched uri exactly as often as it was fetched |
| GraphModel.MergeAllVisibleNothingNew | src/api/graph.ts:315-357 | with `visible` set and no fetched uri naming a hidden node, the loop reports no node as new and every entry as already there, in order, so the relation and image follow-ups get no ids |
| GraphModel.MergeAllReported | src/api/graph.ts:324-331 | a node reported new ends with the requested visibility at the given position; one reported as already present ends visible |
| GraphModel.MergeAllEdges | src/api/graph.ts:333 | the edges after the loop are one `create_edge(subject, property, uri)` per fetched entry, in order, labelled by the property's label or `label` |
| GraphModel.ImagesAppliedAt | src/api/graph.ts:355-365 | applying image records keeps the ids and their order; each node ends with the image of the last record for it; other nodes and unknown ids change nothing |
| GraphModel.ShownImageIdsMeaning | src/api/graph.ts:355-365 | an id is updated in the view exactly when some record names it and its node is visible |
| GraphModel.Graph.constructor | src/api/graph.ts:109-117 | a graph starts with no nodes, no edges, an empty view and no network |
| GraphModel.Graph.SetNetwork | src/api/graph.ts:133-135 | a network is attached; the graph and its view are unchanged |
| GraphModel.Graph.IsEdgeVisible | src/api/graph.ts:119-131 | the nested search answers whether two distinct visible nodes carry the edge's endpoints |
| GraphModel.Graph.FilterVisibleNodes | src/api/graph.ts:138 | exactly the ids of the visible nodes |
| GraphModel.Graph.FilterVisibleEdges | src/api/graph.ts:139 | exactly the keys of the visible edges |
| GraphModel.Graph.SyncView | src/api/graph.ts:144-179 | the view holds exactly the given nodes and edges; the graph is unchanged |
| GraphModel.Graph.UpdateData | src/api/graph.ts:137-186 | afterwards the view holds exactly the visible nodes and visible edges; the network is stabilised once when animations are off, `visible` is set and a network is attached |
| GraphModel.Graph.GetNode | src/api/graph.ts:207-209 | a node of the graph with that id, or null exactly when no node has it |
| GraphModel.Graph.FindOrCreateNode | src/api/graph.ts:188-205 | an existing node is returned untouched; otherwise exactly one new node built from the arguments is appended; ids stay unique and edges and the view are unchanged |
| GraphModel.Graph.CreateNode | src/api/graph.ts:200-203 | the creating branch: a fresh node with the initial fields is pushed and found by its id |
| GraphModel.Graph.Append | src/api/graph.ts:202 | the node is pushed at the end; nothing else changes |
| GraphModel.Graph.UpdateNode | src/api/graph.ts:211-217 | the node moves when a position is given and is put in the view |
| GraphModel.Graph.HideNode | src/api/graph.ts:219-222 | the node is hidden and the view is re-synced to the visible nodes and edges, so the node leaves it unless another node shares its id; the network stays attached, and it is stabilised once exactly when animations are off and a network is attached |
| GraphModel.Graph.ShowNode | src/api/graph.ts:224-227 | the node is shown and the view re-synced; a node of the graph is then in the view; the network stays attached, and it is stabilised once exactly when animations are off and a network is attached |
| GraphModel.Graph.ShowNodes | src/api/graph.ts:229-232 | every given node is shown and the view re-synced to the visible nodes and edges; the network stays attached, and it is stabilised once exactly when animations are off and a network is attached |
| GraphModel.Graph.ToggleNodeLock | src/api/graph.ts:234-237 | the lock flips, the node moves to the position and is updated in the view; no edge, network or stabilisation changes |
| GraphModel.Graph.CreateEdge | src/api/graph.ts:239-253 | an edge is added exactly when no edge with that predicate joins the endpoints in either orientation; the edge list stays free of duplicates |
| GraphModel.Graph.LoadProperties | src/api/graph.ts:255-262 | a non-empty property list is stored on the node for the uri, which is marked fetched; a missing node is created hidden, as a uri node at the origin, unlocked, without image and labelled by its uri; every other node keeps its fields; an empty list or a failed fetch changes nothing, and only a failed fetch fails; the view and the network are untouched |
| GraphModel.Graph.SetNodeProperties | src/api/graph.ts:258-259 | the node is marked fetched with the given properties and no other node of the list changes |
| GraphModel.FoundAgain | src/api/graph.ts:292-296 | the node `get_properties` creates with an empty label is the one `load_properties` finds again, so it keeps the empty label, and the second update overrides the first |
| GraphModel.PropertiesAfterCases | src/api/graph.ts:292-299 | the whole node list after `get_properties` is the find-or-create of the node, followed by `load_properties` exactly when that node was not fetched |
| GraphModel.Graph.GetProperties | src/api/graph.ts:292-299 | returns the node for the uri; the whole node list afterwards is `PropertiesAfter`: a missing node is appended hidden, empty-labelled, as a uri node at the origin; properties are stored only on a node not yet fetched and only for a non-empty list; every other node is unchanged; the call fails exactly when an unfetched node's fetch fails; the view and the network are untouched |
| GraphModel.Graph.FindOnSnapshot | src/api/graph.ts:293 | `find_or_create_node(uri, '')` leaves the node list as the value-level find-or-create with the default fields |
| GraphModel.Graph.LoadUnfetched | src/api/graph.ts:294-296 | properties are loaded only for a node that has not been fetched; a fetched node leaves the list as it is |
| GraphModel.Graph.LoadNode | src/api/graph.ts:264-273 | succeeds exactly when the label fetch, and the image fetch when enabled, succeed; then the node for the uri is found, or created as a uri node at the origin, unfetched and unlocked, with that label, visibility and shown image; the view and the network are untouched |
| GraphModel.Graph.LoadFromRecords | src/api/graph.ts:283-288 | the node for a uri is found, or created as an unfetched, unlocked uri node at the origin with its first matching label and image and the requested visibility |
| GraphModel.Graph.LoadNodes | src/api/graph.ts:275-290 | succeeds exactly when the fetches do; then one node per uri, in order, and every node added was created for one of the uris as an unfetched, unlocked uri node at the origin with its first matching label and image and the requested visibility; the view and the network are untouched |
| GraphModel.Graph.LoadAllRecords | src/api/graph.ts:283-288 | the mapping over the uris yields one node per uri, in order, and only adds nodes created from the records |
| GraphModel.Graph.ApplyRelations | src/api/graph.ts:339-354 | one `create_edge` per relation binding, in order; the view is re-synced exactly when every binding is complete, otherwise the call fails with the view untouched; the network stays attached and is stabilised once exactly when the re-sync runs with animations off, `visible` set and a network attached |
| GraphModel.Graph.MergeNode | src/api/graph.ts:316-331 | the node for the entry is found or created, and a hidden one is shown at the position; the new state is the spec's one pass and `isNew` says it was reported new |
| GraphModel.Graph.FindMerged | src/api/graph.ts:316-323 | the `find_or_create_node` of the loop on snapshots: the node found or appended, and where it is |
| GraphModel.Graph.RevealIfHidden | src/api/graph.ts:324-331 | a hidden node is moved and given the requested visibility; no other node changes; says whether it was hidden |
| GraphModel.Graph.MergeRelated | src/api/graph.ts:315-336 | one loop pass leaves the graph and the reported lists as the specification's one pass says |
| GraphModel.Graph.LoadRelatedAsCalled | src/api/graph.ts:310-340 | with `fetch_data` called as the source calls it, without `nodes`, the expansion either fails, with the view and stabilisations untouched, or yields nothing and re-syncs the view (stabilising once when animations are off, `visible` is set and a network is attached); the nodes and edges stay as they were |
| GraphModel.Graph.LoadRelated | src/api/graph.ts:301-340 | with `fetch_data` given the ids of the graph's nodes, the expansion fails exactly when the fetch does, and otherwise merges every related node the fetch yields as the specification's loop does and re-syncs the view; a failed fetch leaves nodes, edges and view alone; the network stays attached and is stabilised once exactly when the re-sync runs with animations off, `visible` set and a network attached |
| GraphModel.Graph.LoadRelatedNodes | src/api/graph.ts:301-368 | a failed fetch changes nothing; otherwise the nodes and edges are those of the specification's loop over the entries, the result lists the new then the already-present nodes, and the view is re-synced, stabilising once when animations are off, `visible` is set and a network is attached |
| GraphModel.Graph.MergeAllData | src/api/graph.ts:315-336 | the whole loop, proved against the specification's loop over the entries |
| GraphModel.Graph.MergeNext | src/api/graph.ts:315-336 | one iteration extends the loop state by the next entry |
| GraphModel.Graph.MergeEntry | src/api/graph.ts:315-336 | one iteration keeps the loop state in step with the specification's one pass |
| GraphModel.Graph.ApplyImage | src/api/graph.ts:358-363 | the node for the record, if any, gets the image, and is put in the view when visible |
| GraphModel.Graph.ImageNode | src/api/graph.ts:72-76 | updating one node's image changes no other node |
| GraphModel.Graph.ApplyImages | src/api/graph.ts:355-365 | applying the image records in order gives the snapshot the specification computes, and the view gains exactly the visible nodes that got an image |
| GraphModel.Graph.ApplyImageAt | src/api/graph.ts:358-363 | one iteration extends the applied records by the next one |
| DraftGraph.Node.constructor | ui/packages/graph/src/types.ts:44-61 | a new node has the given id, label, visibility and position, is unfetched with no properties, and is drawn as a dot unless a non-empty image is given |
| DraftGraph.Node.UpdateImage | ui/packages/graph/src/types.ts:63-66 | the node shows the image as a circular image; nothing else changes |
| DraftGraph.Edge.constructor | ui/packages/graph/src/types.ts:75-80 | the edge holds exactly the given endpoints, predicate and label |
| DraftGraph.IndexOf | ui/packages/graph/src/types.ts:182 | the first position of a node with the id, or -1 exactly when there is none |
| DraftGraph.EdgeVisibleIff | ui/packages/graph/src/types.ts:107-123 | with unique ids an edge is visible exactly when its endpoints differ and are both visible; a self-loop never is |
| DraftGraph.LookupSnapshot | ui/packages/graph/src/types.ts:182 | a lookup on a snapshot finds what `find` finds on the nodes; uniqueness of ids carries over |
| DraftGraph.PutAt | ui/packages/graph/src/types.ts:172-188 | updating the node with one id gives it the new fields and leaves every other id as it was |
| DraftGraph.PutShape | ui/packages/graph/src/types.ts:172-188 | that update keeps ids unique and in place and appends only for a new id |
| DraftGraph.PutTwice | ui/packages/graph/src/types.ts:221-228 | a second update of the same id overrides the first |
| DraftGraph.FoundAgain | ui/packages/graph/src/types.ts:221-228 | the node `load_properties` finds after `get_properties` has found or created it is that node, and storing properties on it overrides its creation |
| DraftGraph.PropertiesAfterCases | ui/packages/graph/src/types.ts:206-228 | what `get_properties` leaves is `find_or_create_node` followed, for an unfetched node and a non-empty list, by storing the properties |
| DraftGraph.PlacedAgain | ui/packages/graph/src/types.ts:244-254 | placing an already placed node at the same position, whatever label the later entry carries, changes nothing |
| DraftGraph.LoadAllFrozen | ui/packages/graph/src/types.ts:244-274 | once a relation binding has thrown, the rest of the loop does not run |
| DraftGraph.FirstLabel | ui/packages/graph/src/types.ts:244-251 | for a fetched uri, the label of the first fetched entry about it |
| DraftGraph.LoadAllFails | ui/packages/graph/src/types.ts:264-271 | the loop throws exactly when some fetched node has a relation binding that lacks one of the four variables |
| DraftGraph.LoadAllShape | ui/packages/graph/src/types.ts:244-274 | the loop keeps node ids unique and in place and edges free of duplicates and in place |
| DraftGraph.LoadAllAt | ui/packages/graph/src/types.ts:244-254 | when the loop completes, every fetched node is visible at the position, keeps its other fields or is created with the first entry's label, and every other node is unchanged |
| DraftGraph.WithEdgeAdds | ui/packages/graph/src/types.ts:190-204 | `create_edge` appends only the edge it was asked for |
| DraftGraph.WithRelationEdgesAdds | ui/packages/graph/src/types.ts:264-271 | the relation edges keep earlier edges and add only edges of complete relation bindings |
| DraftGraph.LoadAllEdgesFrom | ui/packages/graph/src/types.ts:256-272 | every edge the loop adds comes from one fetched node: the subject-property edge of a node without relations, or one of its relations; no subject-property edge is drawn for a node with relations |
| DraftGraph.EntryEdgesJoin | ui/packages/graph/src/types.ts:256-272 | for a node with complete relations, the edge step keeps earlier edges and joins what it should |
| DraftGraph.LoadAllEdges | ui/packages/graph/src/types.ts:256-272 | when the loop completes, each fetched node is joined to the subject through the property if it has no relations, and each of its relations is drawn otherwise |
| DraftGraph.ImagesAppliedAt | ui/packages/graph/src/types.ts:276-284 | applying the image records keeps ids; a node with a record ends with the last record's image as a circular image, and other nodes do not change |
| DraftGraph.ImageStepAt | ui/packages/graph/src/types.ts:278-281 | one record changes only the node that `find` returns for its uri |
| DraftGraph.Graph.constructor | ui/packages/graph/src/types.ts:89-105 | a graph starts with no nodes, no edges and an empty view |
| DraftGraph.Graph.IsEdgeVisible | ui/packages/graph/src/types.ts:107-123 | the nested search answers whether two different visible node objects carry the edge's endpoints |
| DraftGraph.Graph.FilterVisibleNodes | ui/packages/graph/src/types.ts:126 | exactly the visible node objects |
| DraftGraph.Graph.FilterVisibleEdges | ui/packages/graph/src/types.ts:127 | exactly the visible edge objects |
| DraftGraph.Graph.SyncView | ui/packages/graph/src/types.ts:129-167 | the view holds exactly the given node and edge objects; the graph is unchanged |
| DraftGraph.Graph.UpdateData | ui/packages/graph/src/types.ts:125-170 | afterwards the view holds exactly the visible node objects and visible edge objects |
| DraftGraph.Graph.GetNode | ui/packages/graph/src/types.ts:182 | a listed node with the id, or null exactly when none has it |
| DraftGraph.Graph.FindOrCreateNode | ui/packages/graph/src/types.ts:172-188 | an existing node is returned untouched; otherwise one new node built from the arguments is appended; ids stay unique |
| DraftGraph.Graph.CreateNode | ui/packages/graph/src/types.ts:183-186 | the creating branch: a fresh node with the initial fields is pushed |
| DraftGraph.Graph.Append | ui/packages/graph/src/types.ts:185 | the node is pushed at the end; nothing else changes |
| DraftGraph.Graph.CreateEdge | ui/packages/graph/src/types.ts:190-204 | an edge is added exactly when no edge with that predicate joins the endpoints in either orientation; earlier edge objects stay |
| DraftGraph.Graph.CreateRelationEdges | ui/packages/graph/src/types.ts:264-271 | one `create_edge` per relation binding; succeeds exactly when every binding is complete |
| DraftGraph.Graph.PlaceNode | ui/packages/graph/src/types.ts:252-254 | the node moves to the position and is shown; no other node changes |
| DraftGraph.Graph.PlaceEntry | ui/packages/graph/src/types.ts:245-254 | the node for a fetched entry is found or created and then placed |
| DraftGraph.Graph.LoadEntry | ui/packages/graph/src/types.ts:244-274 | one pass of the loop leaves the graph as the specification's pass says and, unless a binding threw, the view in step |
| DraftGraph.Graph.LoadEntryGraph | ui/packages/graph/src/types.ts:245-272 | the node and edge part of one pass, against the specification's pass |
| DraftGraph.Graph.LoadAllData | ui/packages/graph/src/types.ts:244-274 | the loop leaves the nodes and edges the specification computes, fails exactly when it does, and leaves the view in step after a non-empty run |
| DraftGraph.Graph.LoadNext | ui/packages/graph/src/types.ts:244-274 | the next pass extends the loop state by one entry; a pass that throws ends the loop |
| DraftGraph.Graph.LoadData | ui/packages/graph/src/types.ts:230-274 | a failed fetch changes nothing; otherwise the graph is what the loop over the fetched entries computes, and the call fails exactly when a relation binding does |
| DraftGraph.Graph.ImageNode | ui/packages/graph/src/types.ts:280 | updating one node's image changes no other node |
| DraftGraph.Graph.ApplyImage | ui/packages/graph/src/types.ts:278-282 | the node for the record, if any, shows the image and is put in the view |
| DraftGraph.Graph.ApplyImages | ui/packages/graph/src/types.ts:276-284 | every node with a record shows its last image and is put in the view, visible or not |
| DraftGraph.Graph.SetProperties | ui/packages/graph/src/types.ts:210-211 | the node holds the properties and is marked fetched; no other node changes |
| DraftGraph.Graph.LoadProperties | ui/packages/graph/src/types.ts:206-213 | a non-empty list is stored on the node for the uri (created visible and labelled by its uri when missing) and marks it fetched; an empty list changes nothing; a failed fetch fails |
| DraftGraph.Graph.GetProperties | ui/packages/graph/src/types.ts:221-228 | the node for the uri is found or created visible; its properties are loaded only if it was unfetched, and the call fails only then, when the fetch fails |
| DraftGraph.Graph.FindOnSnapshot | ui/packages/graph/src/types.ts:222 | the `find_or_create_node(uri, '', true)` of `get_properties`, on snapshots |
| DraftGraph.Graph.LoadUnfetched | ui/packages/graph/src/types.ts:223-227 | properties are loaded for an unfetched node only; the node is returned |
| DraftGraph.Graph.Load | ui/packages/graph/src/types.ts:215-219 | succeeds exactly when both fetches do; then the node for the uri is found or created visible with that label and image |
| Sparql.Query | src/api/sparql.ts:33-67 | a status other than 200 fails with `SPARQL query failed: ` and the response text; otherwise every binding, in order |
| Sparql.ValuesTextLists | src/api/sparql.ts:271-277 | the VALUES block parses back to exactly the URL-valued other nodes, in order |
| Sparql.BuildValues | src/api/sparql.ts:271-277 | the `+=` loop writes one bracketed line per URL-valued other node |
| Sparql.FetchRelations | src/api/sparql.ts:268-309 | nothing, and no query, for a subject that is not a URL; otherwise the bindings of the relations query over the URL-valued other nodes, or the query's failure |
| Sparql.AllRelationsSnoc | src/api/sparql.ts:252-265 | one more subject extends the gathered relations by its own, or fails the whole call with its failure |
| Sparql.AllRelationsPrefixErr | src/api/sparql.ts:252-265 | a failing subject fails the whole call whatever follows it |
| Sparql.FetchRelationsRound | src/api/sparql.ts:253-263 | one round appends the relations of its slice of subjects, in order |
| Sparql.FetchMultipleRelations | src/api/sparql.ts:245-266 | every subject's relations, concatenated in subject order, gathered in consecutive rounds of the rate limit |
| Sparql.LabelRecordOf | src/api/sparql.ts:208-210 | a binding with a subject and a label gives that record; one lacking either throws |
| Sparql.SelfLabels | src/api/sparql.ts:213 | every subject labelled by itself, in order |
| Sparql.FetchLabels | src/api/sparql.ts:184-214 | a failing query fails; a non-empty result gives one record per binding; an empty one labels every subject by itself |
| Sparql.FetchLabelsEmptyFallback | src/api/sparql.ts:207-213 | when the endpoint finds no labels, the lookup succeeds and every subject's label is itself |
| Sparql.FetchLabel | src/api/sparql.ts:216-243 | a non-URL subject is its own label, without a query; otherwise the first label found, or the subject itself when there is none |
| Sparql.FetchImage | src/api/sparql.ts:129-154 | none for a non-URL subject; otherwise the first binding's image, or none when nothing is found; a failed query fails with its own message |
| Sparql.ImageRecordOf | src/api/sparql.ts:179-181 | a binding with an image and a subject gives that record; one lacking either throws |
| Sparql.FetchImages | src/api/sparql.ts:156-182 | one image record per binding of the query over the URL-valued subjects, or the query's failure |
| Sparql.FetchProperty | src/api/sparql.ts:311-356 | the property built from the first binding, carrying the requested uri; an empty result throws `Unable to fetch Property: ` |
| Sparql.PropertyOfBinding | src/api/sparql.ts:378-381 | a fetched property carries the listed binding's predicate |
| Sparql.PropertiesOfMeaning | src/api/sparql.ts:376-384 | the properties succeed exactly when every listed predicate does; the k-th is then the k-th predicate's property |
| Sparql.FetchInRounds | src/api/sparql.ts:377-384 | the rounds yield exactly the mapping of every item, in order, with one progress report per round, each between 0 and 99 |
| Sparql.FetchProperties | src/api/sparql.ts:358-387 | a failing listing fails; otherwise it succeeds exactly when every listed predicate yields its property, one per predicate in order, reporting `floor(i / len * 100)` after each round |
| Sparql.ObjectOf | src/api/sparql.ts:94 | `c.object` of a binding, which throws when the binding has no object |
| Sparql.ValuesOf | src/api/sparql.ts:94 | the value of every object, in order |
| Sparql.EntriesErrPersists | src/api/sparql.ts:108-117 | a failed relation lookup fails every longer prefix of the entries with the same error |
| Sparql.EntriesSnoc | src/api/sparql.ts:99-117 | one more entry is the next object's, typed by its batch's first object, or the failure of its lookup |
| Sparql.EntriesMeaning | src/api/sparql.ts:96-118 | the entries succeed exactly when every relation lookup does; entry k is then about object k, unlabelled, typed by the first object of its batch, with its own relations |
| Sparql.Labelled | src/api/sparql.ts:122-124 | every entry gets the first label recorded for its uri, else the empty string; nothing else changes |
| Sparql.DataOfSucceeds | src/api/sparql.ts:69-127 | `fetch_data` succeeds exactly when the query, every `c.object`, every relation lookup and the label lookup do |
| Sparql.DataOfResults | src/api/sparql.ts:69-127 | a successful `fetch_data` has one result per object, in order, with its uri, the type of its batch's first object, its relations to the known and all new nodes, and its label |
| Sparql.FetchDataRound | src/api/sparql.ts:99-117 | one round appends the entries of its slice of the objects |
| Sparql.FetchRound | src/api/sparql.ts:96-118 | one pass of the batch loop advances to the next batch start, or fails the whole loop |
| Sparql.LabelledPrefix | src/api/sparql.ts:122-124 | labelling one more entry extends the labelled prefix by it |
| Sparql.LabelAll | src/api/sparql.ts:122-124 | the labelling loop gives every entry its label |
| Sparql.FetchEntries | src/api/sparql.ts:96-118 | the batch loop yields the entries of all objects, sent in rounds that are the batches of the rate limit |
| Sparql.FetchData | src/api/sparql.ts:69-127 | `fetch_data` yields what `DataOf` describes, and its rounds are the batches of the object values |
| Sparql.UndefinedNodesYieldNothing | src/api/sparql.ts:96-104 | called without `nodes`, `fetch_data` fails whenever the data query finds an object, and otherwise yields no result |
| Sparql.UndefinedNodesCounterexample | src/api/sparql.ts:69-127 | for an endpoint whose data query finds one object, the call without `nodes` fails while the call with the known ids yields that object, labelled by itself |
| DraftApi.BuildValues | ui/packages/graph/src/api.ts:163-171 | the loop builds the VALUES block with one bracketed line per other node, in order, and that block parses back to exactly those nodes when none contains a `>` |
| DraftApi.FetchRelations | ui/packages/graph/src/api.ts:163-203 | the bindings of the relations query over every other node, whatever the response status |
| DraftApi.FetchLabels | ui/packages/graph/src/api.ts:107-136 | a non-empty result maps every binding to a record; an empty one labels a lone subject by itself and throws for any other number of subjects |
| DraftApi.FetchLabelsMeaning | ui/packages/graph/src/api.ts:127-135 | the lookup succeeds exactly when the endpoint found labels, all complete, or none for a lone subject; then it has one record per binding, in order, or labels the subject by itself |
| DraftApi.FetchLabel | ui/packages/graph/src/api.ts:138-161 | the first binding's label, or the subject itself when nothing is found; a first binding without a label throws |
| DraftApi.Unlabelled | ui/packages/graph/src/api.ts:91-95 | the results of the first rounds: each related node, unlabelled, with its relations to every node |
| DraftApi.Labelled | ui/packages/graph/src/api.ts:100-102 | every result gets the first label recorded for its uri, else the empty string; nothing else changes |
| DraftApi.DataOf | ui/packages/graph/src/api.ts:52-105 | succeeds exactly when every binding has an object and the label lookup succeeds; then one result per object, in order, labelled, with its relations to the known nodes and all related nodes |
| DraftApi.DataOfNoObjects | ui/packages/graph/src/api.ts:98 | when the data query finds nothing and so does the label lookup over no subjects, `fetch_data` throws instead of yielding an empty list |
| DraftApi.FetchDataRound | ui/packages/graph/src/api.ts:78-96 | one round appends the results for its slice of the objects, in order |
| DraftApi.LabelAll | ui/packages/graph/src/api.ts:100-102 | the labelling loop gives the labelled results |
| DraftApi.FetchData | ui/packages/graph/src/api.ts:52-105 | the loop over rounds of 5 yields what `DataOf` describes, and its rounds are the batches of 5 of the objects |
| DraftApi.FetchProperty | ui/packages/graph/src/api.ts:205-253 | the property built from the first binding, with the requested uri and numeric counts; an empty result throws |
| DraftApi.PropertyOfBinding | ui/packages/graph/src/api.ts:277-280 | a fetched property carries the binding's predicate |
| DraftApi.PropertiesOfMeaning | ui/packages/graph/src/api.ts:274-286 | the properties succeed exactly when every listed predicate does; the k-th then carries the k-th predicate and the counts of its first binding |
| DraftApi.FetchProperties | ui/packages/graph/src/api.ts:255-287 | the rounds of 5 yield one property per listed predicate, in order, and the progress reported after each round is `floor(i / len * 100)`, always between 0 and 99 |
| D3Graph.AddKeysMeaning | ui/packages/graph/src/types/rdf.types.ts:61-68 | `add_properties` makes exactly the given properties present besides the old ones, gives each missing one an empty list, leaves every existing list untouched and only appends keys |
| D3Graph.AddKeysPresent | ui/packages/graph/src/types/rdf.types.ts:63-66 | properties already present are neither added nor changed |
| D3Graph.AddKeysTwice | ui/packages/graph/src/types/rdf.types.ts:61-68 | `add_properties` is idempotent |
| D3Graph.PushMeaning | ui/packages/graph/src/types/rdf.types.ts:108-113 | the target is appended at the end of the property's list, created when absent, duplicates kept; no other list changes |
| D3Graph.Lookup | ui/packages/graph/src/types/rdf.types.ts:89-91 | the first node with the value, or -1 exactly when there is none |
| D3Graph.EnsureKeeps | ui/packages/graph/src/types/rdf.types.ts:102-106 | finding or creating a node keeps every existing node, its place and its dictionary, and the value is then found |
| D3Graph.TripleStepDict | ui/packages/graph/src/types/rdf.types.ts:98-119 | one triple pushes onto its subject's dictionary and changes no other |
| D3Graph.TripleStepGrows | ui/packages/graph/src/types/rdf.types.ts:98-119 | one triple creates no second node for a value and keeps every node in its place |
| D3Graph.AddAllGrows | ui/packages/graph/src/types/rdf.types.ts:97-120 | the loop never creates a node twice for the same value and keeps every node in its place |
| D3Graph.AddAllFound | ui/packages/graph/src/types/rdf.types.ts:97-120 | afterwards the subject and the object of every triple have a node |
| D3Graph.AddAllOnly | ui/packages/graph/src/types/rdf.types.ts:97-120 | every node the loop creates is the subject or object of some triple |
| D3Graph.AddAllLists | ui/packages/graph/src/types/rdf.types.ts:108-113 | a node's list under a property is its old list followed by every target the triples sent it there, in order, with duplicates |
| D3Graph.AddAllKeys | ui/packages/graph/src/types/rdf.types.ts:108-111 | a node's keys are those `add_properties` of the properties the triples used on it, in order, gives its old dictionary, and the dictionary stays well formed |
| D3Graph.KeyConnsMembers | ui/packages/graph/src/types/rdf.types.ts:145-146 | the connections of one node are exactly its (property, target) pairs |
| D3Graph.ConnsMembers | ui/packages/graph/src/types/rdf.types.ts:144-146 | the connections `update_d3` visits are exactly the (property, node, target) triples of the graph's dictionaries |
| D3Graph.LinkAllGrows | ui/packages/graph/src/types/rdf.types.ts:155-162 | links are only ever appended |
| D3Graph.LinkAllUnique | ui/packages/graph/src/types/rdf.types.ts:155-162 | no link is added whose source and target pair is already joined, whatever its property |
| D3Graph.LinkAllCovers | ui/packages/graph/src/types/rdf.types.ts:148-162 | every connection to a simulated value other than `test` ends with a link joining its source and target |
| D3Graph.LinkAllOnly | ui/packages/graph/src/types/rdf.types.ts:148 | every link added is a connection whose target is simulated and is not `test` |
| D3Graph.StartCoherent | ui/packages/graph/src/types/rdf.types.ts:81-86 | the starting graph satisfies the graph invariant and has no connections |
| D3Graph.SimsAdded | ui/packages/graph/src/types/rdf.types.ts:134-142 | adding simulation nodes for the undrawn graph nodes keeps the invariant and draws every graph value |
| D3Graph.SurvivingAll | ui/packages/graph/src/types/rdf.types.ts:126-128 | while every simulation node has a graph value, the filter drops none |
| D3Graph.SameSim | ui/packages/graph/src/types/rdf.types.ts:152-153 | with distinct simulated values, two simulation nodes with the same value are the same object |
| D3Graph.SameLink | ui/packages/graph/src/types/rdf.types.ts:155-159 | with distinct simulated values, the identity test on link endpoints is the test on their values |
| D3Graph.UnsimulatedCovers | ui/packages/graph/src/types/rdf.types.ts:130-132 | `new_nodes` are exactly the graph nodes without a simulation node |
| D3Graph.UnsimulatedUnique | ui/packages/graph/src/types/rdf.types.ts:130-132 | `new_nodes` has distinct values |
| D3Graph.GraphNode.constructor | ui/packages/graph/src/types/rdf.types.ts:56-59 | a graph node has its value and an empty dictionary |
| D3Graph.GraphNode.AddProperties | ui/packages/graph/src/types/rdf.types.ts:61-68 | the dictionary becomes the specification's `add_properties` of the old one |
| D3Graph.GraphNode.PropertyLabels | ui/packages/graph/src/types/rdf.types.ts:70-72 | each present property exactly once |
| D3Graph.GraphNode.PushTarget | ui/packages/graph/src/types/rdf.types.ts:108-113 | the dictionary becomes the old one with the target pushed under the property |
| D3Graph.SimNode.constructor | ui/packages/graph/src/types/rdf.types.ts:26-32 | a simulation node has its value and no position or velocity yet |
| D3Graph.SimLink.constructor | ui/packages/graph/src/types/rdf.types.ts:40-50 | a link holds its property and its two endpoints |
| D3Graph.FindNode | ui/packages/graph/src/types/rdf.types.ts:89-91 | the first graph node with the value, or -1 exactly when none has it |
| D3Graph.FindSim | ui/packages/graph/src/types/rdf.types.ts:93-95 | the first simulation node with the value, or -1 exactly when none has it |
| D3Graph.Graph.constructor | ui/packages/graph/src/types/rdf.types.ts:81-87 | a fresh graph has exactly the starting node, drawn at rest, and no links |
| D3Graph.Graph.GetNode | ui/packages/graph/src/types/rdf.types.ts:89-91 | the first graph node with the value, or null exactly when none has it |
| D3Graph.Graph.GetD3Node | ui/packages/graph/src/types/rdf.types.ts:93-95 | the first simulation node with the value, or null exactly when none has it |
| D3Graph.Graph.FindOrCreateNode | ui/packages/graph/src/types/rdf.types.ts:102-106 | the node with the value, pushed as a new empty node when missing |
| D3Graph.Graph.Append | ui/packages/graph/src/types/rdf.types.ts:105 | the node is pushed at the end of the graph nodes; the simulation is untouched |
| D3Graph.Graph.PushAt | ui/packages/graph/src/types/rdf.types.ts:108-113 | only the one node's list under the property changes |
| D3Graph.Graph.AddOne | ui/packages/graph/src/types/rdf.types.ts:98-119 | one iteration leaves the nodes of the specification's step |
| D3Graph.Graph.AddTriple | ui/packages/graph/src/types/rdf.types.ts:97-122 | the graph nodes take in every triple as the specification says; then every graph node is drawn, new simulation nodes start at rest, and links are those the nested loops add |
| D3Graph.Graph.AddAllTriples | ui/packages/graph/src/types/rdf.types.ts:98-120 | the loop leaves the nodes the specification computes; the simulation is untouched |
| D3Graph.Graph.UpdateD3 | ui/packages/graph/src/types/rdf.types.ts:124-166 | surviving simulation nodes stay, one new node at rest is added per undrawn graph node, and the links are the old ones followed by those the nested loops add |
| D3Graph.Graph.DrawNodes | ui/packages/graph/src/types/rdf.types.ts:126-142 | afterwards every graph node is drawn and the new simulation nodes are at rest |
| D3Graph.Graph.SurvivingSims | ui/packages/graph/src/types/rdf.types.ts:126-128 | the simulation nodes whose value is still a graph node value |
| D3Graph.Graph.NewNodes | ui/packages/graph/src/types/rdf.types.ts:130-132 | the graph nodes without a simulation node, in order |
| D3Graph.Graph.AddSims | ui/packages/graph/src/types/rdf.types.ts:134-142 | one fresh simulation node at rest per given node, in order |
| D3Graph.Graph.LinkAllNodes | ui/packages/graph/src/types/rdf.types.ts:144-165 | the three nested loops append the links the specification computes over every connection |
| D3Graph.Graph.LinkNode | ui/packages/graph/src/types/rdf.types.ts:145-164 | the loop over one node's keys |
| D3Graph.Graph.LinkTargets | ui/packages/graph/src/types/rdf.types.ts:146-163 | the loop over one target list |
| D3Graph.Graph.LinkConnection | ui/packages/graph/src/types/rdf.types.ts:148-162 | a target without a simulation node or equal to `test` is skipped; otherwise the link is pushed unless one joins the same two nodes |
| RdfParse.NodeValuesAppend | src/lib/api/rdf.ts:9-18 | parsing two batches in turn gives the nodes of both, in order |
| RdfParse.ParsedLinksAppend | src/lib/api/rdf.ts:9-18 | parsing two batches in turn gives the links of both, in order |
| RdfParse.ParsedLinkTargets | src/lib/api/rdf.ts:10-16 | link i carries the property of triple i and ends at node 2i, which carries the triple's object; node 2i+1 carries its subject |
| RdfParse.ParseTriple | src/lib/api/rdf.ts:10-13 | a fresh origin node, an object node, a subject node and a link from the origin to the object node |
| RdfParse.ParseData | src/lib/api/rdf.ts:6-21 | two nodes per triple, object then subject, in triple order; one link per triple with its property from a fresh origin node, not among the nodes, to that triple's object node |
| RdfParse.Bound | src/lib/api/rdf.ts:53 | the value of a variable of a chunk, or `undefined` exactly when the chunk does not bind it |
| RdfParse.DataTriples | src/lib/api/rdf.ts:41-55 | one triple per chunk, in order: the uri, the property and the chunk's `?s` |
| RdfParse.DataTriplesAppend | src/lib/api/rdf.ts:34-41 | projecting the chunks that arrived, then the rest, gives the projection of all of them |
| RdfParse.PropertyTriples | src/lib/api/rdf.ts:72-76 | one triple per chunk, in arrival order: the uri, the chunk's `?p` and `test` |
| RdfParse.PropertyTriplesSnoc | src/lib/api/rdf.ts:74-76 | one more chunk pushes exactly one more triple and changes none before it |
| Settings.FilledOn | src/settings.ts:12-16 | the filled record has the stored keys and the visited defaults' keys |
| Settings.FillKeyStep | src/settings.ts:13-15 | one pass of the loop extends the partial fill by that key |
| Settings.Fill | src/settings.ts:12-16 | the loop yields the complete fill, whatever order the keys are visited in |
| Settings.FilledComplete | src/settings.ts:12-16 | after the fill every default key is present and, when its default is not `null`, not missing |
| Settings.FilledKeeps | src/settings.ts:13-14 | a stored value that is not `null` is kept; so is every stored key the defaults do not know; a missing key takes its default |
| Settings.FilledIdempotent | src/settings.ts:12-16 | filling what was filled changes nothing |
| Settings.FalsyKept | src/settings.ts:13 | stored `false`, `0` and `''` survive the fill |
| Settings.Store.constructor | src/settings.ts:5-26 | outside the browser the store is the defaults; in the browser, a stored record is filled, else the defaults are used, and the store's value is written back |
| Settings.Store.Set | src/settings.ts:20-26 | setting the store writes the value back to local storage |
| Settings.Store.OnStorage | src/settings.ts:28-43 | nothing stored leaves the store alone; otherwise the stored record is filled, set and written back |
| Settings.ReloadStable | src/settings.ts:8-18 | reloading what the store saved gives the same settings, and every default key is present |
| Settings.DefaultsHaveNoNulls | src/settings.ts:79-93 | no default is `null`; the rate limit is 5, the size limit 100, related nodes and images are fetched, and the endpoint type is `wikidata` |
| Settings.LoadedSettings | src/settings.ts:79-93 | a loaded rate limit is the stored one when not `null`, else 5, and no default key is missing |
| Common.Batches | src/api/sparql.ts:96-97 | the slices `i, i + size, ...` are non-empty, at most `size` long, all but the last exactly `size`, and together the whole list |
| Common.MapAll | src/api/sparql.ts:208-210 | a mapping whose callback may throw succeeds exactly when every element does, then element by element; otherwise it fails with the first error |
| Common.MapAllAppend | src/api/sparql.ts:208-210 | mapping a concatenation succeeds exactly when both halves do and joins their results |
| Common.Filter | src/api/sparql.ts:195-198 | `filter` keeps only passing elements |
| Common.FilterMembers | src/api/sparql.ts:195-198 | it keeps exactly the passing elements of the list |
| Common.FilterAppend | src/api/sparql.ts:195-198 | filtering distributes over concatenation, so relative order is kept |
| Common.Progress | src/api/sparql.ts:383 | the progress for a round start inside the list lies in [0, 100) |
| Common.ProgressIsFloor | src/api/sparql.ts:383 | the progress is the largest whole percentage not above the share already handled |
| Common.ProgressReportsShape | src/api/sparql.ts:377-384 | one progress report per round, each in [0, 100) |
| Common.BatchStart | src/api/sparql.ts:103 | the start of the batch an index falls into: a batch start at most the index and within `size` of it |
| Common.ToNumber | src/api/sparql.ts:350-351 | `+s` on a count string: a non-negative number for a digit string, 0 for the empty string, NaN otherwise |
| Common.ToNumberShowNat | src/api/sparql.ts:350-351 | `+` reads back exactly the count an endpoint writes |
| ValuesBlock.BlockRoundTrip | src/api/sparql.ts:271-277 | the VALUES block lists exactly its IRIs, in order, one per line, between `VALUES ?object {` and `}` |
| ValuesBlock.LinesAppend | src/api/sparql.ts:273-276 | the lines for two lists in turn are the lines for their concatenation |
| Bindings.Value | src/api/sparql.ts:94 | `b.name.value`, which throws exactly when the variable is unbound |
| Bindings.LabelOf | src/api/sparql.ts:123 | the label of the first record about the uri, else the empty string |
| Bindings.ImageOf | src/api/graph.ts:285 | the image of the first record about the uri, none exactly when no record names it |
| Bindings.PropertyFrom | src/api/sparql.ts:345-353 | a property with the requested uri, the optional label and both counts through `+`; it throws exactly when a count is missing |
| Bindings.RelationOf | src/api/graph.ts:339-354 | the four values of a relation binding, which throws exactly when one variable is unbound |
| Common.BatchesStep | src/api/sparql.ts:96-97 | each round of a batch loop takes the next `size` elements, or what is left, off the front |
| Common.BatchStartInBatch | src/api/sparql.ts:103 | every index of the batch that starts at `i` has `i` as its batch start |
| ValuesBlock.ParseLinesRoundTrip | src/api/sparql.ts:273-276 | the `<iri>` lines read back to exactly the IRIs they were made from |
| RdfParse.NodeValues | src/lib/api/rdf.ts:11-12 | node 2i carries the object of triple i and node 2i+1 its subject |
| RdfParse.ParsedLinks | src/lib/api/rdf.ts:13 | link i carries the property of triple i and joins the origin to that triple's object |
| RdfParse.ParsedShapePushed | src/lib/api/rdf.ts:10-17 | one more iteration keeps link j ending at node 2j, with an origin that is no returned node and no other link's origin |
| D3Graph.LinkAllAppend | ui/packages/graph/src/types/rdf.types.ts:144-165 | visiting the connections of one node after another is visiting them all in that order |
| D3Graph.CoherentGrown | ui/packages/graph/src/types/rdf.types.ts:97-120 | adding graph nodes with distinct values keeps the graph invariant |

## Findings

| source | as written | input that shows it | evidently intended | confidence | as-written member | corrected member |
|---|---|---|---|---|---|---|
| src/api/graph.ts:310 | `load_related_nodes` calls `SPARQL.fetch_data(uri, property.uri)` without the `nodes` argument, so `[...nodes, ...all_new_nodes]` (src/api/sparql.ts:104) spreads `undefined` and throws for the first related object; the expansion never adds a node | an endpoint whose data query returns one binding with an `object` (`OneObjectEndpoint`) | pass the ids of the graph's nodes as `nodes`, so every related object is merged | high; not executed | Sparql.UndefinedNodesCounterexample, GraphModel.Graph.LoadRelatedAsCalled | GraphModel.Graph.LoadRelated |

## Left out

- HTTP transport, `fetch`, JSON parsing and the SPARQL 1.1 Protocol request encoding: the endpoint is a function from an abstract query to a response. Only the relation queries' `VALUES` block is rendered as exact text.
- The `is-url` package: `isUrl` is a predicate passed in as a parameter.
- svelte stores and `get(Settings)`: `rate_limit`, `size_limit`, `fetch_related`, `fetch_image` and `animations` are parameters. `rate_limit` is required to be at least 1, because the batch loops advance by it.
- Async interleaving (`await`, `Promise.all`, the detached `.then` continuations of `load_related_nodes` and `load_data`): each continuation is its own method that receives its results (`ApplyRelations`, `ApplyImages`). The model does not capture other work running between the loop and the continuation.
- vis-data `DataSet` and vis-network. The view is a set of node ids and a set of edge keys in the current graph, and a set of node and edge objects in the earlier one. The network object is only whether `set_network` attached one, and `stabilize()` is a ghost counter. Layout, physics and `add` throwing on duplicates are not modelled.
- The call `SPARQL.fetch_data(uri, property.uri)` in `load_related_nodes` (src/api/graph.ts:310) leaves `nodes` undefined, so the spread at src/api/sparql.ts:104 throws a TypeError as soon as the data query finds any object (see "## Findings"). As written, the merge loop only ever runs over an empty list. `LoadRelatedNodes` takes the fetched list as an input, and `LoadRelated` fetches it with the graph's node ids as `nodes`.
- Sparql.FetchProperties: within one batch the source reads every `c.property.value` before it starts any `fetch_property`, and `Promise.all` rejects with whichever lookup fails first in time. The model reports the first failure in binding order. Whether the call fails agrees; which message it carries can differ. The same holds for DraftApi.FetchProperties.
- Sparql.FetchMultipleRelations: within one batch `Promise.all` (src/api/sparql.ts:263) rejects with whichever subject's query fails first in time. The model reports the first failure in subject order. Whether the call fails agrees; which message it carries can differ.
- The fetches of `load_node`, `load_nodes` and `load_properties`: their results (labels, images, properties) are method inputs.
- Node coordinates `x`/`y` are opaque reals that are copied, never computed with.
- GraphModel.Graph.constructor: the source constructor takes no arguments. The model's `animations` parameter stands for the settings value its `update_data` call reads.
- DraftGraph.Graph.constructor: the file imports `{ SPARQL }` from `./api` and calls `SPARQL.set_endpoint`, `set_rate_limit`, `set_size_limit`, `fetch_image` and `fetch_images`, but ui/packages/graph/src/api.ts exports no `SPARQL` object and none of these functions; its limits are the constants 5 and 100. The model binds the draft graph to that file's exported functions with those constants, so the `rate_limit`, `size_limit` and `endpoint` arguments are not modelled, and the label and image results of `load` and the image records of `load_data` are method inputs. The `timeout` helper of that file is not modelled either.
- DraftGraph.Graph.ApplyImages: the earlier client has no image query, so the image records are an input.
- Sparql.FetchProperties: the progress callback is optional in the source. The model always reports progress and states the reports, which covers the case where a callback is given.
- Common.Progress: `Math.floor((i / len) * 100)` is computed exactly on integers. Floating-point rounding of `i / len` is not modelled.
- Common.ToNumber: `+s` is modelled for strings of decimal digits. Every other string is NaN, including signs, fractions, exponents and surrounding whitespace.
- Full query texts other than the `VALUES` block: queries are identified by their parameters.
- D3Graph: `SimLink` endpoints given as strings are not modelled, because the code only ever passes nodes. Keys inherited from `Object.prototype` are not treated as present properties. Property keys are taken to be predicate IRIs, never integer-like strings, so `Object.keys` lists them in first-insertion order (JavaScript would list integer-like keys first, ascending). The d3 simulation's own updates to positions and velocities are not modelled.
- D3Graph: links whose nodes left the graph are never removed (the source marks this as a TODO), and the model keeps them too.
- D3Graph.Graph.UpdateD3: it requires the graph invariant, under which every simulation node has a graph value. The filter at rdf.types.ts:126-128 therefore drops nothing (`SurvivingAll`). The case with dangling simulation nodes is not reachable through the class's methods and is not stated.
- RdfParse: src/lib/api/rdf.types.ts is not part of this model. `parse_data` is modelled with the `SimNode`/`SimLink` classes of D3Graph, and a term is reduced to its `value`.
- RdfParse.ParseData: the unused `link2` is not built. Its contract states the shape by values and by identity of nodes, but not that the returned objects are fresh.
- RdfParse: the stream I/O of `fetch_data` and `fetch_properties` and their query text. The chunks that arrived are the input, and an `error` event is not modelled.
- Settings: `localStorage`, `JSON.parse`/`JSON.stringify` and the `window` listener. A stored string is the record it parses to, and writing back stores the store's record. The `removeItem` path for `null` and stored JSON that is not an object are not modelled. Numbers are integers.
- Settings.Fill: the order of `Object.keys` is left open. The result is independent of it.
- src/lib/api.ts, the UI components, the svelte stores of the UI shell, the DOM and theme helpers in the util files, the tailwind configuration and the minified build chunk: none of these are part of this model.
