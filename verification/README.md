# Scene clipboard of pyflow, modelled in Dafny

This project models the clipboard of a pyflow scene (`SceneClipboard` in
`pyflow/scene/clipboard.py`). pyflow is a node-based visual-programming editor. The
clipboard has three operations:

- **cut** and **copy** take a snapshot of the selected blocks and edges. An edge is kept
  only when both of its sockets belong to selected blocks. The snapshot goes into a
  single clipboard slot, and cut also deletes the selection.
- **paste** rebuilds the stored payload in the scene. Every block and edge gets a fresh
  identity. Edge ends are rebound through an old-id to new-id map. The whole group is
  moved so that the centre of its bounding box lands on the mouse.

All of it is written as pure functions over immutable records:

- `wrappers.dfy` (`Wrappers`): `Option` for the clipboard slot, `Result` for a paste
  that can fail.
- `seqs.dfy` (`Seqs`): order-preserving filtering (`Keep`), subsequences, flattening,
  distinctness and ranges of fresh ids.
- `graph.dfy` (`Graph`): blocks with their input and output sockets, edges between
  socket ids, and the payload `{blocks, edges}`. A block or edge record is also its own
  serialized form.
- `scenes.dfy` (`Scenes`): the scene as far as the clipboard sees it. That is its blocks
  and edges in scene order, the selection as a set of ids, a fresh-id counter `nextId`,
  and a count of history checkpoints. It also holds `sortedSelectedItems` and
  `deleteSelected`.
- `snapshot.dfy` (`Snapshots`): `_serializeSelected`. Its edge filter is written as a
  fresh filtered sequence. The same file also models the source's in-place loop exactly
  as written (see Findings).
- `placement.dfy` (`Placement`): `_find_bbox_center`, the paste offset
  `mouse − centre`, and uniform translation.
- `rebind.dfy` (`Rebind`): block creation with `restore_id=False` and edge creation with
  endpoint lookup, threading the scene and the rebinding map (`hashmap`).
- `deserialize.dfy` (`Deserialization`): `_deserializeData` and its properties.
- `clipboard.dfy` (`SceneClipboard`): `_store`, `_gatherData`, `cut`, `copy`, `paste`.
  It also defines the invariant `Valid`, which cut, copy and paste preserve.
- `scenario.dfy` (`Scenarios`): a worked example. Two 10 by 10 blocks at (0, 0) and
  (20, 20), joined by one edge, are cut and then pasted at (100, 100).

Fresh identities come from the counter `nextId`. A created block takes the next id, and
its sockets take the ids after it, inputs first. `create_block` is taken to record in the
rebinding map the old block id and the old socket ids, each mapped to its new id. A created edge
also takes the next id. Each of its ends is looked up in the map, and the old edge id is
then recorded as well (line 119). The model assumes that an end missing from the map
makes the paste fail with `UnresolvedSocket`; the lookup itself happens inside
`Edge.deserialize`, which is not part of this model (see Left out). A payload without
blocks makes `_deserializeData` fail with `EmptyBlocks`, because `min()` of an empty
sequence raises.

The mouse position is a parameter of `Paste`. The selection is the scene's `selected`
set. `history.checkpoint` is the counter `checkpoints`, which goes up by one per
successful paste.

The model follows the code as written, with one exception: `cut` and `copy` use the
corrected edge filter, not the in-place loop of lines 58-63 (see Findings). Following
the code, `cut` deletes the selection even when the slot rejects a snapshot without
blocks (lines 35 and 72-73). For example, a cut with only edges selected deletes those
edges and leaves the slot empty.

## Model

| member | source | states |
|---|---|---|
| Snapshots.FilterEdges | pyflow/scene/clipboard.py:57-63 | every kept edge has both ends among the given sockets; every selected edge with both ends there is kept; nothing else is kept; the kept edges keep their relative order (subsequence) |
| Snapshots.Snapshot | pyflow/scene/clipboard.py:49-70 | the payload's blocks are the selected blocks in order; its edges are exactly the selected edges whose two ends are sockets of those blocks, in selection order; so no payload edge dangles |
| Snapshots.RemoveFirst | pyflow/scene/clipboard.py:63 | `list.remove`: one element shorter, every other element still present |
| Snapshots.InPlaceFilterFrom | pyflow/scene/clipboard.py:58-63 | the loop as written from iterator index i: a dangling edge at the index is removed with `list.remove` and the index still advances; its contract is carried by `InPlaceKeepsConnected`, `InPlaceKeepsWalkedPrefix`, `InPlaceStepsOverConnected` and `InPlaceSkipsNext` |
| Snapshots.InPlaceFilterEdges | pyflow/scene/clipboard.py:58-63 | the loop as written, started at index 0; its contract is carried by `InPlaceKeepsConnected` and `InPlaceSkipsNext` |
| Snapshots.InPlaceKeepsConnected | pyflow/scene/clipboard.py:58-63 | the loop as written never drops an edge whose two ends are selected sockets |
| Snapshots.InPlaceKeepsWalkedPrefix | pyflow/scene/clipboard.py:58-63 | on distinct edges, the loop as written never changes the part of the list its iterator has already passed |
| Snapshots.InPlaceStepsOverConnected | pyflow/scene/clipboard.py:58-63 | the loop passes over connected edges at its index without changing the list |
| Snapshots.InPlaceSkipsNext | pyflow/scene/clipboard.py:58-63 | on distinct edges, when every edge before a dangling edge is connected, the loop as written keeps the edge right after the dangling one, whatever that edge connects |
| Snapshots.InPlaceKeepsDanglingEdge | pyflow/scene/clipboard.py:57-63 | concrete case: two dangling edges in a row, and the loop keeps the second one; the fresh filter drops it |
| Snapshots.InPlaceSkipsAfterConnected | pyflow/scene/clipboard.py:58-63 | concrete case after a connected edge: with sockets {1, 2}, the loop keeps Edge(12, 9, 9) from [Edge(10, 1, 2), Edge(11, 1, 7), Edge(12, 9, 9)], while the fresh filter keeps only Edge(10, 1, 2) |
| Scenes.SelectedBlocks | pyflow/scene/clipboard.py:49 | exactly the scene's selected blocks, in scene order |
| Scenes.SelectedEdges | pyflow/scene/clipboard.py:49 | exactly the scene's selected edges, in scene order |
| Scenes.DeleteSelected | pyflow/scene/clipboard.py:72-73 | exactly the unselected blocks and edges remain, in order; the selection is emptied; the id supply is unchanged |
| Scenes.DeleteSelectedValid | pyflow/scene/clipboard.py:72-73 | deleting keeps scene ids unique and drawn from the supply |
| Scenes.AddFreshValid | pyflow/scene/clipboard.py:104-119 | keeping the old items and appending items whose ids are exactly the next fresh ids keeps scene ids unique and drawn from the supply |
| Scenes.AddedIdsIncrease | pyflow/scene/clipboard.py:104-119 | of two fresh appends in a row, every id handed out by the first is smaller than every id handed out by the second; the order comes from the model's counter as id supply, and what the source needs from it is that the two appends share no id |
| Placement.Min | pyflow/scene/clipboard.py:78 | a lower bound of the values that is one of them |
| Placement.Max | pyflow/scene/clipboard.py:79 | an upper bound of the values that is one of them |
| Placement.BBoxCenter | pyflow/scene/clipboard.py:77-82 | the centre is equally far from the leftmost left edge and the rightmost right edge, and equally far from the top and bottom extremes |
| Placement.CenterInsideBox | pyflow/scene/clipboard.py:77-82 | with sizes that are not negative, the centre lies inside the bounding box |
| Placement.Offset | pyflow/scene/clipboard.py:99-102 | centre plus offset is the mouse position |
| Placement.CenterTranslates | pyflow/scene/clipboard.py:98-109 | moving every block by the same vector moves the bounding-box centre by that vector |
| Placement.PlacementCentersOnMouse | pyflow/scene/clipboard.py:98-109 | after the paste offset is applied, the group's centre is the mouse position and every pairwise offset between blocks is unchanged |
| Rebind.RegisterSpec | pyflow/scene/clipboard.py:106 | registering ids adds exactly the old ids as keys and keeps other entries; values come only from the new ids; without repeats each old id maps to its partner |
| Rebind.NewBlock | pyflow/scene/clipboard.py:106-109 | the created block carries the next consecutive fresh ids, has as many sockets, is moved by the offset and keeps its size |
| Rebind.CreateBlock | pyflow/scene/clipboard.py:106-109 | one `create_block` with `restore_id=False`, then `setSelected` and `setPos`; its contract is carried by `NewBlock` (the new block), `RegisterSpec` (the map entries) and `CreateBlocks` |
| Rebind.CreateBlocks | pyflow/scene/clipboard.py:104-109 | one block is appended per payload block; existing blocks and all edges are untouched |
| Rebind.CreateBlocksLayout | pyflow/scene/clipboard.py:104-109 | the i-th created block is the i-th payload block moved by the one offset, with the same size and socket counts |
| Rebind.CreateBlocksSelection | pyflow/scene/clipboard.py:104-108 | with `set_selected`, exactly the created blocks join the selection; without it the selection is unchanged |
| Rebind.CreateBlocksShape | pyflow/scene/clipboard.py:104-109 | layout and selection together: the created blocks are the payload blocks translated by the one offset, with the same socket counts, and with `set_selected` exactly they join the selection |
| Rebind.CreateBlocksIds | pyflow/scene/clipboard.py:104-106 | the created blocks and sockets take exactly the next fresh ids, in order, without gaps |
| Rebind.CreateBlocksMapKeys | pyflow/scene/clipboard.py:104-106 | once all blocks are created, the map has every payload block and socket id as a key, so it is complete before any edge is created |
| Rebind.CreateBlocksMapFresh | pyflow/scene/clipboard.py:106 | every value the map gains during block creation is a fresh id |
| Rebind.CreateBlocksRebinds | pyflow/scene/clipboard.py:104-106 | without repeated payload ids, the map sends the q-th payload block/socket id to the q-th new id |
| Rebind.CreateEdge | pyflow/scene/clipboard.py:112-119 | succeeds exactly when both ends are keys of the map; otherwise fails naming the first missing end |
| Rebind.CreateEdges | pyflow/scene/clipboard.py:111-119 | the edge loop, stopping at the first unresolved end; its contract is carried by `CreateEdgesShape`, `CreateEdgesSucceeds`, `CreateEdgesFails` and `CreateEdgesResolve` |
| Rebind.CreateEdgesFrame | pyflow/scene/clipboard.py:111-119 | creating edges leaves blocks untouched, keeps the existing edges as a prefix and appends one edge per payload edge, using one fresh id each |
| Rebind.CreateEdgesIds | pyflow/scene/clipboard.py:111-119 | the created edges take exactly the next fresh ids, in payload order |
| Rebind.CreateEdgesSelection | pyflow/scene/clipboard.py:111-119 | with `set_selected`, exactly the created edges join the selection; without it the selection is unchanged |
| Rebind.CreateEdgesShape | pyflow/scene/clipboard.py:111-119 | blocks are untouched; one edge is appended per payload edge, taking the next fresh ids in order; with `set_selected`, exactly they join the selection |
| Rebind.CreateEdgesSucceeds | pyflow/scene/clipboard.py:111-119 | if every edge end is a key of the map, all edges are created |
| Rebind.CreateEdgesFails | pyflow/scene/clipboard.py:113-114 | an end that is neither a map key nor a payload edge id makes edge creation fail |
| Rebind.CreateEdgesFresh | pyflow/scene/clipboard.py:113-119 | if the map holds only fresh ids, every created edge end is a fresh id |
| Rebind.CreateEdgesResolve | pyflow/scene/clipboard.py:113-119 | an end that is not itself a payload edge id resolves to the map's value from before any edge was created |
| Deserialization.Deserialize | pyflow/scene/clipboard.py:97-98 | a payload without blocks fails with `EmptyBlocks` |
| Deserialization.Cleared | pyflow/scene/clipboard.py:94-95 | `clearSelection` when `set_selected` holds; its contract is carried by `DeserializeCounts`: with `set_selected` the selection afterwards is exactly the pasted items |
| Deserialization.DeserializeSucceeds | pyflow/scene/clipboard.py:104-119 | a payload with blocks and no dangling edge always pastes |
| Deserialization.DeserializeFailsOnDangling | pyflow/scene/clipboard.py:111-114 | an edge end naming nothing in the payload makes the paste fail |
| Deserialization.DeserializeCounts | pyflow/scene/clipboard.py:94-123 | exactly one new block per payload block and one new edge per payload edge, after the old ones; one checkpoint; with `set_selected`, the selection is exactly the pasted items |
| Deserialization.DeserializePasted | pyflow/scene/clipboard.py:94-123 | a successful paste appends one block per payload block and one edge per payload edge, all with the next fresh ids; each appended block is its payload block moved by mouse − centre with as many input and output sockets, and the appended group is centred on the mouse |
| Deserialization.DeserializePlacement | pyflow/scene/clipboard.py:97-109 | each pasted block is its payload block moved by mouse − centre, with the same sockets count, and the pasted group's centre is the mouse |
| Deserialization.PhasesFresh | pyflow/scene/clipboard.py:104-119 | all blocks are created before any edge: the block phase uses the first fresh ids (one per payload block or socket), the edge phase the ones after, and together they append items carrying exactly the next fresh ids |
| Deserialization.DeserializeFreshIds | pyflow/scene/clipboard.py:104-119 | the pasted blocks, sockets and edges take exactly the next fresh ids, in order, without gaps, and the scene's old items are kept as a prefix |
| Deserialization.DeserializeEndsFresh | pyflow/scene/clipboard.py:111-119 | every pasted edge end is an id handed out by this paste |
| Deserialization.PhasesRebind | pyflow/scene/clipboard.py:104-119 | when payload block and socket ids are distinct and are not edge ids, each created edge end attached in the payload to the q-th payload block/socket id is attached to the q-th fresh id |
| Deserialization.DeserializeRebinds | pyflow/scene/clipboard.py:104-119 | without repeated payload ids, a pasted edge whose payload end was the q-th payload block/socket id is attached to the q-th id handed out by the paste, the id that block or socket's copy received |
| Deserialization.ReboundConnects | pyflow/scene/clipboard.py:104-119 | when copies have the same per-block socket counts as the payload blocks and take consecutive fresh ids, rebinding sends every edge that joins payload sockets to an edge that joins sockets of the copies |
| SceneClipboard.Store | pyflow/scene/clipboard.py:125-132 | a payload without blocks empties the slot; any other payload fills it exactly |
| SceneClipboard.Gather | pyflow/scene/clipboard.py:134-138 | returns the slot as it is; its contract is carried by `Paste`: a paste never changes the slot, and an empty slot, where the source warns, makes paste do nothing |
| SceneClipboard.SerializeSelected | pyflow/scene/clipboard.py:47-70 | the payload is the selected blocks in order, plus exactly those selected edges both of whose ends are sockets of selected blocks; it has no dangling edge |
| SceneClipboard.Cut | pyflow/scene/clipboard.py:33-35 | the slot is empty exactly when no block is selected, otherwise it holds the snapshot; exactly the unselected items remain in the scene |
| SceneClipboard.Copy | pyflow/scene/clipboard.py:37-39 | the scene is unchanged; the slot is empty exactly when no block is selected, otherwise it holds the snapshot |
| SceneClipboard.Paste | pyflow/scene/clipboard.py:41-45 | an empty slot changes nothing; a paste never changes the slot (`_gatherData` does not consume) |
| SceneClipboard.SnapshotValid | pyflow/scene/clipboard.py:47-70 | the snapshot of a valid scene has no dangling edge, no repeated id and only drawn ids |
| SceneClipboard.CopyValid | pyflow/scene/clipboard.py:37-39 | copy preserves the clipboard invariant |
| SceneClipboard.CutValid | pyflow/scene/clipboard.py:33-35 | cut preserves the clipboard invariant |
| SceneClipboard.PasteValid | pyflow/scene/clipboard.py:41-45 | on a valid clipboard, paste never fails and preserves the invariant |
| SceneClipboard.PasteFreshIdentities | pyflow/scene/clipboard.py:104-119 | pasted ids are pairwise distinct and differ from every scene id and every payload id; no pasted edge end is a scene id or a payload id, so none touches an original item, even after a cut has removed the originals from the scene |
| SceneClipboard.PasteRebindsEnds | pyflow/scene/clipboard.py:104-119 | on a valid clipboard the paste succeeds; every payload edge joins two payload sockets; the q-th payload block/socket id is copied to the q-th fresh id; each pasted edge end is the copy of its payload end, and every pasted edge joins two sockets of the pasted blocks |
| SceneClipboard.RepeatedPaste | pyflow/scene/clipboard.py:41-45 | two pastes of one slot both succeed and leave the slot as it was; each appends a structurally identical copy of the payload: its blocks are the payload blocks moved by that paste's offset, with as many input and output sockets, and centred on its mouse position; its q-th block/socket id is the q-th next fresh id; each edge end is the copy of the payload end and joins two sockets of that copy; the two copies share no id, and with the model's counter every id of the second exceeds every id of the first |
| Scenarios.ScenarioCut | pyflow/scene/clipboard.py:33-35 | concrete cut: both blocks and the edge are stored, and the scene is emptied |
| Scenarios.ScenarioCenter | pyflow/scene/clipboard.py:77-82 | concrete bounding-box centre (15, 15) |
| Scenarios.ScenarioOffset | pyflow/scene/clipboard.py:99-102 | concrete offset (85, 85) for the mouse at (100, 100) |
| Scenarios.ScenarioFirstBlock | pyflow/scene/clipboard.py:106-109 | concrete creation of the first block as block 8 with sockets 9 and 10, and its three map entries |
| Scenarios.ScenarioSecondBlock | pyflow/scene/clipboard.py:106-109 | concrete creation of the second block as block 11 with sockets 12 and 13, and its three map entries |
| Scenarios.ScenarioBlockPhase | pyflow/scene/clipboard.py:97-109 | the concrete block phase: both blocks created and moved, and the map complete |
| Scenarios.ScenarioEdgePhase | pyflow/scene/clipboard.py:111-119 | the concrete edge phase: the edge from socket 3 to socket 5 becomes edge 14 from socket 10 to socket 12 |
| Scenarios.ScenarioDeserialize | pyflow/scene/clipboard.py:94-123 | the whole concrete `_deserializeData` result, including the selection {8, 11, 14} and one checkpoint |
| Scenarios.ScenarioPaste | pyflow/scene/clipboard.py:84-123 | concrete paste at (100, 100): blocks at (85, 85) and (105, 105), fresh ids 8 to 14, and the new edge joins the copied sockets |
| Scenarios.ScenarioCutThenPaste | pyflow/scene/clipboard.py:33-45 | the concrete cut followed by the concrete paste |

## Left out

- PyQt plumbing is not modelled: `QApplication`, `scene.views()[0]`, `view.lastMousePos`, `setSelected` and `addItem`. The mouse position is a parameter. Selecting an item adds its id to the scene's selection set. Adding an item appends it to the scene's sequence.
- The internals of `scene.create_block`, `Block.deserialize` and `Edge.deserialize` are not part of this model. Their effect is given abstractly: fresh consecutive ids (block first, then sockets in order), map entries for the old block and socket ids, and edge ends looked up by old socket id.
- `deleteSelected` is modelled as removing the items whose ids are selected. Whatever else the view does, such as removing edges attached to a deleted block, is not modelled.
- `history.checkpoint` is only counted, once per successful paste. Its label and the `set_modified` flag are not modelled.
- The `warn` in `_gatherData` is not modelled. It is an output, and the empty slot is still returned.
- A paste aborted by an exception (`EmptyBlocks`, `UnresolvedSocket`) is modelled as a `Failure` with no resulting scene. The scene changes made before the exception, such as the cleared selection and blocks already created, are not modelled.
- Store: the `"blocks" not in data` case of `_store` is not represented. The payload record always has a block sequence, and `_serializeSelected` always builds one.
- Opaque block and edge data beyond id, position, size and sockets is not modelled, because the clipboard passes it through untouched.
- CreateEdge: assumes that `Edge.deserialize` looks each end up in the rebinding map and raises when an end is missing, so the paste aborts with `UnresolvedSocket`. `Edge.deserialize` is not part of this model; if it caught the error itself, the paste would go on.
- SelectedBlocks: assumes that `sortedSelectedItems` returns the selected blocks in scene order. That method is not part of this model.
- SelectedEdges: assumes that `sortedSelectedItems` returns the selected edges in scene order. That method is not part of this model.
- Floating-point arithmetic is modelled with exact `real`.
- The unused `json` import is not modelled.
- DeserializeRebinds: assumes the payload repeats no id, since Python's single `hashmap` can otherwise overwrite entries. `Valid`, which cut and copy establish, guarantees this (`PasteRebindsEnds`).
- DeserializeEndsFresh: states only that each pasted edge end is a fresh id of this paste, because it makes no assumption about repeated payload ids. `PasteRebindsEnds` gives the exact socket on a valid clipboard.

## Findings

| source | as written | input that shows it | evidently intended | confidence | as-written member | corrected member |
|---|---|---|---|---|---|---|
| pyflow/scene/clipboard.py:58-63 | `selected_edges.remove(edge)` inside `for edge in selected_edges`, so the list iterator skips the element after each removal | selected sockets {1, 2}, selected edges [Edge(10, 1, 7), Edge(11, 8, 2)]: both dangle, and the second is never examined and is kept | keep exactly the edges whose two ends are selected sockets, built as a fresh sequence (comment on line 57) | not executed | Snapshots.InPlaceSkipsNext | Snapshots.FilterEdges |
