/** Pasting a payload into the scene (`_deserializeData`): clear the selection, centre the
    payload's bounding box on the mouse, create the blocks, then the edges, then take one
    history checkpoint. */
module Deserialization {
  import opened Seqs
  import opened Graph
  import opened Scenes
  import opened Placement
  import opened Rebind
  import opened Wrappers

  /** The scene once `clearSelection` has run, when `set_selected` asks for it. */
  function Cleared(s: Scene, setSelected: bool): Scene
  {
    s.(selected := if setSelected then {} else s.selected)
  }

  /** The translation applied to every pasted block. */
  function PasteOffset(p: Payload, mouse: Point): Point
    requires |p.blocks| > 0
  {
    Offset(BBoxCenter(p.blocks), mouse)
  }

  /** The scene and rebinding map once every block of the payload is created. */
  function BlockPhase(s: Scene, p: Payload, mouse: Point, setSelected: bool): Rebuild
    requires |p.blocks| > 0
  {
    CreateBlocks(Cleared(s, setSelected), p.blocks, map[], PasteOffset(p, mouse), setSelected)
  }

  /** `_deserializeData(data, set_selected)` with the view's last mouse position `mouse`. */
  function Deserialize(s: Scene, p: Payload, mouse: Point, setSelected: bool): (r: Result<Scene, PasteError>)
    ensures |p.blocks| == 0 ==> r == Failure(EmptyBlocks)
  {
    if |p.blocks| == 0 then Failure(EmptyBlocks)
    else
      var rb := BlockPhase(s, p, mouse, setSelected);
      match CreateEdges(rb.scene, p.edges, rb.hashmap, setSelected)
      case Failure(e) => Failure(e)
      case Success(re) => Success(re.scene.(checkpoints := re.scene.checkpoints + 1))
  }

  /** A successful paste is the block phase, then the edge phase, then one checkpoint. */
  lemma DeserializeParts(s: Scene, p: Payload, mouse: Point, setSelected: bool)
    requires Deserialize(s, p, mouse, setSelected).Success?
    ensures |p.blocks| > 0
    ensures var rb := BlockPhase(s, p, mouse, setSelected);
            var re := CreateEdges(rb.scene, p.edges, rb.hashmap, setSelected);
            && rb == CreateBlocks(Cleared(s, setSelected), p.blocks, map[], PasteOffset(p, mouse), setSelected)
            && re.Success?
            && Deserialize(s, p, mouse, setSelected).value == re.value.scene.(checkpoints := re.value.scene.checkpoints + 1)
  {
  }

  /** A payload with blocks and no dangling edge always pastes. */
  lemma DeserializeSucceeds(s: Scene, p: Payload, mouse: Point, setSelected: bool)
    requires |p.blocks| > 0 && WellFormed(p)
    ensures Deserialize(s, p, mouse, setSelected).Success?
  {
    var s1 := Cleared(s, setSelected);
    var rb := BlockPhase(s, p, mouse, setSelected);
    CreateBlocksMapKeys(s1, p.blocks, map[], PasteOffset(p, mouse), setSelected);
    forall e | e in p.edges
      ensures e.source in rb.hashmap && e.destination in rb.hashmap
    {
      SocketInBlocksIds(p.blocks, e.source);
      SocketInBlocksIds(p.blocks, e.destination);
    }
    CreateEdgesSucceeds(rb.scene, p.edges, rb.hashmap, setSelected);
  }

  /** An edge end that names no block, socket or edge of the payload makes the paste fail. */
  lemma DeserializeFailsOnDangling(s: Scene, p: Payload, mouse: Point, setSelected: bool, i: nat, x: Id)
    requires i < |p.edges| && (x == p.edges[i].source || x == p.edges[i].destination)
    requires x !in PayloadIds(p)
    ensures Deserialize(s, p, mouse, setSelected).Failure?
  {
    if |p.blocks| > 0 {
      var rb := BlockPhase(s, p, mouse, setSelected);
      CreateBlocksMapKeys(Cleared(s, setSelected), p.blocks, map[], PasteOffset(p, mouse), setSelected);
      CreateEdgesFails(rb.scene, p.edges, rb.hashmap, setSelected, i, x);
    }
  }

  /** A paste adds one block per payload block and one edge per payload edge after the
      existing ones, takes exactly one history checkpoint, and with `set_selected` leaves
      exactly the pasted items selected. */
  lemma DeserializeCounts(s: Scene, p: Payload, mouse: Point, setSelected: bool)
    requires Deserialize(s, p, mouse, setSelected).Success?
    ensures var s' := Deserialize(s, p, mouse, setSelected).value;
            && |s'.blocks| == |s.blocks| + |p.blocks| && s'.blocks[..|s.blocks|] == s.blocks
            && |s'.edges| == |s.edges| + |p.edges| && s'.edges[..|s.edges|] == s.edges
            && s'.checkpoints == s.checkpoints + 1
            && s'.selected == if setSelected
                 then (set b | b in s'.blocks[|s.blocks|..] :: b.id) + (set e | e in s'.edges[|s.edges|..] :: e.id)
                 else s.selected
  {
    var s1 := Cleared(s, setSelected);
    var off := PasteOffset(p, mouse);
    var rb := BlockPhase(s, p, mouse, setSelected);
    CreateBlocksShape(s1, p.blocks, map[], off, setSelected);
    CreateEdgesShape(rb.scene, p.edges, rb.hashmap, setSelected);
    var s' := Deserialize(s, p, mouse, setSelected).value;
    assert s'.blocks[|s.blocks|..] == rb.scene.blocks[|s1.blocks|..];
  }

  /** Every pasted block is its payload block moved by the same offset, so the pasted
      group keeps its layout and its bounding-box centre lands on the mouse. */
  lemma DeserializePlacement(s: Scene, p: Payload, mouse: Point, setSelected: bool)
    requires Deserialize(s, p, mouse, setSelected).Success?
    ensures var s' := Deserialize(s, p, mouse, setSelected).value;
            |s.blocks| <= |s'.blocks| &&
            var pasted := s'.blocks[|s.blocks|..];
            && Translated(pasted, p.blocks, Offset(BBoxCenter(p.blocks), mouse))
            && (forall i :: 0 <= i < |p.blocks| ==>
                  |pasted[i].socketsIn| == |p.blocks[i].socketsIn| && |pasted[i].socketsOut| == |p.blocks[i].socketsOut|)
            && BBoxCenter(pasted) == mouse
  {
    var s1 := Cleared(s, setSelected);
    var off := PasteOffset(p, mouse);
    var rb := BlockPhase(s, p, mouse, setSelected);
    CreateBlocksShape(s1, p.blocks, map[], off, setSelected);
    CreateEdgesShape(rb.scene, p.edges, rb.hashmap, setSelected);
    var s' := Deserialize(s, p, mouse, setSelected).value;
    assert s'.blocks[|s.blocks|..] == rb.scene.blocks[|s1.blocks|..];
    PlacementCentersOnMouse(s'.blocks[|s.blocks|..], p.blocks, mouse);
  }

  /** `s'` is `s` with a copy of the payload `p` appended: as many blocks and edges, each
      copied block its payload block moved by the one offset with as many sockets, the
      copied group centred on
      `mouse`, and every copy carrying a fresh id. */
  predicate PastedAt(s: Scene, p: Payload, mouse: Point, s': Scene)
  {
    && |p.blocks| > 0
    && |s'.blocks| == |s.blocks| + |p.blocks| && |s'.edges| == |s.edges| + |p.edges|
    && LaidOut(s'.blocks[|s.blocks|..], p.blocks, PasteOffset(p, mouse))
    && BBoxCenter(s'.blocks[|s.blocks|..]) == mouse
    && AppendsFresh(s, s')
  }

  /** A successful paste appends a copy of the payload centred on the mouse. */
  lemma DeserializePasted(s: Scene, p: Payload, mouse: Point, setSelected: bool)
    requires Deserialize(s, p, mouse, setSelected).Success?
    ensures PastedAt(s, p, mouse, Deserialize(s, p, mouse, setSelected).value)
  {
    DeserializeParts(s, p, mouse, setSelected);
    DeserializeCounts(s, p, mouse, setSelected);
    DeserializePlacement(s, p, mouse, setSelected);
    DeserializeFreshIds(s, p, mouse, setSelected);
  }

  /** The block phase followed by the edge phase appends items carrying exactly the next
      fresh ids: blocks and their sockets first, then edges. */
  lemma PhasesFresh(s1: Scene, p: Payload, off: Point, setSelected: bool)
    requires var rb := CreateBlocks(s1, p.blocks, map[], off, setSelected);
             CreateEdges(rb.scene, p.edges, rb.hashmap, setSelected).Success?
    ensures var rb := CreateBlocks(s1, p.blocks, map[], off, setSelected);
            var re := CreateEdges(rb.scene, p.edges, rb.hashmap, setSelected).value;
            && AppendsFresh(s1, re.scene)
            && rb.scene.nextId == s1.nextId + |BlocksIds(p.blocks)|
            && BlocksIds(re.scene.blocks[|s1.blocks|..]) == Range(s1.nextId, |BlocksIds(p.blocks)|)
  {
    var rb := CreateBlocks(s1, p.blocks, map[], off, setSelected);
    var r := CreateEdges(rb.scene, p.edges, rb.hashmap, setSelected).value.scene;
    var m := |BlocksIds(p.blocks)|;
    CreateBlocksIds(s1, p.blocks, map[], off, setSelected);
    CreateEdgesFrame(rb.scene, p.edges, rb.hashmap, setSelected);
    CreateEdgesIds(rb.scene, p.edges, rb.hashmap, setSelected);
    assert r.blocks[..|s1.blocks|] == s1.blocks;
    assert r.edges[..|s1.edges|] == s1.edges;
    RangeConcat(s1.nextId, m, |p.edges|);
  }

  /** The pasted blocks, their sockets and the pasted edges take the next fresh ids, in
      order and without gaps. */
  lemma DeserializeFreshIds(s: Scene, p: Payload, mouse: Point, setSelected: bool)
    requires Deserialize(s, p, mouse, setSelected).Success?
    ensures var s' := Deserialize(s, p, mouse, setSelected).value;
            && AppendsFresh(s, s')
            && BlocksIds(s'.blocks[|s.blocks|..]) == Range(s.nextId, |BlocksIds(p.blocks)|)
  {
    var s1 := Cleared(s, setSelected);
    var rb := BlockPhase(s, p, mouse, setSelected);
    DeserializeParts(s, p, mouse, setSelected);
    PhasesFresh(s1, p, PasteOffset(p, mouse), setSelected);
    AppendsFreshItems(s1, CreateEdges(rb.scene, p.edges, rb.hashmap, setSelected).value.scene,
                      s, Deserialize(s, p, mouse, setSelected).value);
  }


  /** Every pasted edge end is an id handed out by this paste, never an original's. */
  lemma DeserializeEndsFresh(s: Scene, p: Payload, mouse: Point, setSelected: bool)
    requires Deserialize(s, p, mouse, setSelected).Success?
    ensures var s' := Deserialize(s, p, mouse, setSelected).value;
            && |s.edges| <= |s'.edges|
            && forall e :: e in s'.edges[|s.edges|..] ==>
                 s.nextId <= e.source < s'.nextId && s.nextId <= e.destination < s'.nextId
  {
    var s1 := Cleared(s, setSelected);
    var off := PasteOffset(p, mouse);
    var rb := BlockPhase(s, p, mouse, setSelected);
    CreateBlocksMapFresh(s1, p.blocks, map[], off, setSelected, s.nextId);
    CreateBlocksIds(s1, p.blocks, map[], off, setSelected);
    CreateEdgesFresh(rb.scene, p.edges, rb.hashmap, setSelected, s.nextId);
  }

  /** The pasted edges `ne[k..]` are bound like the payload edges `pe`: an end that named
      the q-th payload block/socket id `ids[q]` is the fresh id `lo + q`. */
  predicate EndsRebound(pe: seq<Edge>, ne: seq<Edge>, k: nat, ids: seq<Id>, lo: Id)
  {
    && |ne| == k + |pe|
    && forall i, q :: 0 <= i < |pe| && 0 <= q < |ids| ==>
         (pe[i].source == ids[q] ==> ne[k + i].source == lo + q)
         && (pe[i].destination == ids[q] ==> ne[k + i].destination == lo + q)
  }

  /** The copies appended to `s` in `s'` are wired like the payload `p`: the q-th payload
      block/socket id was copied as the q-th fresh id of `s`, each appended edge end is
      the copy of the end its payload edge named, and so joins two sockets of the
      appended blocks. */
  predicate Rewired(s: Scene, p: Payload, s': Scene)
  {
    && |s.blocks| <= |s'.blocks| && |s.edges| <= |s'.edges|
    && BlocksIds(s'.blocks[|s.blocks|..]) == Range(s.nextId, |BlocksIds(p.blocks)|)
    && EndsRebound(p.edges, s'.edges, |s.edges|, BlocksIds(p.blocks), s.nextId)
    && forall e :: e in s'.edges[|s.edges|..] ==> Connects(e, SocketSet(s'.blocks[|s.blocks|..]))
  }

  /** Rebinding through copies with the same socket layout sends socket ends to socket
      ends: if every payload edge joins payload sockets, every rebound edge joins sockets
      of the copies. */
  lemma ReboundConnects(pb: seq<Block>, pe: seq<Edge>, nb: seq<Block>, ne: seq<Edge>, k: nat, lo: Id)
    requires Distinct(BlocksIds(pb))
    requires forall e :: e in pe ==> Connects(e, SocketSet(pb))
    requires |nb| == |pb|
    requires forall i :: 0 <= i < |pb| ==>
               |nb[i].socketsIn| == |pb[i].socketsIn| && |nb[i].socketsOut| == |pb[i].socketsOut|
    requires BlocksIds(nb) == Range(lo, |BlocksIds(pb)|)
    requires EndsRebound(pe, ne, k, BlocksIds(pb), lo)
    ensures forall e :: e in ne[k..] ==> Connects(e, SocketSet(nb))
  {
    var ids := BlocksIds(pb);
    forall e | e in ne[k..] ensures Connects(e, SocketSet(nb)) {
      var j :| 0 <= j < |ne[k..]| && ne[k..][j] == e;
      assert e == ne[k + j] && pe[j] in pe;
      SocketEndCopied(pb, nb, lo, pe[j].source);
      SocketEndCopied(pb, nb, lo, pe[j].destination);
    }
  }

  /** A payload socket id sits at a position whose copy is a socket of the copies. */
  lemma SocketEndCopied(pb: seq<Block>, nb: seq<Block>, lo: Id, x: Id)
    requires Distinct(BlocksIds(pb)) && x in SocketSet(pb)
    requires |nb| == |pb|
    requires forall i :: 0 <= i < |pb| ==>
               |nb[i].socketsIn| == |pb[i].socketsIn| && |nb[i].socketsOut| == |pb[i].socketsOut|
    requires BlocksIds(nb) == Range(lo, |BlocksIds(pb)|)
    ensures exists q :: 0 <= q < |BlocksIds(pb)| && BlocksIds(pb)[q] == x && lo + q in SocketSet(nb)
  {
    SocketInBlocksIds(pb, x);
    var q :| 0 <= q < |BlocksIds(pb)| && BlocksIds(pb)[q] == x;
    SocketIsSocketAt(pb, q);
    SocketAtAligned(pb, nb, q);
    SocketAtIsSocket(nb, q);
    assert BlocksIds(nb)[q] == lo + q;
  }

  /** If the block phase sent the q-th payload block/socket id to `lo + q`, and the edge
      phase resolved every end that is not an edge id through the same map, the ends are
      rebound. */
  lemma ComposeRebinds(pe: seq<Edge>, ne: seq<Edge>, k: nat, ids: seq<Id>, eids: seq<Id>,
                       hm: map<Id, Id>, lo: Id)
    requires |ne| == k + |pe|
    requires forall x :: x in ids ==> x !in eids
    requires forall q :: 0 <= q < |ids| ==> ids[q] in hm && hm[ids[q]] == lo + q
    requires forall i :: 0 <= i < |pe| ==>
               (pe[i].source !in eids ==> pe[i].source in hm && ne[k + i].source == hm[pe[i].source])
               && (pe[i].destination !in eids ==> pe[i].destination in hm && ne[k + i].destination == hm[pe[i].destination])
    ensures EndsRebound(pe, ne, k, ids, lo)
  {
    forall i, q | 0 <= i < |pe| && 0 <= q < |ids|
      ensures pe[i].source == ids[q] ==> ne[k + i].source == lo + q
      ensures pe[i].destination == ids[q] ==> ne[k + i].destination == lo + q
    {
      assert ids[q] in ids;
    }
  }

  /** The block phase followed by the edge phase, from a scene `s1` and with offset `off`,
      rebinds every edge end that named a payload block or socket, provided the block and
      socket ids repeat nothing and are no edge id. */
  lemma PhasesRebind(s1: Scene, p: Payload, off: Point, setSelected: bool)
    requires Distinct(BlocksIds(p.blocks))
    requires forall x :: x in BlocksIds(p.blocks) ==> x !in EdgesIds(p.edges)
    requires var rb := CreateBlocks(s1, p.blocks, map[], off, setSelected);
             CreateEdges(rb.scene, p.edges, rb.hashmap, setSelected).Success?
    ensures var rb := CreateBlocks(s1, p.blocks, map[], off, setSelected);
            var es := CreateEdges(rb.scene, p.edges, rb.hashmap, setSelected).value.scene.edges;
            EndsRebound(p.edges, es, |s1.edges|, BlocksIds(p.blocks), s1.nextId)
  {
    var rb := CreateBlocks(s1, p.blocks, map[], off, setSelected);
    var ids := BlocksIds(p.blocks);
    CreateBlocksRebinds(s1, p.blocks, map[], off, setSelected);
    var es := CreateEdges(rb.scene, p.edges, rb.hashmap, setSelected).value.scene.edges;
    assert |rb.scene.edges| == |s1.edges|;
    CreateEdgesResolve(rb.scene, p.edges, rb.hashmap, setSelected);
    ComposeRebinds(p.edges, es, |rb.scene.edges|, ids, EdgesIds(p.edges), rb.hashmap, s1.nextId);
  }

  /** Without repeated ids in the payload, a pasted edge end that named the q-th payload
      block/socket id is the q-th fresh id of the paste: the same socket of the copy of
      the same block. */
  lemma DeserializeRebinds(s: Scene, p: Payload, mouse: Point, setSelected: bool)
    requires Deserialize(s, p, mouse, setSelected).Success?
    requires Distinct(PayloadIds(p))
    ensures EndsRebound(p.edges, Deserialize(s, p, mouse, setSelected).value.edges, |s.edges|,
                        BlocksIds(p.blocks), s.nextId)
  {
    DeserializeParts(s, p, mouse, setSelected);
    DistinctSplit(BlocksIds(p.blocks), EdgesIds(p.edges));
    PhasesRebind(Cleared(s, setSelected), p, PasteOffset(p, mouse), setSelected);
  }



}
