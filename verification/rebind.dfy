/** Rebuilding a payload in the scene (`_deserializeData`): every block is created with a
    fresh identity first, filling the rebinding map from old ids to new ones; then every
    edge is created with a fresh identity, its ends looked up in that map. */
module Rebind {
  import opened Seqs
  import opened Graph
  import opened Scenes
  import opened Placement
  import opened Wrappers

  /** The scene being built and the rebinding map (`hashmap`) from payload ids to new ids. */
  datatype Rebuild = Rebuild(scene: Scene, hashmap: map<Id, Id>)

  /** Why a paste can fail: no blocks to centre on, or an edge end missing from the map. */
  datatype PasteError = EmptyBlocks | UnresolvedSocket(id: Id)

  /** Every value of the map lies in `[lo, hi)`. */
  predicate ValuesIn(hm: map<Id, Id>, lo: Id, hi: Id)
  {
    forall k :: k in hm ==> lo <= hm[k] < hi
  }

  /** Records `olds[i] -> news[i]` in order, a later entry overriding an earlier one. */
  function Register(hm: map<Id, Id>, olds: seq<Id>, news: seq<Id>): map<Id, Id>
    requires |olds| == |news|
    decreases |olds|
  {
    if |olds| == 0 then hm else Register(hm[olds[0] := news[0]], olds[1..], news[1..])
  }

  /** Registering adds exactly the old ids as keys, keeps the other entries, only ever
      maps to new ids, and without repeated old ids sends each to its partner. */
  lemma {:induction false} RegisterSpec(hm: map<Id, Id>, olds: seq<Id>, news: seq<Id>)
    requires |olds| == |news|
    ensures var r := Register(hm, olds, news);
            && r.Keys == hm.Keys + (set x | x in olds)
            && (forall k :: k in hm && k !in olds ==> r[k] == hm[k])
            && (forall k :: k in r ==> (k in hm && r[k] == hm[k]) || r[k] in news)
            && (Distinct(olds) ==> forall q :: 0 <= q < |olds| ==> r[olds[q]] == news[q])
    decreases |olds|
  {
    if |olds| > 0 {
      RegisterSpec(hm[olds[0] := news[0]], olds[1..], news[1..]);
      assert olds == [olds[0]] + olds[1..];
      assert news == [news[0]] + news[1..];
      DistinctCons(olds);
      assert forall q :: 1 <= q < |olds| ==> olds[q] == olds[1..][q - 1];
    }
  }

  /** The copy of `d` that `create_block` makes when it takes fresh ids from `n` on:
      the block takes `n`, its sockets the ids after it, in order. */
  function NewBlock(d: Block, n: Id, offset: Point): (nb: Block)
    ensures BlockIds(nb) == Range(n, |BlockIds(d)|)
    ensures |nb.socketsIn| == |d.socketsIn| && |nb.socketsOut| == |d.socketsOut|
    ensures nb.pos == Point(d.pos.x + offset.x, d.pos.y + offset.y)
    ensures nb.width == d.width && nb.height == d.height
  {
    var k := |d.socketsIn|;
    var l := |d.socketsOut|;
    RangeConcat(n + 1, k, l);
    RangeConcat(n, 1, k + l);
    Block(n, Point(d.pos.x + offset.x, d.pos.y + offset.y), d.width, d.height,
          Range(n + 1, k), Range(n + 1 + k, l))
  }

  /** `create_block(data, hashmap, restore_id=False)` followed by `setSelected` and
      `setPos`, taking ids from the scene's supply. */
  function CreateBlock(s: Scene, d: Block, hm: map<Id, Id>, offset: Point, setSelected: bool): Rebuild
  {
    var nb := NewBlock(d, s.nextId, offset);
    Rebuild(
      s.(blocks := s.blocks + [nb],
         selected := if setSelected then s.selected + {nb.id} else s.selected,
         nextId := s.nextId + |BlockIds(d)|),
      Register(hm, BlockIds(d), BlockIds(nb)))
  }

  /** Creates the blocks of `ds` in order, threading the scene and the map. */
  function CreateBlocks(s: Scene, ds: seq<Block>, hm: map<Id, Id>, offset: Point, setSelected: bool): (r: Rebuild)
    ensures |r.scene.blocks| == |s.blocks| + |ds| && r.scene.blocks[..|s.blocks|] == s.blocks
    ensures r.scene.edges == s.edges && r.scene.checkpoints == s.checkpoints
    decreases |ds|
  {
    if |ds| == 0 then Rebuild(s, hm)
    else
      var r1 := CreateBlock(s, ds[0], hm, offset, setSelected);
      var r := CreateBlocks(r1.scene, ds[1..], r1.hashmap, offset, setSelected);
      assert r.scene.blocks[..|s.blocks|] == r.scene.blocks[..|r1.scene.blocks|][..|s.blocks|];
      r
  }

  /** The blocks created by `CreateBlocks` are the first one's block followed by the rest's. */
  lemma CreateBlocksStep(s: Scene, ds: seq<Block>, hm: map<Id, Id>, offset: Point, setSelected: bool)
    requires |ds| > 0
    ensures var r1 := CreateBlock(s, ds[0], hm, offset, setSelected);
            var r := CreateBlocks(s, ds, hm, offset, setSelected);
            && r == CreateBlocks(r1.scene, ds[1..], r1.hashmap, offset, setSelected)
            && r.scene.blocks[|s.blocks|..]
               == [NewBlock(ds[0], s.nextId, offset)] + r.scene.blocks[|r1.scene.blocks|..]
  {
    var r1 := CreateBlock(s, ds[0], hm, offset, setSelected);
    var r := CreateBlocks(r1.scene, ds[1..], r1.hashmap, offset, setSelected);
    var xs := r.scene.blocks;
    var n := |s.blocks|;
    assert |r1.scene.blocks| == n + 1;
    assert r1.scene.blocks[n] == NewBlock(ds[0], s.nextId, offset);
    assert xs[..n + 1] == r1.scene.blocks;
    assert xs[n] == xs[..n + 1][n];
    assert xs[n..] == [xs[n]] + xs[n + 1..];
  }

  /** `nbs` are the blocks `ds` moved by `offset`, each with as many sockets as its
      original. */
  predicate LaidOut(nbs: seq<Block>, ds: seq<Block>, offset: Point)
  {
    && Translated(nbs, ds, offset)
    && forall i :: 0 <= i < |ds| ==>
         |nbs[i].socketsIn| == |ds[i].socketsIn| && |nbs[i].socketsOut| == |ds[i].socketsOut|
  }

  lemma LaidOutCons(nb: Block, rest: seq<Block>, ds: seq<Block>, offset: Point)
    requires |ds| > 0 && LaidOut(rest, ds[1..], offset)
    requires nb.pos == Point(ds[0].pos.x + offset.x, ds[0].pos.y + offset.y)
    requires nb.width == ds[0].width && nb.height == ds[0].height
    requires |nb.socketsIn| == |ds[0].socketsIn| && |nb.socketsOut| == |ds[0].socketsOut|
    ensures LaidOut([nb] + rest, ds, offset)
  {
    var nbs := [nb] + rest;
    forall i | 1 <= i < |ds|
      ensures nbs[i] == rest[i - 1] && ds[i] == ds[1..][i - 1]
    {
    }
  }

  /** The created blocks are the payload blocks moved by the one offset, with as many
      sockets. */
  lemma {:induction false} CreateBlocksLayout(s: Scene, ds: seq<Block>, hm: map<Id, Id>, offset: Point, setSelected: bool)
    ensures LaidOut(CreateBlocks(s, ds, hm, offset, setSelected).scene.blocks[|s.blocks|..], ds, offset)
    decreases |ds|
  {
    if |ds| > 0 {
      var r1 := CreateBlock(s, ds[0], hm, offset, setSelected);
      CreateBlocksStep(s, ds, hm, offset, setSelected);
      CreateBlocksLayout(r1.scene, ds[1..], r1.hashmap, offset, setSelected);
      var r := CreateBlocks(s, ds, hm, offset, setSelected);
      LaidOutCons(NewBlock(ds[0], s.nextId, offset), r.scene.blocks[|r1.scene.blocks|..], ds, offset);
    }
  }

  /** With `set_selected` exactly the created blocks join the selection. */
  lemma {:induction false} CreateBlocksSelection(s: Scene, ds: seq<Block>, hm: map<Id, Id>, offset: Point, setSelected: bool)
    ensures var r := CreateBlocks(s, ds, hm, offset, setSelected);
            r.scene.selected == if setSelected then s.selected + (set b | b in r.scene.blocks[|s.blocks|..] :: b.id) else s.selected
    decreases |ds|
  {
    if |ds| > 0 {
      var r1 := CreateBlock(s, ds[0], hm, offset, setSelected);
      CreateBlocksStep(s, ds, hm, offset, setSelected);
      CreateBlocksSelection(r1.scene, ds[1..], r1.hashmap, offset, setSelected);
    }
  }

  /** Each created block is its payload block moved by `offset`, with as many sockets,
      and with `set_selected` exactly the created blocks join the selection. */
  lemma CreateBlocksShape(s: Scene, ds: seq<Block>, hm: map<Id, Id>, offset: Point, setSelected: bool)
    ensures var r := CreateBlocks(s, ds, hm, offset, setSelected);
            var nbs := r.scene.blocks[|s.blocks|..];
            && Translated(nbs, ds, offset)
            && (forall i :: 0 <= i < |ds| ==>
                  |nbs[i].socketsIn| == |ds[i].socketsIn| && |nbs[i].socketsOut| == |ds[i].socketsOut|)
            && r.scene.selected == if setSelected then s.selected + (set b | b in nbs :: b.id) else s.selected
  {
    CreateBlocksLayout(s, ds, hm, offset, setSelected);
    CreateBlocksSelection(s, ds, hm, offset, setSelected);
  }


  /** The created blocks carry exactly the next `|BlocksIds(ds)|` fresh ids, in order. */
  lemma {:induction false} CreateBlocksIds(s: Scene, ds: seq<Block>, hm: map<Id, Id>, offset: Point, setSelected: bool)
    ensures var r := CreateBlocks(s, ds, hm, offset, setSelected);
            && r.scene.nextId == s.nextId + |BlocksIds(ds)|
            && BlocksIds(r.scene.blocks[|s.blocks|..]) == Range(s.nextId, |BlocksIds(ds)|)
    decreases |ds|
  {
    var r := CreateBlocks(s, ds, hm, offset, setSelected);
    if |ds| == 0 {
      assert r.scene.blocks[|s.blocks|..] == [];
    } else {
      var r1 := CreateBlock(s, ds[0], hm, offset, setSelected);
      CreateBlocksStep(s, ds, hm, offset, setSelected);
      CreateBlocksIds(r1.scene, ds[1..], r1.hashmap, offset, setSelected);
      var nb := NewBlock(ds[0], s.nextId, offset);
      var rest := r.scene.blocks[|r1.scene.blocks|..];
      var nbs := r.scene.blocks[|s.blocks|..];
      assert nbs == [nb] + rest;
      assert BlocksIds(nbs) == BlockIds(nb) + BlocksIds(rest) by {
        assert nbs[0] == nb && nbs[1..] == rest;
      }
      var m := |BlockIds(ds[0])|;
      assert BlocksIds(ds) == BlockIds(ds[0]) + BlocksIds(ds[1..]);
      assert r1.scene.nextId == s.nextId + m;
      assert BlockIds(nb) == Range(s.nextId, m);
      assert BlocksIds(rest) == Range(s.nextId + m, |BlocksIds(ds[1..])|);
      RangeConcat(s.nextId, m, |BlocksIds(ds[1..])|);
      assert BlocksIds(nbs) == Range(s.nextId, m + |BlocksIds(ds[1..])|);
      assert |BlocksIds(ds)| == m + |BlocksIds(ds[1..])|;
    }
  }

  /** Once every block is created the rebinding map holds the payload's block and socket
      ids as new keys and keeps every older entry not overridden. */
  lemma {:induction false} CreateBlocksMapKeys(s: Scene, ds: seq<Block>, hm: map<Id, Id>, offset: Point, setSelected: bool)
    ensures var r := CreateBlocks(s, ds, hm, offset, setSelected);
            && r.hashmap.Keys == hm.Keys + (set x | x in BlocksIds(ds))
            && (forall k :: k in hm && k !in BlocksIds(ds) ==> r.hashmap[k] == hm[k])
    decreases |ds|
  {
    if |ds| > 0 {
      var r1 := CreateBlock(s, ds[0], hm, offset, setSelected);
      CreateBlocksStep(s, ds, hm, offset, setSelected);
      CreateBlocksMapKeys(r1.scene, ds[1..], r1.hashmap, offset, setSelected);
      RegisterSpec(hm, BlockIds(ds[0]), BlockIds(NewBlock(ds[0], s.nextId, offset)));
      assert BlocksIds(ds) == BlockIds(ds[0]) + BlocksIds(ds[1..]);
    }
  }

  /** Every id the rebinding map hands out while creating blocks is a fresh one. */
  lemma {:induction false} CreateBlocksMapFresh(s: Scene, ds: seq<Block>, hm: map<Id, Id>, offset: Point, setSelected: bool, lo: Id)
    requires lo <= s.nextId && ValuesIn(hm, lo, s.nextId)
    ensures var r := CreateBlocks(s, ds, hm, offset, setSelected);
            ValuesIn(r.hashmap, lo, r.scene.nextId)
    decreases |ds|
  {
    if |ds| > 0 {
      var r1 := CreateBlock(s, ds[0], hm, offset, setSelected);
      CreateBlocksStep(s, ds, hm, offset, setSelected);
      var nb := NewBlock(ds[0], s.nextId, offset);
      RegisterSpec(hm, BlockIds(ds[0]), BlockIds(nb));
      assert ValuesIn(r1.hashmap, lo, r1.scene.nextId);
      CreateBlocksMapFresh(r1.scene, ds[1..], r1.hashmap, offset, setSelected, lo);
    }
  }

  /** Without repeated ids in the payload blocks, the rebinding map sends the `q`-th id of
      the payload blocks to the `q`-th fresh id, the `q`-th id of the created blocks. */
  lemma {:induction false} CreateBlocksRebinds(s: Scene, ds: seq<Block>, hm: map<Id, Id>, offset: Point, setSelected: bool)
    requires Distinct(BlocksIds(ds))
    ensures var r := CreateBlocks(s, ds, hm, offset, setSelected);
            forall q :: 0 <= q < |BlocksIds(ds)| ==> BlocksIds(ds)[q] in r.hashmap && r.hashmap[BlocksIds(ds)[q]] == s.nextId + q
    decreases |ds|
  {
    if |ds| > 0 {
      var r1 := CreateBlock(s, ds[0], hm, offset, setSelected);
      var r := CreateBlocks(s, ds, hm, offset, setSelected);
      CreateBlocksStep(s, ds, hm, offset, setSelected);
      var a := BlockIds(ds[0]);
      var b := BlocksIds(ds[1..]);
      assert BlocksIds(ds) == a + b;
      DistinctConcat(a, b);
      var nb := NewBlock(ds[0], s.nextId, offset);
      assert r == CreateBlocks(r1.scene, ds[1..], r1.hashmap, offset, setSelected);
      assert r1.scene.nextId == s.nextId + |a|;
      forall q | 0 <= q < |a + b|
        ensures (a + b)[q] in r.hashmap && r.hashmap[(a + b)[q]] == s.nextId + q
      {
        if q < |a| {
          assert (a + b)[q] == a[q];
          assert a[q] !in b;
          assert a[q] in r1.hashmap && r1.hashmap[a[q]] == s.nextId + q by {
            RegisterSpec(hm, a, BlockIds(nb));
          }
          CreateBlocksMapKeys(r1.scene, ds[1..], r1.hashmap, offset, setSelected);
        } else {
          assert (a + b)[q] == b[q - |a|];
          CreateBlocksRebinds(r1.scene, ds[1..], r1.hashmap, offset, setSelected);
        }
      }
    }
  }

  /** `Edge()` then `deserialize(edge_data, hashmap, restore_id=False)`, `addItem` and the
      map update: the edge takes the next fresh id and its ends are looked up in the map. */
  function CreateEdge(s: Scene, ed: Edge, hm: map<Id, Id>, setSelected: bool): (r: Result<Rebuild, PasteError>)
    ensures r.Success? <==> ed.source in hm && ed.destination in hm
    ensures r.Failure? ==> r.error == UnresolvedSocket(if ed.source !in hm then ed.source else ed.destination)
  {
    if ed.source !in hm then Failure(UnresolvedSocket(ed.source))
    else if ed.destination !in hm then Failure(UnresolvedSocket(ed.destination))
    else
      var ne := Edge(s.nextId, hm[ed.source], hm[ed.destination]);
      Success(Rebuild(
        s.(edges := s.edges + [ne],
           selected := if setSelected then s.selected + {ne.id} else s.selected,
           nextId := s.nextId + 1),
        hm[ed.id := ne.id]))
  }

  /** Creates the edges of `es` in order; the first unresolved end aborts the paste. */
  function CreateEdges(s: Scene, es: seq<Edge>, hm: map<Id, Id>, setSelected: bool): (r: Result<Rebuild, PasteError>)
    decreases |es|
  {
    if |es| == 0 then Success(Rebuild(s, hm))
    else
      match CreateEdge(s, es[0], hm, setSelected)
      case Failure(e) => Failure(e)
      case Success(r1) => CreateEdges(r1.scene, es[1..], r1.hashmap, setSelected)
  }

  /** A successful run of `CreateEdges` starts with a successful `CreateEdge` of the first
      edge; the created edges are that edge followed by the rest's. */
  lemma CreateEdgesStep(s: Scene, es: seq<Edge>, hm: map<Id, Id>, setSelected: bool)
    requires |es| > 0 && CreateEdges(s, es, hm, setSelected).Success?
    ensures CreateEdge(s, es[0], hm, setSelected).Success?
    ensures var r1 := CreateEdge(s, es[0], hm, setSelected).value;
            var r := CreateEdges(s, es, hm, setSelected);
            && r == CreateEdges(r1.scene, es[1..], r1.hashmap, setSelected)
            && |r1.scene.edges| == |s.edges| + 1
            && r1.scene.edges[..|s.edges|] == s.edges
            && r1.scene.edges[|s.edges|] == Edge(s.nextId, hm[es[0].source], hm[es[0].destination])
  {
  }

  /** The edges all created successfully keep the blocks and the checkpoints, append one
      edge per payload edge after the existing ones, and use up one id per edge. */
  lemma {:induction false} CreateEdgesFrame(s: Scene, es: seq<Edge>, hm: map<Id, Id>, setSelected: bool)
    requires CreateEdges(s, es, hm, setSelected).Success?
    ensures var r := CreateEdges(s, es, hm, setSelected).value.scene;
            && r.blocks == s.blocks && r.checkpoints == s.checkpoints
            && |r.edges| == |s.edges| + |es| && r.edges[..|s.edges|] == s.edges
            && r.nextId == s.nextId + |es|
    decreases |es|
  {
    if |es| > 0 {
      CreateEdgesStep(s, es, hm, setSelected);
      var r1 := CreateEdge(s, es[0], hm, setSelected).value;
      CreateEdgesFrame(r1.scene, es[1..], r1.hashmap, setSelected);
      var xs := CreateEdges(s, es, hm, setSelected).value.scene.edges;
      assert xs[..|s.edges|] == xs[..|s.edges| + 1][..|s.edges|];
    }
  }

  /** The appended edges take the next fresh ids, in order. */
  lemma {:induction false} CreateEdgesIds(s: Scene, es: seq<Edge>, hm: map<Id, Id>, setSelected: bool)
    requires CreateEdges(s, es, hm, setSelected).Success?
    ensures var r := CreateEdges(s, es, hm, setSelected).value.scene;
            |s.edges| <= |r.edges| && EdgesIds(r.edges[|s.edges|..]) == Range(s.nextId, |es|)
    decreases |es|
  {
    var xs := CreateEdges(s, es, hm, setSelected).value.scene.edges;
    CreateEdgesFrame(s, es, hm, setSelected);
    if |es| == 0 {
      assert xs[|s.edges|..] == [];
    } else {
      CreateEdgesStep(s, es, hm, setSelected);
      var r1 := CreateEdge(s, es[0], hm, setSelected).value;
      CreateEdgesIds(r1.scene, es[1..], r1.hashmap, setSelected);
      var n := |s.edges|;
      assert EdgesIds(xs[n..]) == [s.nextId] + EdgesIds(xs[n + 1..]) by {
        CreateEdgesFrame(r1.scene, es[1..], r1.hashmap, setSelected);
        assert xs[n] == xs[..n + 1][n];
        assert xs[n..][0] == xs[n] && xs[n..][1..] == xs[n + 1..];
      }
      RangeConcat(s.nextId, 1, |es| - 1);
    }
  }

  /** With `set_selected` exactly the appended edges join the selection. */
  lemma {:induction false} CreateEdgesSelection(s: Scene, es: seq<Edge>, hm: map<Id, Id>, setSelected: bool)
    requires CreateEdges(s, es, hm, setSelected).Success?
    ensures var r := CreateEdges(s, es, hm, setSelected).value.scene;
            && |s.edges| <= |r.edges|
            && r.selected == if setSelected then s.selected + (set e | e in r.edges[|s.edges|..] :: e.id) else s.selected
    decreases |es|
  {
    var xs := CreateEdges(s, es, hm, setSelected).value.scene.edges;
    CreateEdgesFrame(s, es, hm, setSelected);
    if |es| == 0 {
      assert xs[|s.edges|..] == [];
    } else {
      CreateEdgesStep(s, es, hm, setSelected);
      var r1 := CreateEdge(s, es[0], hm, setSelected).value;
      CreateEdgesSelection(r1.scene, es[1..], r1.hashmap, setSelected);
      var n := |s.edges|;
      assert xs[n..] == [xs[n]] + xs[n + 1..] && xs[n].id == s.nextId by {
        CreateEdgesFrame(r1.scene, es[1..], r1.hashmap, setSelected);
        assert xs[n] == xs[..n + 1][n];
      }
    }
  }

  /** The edges all created successfully keep the blocks, append one edge per payload edge
      with the next fresh ids in order, and select exactly the new edges with `set_selected`. */
  lemma CreateEdgesShape(s: Scene, es: seq<Edge>, hm: map<Id, Id>, setSelected: bool)
    requires CreateEdges(s, es, hm, setSelected).Success?
    ensures var r := CreateEdges(s, es, hm, setSelected).value.scene;
            && r.blocks == s.blocks && r.checkpoints == s.checkpoints
            && |r.edges| == |s.edges| + |es| && r.edges[..|s.edges|] == s.edges
            && r.nextId == s.nextId + |es|
            && EdgesIds(r.edges[|s.edges|..]) == Range(s.nextId, |es|)
            && r.selected == if setSelected then s.selected + (set e | e in r.edges[|s.edges|..] :: e.id) else s.selected
  {
    CreateEdgesFrame(s, es, hm, setSelected);
    CreateEdgesIds(s, es, hm, setSelected);
    CreateEdgesSelection(s, es, hm, setSelected);
  }


  /** When every payload edge's ends are already keys of the map, creating edges succeeds. */
  lemma {:induction false} CreateEdgesSucceeds(s: Scene, es: seq<Edge>, hm: map<Id, Id>, setSelected: bool)
    requires forall e :: e in es ==> e.source in hm && e.destination in hm
    ensures CreateEdges(s, es, hm, setSelected).Success?
    decreases |es|
  {
    if |es| > 0 {
      var r1 := CreateEdge(s, es[0], hm, setSelected).value;
      assert forall e :: e in es[1..] ==> e in es;
      CreateEdgesSucceeds(r1.scene, es[1..], r1.hashmap, setSelected);
    }
  }

  /** An edge end that is neither a key of the map nor the id of any payload edge can never
      be resolved, and the paste fails. */
  lemma {:induction false} CreateEdgesFails(s: Scene, es: seq<Edge>, hm: map<Id, Id>, setSelected: bool, i: nat, x: Id)
    requires i < |es| && (x == es[i].source || x == es[i].destination)
    requires x !in hm && x !in EdgesIds(es)
    ensures CreateEdges(s, es, hm, setSelected).Failure?
    decreases |es|
  {
    if i > 0 && CreateEdge(s, es[0], hm, setSelected).Success? {
      var r1 := CreateEdge(s, es[0], hm, setSelected).value;
      assert EdgesIds(es) == [es[0].id] + EdgesIds(es[1..]);
      assert es[1..][i - 1] == es[i];
      CreateEdgesFails(r1.scene, es[1..], r1.hashmap, setSelected, i - 1, x);
    }
  }

  /** Every created edge's ends are ids the map handed out, so with a map of fresh values
      they are fresh ids and never an original's. */
  lemma {:induction false} CreateEdgesFresh(s: Scene, es: seq<Edge>, hm: map<Id, Id>, setSelected: bool, lo: Id)
    requires CreateEdges(s, es, hm, setSelected).Success?
    requires lo <= s.nextId && ValuesIn(hm, lo, s.nextId)
    ensures var r := CreateEdges(s, es, hm, setSelected).value.scene;
            |s.edges| <= |r.edges|
            && forall e :: e in r.edges[|s.edges|..] ==>
              lo <= e.source < r.nextId && lo <= e.destination < r.nextId
    decreases |es|
  {
    if |es| > 0 {
      CreateEdgesStep(s, es, hm, setSelected);
      var r1 := CreateEdge(s, es[0], hm, setSelected).value;
      CreateEdgesFresh(r1.scene, es[1..], r1.hashmap, setSelected, lo);
      CreateEdgesShape(r1.scene, es[1..], r1.hashmap, setSelected);
      var r := CreateEdges(s, es, hm, setSelected).value.scene;
      var n := |s.edges|;
      var xs := r.edges;
      assert xs[..n + 1] == r1.scene.edges;
      assert xs[n] == xs[..n + 1][n];
      assert xs[n..] == [xs[n]] + xs[n + 1..];
    }
  }

  /** A payload edge end that is not itself a payload edge id resolves to what the map
      held for it before any edge was created. */
  lemma {:induction false} CreateEdgesResolve(s: Scene, es: seq<Edge>, hm: map<Id, Id>, setSelected: bool)
    requires CreateEdges(s, es, hm, setSelected).Success?
    ensures var r := CreateEdges(s, es, hm, setSelected).value.scene;
            |r.edges| == |s.edges| + |es|
            && forall i :: 0 <= i < |es| ==>
                 (es[i].source !in EdgesIds(es) ==>
                    es[i].source in hm && r.edges[|s.edges| + i].source == hm[es[i].source])
                 && (es[i].destination !in EdgesIds(es) ==>
                    es[i].destination in hm && r.edges[|s.edges| + i].destination == hm[es[i].destination])
    decreases |es|
  {
    CreateEdgesShape(s, es, hm, setSelected);
    if |es| > 0 {
      CreateEdgesStep(s, es, hm, setSelected);
      var r1 := CreateEdge(s, es[0], hm, setSelected).value;
      CreateEdgesResolve(r1.scene, es[1..], r1.hashmap, setSelected);
      CreateEdgesShape(r1.scene, es[1..], r1.hashmap, setSelected);
      var r := CreateEdges(s, es, hm, setSelected).value.scene;
      var n := |s.edges|;
      assert EdgesIds(es) == [es[0].id] + EdgesIds(es[1..]);
      assert r.edges[..n + 1] == r1.scene.edges;
      assert r.edges[n] == r.edges[..n + 1][n];
      assert forall i :: 1 <= i < |es| ==> es[i] == es[1..][i - 1];
    }
  }
}
