/** The part of the scene the clipboard talks to: its blocks and edges in scene order,
    the current selection, a supply of fresh ids and the history checkpoints taken. */
module Scenes {
  import opened Seqs
  import opened Graph

  /** `nextId` is the next fresh identity; `checkpoints` counts history checkpoints. */
  datatype Scene = Scene(
    blocks: seq<Block>,
    edges: seq<Edge>,
    selected: set<Id>,
    nextId: Id,
    checkpoints: nat)

  function SceneIds(s: Scene): seq<Id>
  {
    BlocksIds(s.blocks) + EdgesIds(s.edges)
  }

  /** Every id in the scene is unique and was drawn from the fresh-id supply. */
  predicate SceneValid(s: Scene)
  {
    Distinct(SceneIds(s)) && Below(SceneIds(s), s.nextId)
  }

  /** The selected blocks, in scene order (`sortedSelectedItems`). */
  function SelectedBlocks(s: Scene): (r: seq<Block>)
    ensures forall b :: b in r <==> b in s.blocks && b.id in s.selected
    ensures Subseq(r, s.blocks)
  {
    Keep(s.blocks, (b: Block) => b.id in s.selected)
  }

  /** The selected edges, in scene order (`sortedSelectedItems`). */
  function SelectedEdges(s: Scene): (r: seq<Edge>)
    ensures forall e :: e in r <==> e in s.edges && e.id in s.selected
    ensures Subseq(r, s.edges)
  {
    Keep(s.edges, (e: Edge) => e.id in s.selected)
  }

  /** `deleteSelected`: the selected items leave the scene, everything else stays. */
  function DeleteSelected(s: Scene): (r: Scene)
    ensures forall b :: b in r.blocks <==> b in s.blocks && b.id !in s.selected
    ensures forall e :: e in r.edges <==> e in s.edges && e.id !in s.selected
    ensures Subseq(r.blocks, s.blocks) && Subseq(r.edges, s.edges)
    ensures r.selected == {} && r.nextId == s.nextId && r.checkpoints == s.checkpoints
  {
    Scene(
      Keep(s.blocks, (b: Block) => b.id !in s.selected),
      Keep(s.edges, (e: Edge) => e.id !in s.selected),
      {}, s.nextId, s.checkpoints)
  }

  /** Ids drawn from a subsequence of the scene's blocks and edges are a subsequence of the scene's ids. */
  lemma IdsOfSubseq(s: Scene, bs: seq<Block>, es: seq<Edge>)
    requires Subseq(bs, s.blocks) && Subseq(es, s.edges)
    ensures Subseq(BlocksIds(bs) + EdgesIds(es), SceneIds(s))
  {
    FlatMapSubseq(bs, s.blocks, BlockIds);
    FlatMapSubseq(es, s.edges, EdgeIds);
    SubseqConcat(BlocksIds(bs), BlocksIds(s.blocks), EdgesIds(es), EdgesIds(s.edges));
  }

  /** Removing items keeps ids unique and drawn from the supply. */
  lemma DeleteSelectedValid(s: Scene)
    requires SceneValid(s)
    ensures SceneValid(DeleteSelected(s))
  {
    var r := DeleteSelected(s);
    IdsOfSubseq(s, r.blocks, r.edges);
    DistinctSubseq(SceneIds(r), SceneIds(s));
    SubseqMembers(SceneIds(r), SceneIds(s));
  }

  /** The ids of the blocks, sockets and edges `s'` holds after the items of `s`. */
  function AddedIds(s: Scene, s': Scene): seq<Id>
    requires |s.blocks| <= |s'.blocks| && |s.edges| <= |s'.edges|
  {
    BlocksIds(s'.blocks[|s.blocks|..]) + EdgesIds(s'.edges[|s.edges|..])
  }

  /** `s'` is `s` with blocks and edges appended after the existing ones, the appended
      blocks, their sockets and the appended edges carrying exactly the ids the supply
      handed out meanwhile, in order. */
  predicate AppendsFresh(s: Scene, s': Scene)
  {
    && s.nextId <= s'.nextId
    && |s.blocks| <= |s'.blocks| && s'.blocks[..|s.blocks|] == s.blocks
    && |s.edges| <= |s'.edges| && s'.edges[..|s.edges|] == s.edges
    && AddedIds(s, s') == Range(s.nextId, s'.nextId - s.nextId)
  }

  /** Items added by a later growth carry larger ids than items added by an earlier one. */
  lemma AddedIdsIncrease(s0: Scene, s1: Scene, s2: Scene)
    requires AppendsFresh(s0, s1) && AppendsFresh(s1, s2)
    ensures forall x, y :: x in AddedIds(s0, s1) && y in AddedIds(s1, s2) ==> x < y
  {
    RangeMembers(s0.nextId, s1.nextId - s0.nextId);
    RangeMembers(s1.nextId, s2.nextId - s1.nextId);
  }

  /** `AppendsFresh` looks only at the items and the id supply, not at the selection or
      the checkpoints. */
  lemma AppendsFreshItems(s1: Scene, r: Scene, s: Scene, s': Scene)
    requires s1.blocks == s.blocks && s1.edges == s.edges && s1.nextId == s.nextId
    requires r.blocks == s'.blocks && r.edges == s'.edges && r.nextId == s'.nextId
    requires AppendsFresh(s1, r)
    ensures AppendsFresh(s, s')
  {
  }

  /** Adding blocks and edges that carry exactly the next fresh ids keeps ids unique and
      drawn from the supply. */
  lemma AddFreshValid(s: Scene, s': Scene)
    requires SceneValid(s) && AppendsFresh(s, s')
    ensures SceneValid(s')
  {
    var nb := s'.blocks[|s.blocks|..];
    var ne := s'.edges[|s.edges|..];
    SceneIdsAppended(s, s');
    DistinctFreshMerge(BlocksIds(s.blocks), BlocksIds(nb), EdgesIds(s.edges), EdgesIds(ne), s.nextId, s'.nextId);
  }

  /** The ids of a scene grown at the end are the old block ids, the new block ids, the
      old edge ids and the new edge ids, in that order. */
  lemma SceneIdsAppended(s: Scene, s': Scene)
    requires |s.blocks| <= |s'.blocks| && s'.blocks[..|s.blocks|] == s.blocks
    requires |s.edges| <= |s'.edges| && s'.edges[..|s.edges|] == s.edges
    ensures SceneIds(s') == BlocksIds(s.blocks) + BlocksIds(s'.blocks[|s.blocks|..])
                            + EdgesIds(s.edges) + EdgesIds(s'.edges[|s.edges|..])
  {
    var nb := s'.blocks[|s.blocks|..];
    var ne := s'.edges[|s.edges|..];
    assert s'.blocks == s.blocks + nb;
    assert s'.edges == s.edges + ne;
    FlatMapConcat(s.blocks, nb, BlockIds);
    FlatMapConcat(s.edges, ne, EdgeIds);
  }

}
