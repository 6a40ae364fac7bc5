/** The clipboard of a scene (`SceneClipboard`): one slot holding the last payload cut or
    copied, and the cut, copy and paste operations over it. */
module SceneClipboard {
  import opened Seqs
  import opened Graph
  import opened Scenes
  import opened Snapshots
  import opened Placement
  import opened Rebind
  import opened Deserialization
  import opened Wrappers

  /** The scene the clipboard serves and the clipboard slot (`objects`). */
  datatype Clipboard = Clipboard(scene: Scene, objects: Option<Payload>)

  /** `_store`: a payload without blocks empties the slot, any other replaces it whole. */
  function Store(p: Payload): (slot: Option<Payload>)
    ensures slot.None? <==> |p.blocks| == 0
    ensures slot.Some? ==> slot.value == p
  {
    if |p.blocks| == 0 then None else Some(p)
  }

  /** `_gatherData`: the slot's content, left in place. */
  function Gather(c: Clipboard): Option<Payload>
  {
    c.objects
  }

  /** `_serializeSelected`: the snapshot of the scene's current selection. */
  function SerializeSelected(s: Scene): (p: Payload)
    ensures p.blocks == SelectedBlocks(s)
    ensures WellFormed(p)
    ensures forall e :: e in p.edges <==>
              e in s.edges && e.id in s.selected && Connects(e, SocketSet(p.blocks))
    ensures Subseq(p.blocks, s.blocks) && Subseq(p.edges, s.edges)
  {
    var p := Snapshot(SelectedBlocks(s), SelectedEdges(s));
    SubseqTrans(p.edges, SelectedEdges(s), s.edges);
    p
  }

  /** `cut`: snapshot and store the selection, then delete the selected items. The
      deletion happens whether or not the slot accepted the payload. */
  function Cut(c: Clipboard): (r: Clipboard)
    ensures r.objects.None? <==> SelectedBlocks(c.scene) == []
    ensures r.objects.Some? ==> r.objects.value == SerializeSelected(c.scene)
    ensures forall b :: b in r.scene.blocks <==> b in c.scene.blocks && b.id !in c.scene.selected
    ensures forall e :: e in r.scene.edges <==> e in c.scene.edges && e.id !in c.scene.selected
  {
    Clipboard(DeleteSelected(c.scene), Store(SerializeSelected(c.scene)))
  }

  /** `copy`: snapshot and store the selection; the scene is untouched. */
  function Copy(c: Clipboard): (r: Clipboard)
    ensures r.scene == c.scene
    ensures r.objects.None? <==> SelectedBlocks(c.scene) == []
    ensures r.objects.Some? ==> r.objects.value == SerializeSelected(c.scene)
  {
    Clipboard(c.scene, Store(SerializeSelected(c.scene)))
  }

  /** `paste` at the view's last mouse position: an empty slot changes nothing, otherwise
      the payload is rebuilt in the scene and stays in the slot. */
  function Paste(c: Clipboard, mouse: Point): (r: Result<Clipboard, PasteError>)
    ensures c.objects.None? ==> r == Success(c)
    ensures r.Success? ==> r.value.objects == c.objects
  {
    match Gather(c)
    case None => Success(c)
    case Some(p) =>
      match Deserialize(c.scene, p, mouse, true)
      case Failure(e) => Failure(e)
      case Success(s') => Success(Clipboard(s', c.objects))
  }

  /** A payload the slot may hold against a scene whose next fresh id is `n`. */
  predicate PayloadValid(p: Payload, n: Id)
  {
    |p.blocks| > 0 && WellFormed(p) && Distinct(PayloadIds(p)) && Below(PayloadIds(p), n)
  }

  /** Scene ids are unique and drawn from the fresh-id supply, and a stored payload is non-empty, has no
      dangling edge, repeats no id and only holds ids drawn before. */
  predicate Valid(c: Clipboard)
  {
    SceneValid(c.scene) && (c.objects.Some? ==> PayloadValid(c.objects.value, c.scene.nextId))
  }

  /** The snapshot of a valid scene is a payload the slot may hold, if it has blocks. */
  lemma SnapshotValid(s: Scene)
    requires SceneValid(s)
    ensures var p := SerializeSelected(s);
            |p.blocks| > 0 ==> PayloadValid(p, s.nextId)
  {
    var p := SerializeSelected(s);
    IdsOfSubseq(s, p.blocks, p.edges);
    DistinctSubseq(PayloadIds(p), SceneIds(s));
    SubseqMembers(PayloadIds(p), SceneIds(s));
  }

  lemma CopyValid(c: Clipboard)
    requires Valid(c)
    ensures Valid(Copy(c))
  {
    SnapshotValid(c.scene);
  }

  lemma CutValid(c: Clipboard)
    requires Valid(c)
    ensures Valid(Cut(c))
  {
    SnapshotValid(c.scene);
    DeleteSelectedValid(c.scene);
  }

  /** On a valid clipboard paste never fails, and the clipboard stays valid. */
  lemma PasteValid(c: Clipboard, mouse: Point)
    requires Valid(c)
    ensures Paste(c, mouse).Success?
    ensures Valid(Paste(c, mouse).value)
  {
    if c.objects.Some? {
      var s := c.scene;
      var p := c.objects.value;
      DeserializeSucceeds(s, p, mouse, true);
      DeserializeCounts(s, p, mouse, true);
      DeserializeFreshIds(s, p, mouse, true);
      AddFreshValid(s, Deserialize(s, p, mouse, true).value);
    }
  }

  /** The ids one paste from a valid clipboard hands out repeat nothing: not each other,
      not the scene's, not the payload's; and no pasted edge touches an original item. */
  lemma PasteFreshIdentities(c: Clipboard, mouse: Point)
    requires Valid(c) && c.objects.Some?
    ensures Paste(c, mouse).Success?
    ensures var s := c.scene;
            var s' := Paste(c, mouse).value.scene;
            |s.blocks| <= |s'.blocks| && |s.edges| <= |s'.edges| &&
            var newIds := AddedIds(s, s');
            && Distinct(newIds)
            && (forall x :: x in newIds ==> x !in SceneIds(s) && x !in PayloadIds(c.objects.value))
            && (forall e :: e in s'.edges[|s.edges|..] ==>
                  && e.source !in SceneIds(s) && e.destination !in SceneIds(s)
                  && e.source !in PayloadIds(c.objects.value) && e.destination !in PayloadIds(c.objects.value))
  {
    var s := c.scene;
    var p := c.objects.value;
    PasteValid(c, mouse);
    DeserializeFreshIds(s, p, mouse, true);
    DeserializeEndsFresh(s, p, mouse, true);
    var s' := Deserialize(s, p, mouse, true).value;
    RangeDistinct(s.nextId, s'.nextId - s.nextId);
  }

  /** Pasting from a valid clipboard binds every pasted edge end to the copy of the socket
      the payload edge was attached to: every payload edge end is a payload socket, the
      q-th payload block/socket id is copied as the q-th fresh id of the paste, the pasted
      end that named it is that fresh id, and it is a socket of the pasted blocks. */
  lemma PasteRebindsEnds(c: Clipboard, mouse: Point)
    requires Valid(c) && c.objects.Some?
    ensures Paste(c, mouse).Success?
    ensures var p := c.objects.value;
            var s := c.scene;
            var s' := Paste(c, mouse).value.scene;
            && (forall e :: e in p.edges ==> Connects(e, SocketSet(p.blocks)))
            && (forall e :: e in p.edges ==> e.source in BlocksIds(p.blocks) && e.destination in BlocksIds(p.blocks))
            && Rewired(s, p, s')
  {
    var p := c.objects.value;
    var s := c.scene;
    PasteValid(c, mouse);
    DeserializeFreshIds(s, p, mouse, true);
    DeserializeRebinds(s, p, mouse, true);
    DeserializePlacement(s, p, mouse, true);
    var s' := Paste(c, mouse).value.scene;
    DistinctSplit(BlocksIds(p.blocks), EdgesIds(p.edges));
    ReboundConnects(p.blocks, p.edges, s'.blocks[|s.blocks|..], s'.edges, |s.edges|, s.nextId);
    forall e | e in p.edges
      ensures e.source in BlocksIds(p.blocks) && e.destination in BlocksIds(p.blocks)
    {
      SocketInBlocksIds(p.blocks, e.source);
      SocketInBlocksIds(p.blocks, e.destination);
    }
  }


  /** Pasting twice from a valid clipboard pastes the same payload twice: the slot is
      unchanged, each paste appends a copy of the payload laid out as the payload and
      centred on its own mouse position, with its edges wired between the copied sockets
      as in the payload; the two copies share no id, and with the counter as id supply
      the second copy's ids are all larger than the first's. */
  lemma RepeatedPaste(c: Clipboard, m1: Point, m2: Point)
    requires Valid(c) && c.objects.Some?
    ensures Paste(c, m1).Success? && Paste(Paste(c, m1).value, m2).Success?
    ensures var p := c.objects.value;
            var s0 := c.scene;
            var s1 := Paste(c, m1).value.scene;
            var c2 := Paste(Paste(c, m1).value, m2).value;
            var s2 := c2.scene;
            && c2.objects == c.objects
            && PastedAt(s0, p, m1, s1) && PastedAt(s1, p, m2, s2)
            && Rewired(s0, p, s1) && Rewired(s1, p, s2)
            && (forall x :: x in AddedIds(s0, s1) ==> x !in AddedIds(s1, s2))
            && forall x, y :: x in AddedIds(s0, s1) && y in AddedIds(s1, s2) ==> x < y
  {
    var p := c.objects.value;
    PasteValid(c, m1);
    var c1 := Paste(c, m1).value;
    PasteValid(c1, m2);
    var c2 := Paste(c1, m2).value;
    DeserializePasted(c.scene, p, m1, true);
    DeserializePasted(c1.scene, p, m2, true);
    AddedIdsIncrease(c.scene, c1.scene, c2.scene);
    PasteRebindsEnds(c, m1);
    PasteRebindsEnds(c1, m2);
  }

}
