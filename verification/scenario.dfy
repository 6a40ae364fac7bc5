/** A worked example on the model: two 10 by 10 blocks at (0, 0) and (20, 20) joined by
    one edge are cut, then pasted with the mouse at (100, 100). */
module Scenarios {
  import opened Seqs
  import opened Graph
  import opened Scenes
  import opened Placement
  import opened Rebind
  import opened Deserialization
  import opened SceneClipboard
  import opened Wrappers

  /** The two blocks, with sockets 2, 3 and 5, 6, and the edge from socket 3 to socket 5. */
  function B1(): Block { Block(1, Point(0.0, 0.0), 10.0, 10.0, [2], [3]) }
  function B2(): Block { Block(4, Point(20.0, 20.0), 10.0, 10.0, [5], [6]) }
  function E(): Edge { Edge(7, 3, 5) }

  /** Cutting the whole selection stores both blocks and the edge and empties the scene. */
  lemma ScenarioCut()
    ensures var cut := Cut(Clipboard(Scene([B1(), B2()], [E()], {1, 4, 7}, 8, 0), None));
            && cut.objects == Some(Payload([B1(), B2()], [E()]))
            && cut.scene == Scene([], [], {}, 8, 0)
  {
    var s := Scene([B1(), B2()], [E()], {1, 4, 7}, 8, 0);
    assert SelectedBlocks(s) == [B1(), B2()];
    assert SelectedEdges(s) == [E()];
    assert B1() in [B1(), B2()] && 3 in Sockets(B1());
    assert B2() in [B1(), B2()] && 5 in Sockets(B2());
    assert SerializeSelected(s) == Payload([B1(), B2()], [E()]);
    assert DeleteSelected(s).blocks == [];
    assert DeleteSelected(s).edges == [];
  }

  /** The bounding box spans (0, 0) to (30, 30). */
  lemma ScenarioCenter()
    ensures BBoxCenter([B1(), B2()]) == Point(15.0, 15.0)
  {
    var bs := [B1(), B2()];
    assert Lefts(bs) == [0.0, 20.0];
    assert Rights(bs) == [10.0, 30.0];
    assert Tops(bs) == [0.0, 20.0];
    assert Bottoms(bs) == [10.0, 30.0];
  }

  /** The copied blocks and the rebinding map after the block phase of the paste. */
  function C1(): Block { Block(8, Point(85.0, 85.0), 10.0, 10.0, [9], [10]) }
  function C2(): Block { Block(11, Point(105.0, 105.0), 10.0, 10.0, [12], [13]) }
  function BlockMap(): map<Id, Id> { map[1 := 8, 2 := 9, 3 := 10, 4 := 11, 5 := 12, 6 := 13] }

  /** The offset from the centre (15, 15) to the mouse at (100, 100). */
  lemma ScenarioOffset()
    ensures PasteOffset(Payload([B1(), B2()], [E()]), Point(100.0, 100.0)) == Point(85.0, 85.0)
  {
    ScenarioCenter();
  }

  /** The first block becomes block 8 with sockets 9 and 10. */
  lemma ScenarioFirstBlock()
    ensures CreateBlock(Scene([], [], {}, 8, 0), B1(), map[], Point(85.0, 85.0), true)
            == Rebuild(Scene([C1()], [], {8}, 11, 0), map[1 := 8, 2 := 9, 3 := 10])
  {
    assert Range(9, 1) == [9] && Range(10, 1) == [10];
    assert NewBlock(B1(), 8, Point(85.0, 85.0)) == C1();
    assert BlockIds(B1()) == [1, 2, 3] && BlockIds(C1()) == [8, 9, 10];
    assert Register(map[], [1, 2, 3], [8, 9, 10]) == map[1 := 8, 2 := 9, 3 := 10];
  }

  /** The second block becomes block 11 with sockets 12 and 13. */
  lemma ScenarioSecondBlock()
    ensures CreateBlock(Scene([C1()], [], {8}, 11, 0), B2(), map[1 := 8, 2 := 9, 3 := 10], Point(85.0, 85.0), true)
            == Rebuild(Scene([C1(), C2()], [], {8, 11}, 14, 0), BlockMap())
  {
    assert Range(12, 1) == [12] && Range(13, 1) == [13];
    assert NewBlock(B2(), 11, Point(85.0, 85.0)) == C2();
    assert BlockIds(B2()) == [4, 5, 6] && BlockIds(C2()) == [11, 12, 13];
    assert Register(map[1 := 8, 2 := 9, 3 := 10], [4, 5, 6], [11, 12, 13]) == BlockMap();
  }

  /** The block phase creates both copies and maps every old block and socket id. */
  lemma ScenarioBlockPhase()
    ensures BlockPhase(Scene([], [], {}, 8, 0), Payload([B1(), B2()], [E()]), Point(100.0, 100.0), true)
            == Rebuild(Scene([C1(), C2()], [], {8, 11}, 14, 0), BlockMap())
  {
    ScenarioOffset();
    ScenarioFirstBlock();
    ScenarioSecondBlock();
    var s := Scene([], [], {}, 8, 0);
    var off := Point(85.0, 85.0);
    var r1 := CreateBlock(s, B1(), map[], off, true);
    assert CreateBlocks(r1.scene, [B2()], r1.hashmap, off, true)
           == CreateBlock(r1.scene, B2(), r1.hashmap, off, true);
    assert [B1(), B2()][1..] == [B2()];
  }

  /** The edge phase joins socket 10 to socket 12 with the fresh edge 14. */
  lemma ScenarioEdgePhase()
    ensures CreateEdges(Scene([C1(), C2()], [], {8, 11}, 14, 0), [E()], BlockMap(), true)
            == Success(Rebuild(Scene([C1(), C2()], [Edge(14, 10, 12)], {8, 11, 14}, 15, 0),
                               BlockMap()[7 := 14]))
  {
    var sc := Scene([C1(), C2()], [], {8, 11}, 14, 0);
    assert BlockMap()[3] == 10 && BlockMap()[5] == 12;
    var r1 := CreateEdge(sc, E(), BlockMap(), true);
    assert r1.Success? && r1.value.hashmap == BlockMap()[7 := 14];
    assert r1.value.scene.edges == [] + [Edge(14, 10, 12)] == [Edge(14, 10, 12)];
    assert r1.value.scene.selected == {8, 11} + {14} == {8, 11, 14};
    assert r1 == Success(Rebuild(Scene([C1(), C2()], [Edge(14, 10, 12)], {8, 11, 14}, 15, 0),
                                 BlockMap()[7 := 14]));
    assert [E()][1..] == [];
  }

  /** The whole paste, as the scene it produces. */
  lemma ScenarioDeserialize()
    ensures Deserialize(Scene([], [], {}, 8, 0), Payload([B1(), B2()], [E()]), Point(100.0, 100.0), true)
            == Success(Scene([C1(), C2()], [Edge(14, 10, 12)], {8, 11, 14}, 15, 1))
  {
    ScenarioBlockPhase();
    ScenarioEdgePhase();
  }

  /** Pasting at (100, 100) moves both blocks by (85, 85), gives the blocks, sockets and
      edge the fresh ids 8 to 14, and joins the copies of sockets 3 and 5. */
  lemma ScenarioPaste()
    ensures var c := Clipboard(Scene([], [], {}, 8, 0), Some(Payload([B1(), B2()], [E()])));
            && Paste(c, Point(100.0, 100.0)).Success?
            && var s' := Paste(c, Point(100.0, 100.0)).value.scene;
               && s'.blocks == [Block(8, Point(85.0, 85.0), 10.0, 10.0, [9], [10]),
                                Block(11, Point(105.0, 105.0), 10.0, 10.0, [12], [13])]
               && s'.edges == [Edge(14, 10, 12)]
               && s'.selected == {8, 11, 14}
  {
    ScenarioDeserialize();
  }

  lemma ScenarioCutThenPaste()
    ensures var cut := Cut(Clipboard(Scene([B1(), B2()], [E()], {1, 4, 7}, 8, 0), None));
            && cut.objects == Some(Payload([B1(), B2()], [E()]))
            && cut.scene.blocks == [] && cut.scene.edges == []
            && Paste(cut, Point(100.0, 100.0)).Success?
            && var s' := Paste(cut, Point(100.0, 100.0)).value.scene;
               && s'.blocks == [Block(8, Point(85.0, 85.0), 10.0, 10.0, [9], [10]),
                                Block(11, Point(105.0, 105.0), 10.0, 10.0, [12], [13])]
               && s'.edges == [Edge(14, 10, 12)]
  {
    ScenarioCut();
    ScenarioPaste();
  }
}
