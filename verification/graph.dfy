/** The entities the clipboard moves around: blocks with their sockets, edges between
    sockets, and the clipboard payload. A block or edge record is also its serialized
    form: `serialize()` of the source is the identity here. */
module Graph {
  import opened Seqs

  /** Identities of blocks, sockets and edges share one space, as they share the
      rebinding map of a paste. */
  type Id = nat

  datatype Point = Point(x: real, y: real)

  /** A block: identity, position, size, and the ids of its input and output sockets. */
  datatype Block = Block(
    id: Id,
    pos: Point,
    width: real,
    height: real,
    socketsIn: seq<Id>,
    socketsOut: seq<Id>)

  /** An edge from a source socket to a destination socket, both given by id. */
  datatype Edge = Edge(id: Id, source: Id, destination: Id)

  /** The clipboard payload: serialized blocks and edges, in selection order. */
  datatype Payload = Payload(blocks: seq<Block>, edges: seq<Edge>)

  /** The sockets of a block, inputs first, as the source gathers them. */
  function Sockets(b: Block): seq<Id>
  {
    b.socketsIn + b.socketsOut
  }

  /** Every id a block carries: its own, then its sockets'. */
  function BlockIds(b: Block): seq<Id>
  {
    [b.id] + Sockets(b)
  }

  function EdgeIds(e: Edge): seq<Id>
  {
    [e.id]
  }

  function BlocksIds(bs: seq<Block>): seq<Id>
  {
    FlatMap(bs, BlockIds)
  }

  function EdgesIds(es: seq<Edge>): seq<Id>
  {
    FlatMap(es, EdgeIds)
  }

  /** The ids of all sockets of the given blocks. */
  function SocketSet(bs: seq<Block>): set<Id>
  {
    set b, s | b in bs && s in Sockets(b) :: s
  }

  /** Both ends of `e` are among `sockets`. */
  predicate Connects(e: Edge, sockets: set<Id>)
  {
    e.source in sockets && e.destination in sockets
  }

  /** No edge of the payload refers to a socket outside the payload's blocks. */
  predicate WellFormed(p: Payload)
  {
    forall e :: e in p.edges ==> Connects(e, SocketSet(p.blocks))
  }

  /** Every id the payload carries. */
  function PayloadIds(p: Payload): seq<Id>
  {
    BlocksIds(p.blocks) + EdgesIds(p.edges)
  }

  /** Every id in `ids` was handed out before the counter reached `n`. */
  predicate Below(ids: seq<Id>, n: Id)
  {
    forall x :: x in ids ==> x < n
  }

  /** A socket id of a block is among the ids of any sequence holding that block. */
  lemma SocketInBlocksIds(bs: seq<Block>, s: Id)
    requires s in SocketSet(bs)
    ensures s in BlocksIds(bs)
  {
    var b :| b in bs && s in Sockets(b);
    FlatMapMember(bs, BlockIds, b, s);
  }

  /** Position `q` of `BlocksIds(bs)` holds a socket id, not a block's own id. */
  predicate SocketAt(bs: seq<Block>, q: nat)
    decreases |bs|
  {
    && |bs| > 0
    && var n := |BlockIds(bs[0])|;
       if q < n then q > 0 else SocketAt(bs[1..], q - n)
  }

  /** Blocks with as many sockets, one for one, have their sockets at the same positions. */
  lemma {:induction false} SocketAtAligned(bs: seq<Block>, cs: seq<Block>, q: nat)
    requires |bs| == |cs|
    requires forall i :: 0 <= i < |bs| ==> |Sockets(bs[i])| == |Sockets(cs[i])|
    ensures SocketAt(bs, q) <==> SocketAt(cs, q)
    decreases |bs|
  {
    if |bs| > 0 && q >= |BlockIds(bs[0])| {
      assert forall i :: 0 <= i < |bs| - 1 ==> bs[1..][i] == bs[i + 1] && cs[1..][i] == cs[i + 1];
      SocketAtAligned(bs[1..], cs[1..], q - |BlockIds(bs[0])|);
    }
  }

  /** A socket position holds a socket id of the blocks. */
  lemma {:induction false} SocketAtIsSocket(bs: seq<Block>, q: nat)
    requires SocketAt(bs, q)
    ensures q < |BlocksIds(bs)| && BlocksIds(bs)[q] in SocketSet(bs)
    decreases |bs|
  {
    var n := |BlockIds(bs[0])|;
    assert BlocksIds(bs) == BlockIds(bs[0]) + BlocksIds(bs[1..]);
    if q < n {
      assert BlocksIds(bs)[q] == Sockets(bs[0])[q - 1];
      assert bs[0] in bs && Sockets(bs[0])[q - 1] in Sockets(bs[0]);
    } else {
      SocketAtIsSocket(bs[1..], q - n);
      assert BlocksIds(bs)[q] == BlocksIds(bs[1..])[q - n];
    }
  }

  /** Without repeated ids, a position holding a socket id is a socket position. */
  lemma {:induction false} SocketIsSocketAt(bs: seq<Block>, q: nat)
    requires Distinct(BlocksIds(bs))
    requires q < |BlocksIds(bs)| && BlocksIds(bs)[q] in SocketSet(bs)
    ensures SocketAt(bs, q)
    decreases |bs|
  {
    var ids := BlocksIds(bs);
    var x := ids[q];
    var n := |BlockIds(bs[0])|;
    assert ids == BlockIds(bs[0]) + BlocksIds(bs[1..]);
    DistinctSplit(BlockIds(bs[0]), BlocksIds(bs[1..]));
    var b :| b in bs && x in Sockets(b);
    if q < n {
      if q == 0 {
        assert x == bs[0].id;
        if b == bs[0] {
          assert BlockIds(bs[0])[0] == x && x in BlockIds(bs[0])[1..];
          DistinctCons(BlockIds(bs[0]));
        } else {
          var i :| 0 <= i < |bs| && bs[i] == b;
          assert b in bs[1..] by { assert bs[1..][i - 1] == b; }
          FlatMapMember(bs[1..], BlockIds, b, x);
          assert false;
        }
      }
    } else {
      var y := BlocksIds(bs[1..])[q - n];
      assert x == y;
      assert x !in BlockIds(bs[0]);
      assert b != bs[0];
      var i :| 0 <= i < |bs| && bs[i] == b;
      assert b in bs[1..] by { assert bs[1..][i - 1] == b; }
      SocketIsSocketAt(bs[1..], q - n);
    }
  }
}
