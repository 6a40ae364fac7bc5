/** Taking a snapshot of the selection (`_serializeSelected`): the selected blocks,
    and the selected edges whose two ends are sockets of selected blocks. */
module Snapshots {
  import opened Seqs
  import opened Graph

  /** The edges of `edges` with both ends among `sockets`, as a fresh sequence. */
  function FilterEdges(edges: seq<Edge>, sockets: set<Id>): (r: seq<Edge>)
    ensures forall e :: e in r ==> Connects(e, sockets)
    ensures forall e :: e in edges && Connects(e, sockets) ==> e in r
    ensures forall e :: e in r ==> e in edges
    ensures Subseq(r, edges)
  {
    Keep(edges, (e: Edge) => Connects(e, sockets))
  }

  /** The payload built from the selected blocks and edges, in selection order. */
  function Snapshot(blocks: seq<Block>, edges: seq<Edge>): (p: Payload)
    ensures p.blocks == blocks
    ensures WellFormed(p)
    ensures forall e :: e in p.edges <==> e in edges && Connects(e, SocketSet(blocks))
    ensures Subseq(p.edges, edges)
  {
    Payload(blocks, FilterEdges(edges, SocketSet(blocks)))
  }

  // The filter as the source writes it: `list.remove` inside a `for` loop over the
  // same list. Python's list iterator walks an index that removal does not adjust.

  /** Python's `list.remove(x)`: drop the first element equal to `x`. */
  function RemoveFirst<T(==)>(xs: seq<T>, x: T): (r: seq<T>)
    requires x in xs
    ensures |r| == |xs| - 1
    ensures forall y :: y in xs && y != x ==> y in r
  {
    if xs[0] == x then xs[1..]
    else
      assert xs == [xs[0]] + xs[1..];
      [xs[0]] + RemoveFirst(xs[1..], x)
  }

  /** The loop from iterator position `i` on. */
  function InPlaceFilterFrom(xs: seq<Edge>, sockets: set<Id>, i: nat): seq<Edge>
    decreases |xs| - i
  {
    if i >= |xs| then xs
    else if !Connects(xs[i], sockets) then InPlaceFilterFrom(RemoveFirst(xs, xs[i]), sockets, i + 1)
    else InPlaceFilterFrom(xs, sockets, i + 1)
  }

  function InPlaceFilterEdges(xs: seq<Edge>, sockets: set<Id>): seq<Edge>
  {
    InPlaceFilterFrom(xs, sockets, 0)
  }

  /** The in-place loop never loses an edge that should be kept. */
  lemma {:induction false} InPlaceKeepsConnected(xs: seq<Edge>, sockets: set<Id>, i: nat, e: Edge)
    requires e in xs && Connects(e, sockets)
    ensures e in InPlaceFilterFrom(xs, sockets, i)
    decreases |xs| - i
  {
    if i < |xs| {
      if !Connects(xs[i], sockets) {
        InPlaceKeepsConnected(RemoveFirst(xs, xs[i]), sockets, i + 1, e);
      } else {
        InPlaceKeepsConnected(xs, sockets, i + 1, e);
      }
    }
  }

  /** On distinct elements `list.remove` deletes exactly the element named. */
  lemma {:induction false} RemoveFirstAt<T>(xs: seq<T>, j: nat)
    requires Distinct(xs) && j < |xs|
    ensures RemoveFirst(xs, xs[j]) == xs[..j] + xs[j + 1..]
    decreases j
  {
    if j > 0 {
      DistinctCons(xs);
      assert xs[1..][j - 1] == xs[j];
      RemoveFirstAt(xs[1..], j - 1);
      assert xs[1..][..j - 1] + xs[1..][j..] == xs[1..j] + xs[j + 1..];
      assert xs[..j] == [xs[0]] + xs[1..j];
    }
  }

  lemma DistinctWithout<T>(xs: seq<T>, j: nat)
    requires Distinct(xs) && j < |xs|
    ensures Distinct(xs[..j] + xs[j + 1..])
  {
    var r := xs[..j] + xs[j + 1..];
    forall a, b | 0 <= a < b < |r| ensures r[a] != r[b] {
      var a' := if a < j then a else a + 1;
      var b' := if b < j then b else b + 1;
      assert r[a] == xs[a'] && r[b] == xs[b'];
    }
  }

  /** On distinct edges the loop never touches the part already walked over. */
  lemma {:induction false} InPlaceKeepsWalkedPrefix(xs: seq<Edge>, sockets: set<Id>, i: nat)
    requires Distinct(xs) && i <= |xs|
    ensures |InPlaceFilterFrom(xs, sockets, i)| >= i
    ensures InPlaceFilterFrom(xs, sockets, i)[..i] == xs[..i]
    decreases |xs| - i
  {
    if i < |xs| {
      var f := InPlaceFilterFrom(xs, sockets, i);
      if !Connects(xs[i], sockets) {
        var ys := RemoveFirst(xs, xs[i]);
        assert ys == xs[..i] + xs[i + 1..] && Distinct(ys) by {
          RemoveFirstAt(xs, i);
          DistinctWithout(xs, i);
        }
        assert f == InPlaceFilterFrom(ys, sockets, i + 1);
        if i + 1 <= |ys| {
          InPlaceKeepsWalkedPrefix(ys, sockets, i + 1);
          assert f[..i] == f[..i + 1][..i] == ys[..i + 1][..i];
          assert ys[..i] == xs[..i];
        } else {
          assert f == ys == xs[..i];
        }
      } else {
        assert f == InPlaceFilterFrom(xs, sockets, i + 1);
        InPlaceKeepsWalkedPrefix(xs, sockets, i + 1);
        assert f[..i] == f[..i + 1][..i];
      }
    }
  }

  /** Connected edges at the iterator's position are stepped over without change. */
  lemma {:induction false} InPlaceStepsOverConnected(xs: seq<Edge>, sockets: set<Id>, i: nat, k: nat)
    requires i <= k <= |xs|
    requires forall j :: i <= j < k ==> Connects(xs[j], sockets)
    ensures InPlaceFilterFrom(xs, sockets, i) == InPlaceFilterFrom(xs, sockets, k)
    decreases k - i
  {
    if i < k {
      InPlaceStepsOverConnected(xs, sockets, i + 1, k);
    }
  }

  /** The defect: right after removing a dangling edge the loop skips the next edge,
      so that edge survives even when it is dangling too. The edges walked before the
      removed one are connected, so they are kept and do not move. */
  lemma InPlaceSkipsNext(pre: seq<Edge>, a: Edge, b: Edge, rest: seq<Edge>, sockets: set<Id>)
    requires Distinct(pre + [a, b] + rest)
    requires forall e :: e in pre ==> Connects(e, sockets)
    requires !Connects(a, sockets)
    ensures b in InPlaceFilterEdges(pre + [a, b] + rest, sockets)
  {
    var xs := pre + [a, b] + rest;
    var n := |pre|;
    var ys := pre + [b] + rest;
    assert xs[n] == a;
    forall j | 0 <= j < n ensures Connects(xs[j], sockets) {
      assert xs[j] == pre[j];
    }
    InPlaceStepsOverConnected(xs, sockets, 0, n);
    assert RemoveFirst(xs, a) == ys && Distinct(ys) by {
      RemoveFirstAt(xs, n);
      DistinctWithout(xs, n);
      assert xs[..n] + xs[n + 1..] == ys;
    }
    assert InPlaceFilterEdges(xs, sockets) == InPlaceFilterFrom(ys, sockets, n + 1);
    InPlaceKeepsWalkedPrefix(ys, sockets, n + 1);
    assert InPlaceFilterFrom(ys, sockets, n + 1)[n] == ys[..n + 1][n] == b;
  }

  /** An instance: two dangling edges in a row, and the second one is kept. */
  lemma InPlaceKeepsDanglingEdge()
    ensures var sockets := {1, 2};
            var dangling := Edge(11, 8, 2);
            dangling in InPlaceFilterEdges([Edge(10, 1, 7), dangling], sockets)
            && !Connects(dangling, sockets)
            && dangling !in FilterEdges([Edge(10, 1, 7), dangling], sockets)
  {
    InPlaceSkipsNext([], Edge(10, 1, 7), Edge(11, 8, 2), [], {1, 2});
    assert [] + [Edge(10, 1, 7), Edge(11, 8, 2)] + [] == [Edge(10, 1, 7), Edge(11, 8, 2)];
  }

  /** An instance after a connected edge: the dangling edge that follows a removed one
      is kept, while the fresh filter keeps only the connected edge. */
  lemma InPlaceSkipsAfterConnected()
    ensures var sockets := {1, 2};
            var xs := [Edge(10, 1, 2), Edge(11, 1, 7), Edge(12, 9, 9)];
            && Edge(12, 9, 9) in InPlaceFilterEdges(xs, sockets)
            && FilterEdges(xs, sockets) == [Edge(10, 1, 2)]
  {
    InPlaceSkipsNext([Edge(10, 1, 2)], Edge(11, 1, 7), Edge(12, 9, 9), [], {1, 2});
    assert [Edge(10, 1, 2)] + [Edge(11, 1, 7), Edge(12, 9, 9)] + []
        == [Edge(10, 1, 2), Edge(11, 1, 7), Edge(12, 9, 9)];
  }
}
