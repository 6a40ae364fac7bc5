/** Where a paste lands (`_find_bbox_center` and the offset in `_deserializeData`):
    the midpoint of the blocks' bounding box is moved onto the mouse position. */
module Placement {
  import opened Graph

  function Min(s: seq<real>): (m: real)
    requires |s| > 0
    ensures forall i :: 0 <= i < |s| ==> m <= s[i]
    ensures exists i :: 0 <= i < |s| && m == s[i]
  {
    if |s| == 1 then s[0]
    else
      var t := Min(s[1..]);
      assert forall i :: 1 <= i < |s| ==> s[i] == s[1..][i - 1];
      if s[0] <= t then s[0] else t
  }

  function Max(s: seq<real>): (m: real)
    requires |s| > 0
    ensures forall i :: 0 <= i < |s| ==> s[i] <= m
    ensures exists i :: 0 <= i < |s| && m == s[i]
  {
    if |s| == 1 then s[0]
    else
      var t := Max(s[1..]);
      assert forall i :: 1 <= i < |s| ==> s[i] == s[1..][i - 1];
      if t <= s[0] then s[0] else t
  }

  /** Left, right, top and bottom edges of the blocks. */
  function Lefts(bs: seq<Block>): seq<real>
  {
    seq(|bs|, i requires 0 <= i < |bs| => bs[i].pos.x)
  }

  function Rights(bs: seq<Block>): seq<real>
  {
    seq(|bs|, i requires 0 <= i < |bs| => bs[i].pos.x + bs[i].width)
  }

  function Tops(bs: seq<Block>): seq<real>
  {
    seq(|bs|, i requires 0 <= i < |bs| => bs[i].pos.y)
  }

  function Bottoms(bs: seq<Block>): seq<real>
  {
    seq(|bs|, i requires 0 <= i < |bs| => bs[i].pos.y + bs[i].height)
  }

  /** The centre of the bounding box of a non-empty group of blocks: equally far from
      the leftmost left edge and the rightmost right edge, and likewise vertically. */
  function BBoxCenter(bs: seq<Block>): (c: Point)
    requires |bs| > 0
    ensures c.x - Min(Lefts(bs)) == Max(Rights(bs)) - c.x
    ensures c.y - Min(Tops(bs)) == Max(Bottoms(bs)) - c.y
  {
    Point((Min(Lefts(bs)) + Max(Rights(bs))) / 2.0, (Min(Tops(bs)) + Max(Bottoms(bs))) / 2.0)
  }

  /** The translation that carries `center` onto `mouse`. */
  function Offset(center: Point, mouse: Point): (d: Point)
    ensures center.x + d.x == mouse.x && center.y + d.y == mouse.y
  {
    Point(mouse.x - center.x, mouse.y - center.y)
  }

  /** `moved` is `bs` with every block shifted by the same `d`, sizes unchanged. */
  predicate Translated(moved: seq<Block>, bs: seq<Block>, d: Point)
  {
    && |moved| == |bs|
    && forall i :: 0 <= i < |bs| ==>
         && moved[i].pos == Point(bs[i].pos.x + d.x, bs[i].pos.y + d.y)
         && moved[i].width == bs[i].width
         && moved[i].height == bs[i].height
  }

  lemma MinShift(s: seq<real>, t: seq<real>, k: real)
    requires |s| == |t| > 0
    requires forall i :: 0 <= i < |s| ==> t[i] == s[i] + k
    ensures Min(t) == Min(s) + k
  {
    var i :| 0 <= i < |s| && Min(s) == s[i];
    var j :| 0 <= j < |t| && Min(t) == t[j];
    assert Min(t) <= t[i];
    assert Min(s) <= s[j];
  }

  lemma MaxShift(s: seq<real>, t: seq<real>, k: real)
    requires |s| == |t| > 0
    requires forall i :: 0 <= i < |s| ==> t[i] == s[i] + k
    ensures Max(t) == Max(s) + k
  {
    var i :| 0 <= i < |s| && Max(s) == s[i];
    var j :| 0 <= j < |t| && Max(t) == t[j];
    assert t[i] <= Max(t);
    assert s[j] <= Max(s);
  }

  /** Shifting every block by `d` shifts each of its edges by the matching component. */
  lemma EdgesShift(moved: seq<Block>, bs: seq<Block>, d: Point)
    requires Translated(moved, bs, d)
    ensures |Lefts(moved)| == |Lefts(bs)| == |Tops(moved)| == |Tops(bs)| == |bs|
    ensures forall i :: 0 <= i < |bs| ==> Lefts(moved)[i] == Lefts(bs)[i] + d.x
    ensures forall i :: 0 <= i < |bs| ==> Rights(moved)[i] == Rights(bs)[i] + d.x
    ensures forall i :: 0 <= i < |bs| ==> Tops(moved)[i] == Tops(bs)[i] + d.y
    ensures forall i :: 0 <= i < |bs| ==> Bottoms(moved)[i] == Bottoms(bs)[i] + d.y
  {
  }

  /** Shifting every block by `d` shifts the bounding-box centre by `d`. */
  lemma CenterTranslates(moved: seq<Block>, bs: seq<Block>, d: Point)
    requires |bs| > 0 && Translated(moved, bs, d)
    ensures BBoxCenter(moved) == Point(BBoxCenter(bs).x + d.x, BBoxCenter(bs).y + d.y)
  {
    EdgesShift(moved, bs, d);
    MinShift(Lefts(bs), Lefts(moved), d.x);
    MaxShift(Rights(bs), Rights(moved), d.x);
    MinShift(Tops(bs), Tops(moved), d.y);
    MaxShift(Bottoms(bs), Bottoms(moved), d.y);
  }

  /** Moving a group by the offset from its centre to the mouse centres it on the mouse,
      and leaves the distances between its blocks as they were. */
  lemma PlacementCentersOnMouse(moved: seq<Block>, bs: seq<Block>, mouse: Point)
    requires |bs| > 0 && Translated(moved, bs, Offset(BBoxCenter(bs), mouse))
    ensures BBoxCenter(moved) == mouse
    ensures forall i, j :: 0 <= i < |bs| && 0 <= j < |bs| ==>
              moved[i].pos.x - moved[j].pos.x == bs[i].pos.x - bs[j].pos.x
              && moved[i].pos.y - moved[j].pos.y == bs[i].pos.y - bs[j].pos.y
  {
    CenterTranslates(moved, bs, Offset(BBoxCenter(bs), mouse));
  }

  /** With sizes that are not negative, the centre lies inside the bounding box. */
  lemma CenterInsideBox(bs: seq<Block>)
    requires |bs| > 0
    requires forall i :: 0 <= i < |bs| ==> bs[i].width >= 0.0 && bs[i].height >= 0.0
    ensures Min(Lefts(bs)) <= BBoxCenter(bs).x <= Max(Rights(bs))
    ensures Min(Tops(bs)) <= BBoxCenter(bs).y <= Max(Bottoms(bs))
  {
    assert Min(Lefts(bs)) <= Lefts(bs)[0] <= Rights(bs)[0] <= Max(Rights(bs));
    assert Min(Tops(bs)) <= Tops(bs)[0] <= Bottoms(bs)[0] <= Max(Bottoms(bs));
  }
}
