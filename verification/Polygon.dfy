/** The ray-casting test of `point_in_polygon`, over exact real coordinates. */
module Polygon {
  datatype Point = Point(x: real, y: real)

  function MinR(a: real, b: real): real {
    if a < b then a else b
  }

  function MaxR(a: real, b: real): real {
    if a < b then b else a
  }

  // ---------- one edge ----------

  /** `xinters`: where the line through a and b meets the height y. */
  function CrossX(a: Point, b: Point, y: real): real
    requires a.y != b.y
  {
    (y - a.y) * (b.x - a.x) / (b.y - a.y) + a.x
  }

  /** The nested tests of the loop body: does the edge flip the parity bit? */
  predicate Toggles(p: Point, a: Point, b: Point) {
    && p.y > MinR(a.y, b.y)
    && p.y <= MaxR(a.y, b.y)
    && p.x <= MaxR(a.x, b.x)
    && (a.x == b.x || p.x <= CrossX(a, b, p.y))
  }

  /** The edge runs from below the point's height to it or above, or back: half-open, so that a vertex
      on the ray belongs to one of its two edges only. */
  predicate Straddles(y: real, a: Point, b: Point) {
    (a.y < y) != (b.y < y)
  }

  /** The point on the edge at a fraction of the way. */
  lemma CrossAtFraction(a: Point, b: Point, y: real) returns (t: real)
    requires Straddles(y, a, b)
    ensures 0.0 <= t <= 1.0 && CrossX(a, b, y) == a.x + t * (b.x - a.x)
    ensures CrossX(b, a, y) == b.x + (1.0 - t) * (a.x - b.x)
  {
    var h := b.y - a.y;
    t := (y - a.y) / h;
    assert t * h == y - a.y;
    FractionInRange(t, h, y - a.y);
    CrossOfFraction(a, b, y, t);
    assert (1.0 - t) * (a.y - b.y) == t * h - h;
    CrossOfFraction(b, a, y, 1.0 - t);
  }

  lemma CrossOfFraction(a: Point, b: Point, y: real, t: real)
    requires a.y != b.y && t * (b.y - a.y) == y - a.y
    ensures CrossX(a, b, y) == a.x + t * (b.x - a.x)
  {
    DivideProduct(y - a.y, b.x - a.x, b.y - a.y, t);
  }

  lemma SameSign(t: real, h: real)
    requires h != 0.0
    requires h > 0.0 ==> t * h >= 0.0
    requires h < 0.0 ==> t * h <= 0.0
    ensures t >= 0.0
  {
  }

  lemma FractionInRange(t: real, h: real, d: real)
    requires t * h == d && h != 0.0
    requires (h > 0.0 && 0.0 <= d <= h) || (h < 0.0 && h <= d <= 0.0)
    ensures 0.0 <= t <= 1.0
  {
    SameSign(t, h);
    assert (1.0 - t) * h == h - d;
    SameSign(1.0 - t, h);
  }

  lemma DivideProduct(d: real, w: real, h: real, t: real)
    requires h != 0.0 && t * h == d
    ensures d * w / h == t * w
  {
    assert d * w == t * w * h;
  }

  lemma CrossBetween(a: Point, b: Point, y: real)
    requires Straddles(y, a, b)
    ensures MinR(a.x, b.x) <= CrossX(a, b, y) <= MaxR(a.x, b.x)
    ensures CrossX(a, b, y) == CrossX(b, a, y)
  {
    var t := CrossAtFraction(a, b, y);
    var w := b.x - a.x;
    if w >= 0.0 {
      assert 0.0 <= t * w;
      assert 0.0 <= (1.0 - t) * w;
    } else {
      assert t * w <= 0.0;
      assert (1.0 - t) * w <= 0.0;
    }
    assert (1.0 - t) * w == w - t * w;
    assert (1.0 - t) * (a.x - b.x) == -w + t * w;
  }

  /** The test of the loop body is the half-open crossing test: its prefilters on x decide nothing. */
  lemma TogglesIsCrossing(p: Point, a: Point, b: Point)
    ensures Toggles(p, a, b) <==> Straddles(p.y, a, b) && p.x <= CrossX(a, b, p.y)
  {
    if Straddles(p.y, a, b) {
      CrossBetween(a, b, p.y);
    }
  }

  lemma TogglesSymmetric(p: Point, a: Point, b: Point)
    ensures Toggles(p, a, b) == Toggles(p, b, a)
  {
    TogglesIsCrossing(p, a, b);
    TogglesIsCrossing(p, b, a);
    if Straddles(p.y, a, b) {
      CrossBetween(a, b, p.y);
    }
  }

  // ---------- paths and polygons ----------

  /** Whether the edges of an open path flip the parity bit an odd number of times. */
  predicate OddCrossings(p: Point, path: seq<Point>) {
    if |path| < 2 then false
    else Toggles(p, path[0], path[1]) != OddCrossings(p, path[1..])
  }

  /** The polygon closes its path at its first vertex. */
  predicate Inside(p: Point, polygon: seq<Point>)
    requires polygon != []
  {
    OddCrossings(p, polygon + [polygon[0]])
  }

  lemma ClosingIndex(i: nat, n: nat)
    requires 1 <= i <= n
    ensures i % n == if i == n then 0 else i
  {
  }

  /** The nested tests of the loop, the division included. */
  method TestEdge(p: Point, p1: Point, p2: Point) returns (flip: bool)
    ensures flip == Toggles(p, p1, p2)
  {
    flip := false;
    if p.y > MinR(p1.y, p2.y) {
      if p.y <= MaxR(p1.y, p2.y) {
        if p.x <= MaxR(p1.x, p2.x) {
          var xinters := CrossX(p1, p2, p.y);
          if p1.x == p2.x || p.x <= xinters {
            flip := true;
          }
        }
      }
    }
  }

  /** `point_in_polygon`. */
  method PointInPolygon(p: Point, polygon: seq<Point>) returns (inside: bool)
    requires polygon != []
    ensures inside == Inside(p, polygon)
  {
    var n := |polygon|;
    ghost var path := polygon + [polygon[0]];
    inside := false;
    var p1 := polygon[0];
    var i := 1;
    assert path[0..] == path;
    while i < n + 1
      invariant 1 <= i <= n + 1
      invariant p1 == path[i - 1]
      invariant OddCrossings(p, path) == (inside != OddCrossings(p, path[i - 1..]))
    {
      ClosingIndex(i, n);
      var p2 := polygon[i % n];
      var flip := TestEdge(p, p1, p2);
      if flip {
        inside := !inside;
      }
      ghost var rest := path[i - 1..];
      assert rest[0] == p1 && rest[1] == p2 && rest[1..] == path[i..];
      p1 := p2;
      i := i + 1;
    }
  }

  /** A path cut at one of its vertices: the parities of the two parts add up. */
  lemma {:induction false} CutPath(p: Point, path: seq<Point>, k: nat)
    requires k < |path|
    ensures OddCrossings(p, path) == (OddCrossings(p, path[..k + 1]) != OddCrossings(p, path[k..]))
  {
    if k == 0 {
      assert path[0..] == path;
    } else {
      CutPath(p, path[1..], k - 1);
      assert path[1..][k - 1..] == path[k..];
      assert path[..k + 1][1..] == path[1..][..k] && path[..k + 1][1] == path[1];
    }
  }

  function Reverse<T>(s: seq<T>): (r: seq<T>)
    ensures |r| == |s| && forall i :: 0 <= i < |s| ==> r[i] == s[|s| - 1 - i]
  {
    if s == [] then [] else Reverse(s[1..]) + [s[0]]
  }

  lemma {:induction false} ReversePath(p: Point, path: seq<Point>)
    ensures OddCrossings(p, Reverse(path)) == OddCrossings(p, path)
  {
    if |path| < 2 {
    } else {
      var r := Reverse(path);
      ReversePath(p, path[1..]);
      CutPath(p, r, |r| - 2);
      assert r[..|r| - 1] == Reverse(path[1..]);
      assert r[|r| - 2..] == [path[1], path[0]];
      assert [path[1], path[0]][1..] == [path[0]];
      TogglesSymmetric(p, path[0], path[1]);
    }
  }

  /** The same polygon from another start vertex. */
  function Rotate<T>(s: seq<T>, k: nat): seq<T>
    requires k < |s|
  {
    s[k..] + s[..k]
  }

  /** The answer does not depend on the vertex the polygon starts from. */
  lemma RotationInvariant(p: Point, polygon: seq<Point>, k: nat)
    requires k < |polygon|
    ensures Inside(p, Rotate(polygon, k)) == Inside(p, polygon)
  {
    var path := polygon + [polygon[0]];
    var turned := Rotate(polygon, k) + [polygon[k]];
    assert Rotate(polygon, k)[0] == polygon[k];
    CutPath(p, path, k);
    CutPath(p, turned, |polygon| - k);
    assert turned[..|polygon| - k + 1] == path[k..];
    assert turned[|polygon| - k..] == path[..k + 1];
  }

  /** Nor on its orientation. */
  lemma ReversalInvariant(p: Point, polygon: seq<Point>)
    requires polygon != []
    ensures Inside(p, Reverse(polygon)) == Inside(p, polygon)
  {
    var path := polygon + [polygon[0]];
    ReversePath(p, path);
    var back, n := Reverse(polygon), |polygon|;
    RotationInvariant(p, back, n - 1);
    assert Rotate(back, n - 1) + [polygon[0]] == Reverse(path);
  }

  /** A chord between two vertices splits a polygon in two, and a point is inside the whole exactly when
      it is inside one of the parts but not both. */
  lemma ChordSplit(p: Point, polygon: seq<Point>, i: nat, j: nat)
    requires i < j < |polygon|
    ensures Inside(p, polygon) ==
      (Inside(p, polygon[i..j + 1]) != Inside(p, polygon[j..] + polygon[..i + 1]))
  {
    var a, b, n := polygon[i..j + 1], polygon[j..] + polygon[..i + 1], |polygon|;
    var whole := Rotate(polygon, i) + [polygon[i]];
    RotationInvariant(p, polygon, i);
    CutPath(p, whole, j - i);
    assert whole[..j - i + 1] == a && whole[j - i..] == b;
    CloseWithChord(p, a, polygon[i], polygon[j]);
    CloseWithChord(p, b, polygon[j], polygon[i]);
    TogglesSymmetric(p, polygon[i], polygon[j]);
  }

  lemma CloseWithChord(p: Point, path: seq<Point>, first: Point, last: Point)
    requires |path| >= 2 && path[0] == first && path[|path| - 1] == last
    ensures Inside(p, path) == (OddCrossings(p, path) != Toggles(p, last, first))
  {
    var closed := path + [first];
    CutPath(p, closed, |path| - 1);
    assert closed[..|path|] == path && closed[|path| - 1..] == [last, first];
    assert [last, first][1..] == [first];
  }

  // ---------- the bounding box ----------

  predicate OddStraddles(y: real, path: seq<Point>) {
    if |path| < 2 then false
    else Straddles(y, path[0], path[1]) != OddStraddles(y, path[1..])
  }

  /** Going round, a height is crossed an even number of times. */
  lemma {:induction false} StraddlesTelescope(y: real, path: seq<Point>)
    requires path != []
    ensures OddStraddles(y, path) == ((path[0].y < y) != (path[|path| - 1].y < y))
  {
    if |path| < 2 {
    } else {
      StraddlesTelescope(y, path[1..]);
    }
  }

  lemma {:induction false} LeftOfAll(p: Point, path: seq<Point>)
    requires forall i :: 0 <= i < |path| ==> p.x <= path[i].x
    ensures OddCrossings(p, path) == OddStraddles(p.y, path)
  {
    if |path| < 2 {
    } else {
      LeftOfAll(p, path[1..]);
      TogglesIsCrossing(p, path[0], path[1]);
      if Straddles(p.y, path[0], path[1]) {
        CrossBetween(path[0], path[1], p.y);
      }
    }
  }

  lemma {:induction false} BesideAll(p: Point, path: seq<Point>)
    requires || (forall i :: 0 <= i < |path| ==> path[i].x < p.x)
             || (forall i :: 0 <= i < |path| ==> path[i].y < p.y)
             || (forall i :: 0 <= i < |path| ==> p.y <= path[i].y)
    ensures !OddCrossings(p, path)
  {
    if |path| < 2 {
    } else {
      BesideAll(p, path[1..]);
    }
  }

  /** A point inside has vertices strictly to its left, at its right or on its x, strictly below, and
      above or at its height: nothing outside the half-open bounding box is ever inside. */
  lemma InsideBoundingBox(p: Point, polygon: seq<Point>)
    requires polygon != [] && Inside(p, polygon)
    ensures exists i :: 0 <= i < |polygon| && polygon[i].x < p.x
    ensures exists i :: 0 <= i < |polygon| && p.x <= polygon[i].x
    ensures exists i :: 0 <= i < |polygon| && polygon[i].y < p.y
    ensures exists i :: 0 <= i < |polygon| && p.y <= polygon[i].y
  {
    var path := polygon + [polygon[0]];
    if forall i :: 0 <= i < |polygon| ==> p.x <= polygon[i].x {
      LeftOfAll(p, path);
      StraddlesTelescope(p.y, path);
    }
    if || (forall i :: 0 <= i < |polygon| ==> polygon[i].x < p.x)
       || (forall i :: 0 <= i < |polygon| ==> polygon[i].y < p.y)
       || (forall i :: 0 <= i < |polygon| ==> p.y <= polygon[i].y)
    {
      BesideAll(p, path);
    }
  }

  // ---------- rectangles ----------

  function Rectangle(x1: real, y1: real, x2: real, y2: real): seq<Point> {
    [Point(x1, y1), Point(x2, y1), Point(x2, y2), Point(x1, y2)]
  }

  predicate InBox(p: Point, x1: real, y1: real, x2: real, y2: real) {
    x1 < p.x <= x2 && y1 < p.y <= y2
  }

  /** An axis-aligned rectangle is its half-open box, whatever its start vertex and orientation. */
  lemma RectangleIsHalfOpenBox(p: Point, x1: real, y1: real, x2: real, y2: real, k: nat)
    requires x1 < x2 && y1 < y2 && k < 4
    ensures Inside(p, Rotate(Rectangle(x1, y1, x2, y2), k)) <==> InBox(p, x1, y1, x2, y2)
    ensures Inside(p, Reverse(Rotate(Rectangle(x1, y1, x2, y2), k))) <==> InBox(p, x1, y1, x2, y2)
  {
    var r := Rectangle(x1, y1, x2, y2);
    var p3, p2, p1, path := [r[3], r[0]], [r[2], r[3], r[0]], [r[1], r[2], r[3], r[0]], r + [r[0]];
    assert [r[0]] == p3[1..] && p3 == p2[1..] && p2 == p1[1..] && p1 == path[1..];
    assert OddCrossings(p, p3) == (y1 < p.y <= y2 && p.x <= x1);
    assert OddCrossings(p, p2) == OddCrossings(p, p3);
    assert OddCrossings(p, p1) == ((y1 < p.y <= y2 && p.x <= x2) != OddCrossings(p, p3));
    assert OddCrossings(p, path) == OddCrossings(p, p1);
    RotationInvariant(p, r, k);
    ReversalInvariant(p, Rotate(r, k));
  }

  /** Rectangles that share a side tile: no point is in both, and together they are the large one. */
  lemma RectanglesTile(p: Point, x1: real, x2: real, x3: real, y1: real, y2: real)
    requires x1 < x2 < x3 && y1 < y2
    ensures !(Inside(p, Rectangle(x1, y1, x2, y2)) && Inside(p, Rectangle(x2, y1, x3, y2)))
    ensures Inside(p, Rectangle(x1, y1, x3, y2)) <==>
            Inside(p, Rectangle(x1, y1, x2, y2)) || Inside(p, Rectangle(x2, y1, x3, y2))
  {
    RectangleIsHalfOpenBox(p, x1, y1, x2, y2, 0);
    RectangleIsHalfOpenBox(p, x2, y1, x3, y2, 0);
    RectangleIsHalfOpenBox(p, x1, y1, x3, y2, 0);
    RotationInvariant(p, Rectangle(x1, y1, x2, y2), 0);
    RotationInvariant(p, Rectangle(x2, y1, x3, y2), 0);
    RotationInvariant(p, Rectangle(x1, y1, x3, y2), 0);
  }
}
