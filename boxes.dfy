/**
 * The box helpers of the tracking server (server.py): clamping a detector box
 * into the frame, the aspect-ratio posture hint, and the "much smaller than
 * the median person" child hint.
 *
 * The detector reports box corners as floating-point numbers; they are `real`
 * here. The thresholds 2.2, 1.4 and 0.65 are compared exactly.
 */
module Boxes {
  import opened Text

  /** A detector box, corners (x1, y1) and (x2, y2) in pixels. */
  datatype RawBox = RawBox(x1: real, y1: real, x2: real, y2: real)

  /** A box after clamping: integer pixel corners. */
  datatype Box = Box(x1: int, y1: int, x2: int, y2: int)

  /** Python `int(x)` on a float: truncation toward zero. */
  function Trunc(x: real): (i: int)
    ensures x >= 0.0 ==> 0 <= i && i as real <= x < i as real + 1.0
    ensures x < 0.0 ==> i <= 0 && i as real - 1.0 < x <= i as real
  {
    if x >= 0.0 then x.Floor else -((-x).Floor)
  }

  function Max(a: int, b: int): int {
    if a >= b then a else b
  }

  function Min(a: int, b: int): int {
    if a <= b then a else b
  }

  /** `max(0, min(v, size - 1))`: pulls a coordinate into 0 .. size - 1. */
  function ClampCoord(v: int, size: int): (c: int)
    ensures size >= 1 ==> 0 <= c <= size - 1
    ensures size >= 1 && 0 <= v <= size - 1 ==> c == v
    ensures size >= 1 && v < 0 ==> c == 0
    ensures size >= 1 && v > size - 1 ==> c == size - 1
  {
    Max(0, Min(v, size - 1))
  }

  /** `_clamp_box(x1, y1, x2, y2, w, h)` (server.py:75-80). */
  function ClampBox(b: RawBox, w: int, h: int): (r: Box)
    ensures w >= 1 ==> 0 <= r.x1 <= w - 1 && 0 <= r.x2 <= w - 1
    ensures h >= 1 ==> 0 <= r.y1 <= h - 1 && 0 <= r.y2 <= h - 1
  {
    Box(ClampCoord(Trunc(b.x1), w), ClampCoord(Trunc(b.y1), h),
        ClampCoord(Trunc(b.x2), w), ClampCoord(Trunc(b.y2), h))
  }

  function AsRaw(b: Box): RawBox {
    RawBox(b.x1 as real, b.y1 as real, b.x2 as real, b.y2 as real)
  }

  /** A clamped box is left as it is by clamping it again. */
  lemma ClampBoxIdempotent(b: RawBox, w: int, h: int)
    requires w >= 1 && h >= 1
    ensures ClampBox(AsRaw(ClampBox(b, w, h)), w, h) == ClampBox(b, w, h)
  {
    var c := ClampBox(b, w, h);
    assert Trunc(c.x1 as real) == c.x1 && Trunc(c.x2 as real) == c.x2;
    assert Trunc(c.y1 as real) == c.y1 && Trunc(c.y2 as real) == c.y2;
  }

  // ---------------------------------------------------------------------------
  // Posture hint from the aspect ratio
  // ---------------------------------------------------------------------------

  const StandingUpright := "standing/upright"
  const CrouchedSitting := "crouched/sitting/unclear"
  const UnknownPosture := "unknown"

  /** `max(1, x2 - x1)` */
  function BoxWidth(b: Box): (bw: int)
    ensures bw >= 1
  {
    Max(1, b.x2 - b.x1)
  }

  /** `max(1, y2 - y1)` */
  function BoxHeight(b: Box): (bh: int)
    ensures bh >= 1
  {
    Max(1, b.y2 - b.y1)
  }

  /** Comparing bh/bw with num/den by cross-multiplying (both denominators positive). */
  lemma RatioCompare(bh: int, bw: int, num: int, den: int)
    requires bw >= 1 && den >= 1
    ensures (bh as real) / (bw as real) > (num as real) / (den as real) <==> den * bh > num * bw
    ensures (bh as real) / (bw as real) < (num as real) / (den as real) <==> den * bh < num * bw
  {
    var q := (bh as real) / (bw as real);
    assert q * (bw as real) == bh as real;
    var t := (num as real) / (den as real);
    assert t * (den as real) == num as real;
    assert q > t <==> q * (bw as real) * (den as real) > t * (den as real) * (bw as real);
    assert q < t <==> q * (bw as real) * (den as real) < t * (den as real) * (bw as real);
  }

  /**
   * `_posture_hint_from_box` (server.py:83-92): the height/width ratio, each
   * floored at 1, above 2.2 reads as upright, below 1.4 as crouched, and
   * anything in between as unknown. Stated without division: bh/bw > 2.2 is
   * 5*bh > 11*bw and bh/bw < 1.4 is 5*bh < 7*bw.
   */
  function PostureHint(b: Box): (p: string)
    ensures p == StandingUpright <==> 5 * BoxHeight(b) > 11 * BoxWidth(b)
    ensures p == CrouchedSitting <==> 5 * BoxHeight(b) < 7 * BoxWidth(b)
    ensures p == UnknownPosture <==> 7 * BoxWidth(b) <= 5 * BoxHeight(b) <= 11 * BoxWidth(b)
  {
    var bw := BoxWidth(b);
    var bh := BoxHeight(b);
    var ar := (bh as real) / (bw as real);
    assert 2.2 == (11 as real) / (5 as real);
    assert 1.4 == (7 as real) / (5 as real);
    RatioCompare(bh, bw, 11, 5);
    RatioCompare(bh, bw, 7, 5);
    if ar > 2.2 then StandingUpright
    else if ar < 1.4 then CrouchedSitting
    else UnknownPosture
  }

  // ---------------------------------------------------------------------------
  // Child-by-scale hint and the upper median
  // ---------------------------------------------------------------------------

  /** `sorted(heights)[len(heights) // 2]`: for an even length, the upper of the two middle values. */
  function UpperMedian(heights: seq<int>): int
    requires heights != []
  {
    SortInts(heights)[|heights| / 2]
  }

  /**
   * `_child_by_scale_hint(person_heights, this_height)` (server.py:107-114):
   * never for an empty list; otherwise this height < 0.65 * the upper
   * median, that is 20 * this < 13 * median.
   */
  function ChildByScaleHint(heights: seq<int>, thisHeight: int): (r: bool)
    ensures heights == [] ==> !r
    ensures heights != [] ==> (r <==> 20 * thisHeight < 13 * UpperMedian(heights))
  {
    if heights == [] then false
    else
      var median := UpperMedian(heights);
      assert (thisHeight as real) < 0.65 * (median as real) <==> 20 * thisHeight < 13 * median;
      (thisHeight as real) < 0.65 * (median as real)
  }

  /** How many elements of `s` are below `m` (strictly, or not). */
  function CountBelow(s: seq<int>, m: int, strict: bool): (n: nat)
    ensures n <= |s|
  {
    if s == [] then 0
    else (if s[0] < m || (!strict && s[0] == m) then 1 else 0) + CountBelow(s[1..], m, strict)
  }

  lemma {:induction false} CountBelowAppend(a: seq<int>, b: seq<int>, m: int, strict: bool)
    ensures CountBelow(a + b, m, strict) == CountBelow(a, m, strict) + CountBelow(b, m, strict)
  {
    if a == [] {
      assert a + b == b;
    } else {
      assert (a + b)[1..] == a[1..] + b;
      CountBelowAppend(a[1..], b, m, strict);
    }
  }

  /** Counting does not depend on the order of the elements. */
  lemma {:induction false} CountBelowPermutation(a: seq<int>, b: seq<int>, m: int, strict: bool)
    requires multiset(a) == multiset(b)
    ensures CountBelow(a, m, strict) == CountBelow(b, m, strict)
    decreases |a|
  {
    if a == [] {
      assert b == [];
    } else {
      assert a[0] in multiset(b);
      var k :| 0 <= k < |b| && b[k] == a[0];
      var rest := b[..k] + b[k + 1..];
      RemoveMatching(a, b, k);
      CountBelowPermutation(a[1..], rest, m, strict);
      CountBelowRemove(b, k, m, strict);
    }
  }

  /** Taking the same element out of two permutations of each other leaves permutations of each other. */
  lemma RemoveMatching(a: seq<int>, b: seq<int>, k: nat)
    requires multiset(a) == multiset(b) && a != [] && k < |b| && b[k] == a[0]
    ensures multiset(a[1..]) == multiset(b[..k] + b[k + 1..])
  {
    assert a == [a[0]] + a[1..];
    assert b == b[..k] + [b[k]] + b[k + 1..];
    assert multiset(a[1..]) == multiset(a) - multiset{a[0]};
    assert multiset(b[..k] + b[k + 1..]) == multiset(b) - multiset{b[k]};
  }

  /** Counting with element k taken out: the count of the rest plus that element's own contribution. */
  lemma CountBelowRemove(b: seq<int>, k: nat, m: int, strict: bool)
    requires k < |b|
    ensures CountBelow(b, m, strict) ==
      CountBelow(b[..k] + b[k + 1..], m, strict) + (if b[k] < m || (!strict && b[k] == m) then 1 else 0)
  {
    var pre, post := b[..k], b[k + 1..];
    assert b == pre + [b[k]] + post;
    CountBelowAppend(pre + [b[k]], post, m, strict);
    CountBelowAppend(pre, [b[k]], m, strict);
    CountBelowAppend(pre, post, m, strict);
    assert [b[k]][1..] == [];
  }

  lemma {:induction false} CountBelowAll(s: seq<int>, m: int, strict: bool)
    requires forall i :: 0 <= i < |s| ==> s[i] < m || (!strict && s[i] == m)
    ensures CountBelow(s, m, strict) == |s|
  {
    if s != [] {
      CountBelowAll(s[1..], m, strict);
    }
  }

  lemma {:induction false} CountBelowNone(s: seq<int>, m: int)
    requires forall i :: 0 <= i < |s| ==> s[i] >= m
    ensures CountBelow(s, m, true) == 0
  {
    if s != [] {
      CountBelowNone(s[1..], m);
    }
  }

  /**
   * The value `_child_by_scale_hint` compares against is the upper median:
   * at most half of the heights (rounded down) lie strictly below it, and
   * more than half lie at or below it.
   */
  lemma UpperMedianRank(heights: seq<int>)
    requires heights != []
    ensures CountBelow(heights, UpperMedian(heights), true) <= |heights| / 2
    ensures CountBelow(heights, UpperMedian(heights), false) >= |heights| / 2 + 1
  {
    var r := SortInts(heights);
    var m := r[|r| / 2];
    CountBelowPermutation(heights, r, m, true);
    CountBelowPermutation(heights, r, m, false);
    SortedBelowMiddle(r, |r| / 2);
  }

  /** In a sorted sequence, at most k elements are below s[k] and at least k + 1 are at or below it. */
  lemma SortedBelowMiddle(r: seq<int>, k: nat)
    requires Sorted(r) && k < |r|
    ensures CountBelow(r, r[k], true) <= k
    ensures CountBelow(r, r[k], false) >= k + 1
  {
    var m := r[k];
    assert r == r[..k] + r[k..];
    CountBelowAppend(r[..k], r[k..], m, true);
    CountBelowNone(r[k..], m);
    assert r == r[..k + 1] + r[k + 1..];
    CountBelowAppend(r[..k + 1], r[k + 1..], m, false);
    CountBelowAll(r[..k + 1], m, false);
  }
}
