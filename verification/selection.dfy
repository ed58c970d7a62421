/** The detection callback: the circles of one message are folded into the
    held detection, which a circle replaces only when its size is strictly
    larger. */
module Selection {
  import opened TrackerState

  /** One pass of the callback's loop: `c` replaces `held` only if it is
      strictly larger, so on a tie the earlier one stays. */
  function Offer(held: Point, c: Point): (r: Point)
    ensures held.z < c.z ==> r == c
    ensures c.z <= held.z ==> r == held
  {
    if held.z >= c.z then held else c
  }

  /** The loop over all circles of one message, left to right. */
  function Select(held: Point, cs: seq<Point>): (r: Point)
    ensures r == held || r in cs
    ensures held.z <= r.z
    ensures r != held ==> held.z < r.z
    ensures forall i :: 0 <= i < |cs| ==> cs[i].z <= r.z
    decreases |cs|
  {
    if |cs| == 0 then held else Offer(Select(held, cs[..|cs| - 1]), cs[|cs| - 1])
  }

  /** Circle `i` is the first circle of maximal size, and it beats `held`. */
  ghost predicate FirstLargestAt(held: Point, cs: seq<Point>, i: int)
  {
    && 0 <= i < |cs|
    && held.z < cs[i].z
    && (forall j :: 0 <= j < i ==> cs[j].z < cs[i].z)
    && (forall j :: 0 <= j < |cs| ==> cs[j].z <= cs[i].z)
  }

  /** The fold makes the stable "largest wins" choice: `held` when no circle
      beats it (`i == -1`), else the first circle of maximal size, which must
      be strictly larger than `held`. */
  lemma {:induction false} SelectIsFirstLargest(held: Point, cs: seq<Point>) returns (i: int)
    ensures i == -1 ==> Select(held, cs) == held && forall j :: 0 <= j < |cs| ==> cs[j].z <= held.z
    ensures i != -1 ==> FirstLargestAt(held, cs, i) && Select(held, cs) == cs[i]
    decreases |cs|
  {
    if |cs| == 0 {
      i := -1;
    } else {
      var p, c := cs[..|cs| - 1], cs[|cs| - 1];
      var k := SelectIsFirstLargest(held, p);
      assert forall j :: 0 <= j < |p| ==> cs[j] == p[j];
      if k == -1 {
        i := if held.z < c.z then |p| else -1;
      } else {
        i := if p[k].z < c.z then |p| else k;
      }
    }
  }

  /** At most one circle is the first largest, so the previous lemma
      determines the fold's result. */
  lemma FirstLargestIsUnique(held: Point, cs: seq<Point>, i1: int, i2: int)
    requires FirstLargestAt(held, cs, i1) && FirstLargestAt(held, cs, i2)
    ensures i1 == i2
  {
  }

  /** `ballPositionCallback`: only the held detection changes, and its size
      becomes the largest of the old held size and the incoming sizes. */
  function BallPositionCallback(t: Tracker, cs: seq<Point>): (r: Tracker)
    ensures r.(ballPosition := t.ballPosition) == t
    ensures r.ballPosition == t.ballPosition || r.ballPosition in cs
    ensures t.ballPosition.z <= r.ballPosition.z
    ensures forall i :: 0 <= i < |cs| ==> cs[i].z <= r.ballPosition.z
    ensures r.ballPosition != t.ballPosition ==> t.ballPosition.z < r.ballPosition.z
    ensures Valid(t) ==> Valid(r)
  {
    t.(ballPosition := Select(t.ballPosition, cs))
  }
}
