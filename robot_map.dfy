/**
 * The robot map element's trajectory: points are appended as poses arrive
 * and every point older than 30 seconds before the point just inserted is
 * dropped. Drawing on the canvas is not part of this model.
 */
module RobotMapComponent {

  /** How far back, in milliseconds, the trajectory reaches. */
  const TrailMs: int := 30_000

  datatype Pt = Pt(x: real, y: real, t: int)

  /** `points.filter(p => p.t >= cutoff)`. */
  function KeepSince(pts: seq<Pt>, cutoff: int): (r: seq<Pt>)
    ensures |r| <= |pts|
  {
    if |pts| == 0 then []
    else KeepSince(pts[..|pts| - 1], cutoff) + (if pts[|pts| - 1].t >= cutoff then [pts[|pts| - 1]] else [])
  }

  /** Every retained point is within `TrailMs` of the last point of the trail. */
  ghost predicate Recent(pts: seq<Pt>)
  {
    forall i :: 0 <= i < |pts| ==> pts[i].t >= pts[|pts| - 1].t - TrailMs
  }

  /** The trail after `addPoint(p.x, p.y, p.t)`. */
  function AddPointTo(pts: seq<Pt>, p: Pt): seq<Pt>
  {
    KeepSince(pts + [p], p.t - TrailMs)
  }

  class RobotMap {
    var points: seq<Pt>

    ghost predicate Valid()
      reads this
    {
      Recent(points)
    }

    constructor ()
      ensures Valid() && points == []
    {
      points := [];
    }

    /** `addPoint`: push, then keep the points no older than `ts - 30000`. */
    method AddPoint(x: real, y: real, ts: int)
      modifies this`points
      ensures Valid()
      ensures points == AddPointTo(old(points), Pt(x, y, ts))
    {
      points := points + [Pt(x, y, ts)];
      var cutoff := ts - TrailMs;
      AddPointKeepsInserted(old(points), Pt(x, y, ts));
      points := KeepSince(points, cutoff);
    }

    /** `clear`: the trail empties. */
    method Clear()
      modifies this`points
      ensures Valid() && points == []
    {
      points := [];
    }
  }

  /** A point survives the filter exactly when it was there and is not older than the cutoff. */
  lemma {:induction false} KeepSinceMembers(pts: seq<Pt>, cutoff: int, p: Pt)
    ensures p in KeepSince(pts, cutoff) <==> p in pts && p.t >= cutoff
    decreases |pts|
  {
    if |pts| > 0 {
      var init := pts[..|pts| - 1];
      KeepSinceMembers(init, cutoff, p);
      assert pts == init + [pts[|pts| - 1]];
    }
  }

  /** The filter keeps survivors in their relative order: it distributes over concatenation. */
  lemma {:induction false} KeepSinceAppend(a: seq<Pt>, b: seq<Pt>, cutoff: int)
    ensures KeepSince(a + b, cutoff) == KeepSince(a, cutoff) + KeepSince(b, cutoff)
    decreases |b|
  {
    if |b| == 0 {
      assert a + b == a;
    } else {
      var b' := b[..|b| - 1];
      assert (a + b)[..|a + b| - 1] == a + b';
      KeepSinceAppend(a, b', cutoff);
    }
  }

  /**
   * After `addPoint(x, y, ts)` the inserted point is the last one, and every
   * point kept is no older than `ts - 30000` (the inserted time, even when an
   * earlier point was newer).
   */
  lemma AddPointKeepsInserted(pts: seq<Pt>, p: Pt)
    ensures var r := AddPointTo(pts, p);
      && |r| > 0 && r[|r| - 1] == p
      && (forall i :: 0 <= i < |r| ==> r[i].t >= p.t - TrailMs)
      && Recent(r)
  {
    var r := AddPointTo(pts, p);
    assert (pts + [p])[..|pts|] == pts;
    forall i | 0 <= i < |r| ensures r[i].t >= p.t - TrailMs {
      KeepSinceMembers(pts + [p], p.t - TrailMs, r[i]);
    }
  }

  /** Filtering with a later cutoff after an earlier one is filtering with the later one. */
  lemma {:induction false} KeepSinceTwice(pts: seq<Pt>, c1: int, c2: int)
    requires c1 <= c2
    ensures KeepSince(KeepSince(pts, c1), c2) == KeepSince(pts, c2)
    decreases |pts|
  {
    if |pts| > 0 {
      var init, last := pts[..|pts| - 1], pts[|pts| - 1];
      KeepSinceTwice(init, c1, c2);
      KeepSinceAppend(KeepSince(init, c1), if last.t >= c1 then [last] else [], c2);
      assert KeepSince([last], c2) == (if last.t >= c2 then [last] else []) by {
        assert [last][..0] == [];
      }
      assert KeepSince([], c2) == [];
    }
  }

  predicate NonDecreasing(pts: seq<Pt>)
  {
    forall i, j :: 0 <= i < j < |pts| ==> pts[i].t <= pts[j].t
  }

  /** The trail after inserting `pts` in order, starting from an empty map. */
  function Replay(pts: seq<Pt>): seq<Pt>
  {
    if |pts| == 0 then [] else AddPointTo(Replay(pts[..|pts| - 1]), pts[|pts| - 1])
  }

  /**
   * When poses arrive in time order the trail is exactly the points no older
   * than 30 seconds before the newest one.
   */
  lemma {:induction false} ReplayInOrder(pts: seq<Pt>)
    requires |pts| > 0 && NonDecreasing(pts)
    ensures Replay(pts) == KeepSince(pts, pts[|pts| - 1].t - TrailMs)
    decreases |pts|
  {
    var init, p := pts[..|pts| - 1], pts[|pts| - 1];
    var c := p.t - TrailMs;
    if |init| == 0 {
      assert pts == [] + [p];
    } else {
      ReplayInOrder(init);
      var c0 := init[|init| - 1].t - TrailMs;
      assert c0 <= c;
      KeepSinceAppend(KeepSince(init, c0), [p], c);
      KeepSinceTwice(init, c0, c);
      KeepSinceAppend(init, [p], c);
      assert init + [p] == pts;
    }
  }

  /** `KeepSince` on points ordered around the cutoff at index `j` keeps exactly `pts[j..]`. */
  lemma {:induction false} KeepSinceSplit(pts: seq<Pt>, cutoff: int, j: nat)
    requires j <= |pts|
    requires forall i :: 0 <= i < j ==> pts[i].t < cutoff
    requires forall i :: j <= i < |pts| ==> pts[i].t >= cutoff
    ensures KeepSince(pts, cutoff) == pts[j..]
    decreases |pts|
  {
    if |pts| > 0 {
      var init := pts[..|pts| - 1];
      if j == |pts| {
        KeepSinceSplit(init, cutoff, j - 1);
      } else {
        KeepSinceSplit(init, cutoff, j);
        assert pts[j..] == init[j..] + [pts[|pts| - 1]];
      }
    }
  }

  /** Poses at t = 0, 1000, ..., 40000 ms leave exactly the 31 points from t = 10000 on. */
  lemma FortyOneSeconds()
    ensures var pts := seq(41, k => Pt(0.0, 0.0, 1000 * k));
      && Replay(pts) == pts[10..]
      && |Replay(pts)| == 31
      && forall i :: 0 <= i < 31 ==> Replay(pts)[i].t == 10000 + 1000 * i
  {
    var pts := seq(41, k => Pt(0.0, 0.0, 1000 * k));
    ReplayInOrder(pts);
    KeepSinceSplit(pts, 10000, 10);
  }
}
