/**
 * The bounded histories of the dashboard (latency samples, the sample
 * ledger, the log lines) all append with `push` and then drop one element
 * with `shift` when they exceed their capacity. `Newest` is what such a
 * buffer is meant to hold: the most recent `cap` entries, oldest first.
 */
module Fifo {

  /** The last `min(cap, |s|)` entries of `s`, in their original order. */
  function Newest<T>(s: seq<T>, cap: nat): seq<T>
  {
    if |s| <= cap then s else s[|s| - cap..]
  }

  /** The source's step: append, then shift once if over capacity. */
  function PushShift<T>(s: seq<T>, x: T, cap: nat): seq<T>
  {
    var t := s + [x];
    if |t| > cap then t[1..] else t
  }

  /**
   * On a buffer within its capacity the push-then-shift step keeps exactly
   * the newest entries: the new one is last, at most `cap` remain, and only
   * the single oldest entry is evicted, only when the buffer was full.
   */
  lemma PushShiftIsNewest<T>(s: seq<T>, x: T, cap: nat)
    requires 0 < cap && |s| <= cap
    ensures PushShift(s, x, cap) == Newest(s + [x], cap)
    ensures |Newest(s + [x], cap)| == if |s| < cap then |s| + 1 else cap
    ensures Newest(s + [x], cap) == (if |s| < cap then s else s[1..]) + [x]
  {
    var t := s + [x];
    if |s| == cap {
      assert t[|t| - cap..] == t[1..];
      assert t[1..] == s[1..] + [x];
    }
  }

  /** Trimming to the newest entries first and then appending loses nothing further. */
  lemma NewestAppend<T>(s: seq<T>, x: T, cap: nat)
    requires 0 < cap
    ensures Newest(Newest(s, cap) + [x], cap) == Newest(s + [x], cap)
  {
    var n := Newest(s, cap);
    var t := s + [x];
    if |s| > cap {
      assert n + [x] == t[|s| - cap..];
      assert (n + [x])[1..] == t[|t| - cap..];
    }
  }

  /** The buffer after pushing `xs` one at a time onto `buf`. */
  function PushAll<T>(buf: seq<T>, xs: seq<T>, cap: nat): seq<T>
    decreases |xs|
  {
    if |xs| == 0 then buf else PushShift(PushAll(buf, xs[..|xs| - 1], cap), xs[|xs| - 1], cap)
  }

  /**
   * From an empty buffer, any run of pushes leaves exactly the newest `cap`
   * entries pushed, in order: eviction is strictly oldest first.
   */
  lemma {:induction false} PushAllIsNewest<T>(xs: seq<T>, cap: nat)
    requires 0 < cap
    ensures PushAll([], xs, cap) == Newest(xs, cap)
    ensures |PushAll([], xs, cap)| <= cap
    decreases |xs|
  {
    if |xs| > 0 {
      var init, x := xs[..|xs| - 1], xs[|xs| - 1];
      PushAllIsNewest(init, cap);
      PushShiftIsNewest(Newest(init, cap), x, cap);
      NewestAppend(init, x, cap);
      assert init + [x] == xs;
    }
  }
}
