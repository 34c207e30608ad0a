/**
 * The aggregates the dashboard recomputes on every tick: sums over the
 * 30-bucket windows, throughput and bandwidth from them, and the 95th
 * percentile of the latency history. JavaScript doubles are modelled as exact
 * reals (for the two averages) and integers (for the percentile index).
 */
module Metrics {
  import opened Wrappers
  import opened Numbers

  /** The number of one-second buckets in each window. */
  const Buckets: nat := 30

  /** `arr.reduce((a, b) => a + b, 0)`. */
  function Sum(s: seq<int>): int
  {
    if |s| == 0 then 0 else Sum(s[..|s| - 1]) + s[|s| - 1]
  }

  lemma {:induction false} SumAppend(a: seq<int>, b: seq<int>)
    ensures Sum(a + b) == Sum(a) + Sum(b)
    decreases |b|
  {
    if |b| == 0 {
      assert a + b == a;
    } else {
      assert (a + b)[..|a + b| - 1] == a + b[..|b| - 1];
      SumAppend(a, b[..|b| - 1]);
    }
  }

  /** Zeroing one bucket takes exactly its count out of the total. */
  lemma SumZeroAt(s: seq<int>, i: nat)
    requires i < |s|
    ensures Sum(s[i := 0]) == Sum(s) - s[i]
  {
    var t := s[i := 0];
    assert s == s[..i] + [s[i]] + s[i + 1..];
    assert t == s[..i] + [0] + s[i + 1..];
    SumAppend(s[..i] + [s[i]], s[i + 1..]);
    SumAppend(s[..i], [s[i]]);
    SumAppend(s[..i] + [0], s[i + 1..]);
    SumAppend(s[..i], [0]);
    assert Sum([s[i]]) == s[i] by { assert [s[i]][..0] == []; }
    assert Sum([0]) == 0 by { assert [0][..0] == []; }
  }

  /** Adding to one bucket adds the same amount to the total. */
  lemma SumAddAt(s: seq<int>, i: nat, d: int)
    requires i < |s|
    ensures Sum(s[i := s[i] + d]) == Sum(s) + d
  {
    SumZeroAt(s, i);
    SumZeroAt(s[i := s[i] + d], i);
    assert s[i := s[i] + d][i := 0] == s[i := 0];
  }

  /** A window of non-negative buckets has a non-negative total bounded by n times the largest bucket. */
  lemma {:induction false} SumBounds(s: seq<int>, m: int)
    requires forall i :: 0 <= i < |s| ==> 0 <= s[i] <= m
    ensures 0 <= Sum(s) <= |s| * m
    decreases |s|
  {
    if |s| > 0 {
      SumBounds(s[..|s| - 1], m);
    }
  }

  lemma {:induction false} SumConstant(n: nat, c: int)
    ensures Sum(seq(n, _ => c)) == n * c
  {
    if n > 0 {
      assert seq(n, _ => c)[..n - 1] == seq(n - 1, _ => c);
      SumConstant(n - 1, c);
    }
  }

  /** Messages per second averaged over the window: `sum(countWindow) / 30`. */
  function Throughput(counts: seq<int>): real
  {
    Sum(counts) as real / Buckets as real
  }

  /** The busiest bucket, and 0 for no buckets or only negative ones. */
  function Peak(s: seq<int>): (m: int)
    ensures m >= 0
    ensures forall i :: 0 <= i < |s| ==> s[i] <= m
  {
    if |s| == 0 then 0
    else
      var front := s[..|s| - 1];
      assert forall i :: 0 <= i < |front| ==> front[i] == s[i];
      Max(Peak(front), s[|s| - 1])
  }

  /** A window of non-negative buckets has a rate between 0 and its busiest bucket. */
  lemma ThroughputBounds(counts: seq<int>)
    requires forall i :: 0 <= i < |counts| ==> counts[i] >= 0
    ensures Throughput(counts) >= 0.0
    ensures |counts| == Buckets ==> Throughput(counts) <= Peak(counts) as real
  {
    SumBounds(counts, Peak(counts));
  }

  /** Kilobytes per second averaged over the window: `(sum(bytesWindow) / 1024) / 30`. */
  function Bandwidth(bytes: seq<int>): real
  {
    (Sum(bytes) as real / 1024.0) / Buckets as real
  }

  /**
   * Half the window busy with 2 messages and 100 bytes per bucket, the other
   * half idle: one message per second and 1500/1024/30 kilobytes per second.
   */
  lemma HalfBusyWindow()
    ensures Throughput(seq(15, _ => 2) + seq(15, _ => 0)) == 1.0
    ensures Bandwidth(seq(15, _ => 100) + seq(15, _ => 0)) == 1500.0 / 1024.0 / 30.0
  {
    SumAppend(seq(15, _ => 2), seq(15, _ => 0));
    SumConstant(15, 2);
    SumConstant(15, 0);
    SumAppend(seq(15, _ => 100), seq(15, _ => 0));
    SumConstant(15, 100);
  }

  // ---- The ring ----

  /** One tick of the ring: the cursor moves on and the bucket it lands on is emptied. */
  function Advance(w: seq<int>, c: nat): (r: seq<int>)
    requires |w| == Buckets && c < Buckets
    ensures |r| == Buckets
  {
    w[(c + 1) % Buckets := 0]
  }

  /** The window after `k` ticks with no traffic, starting from cursor `c`. */
  function AdvanceBy(w: seq<int>, c: nat, k: nat): (r: seq<int>)
    requires |w| == Buckets && c < Buckets
    ensures |r| == Buckets
  {
    if k == 0 then w else Advance(AdvanceBy(w, c, k - 1), (c + k - 1) % Buckets)
  }

  /**
   * After `k <= 30` quiet ticks exactly the `k` buckets following the cursor
   * are empty and every other bucket keeps its count: a bucket's traffic stays
   * in the totals for 29 more ticks and is forgotten on the 30th.
   */
  lemma {:induction false} AdvanceByCleared(w: seq<int>, c: nat, k: nat, j: nat)
    requires |w| == Buckets && c < Buckets && k <= Buckets && j < Buckets
    ensures AdvanceBy(w, c, k)[j] == if (j - c - 1) % Buckets < k then 0 else w[j]
    decreases k
  {
    if k > 0 {
      AdvanceByCleared(w, c, k - 1, j);
      RingStep(c, k, j);
    }
  }

  /** The modular facts behind one step of `AdvanceByCleared`, with the remainders written out. */
  lemma RingStep(c: nat, k: nat, j: nat)
    requires c < Buckets && 1 <= k <= Buckets && j < Buckets
    ensures ((c + k - 1) % Buckets + 1) % Buckets == (c + k) % Buckets
    ensures (j - c - 1) % Buckets < k <==> (j - c - 1) % Buckets < k - 1 || j == (c + k) % Buckets
  {
    var p := if c + k - 1 < Buckets then c + k - 1 else c + k - 1 - Buckets;
    assert (c + k - 1) % Buckets == p;
    var q := if c + k < Buckets then c + k else c + k - Buckets;
    assert (c + k) % Buckets == q;
    var d := if j - c - 1 >= 0 then j - c - 1 else j - c - 1 + Buckets;
    assert (j - c - 1) % Buckets == d;
  }

  /** The bucket being filled survives 29 ticks; after 30 the whole window is empty. */
  lemma WindowLifetime(w: seq<int>, c: nat)
    requires |w| == Buckets && c < Buckets
    ensures AdvanceBy(w, c, Buckets - 1)[c] == w[c]
    ensures AdvanceBy(w, c, Buckets) == seq(Buckets, _ => 0)
  {
    AdvanceByCleared(w, c, Buckets - 1, c);
    forall j | 0 <= j < Buckets ensures AdvanceBy(w, c, Buckets)[j] == 0 {
      AdvanceByCleared(w, c, Buckets, j);
    }
  }

  // ---- The sorted copy behind the percentile ----

  predicate Sorted(s: seq<int>)
  {
    forall i, j :: 0 <= i < j < |s| ==> s[i] <= s[j]
  }

  /** Place `x` in front of the first element of `t` that is not smaller. */
  function Insert(x: int, t: seq<int>): (r: seq<int>)
    ensures multiset(r) == multiset(t) + multiset{x}
  {
    if |t| == 0 then [x]
    else if x <= t[0] then [x] + t
    else
      assert t == [t[0]] + t[1..];
      [t[0]] + Insert(x, t[1..])
  }

  /** `slice().sort((a, b) => a - b)`: an ascending copy. */
  function SortAscending(s: seq<int>): (r: seq<int>)
    ensures multiset(r) == multiset(s)
  {
    if |s| == 0 then []
    else
      assert s == [s[0]] + s[1..];
      Insert(s[0], SortAscending(s[1..]))
  }

  lemma {:induction false} InsertSorted(x: int, t: seq<int>)
    requires Sorted(t)
    ensures Sorted(Insert(x, t))
    decreases |t|
  {
    if |t| > 0 && x > t[0] {
      InsertSorted(x, t[1..]);
      var r := Insert(x, t[1..]);
      forall j | 0 <= j < |r| ensures t[0] <= r[j] {
        assert r[j] in multiset(r);
        assert r[j] == x || r[j] in multiset(t[1..]);
      }
      assert Insert(x, t) == [t[0]] + r;
    }
  }

  lemma {:induction false} SortSorted(s: seq<int>)
    ensures Sorted(SortAscending(s))
    decreases |s|
  {
    if |s| > 0 {
      SortSorted(s[1..]);
      InsertSorted(s[0], SortAscending(s[1..]));
    }
  }

  /** An already sorted history is its own sorted copy. */
  lemma {:induction false} SortOfSorted(s: seq<int>)
    requires Sorted(s)
    ensures SortAscending(s) == s
    decreases |s|
  {
    if |s| > 0 {
      SortOfSorted(s[1..]);
      assert s == [s[0]] + s[1..];
    }
  }

  // ---- Ranks ----

  /** How many entries are at most `v`. */
  function CountAtMost(s: seq<int>, v: int): nat
  {
    if |s| == 0 then 0 else (if s[0] <= v then 1 else 0) + CountAtMost(s[1..], v)
  }

  /** How many entries are below `v`. */
  function CountBelow(s: seq<int>, v: int): nat
  {
    if |s| == 0 then 0 else (if s[0] < v then 1 else 0) + CountBelow(s[1..], v)
  }

  lemma {:induction false} InsertCounts(x: int, t: seq<int>, v: int)
    ensures CountAtMost(Insert(x, t), v) == CountAtMost(t, v) + (if x <= v then 1 else 0)
    ensures CountBelow(Insert(x, t), v) == CountBelow(t, v) + (if x < v then 1 else 0)
    decreases |t|
  {
    if |t| > 0 && x > t[0] {
      InsertCounts(x, t[1..], v);
      assert ([t[0]] + Insert(x, t[1..]))[1..] == Insert(x, t[1..]);
    } else if |t| > 0 {
      assert ([x] + t)[1..] == t;
    }
  }

  /** Sorting does not change how many entries lie below or at a value. */
  lemma {:induction false} SortCounts(s: seq<int>, v: int)
    ensures CountAtMost(SortAscending(s), v) == CountAtMost(s, v)
    ensures CountBelow(SortAscending(s), v) == CountBelow(s, v)
    decreases |s|
  {
    if |s| > 0 {
      SortCounts(s[1..], v);
      InsertCounts(s[0], SortAscending(s[1..]), v);
    }
  }

  /** In a sorted sequence the element at index k has at least k + 1 entries at or below it, at most k below it. */
  lemma {:induction false} SortedRank(t: seq<int>, k: nat)
    requires Sorted(t) && k < |t|
    ensures CountAtMost(t, t[k]) >= k + 1
    ensures CountBelow(t, t[k]) <= k
    decreases k
  {
    if k == 0 {
      NoneBelow(t, t[0]);
    } else {
      SortedRank(t[1..], k - 1);
      assert t[1..][k - 1] == t[k];
    }
  }

  lemma {:induction false} NoneBelow(t: seq<int>, v: int)
    requires forall i :: 0 <= i < |t| ==> v <= t[i]
    ensures CountBelow(t, v) == 0
    decreases |t|
  {
    if |t| > 0 {
      NoneBelow(t[1..], v);
    }
  }

  // ---- The 95th percentile ----

  /**
   * `Math.min(n - 1, Math.floor(0.95 * (n - 1)))`, in integers. The double
   * `0.95` lies below 95/100 by less than half a unit in the last place of
   * any integer product, so the floor agrees with the exact quotient here.
   */
  function P95Index(n: nat): (k: nat)
    requires n > 0
    ensures k < n
  {
    Min(n - 1, (95 * (n - 1)) / 100)
  }

  /** The p95 read-out: the entry of rank `P95Index` in a sorted copy, or none ("--") for an empty history. */
  function P95(samples: seq<int>): (r: Option<int>)
    ensures r.None? <==> |samples| == 0
    ensures r.Some? ==> r.value in samples
  {
    if |samples| == 0 then None
    else
      var sorted := SortAscending(samples);
      assert sorted[P95Index(|samples|)] in multiset(samples);
      Some(sorted[P95Index(|samples|)])
  }

  /**
   * Nearest rank: the p95 value has at least `P95Index(n) + 1` samples at or
   * below it and at most `P95Index(n)` strictly below it, whatever the order
   * of the history.
   */
  lemma P95Rank(samples: seq<int>)
    requires |samples| > 0
    ensures CountAtMost(samples, P95(samples).value) >= P95Index(|samples|) + 1
    ensures CountBelow(samples, P95(samples).value) <= P95Index(|samples|)
  {
    var sorted := SortAscending(samples);
    var k := P95Index(|samples|);
    SortSorted(samples);
    SortedRank(sorted, k);
    SortCounts(samples, sorted[k]);
  }

  /** For an already sorted history the p95 is the entry at its index. */
  lemma P95OfSorted(samples: seq<int>)
    requires |samples| > 0 && Sorted(samples)
    ensures P95(samples) == Some(samples[P95Index(|samples|)])
  {
    SortOfSorted(samples);
  }

  /** Latencies 10, 20, ..., 1000: index floor(0.95 * 99) = 94, value 950. */
  lemma P95Of100()
    ensures P95(seq(100, i => 10 * (i + 1))) == Some(950)
  {
    var s := seq(100, i => 10 * (i + 1));
    assert P95Index(100) == 94;
    P95OfSorted(s);
  }
}
