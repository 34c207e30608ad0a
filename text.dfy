/**
 * The string built-ins the dashboard relies on, as JavaScript and Rust define
 * them: `split("|")`, `includes`, and the two length measures (`length` counts
 * UTF-16 code units in JavaScript, `len()` counts UTF-8 bytes in Rust).
 * A Dafny `string` is a sequence of Unicode scalar values.
 */
module Text {

  /** The field delimiter of a chatter payload. */
  const Bar: char := '|'

  /** `s.lastIndexOf(c)`: the position of the last `c` in `s`, or -1. */
  function LastIndexOf(s: string, c: char): (k: int)
    ensures -1 <= k < |s|
    ensures k >= 0 ==> s[k] == c
    ensures forall j :: k < j < |s| ==> s[j] != c
  {
    if |s| == 0 then -1
    else if s[|s| - 1] == c then |s| - 1
    else LastIndexOf(s[..|s| - 1], c)
  }

  /** The number of occurrences of `c` in `s`. */
  function Occurrences(s: string, c: char): nat
  {
    if |s| == 0 then 0
    else Occurrences(s[..|s| - 1], c) + (if s[|s| - 1] == c then 1 else 0)
  }

  /**
   * `s.split("|")`: the pieces between the bars, left to right. There is
   * always at least one piece (the empty string splits into `[""]`).
   */
  function Split(s: string): (parts: seq<string>)
    ensures |parts| >= 1
    decreases |s|
  {
    var k := LastIndexOf(s, Bar);
    if k < 0 then [s] else Split(s[..k]) + [s[k + 1..]]
  }

  /** `parts.join("|")`, the inverse of `Split`. */
  function Join(parts: seq<string>): string
    requires |parts| >= 1
  {
    if |parts| == 1 then parts[0]
    else Join(parts[..|parts| - 1]) + [Bar] + parts[|parts| - 1]
  }

  /** The last bar of `a + "|" + b` is the one between them when `b` holds none. */
  lemma LastBar(a: string, b: string)
    requires Bar !in b
    ensures LastIndexOf(a + [Bar] + b, Bar) == |a|
  {
    var s := a + [Bar] + b;
    var k := LastIndexOf(s, Bar);
    assert s[|a|] == Bar;
  }

  /** Splitting at a final bar: the last piece is what follows it. */
  lemma SplitLast(a: string, b: string)
    requires Bar !in b
    ensures Split(a + [Bar] + b) == Split(a) + [b]
  {
    var s := a + [Bar] + b;
    LastBar(a, b);
    assert s[..|a|] == a;
    assert s[|a| + 1..] == b;
  }

  /** Joining the pieces gives back the text, and no piece holds a bar. */
  lemma {:induction false} JoinSplit(s: string)
    ensures Join(Split(s)) == s
    ensures forall p :: p in Split(s) ==> Bar !in p
    decreases |s|
  {
    var k := LastIndexOf(s, Bar);
    if k < 0 {
      assert Split(s) == [s];
    } else {
      var a, b := s[..k], s[k + 1..];
      JoinSplit(a);
      var ps := Split(a);
      assert Split(s) == ps + [b];
      assert (ps + [b])[..|ps|] == ps;
      assert s == a + [Bar] + b;
    }
  }

  /** Splitting a join of bar-free pieces gives back the pieces. */
  lemma {:induction false} SplitJoin(parts: seq<string>)
    requires |parts| >= 1
    requires forall i :: 0 <= i < |parts| ==> Bar !in parts[i]
    ensures Split(Join(parts)) == parts
    decreases |parts|
  {
    if |parts| > 1 {
      var init, last := parts[..|parts| - 1], parts[|parts| - 1];
      SplitJoin(init);
      SplitLast(Join(init), last);
      assert init + [last] == parts;
    }
  }

  lemma {:induction false} OccurrencesAppend(a: string, b: string, c: char)
    ensures Occurrences(a + b, c) == Occurrences(a, c) + Occurrences(b, c)
    decreases |b|
  {
    if |b| > 0 {
      var b' := b[..|b| - 1];
      assert (a + b)[..|a + b| - 1] == a + b';
      OccurrencesAppend(a, b', c);
    } else {
      assert a + b == a;
    }
  }

  lemma {:induction false} NoOccurrences(s: string, c: char)
    requires c !in s
    ensures Occurrences(s, c) == 0
    decreases |s|
  {
    if |s| > 0 {
      assert s[..|s| - 1] + [s[|s| - 1]] == s;
      NoOccurrences(s[..|s| - 1], c);
    }
  }

  /** `split("|")` yields one more piece than there are bars. */
  lemma {:induction false} SplitCount(s: string)
    ensures |Split(s)| == Occurrences(s, Bar) + 1
    decreases |s|
  {
    JoinSplit(s);
    var k := LastIndexOf(s, Bar);
    if k < 0 {
      NoOccurrences(s, Bar);
    } else {
      var a, b := s[..k], s[k + 1..];
      assert s == a + [Bar] + b;
      SplitCount(a);
      OccurrencesAppend(a + [Bar], b, Bar);
      OccurrencesAppend(a, [Bar], Bar);
      assert Occurrences([Bar], Bar) == 1 by {
        assert [Bar][..0] == [];
      }
      NoOccurrences(b, Bar);
    }
  }

  /** `p` is a prefix of `s`. */
  predicate IsPrefix(p: string, s: string)
  {
    |p| <= |s| && s[..|p|] == p
  }

  /** `s.includes(f)`: `f` occurs in `s` at some position. */
  predicate Contains(s: string, f: string)
    ensures Contains(s, f) ==> |f| <= |s|
    decreases |s|
  {
    IsPrefix(f, s) || (|s| > 0 && Contains(s[1..], f))
  }

  /** Every string includes the empty string. */
  lemma ContainsEmpty(s: string)
    ensures Contains(s, "")
  {
    assert IsPrefix("", s);
  }

  /** A slice of `s` equal to `f` means `s` includes `f`. */
  lemma {:induction false} ContainsAt(s: string, f: string, i: nat)
    requires i + |f| <= |s| && s[i..i + |f|] == f
    ensures Contains(s, f)
    decreases i
  {
    if i == 0 {
      assert IsPrefix(f, s);
    } else {
      assert s[1..][i - 1..i - 1 + |f|] == s[i..i + |f|];
      ContainsAt(s[1..], f, i - 1);
    }
  }

  /** Conversely, when `s` includes `f` some slice of `s` equals `f`. */
  lemma {:induction false} ContainsIndex(s: string, f: string) returns (i: nat)
    requires Contains(s, f)
    ensures i + |f| <= |s| && s[i..i + |f|] == f
    decreases |s|
  {
    if IsPrefix(f, s) {
      i := 0;
    } else {
      var j := ContainsIndex(s[1..], f);
      assert s[1..][j..j + |f|] == s[j + 1..j + 1 + |f|];
      i := j + 1;
    }
  }

  /** JavaScript's `s.length`: characters beyond the Basic Multilingual Plane take two UTF-16 units. */
  function Utf16Len(s: string): (n: nat)
    ensures |s| <= n <= 2 * |s|
  {
    if |s| == 0 then 0
    else Utf16Len(s[..|s| - 1]) + (if s[|s| - 1] as int >= 0x1_0000 then 2 else 1)
  }

  /** Rust's `str::len()`: the number of UTF-8 bytes. */
  function Utf8Len(s: string): (n: nat)
    ensures |s| <= n <= 4 * |s|
  {
    if |s| == 0 then 0
    else
      var c := s[|s| - 1] as int;
      Utf8Len(s[..|s| - 1]) + (if c < 0x80 then 1 else if c < 0x800 then 2 else if c < 0x1_0000 then 3 else 4)
  }

  /** For ASCII text all three measures agree. */
  lemma {:induction false} AsciiLengths(s: string)
    requires forall i :: 0 <= i < |s| ==> s[i] as int < 0x80
    ensures Utf16Len(s) == |s| && Utf8Len(s) == |s|
    decreases |s|
  {
    if |s| > 0 {
      AsciiLengths(s[..|s| - 1]);
    }
  }
}
