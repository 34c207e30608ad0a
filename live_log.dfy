/**
 * The live log element: a buffer of the latest 500 payload lines, a filter
 * string held beside it, and the virtualised rendering that draws only the
 * rows around the scroll position, with spacers standing in for the rest.
 */
module LiveLogComponent {
  import Fifo
  import Text
  import opened Numbers

  /** Pixel height of a row (`ROW_H`). */
  const RowHeight: nat := 18
  /** Capacity of the buffer (`MAX_LINES`). */
  const MaxLines: nat := 500
  /** Height of the scrolling viewport in pixels. */
  const ViewportHeight: nat := 480
  /** Rows rendered beyond the viewport, above and below. */
  const Overscan: nat := 10
  /** `Math.ceil(viewportH / ROW_H) + 20` = 27 + 20. */
  const VisibleCount: nat := (ViewportHeight + RowHeight - 1) / RowHeight + 2 * Overscan

  class LiveLog {
    var lines: seq<string>
    var filter: string
    var scrollTop: int

    ghost predicate Valid()
      reads this
    {
      |lines| <= MaxLines
    }

    constructor ()
      ensures Valid()
      ensures lines == [] && filter == "" && scrollTop == 0
    {
      lines, filter, scrollTop := [], "", 0;
    }

    /** `setFilter`: only the filter changes. */
    method SetFilter(s: string)
      requires Valid()
      modifies this`filter
      ensures Valid()
      ensures filter == s
    {
      filter := s;
    }

    /** `addLine`: append, then drop the oldest line once over `MaxLines`. */
    method AddLine(s: string)
      requires Valid()
      modifies this`lines
      ensures Valid()
      ensures lines == Fifo.Newest(old(lines) + [s], MaxLines)
    {
      Fifo.PushShiftIsNewest(lines, s, MaxLines);
      lines := lines + [s];
      if |lines| > MaxLines {
        lines := lines[1..];
      }
    }

    /** `clear`: the buffer empties, the filter stays. */
    method Clear()
      modifies this`lines
      ensures Valid()
      ensures lines == []
    {
      lines := [];
    }

    /** The scroll handler records the viewport position. */
    method OnScroll(top: int)
      requires Valid()
      modifies this`scrollTop
      ensures Valid()
      ensures scrollTop == top
    {
      scrollTop := top;
    }

    /** What `render` draws for the current state. */
    function Render(): Rendered
      reads this
    {
      RenderView(View(lines, filter), scrollTop)
    }
  }

  /** `lines.filter(l => l.includes(f))`. */
  function Matching(lines: seq<string>, f: string): (r: seq<string>)
    ensures |r| <= |lines|
  {
    if |lines| == 0 then []
    else Matching(lines[..|lines| - 1], f) + (if Text.Contains(lines[|lines| - 1], f) then [lines[|lines| - 1]] else [])
  }

  /** The rows `render` works on: all lines when the filter is empty, else the matching ones. */
  function View(lines: seq<string>, f: string): (r: seq<string>)
    ensures |r| <= |lines|
  {
    if f == "" then lines else Matching(lines, f)
  }

  /** A line is shown exactly when it is in the buffer and includes the filter. */
  lemma {:induction false} MatchingMembers(lines: seq<string>, f: string, l: string)
    ensures l in Matching(lines, f) <==> l in lines && Text.Contains(l, f)
    decreases |lines|
  {
    if |lines| > 0 {
      var init := lines[..|lines| - 1];
      MatchingMembers(init, f, l);
      assert lines == init + [lines[|lines| - 1]];
    }
  }

  /** Filtering keeps the order: it distributes over concatenation. */
  lemma {:induction false} MatchingAppend(a: seq<string>, b: seq<string>, f: string)
    ensures Matching(a + b, f) == Matching(a, f) + Matching(b, f)
    decreases |b|
  {
    if |b| == 0 {
      assert a + b == a;
    } else {
      var b' := b[..|b| - 1];
      assert (a + b)[..|a + b| - 1] == a + b';
      MatchingAppend(a, b', f);
    }
  }

  /** Every line includes "", so the empty filter shows the buffer unchanged. */
  lemma {:induction false} MatchingEmpty(lines: seq<string>)
    ensures Matching(lines, "") == lines
    decreases |lines|
  {
    if |lines| > 0 {
      MatchingEmpty(lines[..|lines| - 1]);
      Text.ContainsEmpty(lines[|lines| - 1]);
    }
  }

  /** The `this.filter ?` guard in `render` is an optimisation: the view is always the filtered buffer. */
  lemma ViewIsMatching(lines: seq<string>, f: string)
    ensures View(lines, f) == Matching(lines, f)
  {
    if f == "" {
      MatchingEmpty(lines);
    }
  }

  // ---- Virtualised rendering ----

  /** Which rows are drawn and how tall the two spacers are. */
  datatype Layout = Layout(start: int, end: int, topSpacer: int, bottomSpacer: int)

  /** The start/end/spacer arithmetic of `render`, for a view of `n` rows. */
  function ComputeLayout(n: nat, scrollTop: int): (l: Layout)
    ensures 0 <= l.start && l.end <= n && l.bottomSpacer >= 0
  {
    var totalH := n * RowHeight;
    var start := Max(0, scrollTop / RowHeight - Overscan);
    var end := Min(n, start + VisibleCount);
    var top := start * RowHeight;
    Layout(start, end, top, Max(0, totalH - top - (end - start) * RowHeight))
  }

  /** JavaScript's `a.slice(start, end)` for non-negative bounds. */
  function Slice<T>(a: seq<T>, start: nat, end: nat): (r: seq<T>)
    ensures |r| <= |a|
  {
    var from := Min(start, |a|);
    var to := Min(end, |a|);
    if to <= from then [] else a[from..to]
  }

  /** What the element draws: a top spacer, the rows, a bottom spacer (heights in pixels). */
  datatype Rendered = Rendered(topSpacer: int, rows: seq<string>, bottomSpacer: int)

  function RenderView(view: seq<string>, scrollTop: int): Rendered
  {
    var l := ComputeLayout(|view|, scrollTop);
    Rendered(l.topSpacer, Slice(view, l.start, l.end), l.bottomSpacer)
  }

  /**
   * The rendered rows are the contiguous run `view[start..end]`, at most
   * `VisibleCount` of them; when the scroll position lies past the end of a
   * shorter view (a filter was just typed) nothing is drawn.
   */
  lemma RenderedRows(view: seq<string>, scrollTop: int)
    ensures VisibleCount == 47
    ensures var l := ComputeLayout(|view|, scrollTop);
      && l.start == Max(0, scrollTop / RowHeight - Overscan)
      && l.end == Min(|view|, l.start + 47)
      && RenderView(view, scrollTop).rows == (if l.start <= |view| then view[l.start..l.end] else [])
      && |RenderView(view, scrollTop).rows| <= 47
  {
  }

  /**
   * The spacers are never negative, and while the start row lies inside the
   * view the two spacers and the drawn rows add up to the full height of the
   * view, so the scrollbar matches an undrawn list.
   */
  lemma SpacersAddUp(view: seq<string>, scrollTop: int)
    ensures var r := RenderView(view, scrollTop);
      && r.topSpacer >= 0 && r.bottomSpacer >= 0
      && (ComputeLayout(|view|, scrollTop).start <= |view| ==>
            r.topSpacer + |r.rows| * RowHeight + r.bottomSpacer == |view| * RowHeight)
  {
    var l := ComputeLayout(|view|, scrollTop);
    if l.start <= |view| {
      assert |Slice(view, l.start, l.end)| == l.end - l.start;
      assert (|view| - l.end) * RowHeight >= 0;
      assert |view| * RowHeight - l.start * RowHeight - (l.end - l.start) * RowHeight == (|view| - l.end) * RowHeight;
    }
  }

  /**
   * Every row that intersects the 480-pixel viewport is drawn: the overscan
   * above and the extra rows below cover it.
   */
  lemma VisibleRowsDrawn(view: seq<string>, scrollTop: int, i: nat)
    requires scrollTop >= 0 && i < |view|
    requires i * RowHeight < scrollTop + ViewportHeight && scrollTop < (i + 1) * RowHeight
    ensures var l := ComputeLayout(|view|, scrollTop); l.start <= i < l.end
  {
    var q := scrollTop / RowHeight;
    assert q * RowHeight <= scrollTop < (q + 1) * RowHeight;
    assert q <= i;
    assert i <= q + 27;
  }
}
