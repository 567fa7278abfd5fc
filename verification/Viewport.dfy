/** Which events fill the viewport. A window is measured in rows, an event in
    the rows it takes, and no event is ever cut. */
module Viewport {
  import opened Options
  import opened Rows
  import opened Sessions
  import opened ScreenModel
  import FilterSyntax
  import H = ScreenHistory

  // ----- how tall an event is -----

  datatype Drawn = Flat(text: string) | Header(text: string) | Cell(column: DataColumn) | Typed(field: FieldSummary)

  function Rendered(o: Output): string {
    match o
    case Message(m, _) => m.rendered
    case Line(text) => text
    case Status(text) => text
  }

  function Detail(o: Output): Option<EventDetail> {
    if o.Message? then o.detail else None
  }

  function EventLines(o: Output, rich: bool): seq<Drawn> {
    if rich && Detail(o).Some? then
      [Header(Rendered(o))] +
      match Detail(o).value
      case DataRow(columns) => seq(|columns|, i requires 0 <= i < |columns| => Cell(columns[i]))
      case RowDescription(fields) => seq(|fields|, i requires 0 <= i < |fields| => Typed(fields[i]))
    else [Flat(Rendered(o))]
  }

  /** The library's count of wrapped rows for given lines at the current width. */
  type LineCount = seq<Drawn> -> nat

  function EventHeight(count: LineCount, o: Output, v: View): (h: nat)
    ensures h >= 1
  {
    if v.wrap then
      var wrapped := count(EventLines(o, v.rich));
      if wrapped < 1 then 1 else wrapped
    else if v.rich then
      match Detail(o)
      case Some(DataRow(columns)) => 1 + |columns|
      case Some(RowDescription(fields)) => 1 + |fields|
      case None => 1
    else 1
  }

  /** Without wrapping, the rows counted are the lines drawn. */
  lemma HeightIsLinesDrawn(count: LineCount, o: Output, v: View)
    requires !v.wrap
    ensures EventHeight(count, o, v) == |EventLines(o, v.rich)|
  {
  }

  // ----- rows -----

  function Total(heights: seq<nat>): nat {
    if heights == [] then 0 else heights[0] + Total(heights[1..])
  }

  predicate Tall(heights: seq<nat>) {
    forall i :: 0 <= i < |heights| ==> heights[i] >= 1
  }

  lemma {:induction false} TotalSplits(a: seq<nat>, b: seq<nat>)
    ensures Total(a + b) == Total(a) + Total(b)
  {
    if a == [] {
      assert a + b == b;
    } else {
      assert (a + b)[1..] == a[1..] + b;
      TotalSplits(a[1..], b);
    }
  }

  lemma TotalOfParts(hs: seq<nat>, a: nat, b: nat, c: nat)
    requires a <= b <= c <= |hs|
    ensures Total(hs[a..c]) == Total(hs[a..b]) + Total(hs[b..c])
  {
    assert hs[a..c] == hs[a..b] + hs[b..c];
    TotalSplits(hs[a..b], hs[b..c]);
  }

  // ----- windows -----

  /** The events from `start` to `end` fit, or are one event. */
  predicate Fits(hs: seq<nat>, start: nat, end: nat, logH: nat) {
    start < end <= |hs| && (end == start + 1 || Total(hs[start..end]) <= logH)
  }

  /** The window: it ends at the newest event when following and starts at the
      scroll position otherwise, it fits, and one more event would not. */
  predicate IsWindow(hs: seq<nat>, scroll: nat, follow: bool, logH: nat, start: nat, end: nat) {
    if hs == [] then start == 0 && end == 0
    else
      && Fits(hs, start, end, logH)
      && (if follow then end == |hs| && (start > 0 ==> Total(hs[start - 1..end]) > logH)
          else start == scroll && (end < |hs| ==> Total(hs[start..end + 1]) > logH))
  }

  lemma Wider(hs: seq<nat>, a: nat, b: nat, c: nat, d: nat)
    requires a <= b <= c <= d <= |hs|
    ensures Total(hs[b..c]) <= Total(hs[a..d])
  {
    TotalOfParts(hs, a, b, d);
    TotalOfParts(hs, b, c, d);
  }

  /** The window is the largest one: a window anchored the same way fits exactly
      when it lies inside. */
  lemma WindowIsLargest(hs: seq<nat>, scroll: nat, follow: bool, logH: nat, start: nat, end: nat, edge: nat)
    requires hs != [] && IsWindow(hs, scroll, follow, logH, start, end)
    requires if follow then edge < |hs| else scroll < edge <= |hs|
    ensures if follow then Fits(hs, edge, |hs|, logH) <==> start <= edge
            else Fits(hs, scroll, edge, logH) <==> edge <= end
  {
    hide Total;
    if follow {
      if edge < start {
        Wider(hs, edge, start - 1, end, end);
      } else {
        Wider(hs, start, edge, end, end);
      }
    } else if edge > end {
      Wider(hs, start, start, end + 1, edge);
    } else {
      Wider(hs, start, start, edge, end);
    }
  }

  ghost function HeightsOf(count: LineCount, events: seq<Output>, visible: seq<nat>, v: View): (hs: seq<nat>)
    requires forall k :: k in visible ==> k < |events|
    ensures |hs| == |visible| && Tall(hs)
  {
    seq(|visible|, i requires 0 <= i < |visible| =>
      assert visible[i] in visible; EventHeight(count, events[visible[i]], v))
  }

  method ViewWindow(count: LineCount, events: seq<Output>, visible: seq<nat>, scroll: nat, follow: bool, logH: nat,
                    v: View)
    returns (start: nat, end: nat)
    requires forall k :: k in visible ==> k < |events|
    ensures follow || scroll < |visible| ==>
        IsWindow(HeightsOf(count, events, visible, v), scroll, follow, logH, start, end)
    ensures !follow && scroll >= |visible| ==> start == end == if visible == [] then 0 else scroll
  {
    hide EventHeight, Total;
    var n := |visible|;
    if n == 0 {
      return 0, 0;
    }
    ghost var hs := HeightsOf(count, events, visible, v);
    if follow {
      start, end := BackwardWindow(count, events, visible, logH, v, hs);
    } else if scroll < n {
      start, end := ForwardWindow(count, events, visible, scroll, logH, v, hs);
    } else {
      return scroll, scroll;
    }
  }

  lemma OneAtATime(hs: seq<nat>, i: nat)
    requires i < |hs|
    ensures Total(hs[i..i + 1]) == hs[i]
  {
    assert hs[i..i + 1] == [hs[i]];
    assert [hs[i]][1..] == [];
  }

  lemma OneBefore(hs: seq<nat>, i: nat)
    requires i < |hs|
    ensures Total(hs[i..|hs|]) == hs[i] + Total(hs[i + 1..|hs|])
  {
    assert hs[i..|hs|][1..] == hs[i + 1..|hs|];
  }

  lemma OneAfter(hs: seq<nat>, a: nat, i: nat)
    requires a <= i < |hs|
    ensures Total(hs[a..i + 1]) == Total(hs[a..i]) + hs[i]
  {
    OneAtATime(hs, i);
    hide Total;
    TotalOfParts(hs, a, i, i + 1);
  }

  /** Fill from the newest event backward. */
  method BackwardWindow(count: LineCount, events: seq<Output>, visible: seq<nat>, logH: nat, v: View,
                        ghost hs: seq<nat>)
    returns (start: nat, end: nat)
    requires visible != [] && forall k :: k in visible ==> k < |events|
    requires hs == HeightsOf(count, events, visible, v)
    ensures IsWindow(hs, 0, true, logH, start, end)
  {
    assert hs[|hs|..|hs|] == [] && Total([]) == 0;
    hide EventHeight, Total;
    var n := |visible|;
    var rows := 0;
    start, end := n, n;
    for i := n downto 0
      invariant start == i && rows == Total(hs[i..n]) && (rows != 0 <==> i < n)
      invariant i < n ==> Fits(hs, i, n, logH) && (i > 0 ==> rows < logH)
    {
      assert visible[i] in visible;
      var h := EventHeight(count, events[visible[i]], v);
      assert h == hs[i];
      OneBefore(hs, i);
      if rows != 0 && rows + h > logH {
        break;
      }
      rows := rows + h;
      start := i;
      if rows >= logH {
        if i > 0 {
          OneBefore(hs, i - 1);
        }
        break;
      }
    }
  }

  /** Fill from the scroll position forward. */
  method ForwardWindow(count: LineCount, events: seq<Output>, visible: seq<nat>, scroll: nat, logH: nat, v: View,
                       ghost hs: seq<nat>)
    returns (start: nat, end: nat)
    requires scroll < |visible| && forall k :: k in visible ==> k < |events|
    requires hs == HeightsOf(count, events, visible, v)
    ensures IsWindow(hs, scroll, false, logH, start, end)
  {
    assert hs[scroll..scroll] == [] && Total([]) == 0;
    hide EventHeight, Total;
    var n := |visible|;
    var rows := 0;
    start, end := scroll, scroll;
    for i := scroll to n
      invariant start == scroll && end == i && rows == Total(hs[scroll..i]) && (rows != 0 <==> scroll < i)
      invariant scroll < i ==> Fits(hs, scroll, i, logH) && (i < n ==> rows < logH)
    {
      assert visible[i] in visible;
      var h := EventHeight(count, events[visible[i]], v);
      assert h == hs[i];
      OneAfter(hs, scroll, i);
      if rows != 0 && rows + h > logH {
        break;
      }
      rows := rows + h;
      end := i + 1;
      if rows >= logH {
        if i + 1 < n {
          OneAfter(hs, scroll, i + 1);
        }
        break;
      }
    }
  }

  // ----- drawing -----

  lemma {:induction false} OnesTotal(hs: seq<nat>)
    requires forall i :: 0 <= i < |hs| ==> hs[i] == 1
    ensures Total(hs) == |hs|
  {
    if hs != [] {
      OnesTotal(hs[1..]);
    }
  }

  /** The fixed slice of the plain view is the window that row counting gives. */
  lemma PlainSliceIsTheWindow(hs: seq<nat>, scroll: nat, follow: bool, logH: nat)
    requires forall i :: 0 <= i < |hs| ==> hs[i] == 1
    requires logH >= 1 && if follow then scroll == Minus(|hs|, logH) else scroll <= Minus(|hs|, logH)
    ensures scroll <= |hs|
    ensures IsWindow(hs, scroll, follow, logH, scroll, if scroll + logH < |hs| then scroll + logH else |hs|)
  {
    var end := if scroll + logH < |hs| then scroll + logH else |hs|;
    OnesTotal(hs[scroll..end]);
    if end < |hs| {
      OnesTotal(hs[scroll..end + 1]);
    }
    if scroll > 0 {
      OnesTotal(hs[scroll - 1..end]);
    }
  }

  lemma TickClamps(w: World, disk: Disk, s: Screen, records: seq<Output>, connsOpened: nat, logH: nat)
    ensures Clamped(Tick(w, disk, s, records, connsOpened, logH), logH)
  {
    hide PushAll, Trim;
  }

  predicate Clamped(s: Screen, logH: nat) {
    s.view.scroll <= MaxScroll(s, logH) && (s.view.follow ==> s.view.scroll == MaxScroll(s, logH))
  }

  /** What is drawn after a turn of the loop: in every mode the maximal window. */
  method DrawnWindow(lib: FilterSyntax.Library, count: LineCount, s: Screen, logH: nat) returns (start: nat, end: nat)
    requires H.Settled(lib, s.hist) && Clamped(s, logH) && logH >= 1
    ensures forall k :: k in s.hist.visible ==> k < |s.hist.events|
    ensures start <= end <= |s.hist.visible|
    ensures IsWindow(HeightsOf(count, s.hist.events, s.hist.visible, s.view), s.view.scroll, s.view.follow, logH,
        start, end)
  {
    hide Matching;
    H.MatchingIndexes(lib, s.hist.filter, s.hist.events);
    var v := s.view;
    if v.wrap || v.rich {
      start, end := ViewWindow(count, s.hist.events, s.hist.visible, v.scroll, v.follow, logH, v);
    } else {
      var n := |s.hist.visible|;
      start, end := v.scroll, if v.scroll + logH < n then v.scroll + logH else n;
      PlainSliceIsTheWindow(HeightsOf(count, s.hist.events, s.hist.visible, v), v.scroll, v.follow, logH);
    }
  }
}
