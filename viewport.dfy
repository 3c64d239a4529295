/**
 * What the three log views share: scrolling one line at a time, following
 * the tail of a growing log, picking the visible slice, and cutting each
 * line to the view's width with Python's slice semantics.
 */
module Viewport {
  import opened LogStore
  import opened Scrollbar

  /** curses key codes the views react to. */
  const KeyDown := 258
  const KeyUp := 259
  const KeyBackspace := 263

  datatype Direction = Up | Down

  function Min(a: int, b: int): int { if a < b then a else b }

  /**
   * One scroll step: up while above the first line, down while above the
   * last top line (`total - h`), otherwise stay.
   */
  function ScrollStep(top: int, total: int, h: int, dir: Direction): (t: int)
    ensures dir == Up ==> t == (if top > 0 then top - 1 else top)
    ensures dir == Down ==> t == (if top < total - h then top + 1 else top)
  {
    var scrollMax := total - h;
    if top > 0 && dir == Up then top - 1
    else if top < scrollMax && dir == Down then top + 1
    else top
  }

  /**
   * A step never moves more than one line, never above the first line, and
   * never down past the last top line unless it was already there.
   */
  lemma ScrollStepBounds(top: int, total: int, h: int, dir: Direction)
    requires top >= 0
    ensures var t := ScrollStep(top, total, h, dir);
      && 0 <= t && top - 1 <= t <= top + 1
      && t <= Max(top, total - h)
  {
  }

  /** Scrolling up then down, or down then up, returns to the same top line. */
  lemma ScrollRoundTrip(top: int, total: int, h: int)
    ensures 0 < top <= total - h ==> ScrollStep(ScrollStep(top, total, h, Up), total, h, Down) == top
    ensures 0 <= top < total - h ==> ScrollStep(ScrollStep(top, total, h, Down), total, h, Up) == top
  {
  }

  /**
   * When the tail is followed: on any change of the line count (the lack
   * views) or only when it grew (the lib screen).
   */
  datatype FollowRule = OnChange | OnGrowth

  predicate Changed(rule: FollowRule, total: int, last: int)
  {
    match rule
    case OnChange => total != last
    case OnGrowth => total > last
  }

  /**
   * The top line a draw starts from: when the line count changed (per the
   * rule) and the log no longer fits, the view jumps to show its last h lines.
   */
  function FollowTail(rule: FollowRule, top: int, total: int, last: int, h: int): (t: int)
    ensures Changed(rule, total, last) && total > h ==> t + h == total
    ensures !(Changed(rule, total, last) && total > h) ==> t == top
  {
    if Changed(rule, total, last) && total > h then total - h else top
  }

  /**
   * Following is idempotent: a second draw with no new lines keeps the top
   * line the first one chose.
   */
  lemma FollowIdempotent(rule: FollowRule, top: int, total: int, last: int, h: int)
    ensures var t := FollowTail(rule, top, total, last, h);
      FollowTail(rule, t, total, total, h) == t
  {
  }

  /** Under the growth rule a log that shrank keeps its top line. */
  lemma ShrinkKeepsTop(top: int, total: int, last: int, h: int)
    requires total <= last
    ensures FollowTail(OnGrowth, top, total, last, h) == top
    ensures total < last && total > h ==> FollowTail(OnChange, top, total, last, h) == total - h
  {
  }

  /** `bottom = min(top + h, total)`. */
  function Bottom(top: int, total: int, h: int): (b: int)
    ensures b <= total && b <= top + h
    ensures b == total || b == top + h
  {
    Min(top + h, total)
  }

  /**
   * The lines a draw shows: `lines[top:bottom]`, empty where Python's slice
   * is for a height h >= 0 (the only heights curses gives a window).
   */
  function Visible<T>(lines: seq<T>, top: nat, h: int): (v: seq<T>)
    ensures |v| == Max(0, Bottom(top, |lines|, h) - top)
    ensures forall i :: 0 <= i < |v| ==> v[i] == lines[top + i]
  {
    var b := Bottom(top, |lines|, h);
    if top < b then lines[top..b] else []
  }

  /** After a follow the newest line is the last one shown. */
  lemma FollowShowsNewest<T>(rule: FollowRule, lines: seq<T>, top: nat, last: int, h: int)
    requires Changed(rule, |lines|, last) && |lines| > h > 0
    ensures var t := FollowTail(rule, top, |lines|, last, h);
      t >= 0 && var v := Visible(lines, t, h);
      |v| == h && v[h - 1] == lines[|lines| - 1]
  {
  }

  /**
   * `s[lo:hi]` for 0 <= lo: a negative bound counts from the end, and bounds
   * past either end are clipped.
   */
  function PySlice<T>(s: seq<T>, lo: nat, hi: int): (r: seq<T>)
    ensures var e := if hi < 0 then Max(0, |s| + hi) else Min(hi, |s|);
      r == if lo < e then s[lo..e] else []
  {
    var e := if hi < 0 then Max(0, |s| + hi) else Min(hi, |s|);
    if lo < e then s[lo..e] else []
  }

  /** `msg[0:n]` when `len(msg) > n`, else msg unchanged. */
  function Truncate(msg: string, n: int): (r: string)
  {
    if |msg| > n then PySlice(msg, 0, n) else msg
  }

  /**
   * A non-negative width keeps the first `min(len(msg), n)` characters; a
   * negative one (a view narrower than its margins) drops |n| characters
   * from the end instead of showing nothing.
   */
  lemma TruncateShape(msg: string, n: int)
    ensures n >= 0 ==> Truncate(msg, n) == msg[..Min(|msg|, n)]
    ensures n < 0 ==> Truncate(msg, n) == msg[..Max(0, |msg| + n)]
    ensures n >= 0 ==> |Truncate(msg, n)| <= n
  {
  }

  /** One painted screen row: its colour pair and text. */
  datatype Row = Row(color: int, text: string)

  /** The rows a draw writes: row i holds the i-th visible line, cut to width n. */
  function Painted(lines: seq<Line>, n: int): (m: map<int, Row>)
    ensures forall i :: i in m <==> 0 <= i < |lines|
    ensures forall i :: 0 <= i < |lines| ==> m[i] == Row(lines[i].color, Truncate(lines[i].text, n))
  {
    map i | 0 <= i < |lines| :: Row(lines[i].color, Truncate(lines[i].text, n))
  }

  /**
   * The screen after a draw: the visible rows rewritten, every other row
   * left as it was (nothing is cleared below the last visible line).
   */
  function Paint(screen: map<int, Row>, lines: seq<Line>, n: int): (m: map<int, Row>)
    ensures forall i :: 0 <= i < |lines| ==> i in m && m[i] == Row(lines[i].color, Truncate(lines[i].text, n))
    ensures forall i :: i in screen && !(0 <= i < |lines|) ==> i in m && m[i] == screen[i]
    ensures forall i :: i in m ==> i in screen || 0 <= i < |lines|
  {
    screen + Painted(lines, n)
  }

  /** A screen that agrees with the painted rows and the old rows everywhere is the painted screen. */
  lemma PaintPointwise(screen: map<int, Row>, lines: seq<Line>, n: int, m: map<int, Row>)
    requires forall i :: 0 <= i < |lines| ==> i in m && m[i] == Row(lines[i].color, Truncate(lines[i].text, n))
    requires forall i :: i in screen && !(0 <= i < |lines|) ==> i in m && m[i] == screen[i]
    requires forall i :: i in m ==> i in screen || 0 <= i < |lines|
    ensures m == Paint(screen, lines, n)
  {
    var p := Paint(screen, lines, n);
    assert m.Keys == p.Keys;
  }

  /** Painting the same rows twice leaves the screen as painting them once. */
  lemma PaintIdempotent(screen: map<int, Row>, lines: seq<Line>, n: int)
    ensures Paint(Paint(screen, lines, n), lines, n) == Paint(screen, lines, n)
  {
    var once := Paint(screen, lines, n);
    PaintPointwise(once, lines, n, once);
  }

  /** The drawing state of a log view. */
  datatype View = View(topline: int, logLength: nat, lastLogLength: nat, screen: map<int, Row>, bar: Bar)

  /** A view after a draw, and whether the draw raised ZeroDivisionError. */
  datatype Drawn = Drawn(view: View, raised: bool)

  /**
   * One draw of a lack view (`draw` / `_content`): record the line count,
   * follow the tail, paint the visible lines cut to width n, remember the
   * count, then clear the track and draw the thumb, which may raise.
   */
  function DrawView(rule: FollowRule, v: View, lines: seq<Line>, h: int, n: int): (d: Drawn)
    requires v.topline >= 0
    ensures d.view.topline >= 0
    ensures d.view.logLength == |lines| == d.view.lastLogLength
    ensures d.raised <==> BarOf(h, |lines|, d.view.topline).ZeroDivision?
  {
    var total := |lines|;
    var top := FollowTail(rule, v.topline, total, v.lastLogLength, h);
    var screen := Paint(v.screen, Visible(lines, top, h), n);
    var b := BarOf(h, total, top);
    Drawn(View(top, total, total, screen, if b.ZeroDivision? then Blank else b), b.ZeroDivision?)
  }

  /** Drawing again with nothing new changes nothing. */
  lemma DrawIdempotent(rule: FollowRule, v: View, lines: seq<Line>, h: int, n: int)
    requires v.topline >= 0
    ensures var d := DrawView(rule, v, lines, h, n);
      DrawView(rule, d.view, lines, h, n) == d
  {
    var d := DrawView(rule, v, lines, h, n);
    FollowIdempotent(rule, v.topline, |lines|, v.lastLogLength, h);
    PaintIdempotent(v.screen, Visible(lines, d.view.topline, h), n);
  }

  /**
   * A draw after the log changed, when it no longer fits, shows the newest
   * line on the view's last row.
   */
  lemma DrawShowsNewest(rule: FollowRule, v: View, lines: seq<Line>, h: int, n: int)
    requires v.topline >= 0 && Changed(rule, |lines|, v.lastLogLength) && |lines| > h > 0
    ensures var s := DrawView(rule, v, lines, h, n).view.screen;
      h - 1 in s && s[h - 1] == Row(lines[|lines| - 1].color, Truncate(lines[|lines| - 1].text, n))
  {
    FollowShowsNewest(rule, lines, v.topline, v.lastLogLength, h);
  }

  /**
   * After a draw that followed the tail of a log longer than a track of at
   * least 4 rows, the thumb sits at the bottom of the track.
   */
  lemma DrawThumbAtBottom(rule: FollowRule, v: View, lines: seq<Line>, h: int, n: int)
    requires v.topline >= 0 && Changed(rule, |lines|, v.lastLogLength) && |lines| > h >= 4
    ensures var b := DrawView(rule, v, lines, h, n).view.bar;
      b.Thumb? && b.start + b.length - 1 == h
  {
    ThumbAtEnds(h, |lines|);
  }
}
