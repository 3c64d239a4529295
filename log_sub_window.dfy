/**
 * The bordered log pane of the main window (`lack/logsubwindow.py`): the
 * same paging and tail-following as the full-screen view, one column wider
 * for text, and its scroll keys move the top line without redrawing; the
 * next `_content` call draws.
 */
module LackLogSubWindow {
  import opened Wrappers
  import opened OrderingKey
  import opened LogStore
  import opened Scrollbar
  import opened Viewport
  import LackLogWindow

  class LogSubWindow {
    const height: int
    const width: int
    /** The text width: one column goes to the scrollbar. */
    const lineLength: int
    /** The sorted store this pane shows. */
    var datasource: seq<Entry>
    var topline: int
    var lastLogLength: nat
    var logLength: nat
    var screen: map<int, Row>
    var bar: Bar

    ghost predicate Valid()
      reads this
    {
      topline >= 0 && Sorted(datasource) && lineLength == width - 1
    }

    /** The drawing state, for comparison with the draw specification. */
    function State(): (v: View)
      reads this
      ensures v.topline == topline && v.screen == screen
    {
      View(topline, logLength, lastLogLength, screen, bar)
    }

    constructor (height: int, width: int, datasource: seq<Entry>)
      requires Sorted(datasource)
      ensures Valid()
      ensures this.height == height && this.width == width && this.datasource == datasource
      ensures topline == 0 && lastLogLength == 0 && logLength == 0 && screen == map[] && bar == Blank
    {
      this.height := height;
      this.width := width;
      this.lineLength := width - 1;
      this.datasource := datasource;
      topline := 0;
      lastLogLength := 0;
      logLength := 0;
      screen := map[];
      bar := Blank;
    }

    /** `key_handler`: the arrow keys scroll one line; every key is passed on unchanged. */
    method KeyHandler(ch: int) returns (r: int)
      requires Valid()
      modifies this`topline
      ensures Valid() && r == ch
      ensures topline == if ch == KeyUp then ScrollStep(old(topline), logLength, height, Up)
                         else if ch == KeyDown then ScrollStep(old(topline), logLength, height, Down)
                         else old(topline)
    {
      if ch == KeyUp {
        LogUpDown(Up);
      } else if ch == KeyDown {
        LogUpDown(Down);
      }
      r := ch;
    }

    /** `log_up_down`: one scroll step against the line count of the last draw; no redraw. */
    method LogUpDown(dir: Direction)
      requires Valid()
      modifies this`topline
      ensures Valid()
      ensures topline == ScrollStep(old(topline), logLength, height, dir)
    {
      var scrollMax := logLength - height;
      if topline > 0 && dir == Up {
        topline := topline - 1;
      } else if topline < scrollMax && dir == Down {
        topline := topline + 1;
      }
    }

    /** `_content`: follow the tail, paint the visible lines, draw the scrollbar. */
    method Content() returns (raised: bool)
      requires Valid()
      modifies this
      ensures Valid() && datasource == old(datasource)
      ensures Drawn(State(), raised) == DrawView(OnChange, old(State()), Lines(datasource), height, lineLength)
    {
      ghost var spec := DrawView(OnChange, State(), Lines(datasource), height, lineLength);
      logLength := |datasource|;
      if logLength != lastLogLength && logLength > height {
        topline := logLength - height;
      }
      assert topline == spec.view.topline;
      var bottom := topline + height;
      if bottom > logLength {
        bottom := logLength;
      }
      var logKeys := if topline < bottom then Keys(datasource)[topline..bottom] else [];
      ghost var visible := Visible(Lines(datasource), topline, height);
      LackLogWindow.VisibleKeys(datasource, topline, height, logKeys);
      PaintRows(logKeys, visible);
      assert screen == spec.view.screen;
      lastLogLength := logLength;
      raised := DrawScrollbar();
    }

    /**
     * The drawing loop of `_content`: row i gets the line stored under the
     * i-th visible key, cut to the text width; rows below are left as they were.
     */
    method PaintRows(logKeys: seq<Key>, ghost visible: seq<Line>)
      requires |logKeys| == |visible|
      requires forall i :: 0 <= i < |logKeys| ==> Get(datasource, logKeys[i]) == Some(visible[i])
      modifies this`screen
      ensures screen == Paint(old(screen), visible, lineLength)
    {
      var index := 0;
      while index < |logKeys|
        invariant 0 <= index <= |logKeys|
        invariant forall i :: 0 <= i < index ==>
          i in screen && screen[i] == Row(visible[i].color, Truncate(visible[i].text, lineLength))
        invariant forall i :: i in old(screen) && !(0 <= i < index) ==> i in screen && screen[i] == old(screen)[i]
        invariant forall i :: i in screen ==> i in old(screen) || 0 <= i < index
      {
        var line := Get(datasource, logKeys[index]).value;
        var msg := line.text;
        if |msg| > lineLength {
          msg := PySlice(msg, 0, lineLength);
        }
        screen := screen[index := Row(line.color, msg)];
        index := index + 1;
      }
      PaintPointwise(old(screen), visible, lineLength, screen);
    }

    /** `_draw_scrollbar`: clear the track, then draw the thumb when the log overflows. */
    method DrawScrollbar() returns (raised: bool)
      modifies this`bar
      ensures raised <==> BarOf(height, logLength, topline).ZeroDivision?
      ensures bar == if raised then Blank else BarOf(height, logLength, topline)
    {
      bar := Blank;
      raised := false;
      if logLength > height {
        var overflow := logLength - height;
        if logLength == 0 {
          return true;
        }
        var scrollbarLength := Max(height * height / logLength, 3);
        var free := height - scrollbarLength;
        if free == 0 {
          return true;
        }
        var scrollbarY := RoundHalfEven(overflow + topline * free, overflow);
        bar := Thumb(scrollbarY, scrollbarLength);
      }
    }
  }
}
