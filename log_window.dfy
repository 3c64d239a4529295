/**
 * The full-screen log view (`lack/logwindow.py`): a window over the session's
 * sorted store that pages through it, follows its tail whenever its line
 * count changes, and redraws after every scroll key.
 */
module LackLogWindow {
  import opened Wrappers
  import opened OrderingKey
  import opened LogStore
  import opened Scrollbar
  import opened Viewport

  /** Looking up the keys of the visible slice gives the visible lines, in order. */
  lemma VisibleKeys(ds: seq<Entry>, top: nat, h: int, keys: seq<Key>)
    requires Sorted(ds)
    requires var b := Bottom(top, |ds|, h); keys == if top < b then Keys(ds)[top..b] else []
    ensures var visible := Visible(Lines(ds), top, h);
      |keys| == |visible| && forall i :: 0 <= i < |keys| ==> Get(ds, keys[i]) == Some(visible[i])
  {
    var visible := Visible(Lines(ds), top, h);
    forall i | 0 <= i < |keys|
      ensures Get(ds, keys[i]) == Some(visible[i])
    {
      GetAt(ds, top + i);
    }
  }

  class LogWindow {
    const height: int
    const width: int
    /** The text width: two columns go to the margin and the scrollbar. */
    const lineLength: int
    /** The sorted store this view shows. */
    var datasource: seq<Entry>
    var topline: int
    var lastLogLength: nat
    var logLength: nat
    var screen: map<int, Row>
    var bar: Bar

    ghost predicate Valid()
      reads this
    {
      topline >= 0 && Sorted(datasource) && lineLength == width - 2
    }

    /** The drawing state, for comparison with the draw specification. */
    function State(): (v: View)
      reads this
      ensures v.topline == topline && v.screen == screen
    {
      View(topline, logLength, lastLogLength, screen, bar)
    }

    constructor (height: int, width: int, datasource: seq<Entry>)
      requires Sorted(datasource)
      ensures Valid()
      ensures this.height == height && this.width == width && this.datasource == datasource
      ensures topline == 0 && lastLogLength == 0 && logLength == 0 && screen == map[] && bar == Blank
    {
      this.height := height;
      this.width := width;
      this.lineLength := width - 2;
      this.datasource := datasource;
      topline := 0;
      lastLogLength := 0;
      logLength := 0;
      screen := map[];
      bar := Blank;
    }

    /** `key_validation`: the arrow keys scroll (and redraw); every key is passed on unchanged. */
    method KeyValidation(ch: int) returns (r: int, raised: bool)
      requires Valid()
      modifies this
      ensures Valid() && r == ch && datasource == old(datasource)
      ensures ch == KeyUp ==>
        Drawn(State(), raised) == DrawView(OnChange, old(State()).(topline := ScrollStep(old(topline), old(logLength), height, Up)),
                                           Lines(datasource), height, lineLength)
      ensures ch == KeyDown ==>
        Drawn(State(), raised) == DrawView(OnChange, old(State()).(topline := ScrollStep(old(topline), old(logLength), height, Down)),
                                           Lines(datasource), height, lineLength)
      ensures ch != KeyUp && ch != KeyDown ==> State() == old(State()) && !raised
    {
      raised := false;
      if ch == KeyUp {
        raised := LogUpDown(Up);
      } else if ch == KeyDown {
        raised := LogUpDown(Down);
      }
      r := ch;
    }

    /**
     * `log_up_down`: one scroll step against the line count of the last draw,
     * then a draw (which follows the tail again if the store changed since).
     */
    method LogUpDown(dir: Direction) returns (raised: bool)
      requires Valid()
      modifies this
      ensures Valid() && datasource == old(datasource)
      ensures Drawn(State(), raised)
        == DrawView(OnChange, old(State()).(topline := ScrollStep(old(topline), old(logLength), height, dir)),
                    Lines(datasource), height, lineLength)
    {
      var scrollMax := logLength - height;
      if topline > 0 && dir == Up {
        topline := topline - 1;
      } else if topline < scrollMax && dir == Down {
        topline := topline + 1;
      }
      raised := Draw();
    }

    /** `draw`: follow the tail, paint the visible lines, draw the scrollbar. */
    method Draw() returns (raised: bool)
      requires Valid()
      modifies this
      ensures Valid() && datasource == old(datasource)
      ensures Drawn(State(), raised) == DrawView(OnChange, old(State()), Lines(datasource), height, lineLength)
    {
      ghost var spec := DrawView(OnChange, State(), Lines(datasource), height, lineLength);
      logLength := |datasource|;
      if logLength != lastLogLength && logLength > height {
        topline := logLength - height;
      }
      assert topline == spec.view.topline;
      var bottom := topline + height;
      if bottom > logLength {
        bottom := logLength;
      }
      var logKeys := if topline < bottom then Keys(datasource)[topline..bottom] else [];
      ghost var visible := Visible(Lines(datasource), topline, height);
      VisibleKeys(datasource, topline, height, logKeys);
      PaintRows(logKeys, visible);
      assert screen == spec.view.screen;
      lastLogLength := logLength;
      raised := DrawScrollbar();
    }

    /**
     * The drawing loop of `draw`: row i gets the line stored under the i-th
     * visible key, cut to the text width; rows below are left as they were.
     */
    method PaintRows(logKeys: seq<Key>, ghost visible: seq<Line>)
      requires |logKeys| == |visible|
      requires forall i :: 0 <= i < |logKeys| ==> Get(datasource, logKeys[i]) == Some(visible[i])
      modifies this`screen
      ensures screen == Paint(old(screen), visible, lineLength)
    {
      var index := 0;
      while index < |logKeys|
        invariant 0 <= index <= |logKeys|
        invariant forall i :: 0 <= i < index ==>
          i in screen && screen[i] == Row(visible[i].color, Truncate(visible[i].text, lineLength))
        invariant forall i :: i in old(screen) && !(0 <= i < index) ==> i in screen && screen[i] == old(screen)[i]
        invariant forall i :: i in screen ==> i in old(screen) || 0 <= i < index
      {
        var line := Get(datasource, logKeys[index]).value;
        var msg := line.text;
        if |msg| > lineLength {
          msg := PySlice(msg, 0, lineLength);
        }
        screen := screen[index := Row(line.color, msg)];
        index := index + 1;
      }
      PaintPointwise(old(screen), visible, lineLength, screen);
    }

    /** `_draw_scrollbar`: clear the track, then draw the thumb when the log overflows. */
    method DrawScrollbar() returns (raised: bool)
      modifies this`bar
      ensures raised <==> BarOf(height, logLength, topline).ZeroDivision?
      ensures bar == if raised then Blank else BarOf(height, logLength, topline)
    {
      bar := Blank;
      raised := false;
      if logLength > height {
        var overflow := logLength - height;
        if logLength == 0 {
          return true;
        }
        var scrollbarLength := Max(height * height / logLength, 3);
        var free := height - scrollbarLength;
        if free == 0 {
          return true;
        }
        var scrollbarY := RoundHalfEven(overflow + topline * free, overflow);
        bar := Thumb(scrollbarY, scrollbarLength);
      }
    }
  }
}
