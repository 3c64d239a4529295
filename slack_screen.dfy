/**
 * The older single-screen client (`lib/screen.py`): a log pane over the chat
 * manager's list of lines, a scrollbar, and a one-line prompt. Its draw loop
 * follows the tail only when the log grew, truncates lines to the pane width,
 * and submits the prompt on Enter.
 */
module LibScreen {
  import opened Wrappers
  import opened LogStore
  import opened Text
  import opened Scrollbar
  import opened Viewport

  /** The key code Enter sends. */
  const Enter := 10
  /** The key code some terminals send for backspace. */
  const Delete := 127
  /** getch's answer when no key is waiting. */
  const NoKey := -1

  /** `_validator`: DEL becomes KEY_BACKSPACE; every other key passes unchanged. */
  function Validated(ch: int): (r: int)
    ensures ch == Delete ==> r == KeyBackspace
    ensures ch != Delete ==> r == ch
  {
    if ch == Delete then KeyBackspace else ch
  }

  /**
   * `_Textbox.do_command`: Enter answers 0 (submit), the arrow keys answer 1
   * (keep editing, do not move the cursor), everything else goes to the
   * stock Textbox editing command, given here as `base`.
   */
  function DoCommand(ch: int, base: int -> int): (r: int)
  {
    if ch == Enter then 0
    else if ch == KeyUp || ch == KeyDown then 1
    else base(ch)
  }

  /**
   * The prompt submits exactly on Enter, or on a key the stock editor itself
   * answers with 0; the arrow keys never submit.
   */
  lemma SubmitKeys(ch: int, base: int -> int)
    ensures DoCommand(ch, base) == 0 <==> ch == Enter || (ch != KeyUp && ch != KeyDown && base(ch) == 0)
    ensures ch == KeyUp || ch == KeyDown ==> DoCommand(ch, base) != 0
  {
  }

  /**
   * The message one prompt step sends: the pad's text stripped of
   * surrounding whitespace, when the key submits and the text is not blank.
   */
  function PromptSends(ch: int, base: int -> int, gathered: string): (sent: Option<string>)
    ensures sent.Some? ==> sent.value == Strip(gathered) && sent.value != ""
    ensures sent.Some? <==> Validated(ch) != NoKey && DoCommand(Validated(ch), base) == 0 && Strip(gathered) != ""
  {
    var c := Validated(ch);
    if c == NoKey || DoCommand(c, base) != 0 then None
    else
      var msg := Strip(gathered);
      if msg == "" then None else Some(msg)
  }

  /** A blank pad is never sent, whatever the key. */
  lemma BlankNeverSent(ch: int, base: int -> int, gathered: string)
    requires forall i :: 0 <= i < |gathered| ==> IsSpace(gathered[i])
    ensures PromptSends(ch, base, gathered).None?
  {
  }

  /** What `_draw_log` leaves: the grow-only tail follow and the painted rows. */
  function LogDrawn(v: View, lines: seq<Line>, h: int, w: int): (d: View)
    requires v.topline >= 0
    ensures d.topline >= 0 && d.logLength == |lines|
    ensures d.lastLogLength == v.lastLogLength && d.bar == v.bar
  {
    var top := FollowTail(OnGrowth, v.topline, |lines|, v.lastLogLength, h);
    View(top, |lines|, v.lastLogLength, Paint(v.screen, Visible(lines, top, h), w), v.bar)
  }

  /**
   * `_draw_log` follows, cuts and paints as a lack view's draw does under the
   * grow-only rule; only the remembered count and the scrollbar are left
   * for later in the frame.
   */
  lemma LogDrawnIsDrawView(v: View, lines: seq<Line>, h: int, w: int)
    requires v.topline >= 0
    ensures var d := DrawView(OnGrowth, v, lines, h, w).view;
      LogDrawn(v, lines, h, w) == d.(lastLogLength := v.lastLogLength, bar := v.bar)
  {
  }

  class SlackScreen {
    const rows: int
    const cols: int
    /** The log pane: five rows and five columns go to borders, the separator and the prompt. */
    const logwinHeight: int
    const logwinWidth: int
    /** The chat manager's lines, oldest first. */
    var loglines: seq<Line>
    var topline: int
    var logLength: nat
    var lastLogLength: nat
    var bottom: int
    var screen: map<int, Row>
    var bar: Bar
    /** Whether a prompt pad is open. */
    var padOpen: bool
    /** Messages handed to the chat manager for sending, in order. */
    var outbox: seq<string>

    ghost predicate Valid()
      reads this
    {
      topline >= 0 && logwinHeight == rows - 5 && logwinWidth == cols - 5
    }

    function State(): (v: View)
      reads this
      ensures v.topline == topline && v.screen == screen
    {
      View(topline, logLength, lastLogLength, screen, bar)
    }

    constructor (rows: int, cols: int, loglines: seq<Line>)
      ensures Valid()
      ensures this.rows == rows && this.cols == cols && this.loglines == loglines
      ensures topline == 0 && logLength == |loglines| && lastLogLength == 0
      ensures screen == map[] && bar == Blank && !padOpen && outbox == []
    {
      this.rows := rows;
      this.cols := cols;
      logwinHeight := rows - 5;
      logwinWidth := cols - 5;
      this.loglines := loglines;
      topline := 0;
      logLength := |loglines|;
      lastLogLength := 0;
      bottom := 0;
      screen := map[];
      bar := Blank;
      padOpen := false;
      outbox := [];
    }

    /**
     * `_log_up_down`: one scroll step against the last drawn line count. The
     * redraw it asks for is a coroutine that is created and never awaited, so
     * nothing is drawn.
     */
    method LogUpDown(dir: Direction)
      requires Valid()
      modifies this`topline
      ensures Valid()
      ensures topline == ScrollStep(old(topline), logLength, logwinHeight, dir)
    {
      var scrollMax := logLength - logwinHeight;
      if topline > 0 && dir == Up {
        topline := topline - 1;
      } else if topline < scrollMax && dir == Down {
        topline := topline + 1;
      }
    }

    /** `_validator`: translate DEL, and scroll on the arrow keys. */
    method Validator(ch: int) returns (r: int)
      requires Valid()
      modifies this`topline
      ensures Valid() && r == Validated(ch)
      ensures topline == if ch == KeyUp then ScrollStep(old(topline), logLength, logwinHeight, Up)
                         else if ch == KeyDown then ScrollStep(old(topline), logLength, logwinHeight, Down)
                         else old(topline)
    {
      if ch == Delete {
        return KeyBackspace;
      } else if ch == KeyUp {
        LogUpDown(Up);
      } else if ch == KeyDown {
        LogUpDown(Down);
      }
      r := ch;
    }

    /**
     * `_prompt`: open a pad if none is open, read one key through the
     * validator, and on a submitting key close the pad and send its stripped
     * text unless blank. The key read and the pad's text are parameters.
     */
    method Prompt(ch: int, base: int -> int, gathered: string) returns (sent: Option<string>)
      requires Valid()
      modifies this`topline, this`padOpen, this`outbox
      ensures Valid()
      ensures sent == PromptSends(ch, base, gathered)
      ensures outbox == old(outbox) + (if sent.Some? then [sent.value] else [])
      ensures padOpen <==> !(Validated(ch) != NoKey && DoCommand(Validated(ch), base) == 0)
      ensures topline == if ch == KeyUp then ScrollStep(old(topline), logLength, logwinHeight, Up)
                         else if ch == KeyDown then ScrollStep(old(topline), logLength, logwinHeight, Down)
                         else old(topline)
    {
      if !padOpen {
        padOpen := true;
      }
      var c := Validator(ch);
      if c == NoKey {
        return None;
      }
      var dcResult := DoCommand(c, base);
      sent := None;
      if dcResult == 0 {
        var msg := Strip(gathered);
        padOpen := false;
        if msg != "" {
          outbox := outbox + [msg];
          sent := Some(msg);
        }
      }
    }

    /** `_draw_log`: follow the tail when the log grew, then paint the visible lines. */
    method DrawLog()
      requires Valid()
      modifies this`logLength, this`topline, this`bottom, this`screen
      ensures Valid()
      ensures State() == LogDrawn(old(State()), loglines, logwinHeight, logwinWidth)
      ensures bottom == Bottom(topline, logLength, logwinHeight)
    {
      ghost var spec := LogDrawn(State(), loglines, logwinHeight, logwinWidth);
      logLength := |loglines|;
      if logLength > lastLogLength && logLength > logwinHeight {
        topline := logLength - logwinHeight;
        bottom := logLength;
      }
      assert topline == spec.topline;
      bottom := topline + logwinHeight;
      if bottom > logLength {
        bottom := logLength;
      }
      var shown := if topline < bottom then loglines[topline..bottom] else [];
      assert shown == Visible(loglines, topline, logwinHeight);
      PaintRows(shown);
    }

    /** The drawing loop of `_draw_log`: row i gets the i-th shown line, cut to the pane width. */
    method PaintRows(shown: seq<Line>)
      modifies this`screen
      ensures screen == Paint(old(screen), shown, logwinWidth)
    {
      var index := 0;
      while index < |shown|
        invariant 0 <= index <= |shown|
        invariant forall i :: 0 <= i < index ==>
          i in screen && screen[i] == Row(shown[i].color, Truncate(shown[i].text, logwinWidth))
        invariant forall i :: i in old(screen) && !(0 <= i < index) ==> i in screen && screen[i] == old(screen)[i]
        invariant forall i :: i in screen ==> i in old(screen) || 0 <= i < index
      {
        var line := shown[index];
        var msg := line.text;
        if |msg| > logwinWidth {
          msg := PySlice(msg, 0, logwinWidth);
        }
        screen := screen[index := Row(line.color, msg)];
        index := index + 1;
      }
      PaintPointwise(old(screen), shown, logwinWidth, screen);
    }

    /** `_draw_scrollbar`: clear the track, then draw the thumb when the log overflows. */
    method DrawScrollbar() returns (raised: bool)
      modifies this`bar
      ensures raised <==> BarOf(logwinHeight, logLength, topline).ZeroDivision?
      ensures bar == if raised then Blank else BarOf(logwinHeight, logLength, topline)
    {
      bar := Blank;
      raised := false;
      if logLength > logwinHeight {
        var overflow := logLength - logwinHeight;
        if logLength == 0 {
          return true;
        }
        var scrollbarLength := Max(logwinHeight * logwinHeight / logLength, 3);
        var free := logwinHeight - scrollbarLength;
        if free == 0 {
          return true;
        }
        var scrollbarY := RoundHalfEven(overflow + topline * free, overflow);
        bar := Thumb(scrollbarY, scrollbarLength);
      }
    }

    /**
     * One frame of `draw`: the log, the scrollbar, then the prompt, and
     * finally the drawn line count is remembered. A ZeroDivisionError from
     * the scrollbar ends the frame (and the draw loop) before the prompt.
     */
    method Draw(ch: int, base: int -> int, gathered: string) returns (sent: Option<string>, raised: bool)
      requires Valid()
      modifies this
      ensures Valid() && loglines == old(loglines)
      ensures var d := LogDrawn(old(State()), loglines, logwinHeight, logwinWidth);
        && (raised <==> BarOf(logwinHeight, |loglines|, d.topline).ZeroDivision?)
        && bottom == Bottom(d.topline, |loglines|, logwinHeight)
        && (raised ==> State() == d.(bar := Blank) && sent.None? && outbox == old(outbox) && padOpen == old(padOpen))
        && (!raised ==> && sent == PromptSends(ch, base, gathered)
                        && (padOpen <==> !(Validated(ch) != NoKey && DoCommand(Validated(ch), base) == 0))
                        && outbox == old(outbox) + (if sent.Some? then [sent.value] else [])
                        && bar == BarOf(logwinHeight, |loglines|, d.topline)
                        && logLength == lastLogLength == |loglines|
                        && screen == d.screen
                        && topline == if ch == KeyUp then ScrollStep(d.topline, |loglines|, logwinHeight, Up)
                                      else if ch == KeyDown then ScrollStep(d.topline, |loglines|, logwinHeight, Down)
                                      else d.topline)
      ensures !raised && ch != KeyUp && ch != KeyDown ==>
        State() == DrawView(OnGrowth, old(State()), loglines, logwinHeight, logwinWidth).view
    {
      DrawLog();
      raised := DrawScrollbar();
      if raised {
        return None, true;
      }
      sent := Prompt(ch, base, gathered);
      lastLogLength := logLength;
    }
  }
}
