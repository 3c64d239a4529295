# lack: a verified model of the chat log and its views

lack is a terminal Slack client. Its core keeps a chat channel's messages in
a sorted dictionary of display-ready lines. Three curses views page through
those lines.

`LackManager` (lack/lackmanager.py) owns the log:
- It caches channel members, each with a palette colour.
- It turns every incoming event into physical lines keyed by the message
  timestamp:
  - a new post files lines;
  - an edit overwrites them;
  - a deletion removes a key;
  - an unknown member or channel field is ignored.
- On connecting, it replays the channel history into a fresh log.

Each view keeps a top line and follows the tail when the log changes. It
paints the visible lines, cut to its width, and draws a scrollbar whose
thumb tracks the top line:
- `LogWindow` (lack/logwindow.py);
- `LogSubWindow` (lack/logsubwindow.py);
- the older single-screen client `SlackScreen` (lib/screen.py), with its
  prompt.

The model is split into modules:
- `OrderingKey`: the dictionary's keys.
- `LogStore`: the sorted dictionary, as a strictly sorted sequence of entries.
- `Text`: splitting, joining, `re.sub`, the mention scan and `str.strip`.
- `Reflow`: turning one message into physical lines and filing them.
- `LackSession`: the manager, as pure specification functions plus the
  `LackManager` class, whose methods are proved against them.
- `Scrollbar`: the thumb arithmetic, done in exact integers.
- `Viewport`: scrolling, following, slicing and painting, shared by all views.
- `LackLogWindow`, `LackLogSubWindow`, `LibScreen`: the three view classes.

The source's float timestamp arithmetic is replaced by exact keys:
- The key of line `i` of a message stamped `ts` is the pair `(ts, i)`. Keys
  are ordered by Python's string order on the stamp, then by the line number.
- The source files the first line under the stamp string itself, and each
  later line under `float(ts) + 0.000001` per line. Within one message the
  model keeps that order, and an edit lands on the keys of the original
  lines, as in the source. Across messages a few microseconds apart the
  source's float keys can interleave; the exact keys cannot (see "Left
  out").

Library code the core calls is passed in as uninterpreted functions, the
fields of `Reflow.Library`:
- `html.unescape`;
- `TextWrapper.wrap`;
- the timezone-aware date formatting.

The network, the clock and key input are parameters:
- the members list, the channel id, the history and "now";
- the key read and the prompt pad's text.

## Model

| member | source | states |
|---|---|---|
| OrderingKey.NthKeyIncreasing | lack/lackmanager.py:157-159 | successive lines of one message get strictly increasing keys |
| OrderingKey.StampOrderDominates | lack/lackmanager.py:158 | every line of an earlier-stamped message sorts before every line of a later one |
| OrderingKey.NthKeyNext | lack/lackmanager.py:159 | bumping the key of line i gives the key of line i + 1 |
| OrderingKey.LessTransitive | lack/lackmanager.py:19 | the key order is transitive, as a sorted dictionary requires |
| OrderingKey.LessTotal | lack/lackmanager.py:19 | any two keys are equal or ordered one way |
| LogStore.GetAt | lack/logwindow.py:71-75 | in a sorted store the entry at position i is what a lookup of its key returns (`iloc` then `[]`) |
| LogStore.Put | lack/lackmanager.py:158 | assignment keeps the store sorted, maps the key to the new line, leaves every other key alone, and grows the store by one exactly when the key was new |
| LogStore.Remove | lack/lackmanager.py:184 | `del` fails exactly when the key is absent; otherwise exactly that key goes, the rest keep their lines and the store stays sorted |
| LogStore.PutAboveAllAppends | lack/lackmanager.py:158 | a key above every stored key is appended at the end |
| Text.JoinSplit | lack/lackmanager.py:144 | joining the parts of `split` with the separator gives back the text |
| Text.SplitJoin | lack/lackmanager.py:144 | splitting a join of separator-free parts gives back the parts |
| Text.SplitAfterPrefix | lack/lackmanager.py:142-144 | a prefix without the separator only extends the first part of the split |
| Text.ReplaceAllAbsent | lack/lackmanager.py:133 | `re.sub` leaves text without the pattern unchanged |
| Text.ReplaceAllFirst | lack/lackmanager.py:133 | `re.sub` keeps the text before the first occurrence, replaces it, and carries on after it |
| Text.MentionIdsFinds | lack/lackmanager.py:33 | `findall` reports every user id that starts a word of id characters |
| Text.MentionIdsNone | lack/lackmanager.py:130 | `findall` finds nothing exactly when no user id occurs anywhere |
| Text.Strip | lib/screen.py:184 | `strip()` is a slice of the input with no whitespace at either end, and is empty exactly when the input is all whitespace |
| Reflow.Substitute | lack/lackmanager.py:132-133 | substitution succeeds exactly when every found id is cached; otherwise it raises KeyError |
| Reflow.SubstituteUnchanged | lack/lackmanager.py:130-133 | text in which none of the ids' mention tokens occurs comes back unchanged |
| Reflow.SubstituteReplacesMention | lack/lackmanager.py:130-133 | a mention token between two stretches of text without '<' becomes `@name`, and the text around it is kept |
| Reflow.SubstituteReplacesMentions | lack/lackmanager.py:130-133 | in text made of stretches without '<' and any number of mention tokens, each token whose id is on the cached id list becomes that member's `@name` and every stretch between tokens is kept; repeated ids and ids on the list with no token are allowed |
| Reflow.NameCanCompleteMention | lack/lackmanager.py:130-133 | the pass does not rescan its own output: a display name that is a prefix of its id can complete a mention token, which then stays in the text |
| Reflow.ParagraphsLayout | lack/lackmanager.py:142-153 | one paragraph per line of the text; the first carries the prefix, the rest are indented by its width |
| Reflow.ReflowLines | lack/lackmanager.py:127-155 | a message fails with KeyError exactly when a mention is not cached, and with ValueError exactly when every mention is cached and either the stamp has no single '.' or its date cannot be formatted, or the wrapping width is 0 or less |
| Reflow.StoreLinesSpec | lack/lackmanager.py:157-159 | after filing, line i sits at key i of the stamp, every other key is unchanged, and the store grows by at most the number of lines |
| Reflow.StoreLinesAppends | lack/lackmanager.py:157-159 | lines of a message newer than everything stored are appended at the end, in order |
| Reflow.AddLine | lack/lackmanager.py:127-159 | `_add_logline` files lines exactly when reflowing succeeds, fails with the reflow's exception otherwise, and keeps the store sorted |
| LackSession.PaletteColor | lack/lackmanager.py:99-111 | the j-th member colour is a palette colour, never 7 or 8 |
| LackSession.NextColorFollowsPalette | lack/lackmanager.py:107-111 | the source's colour step turns the j-th palette colour into the (j+1)-th |
| LackSession.PaletteCycle | lack/lackmanager.py:99-111 | two members share a colour exactly when their positions differ by a multiple of 12 |
| LackSession.CacheAfter | lack/lackmanager.py:101-105 | the cache afterwards holds the old ids plus the listed ones; unlisted ids keep their entry; listed ids get palette colours |
| LackSession.LastListingWins | lack/lackmanager.py:101-105 | a member's entry is its last listing's name with the colour of that position |
| LackSession.Ingest | lack/lackmanager.py:161-198 | an event keeps the log sorted and changes it only when applied; non-message events and other channels are ignored; a missing channel field is a swallowed KeyError |
| LackSession.DeletionRemovesFirstLine | lack/lackmanager.py:183-184 | a deletion removes the key of the message's first line if present, and otherwise is a swallowed KeyError; nothing else changes |
| LackSession.UnknownAuthorDropped | lack/lackmanager.py:186-191 | a post by an uncached user changes nothing |
| LackSession.UnknownMentionDropped | lack/lackmanager.py:130-133 | a post mentioning an uncached user id changes nothing |
| LackSession.MalformedStampRaises | lack/lackmanager.py:135-140 | a post whose mentions are all cached but whose stamp cannot be turned into a date raises out of the dispatcher and files nothing |
| LackSession.NarrowWidthRaises | lack/lackmanager.py:135-155 | with an output width of 0 or less, every post whose mentions are cached raises ValueError (the wrapper's, or the stamp's first) and files nothing |
| LackSession.PostFilesLines | lack/lackmanager.py:186-191 | a post files its reflowed lines at its stamp in the author's colour, leaving every other key alone; the log grows by at most the number of lines |
| LackSession.EditOverwrites | lack/lackmanager.py:173-181 | an edit refiles the original message's stamp in the editor's colour; every key outside the new lines, including the original's keys past the new line count, keeps its entry, and the store grows by at most lines - 1 when the original was present |
| LackSession.OwnPostColor | lack/lackmanager.py:193-195 | a post with no user field is filed under its stamp in colour 7; every other key keeps its entry and the log grows by at most the number of lines |
| LackSession.ReplayConcat | lack/lackmanager.py:124-125 | replaying two batches in turn is replaying them together, except that an escaping exception stops the rest |
| LackSession.HistoryEndpoint | lack/lackmanager.py:115-118 | groups.history exactly for ids starting with 'G', channels.history for other non-empty ids, and no call for a missing or empty id |
| LackSession.StartupStartsFromBanner | lack/lackmanager.py:51-57 | whatever the log held before, a start-up begins from a log holding exactly the banner's lines; with no history endpoint it stops there incomplete, and an empty history leaves just the banner |
| LackSession.LackManager.UpdateMemberCache | lack/lackmanager.py:93-111 | the loop leaves the cache equal to CacheAfter when connected and unchanged otherwise |
| LackSession.LackManager.ResolveMentions | lack/lackmanager.py:129-133 | the substitution loop computes Substitute over the ids found |
| LackSession.LackManager.AddLogline | lack/lackmanager.py:127-159 | the paragraph and line loops leave the log equal to AddLine's result, or unchanged with the failure reported |
| LackSession.LackManager.ProcessEvent | lack/lackmanager.py:161-198 | outcome and new log are Ingest's |
| LackSession.LackManager.FetchHistory | lack/lackmanager.py:113-125 | the loop's result is Replay's over the history; with no usable channel id nothing is fetched |
| LackSession.LackManager.Connect | lack/lackmanager.py:47-59 | on a successful connection: mark connected, refresh the caches, and leave the log equal to Startup's; otherwise nothing changes |
| Scrollbar.RoundHalfEvenUnique | lib/screen.py:121 | `round` gives the nearest integer, ties to even, and no other |
| Scrollbar.BarOf | lack/logwindow.py:94-103 | the track is blank exactly when the log fits |
| Scrollbar.ThumbShorterThanTrack | lack/logwindow.py:97-99 | with at least 4 rows the thumb is at least 3 rows and shorter than the track |
| Scrollbar.ThumbInTrack | lack/logwindow.py:94-103 | with at least 4 rows the thumb lies inside the track for every reachable top line |
| Scrollbar.ThumbAtEnds | lack/logsubwindow.py:68-77 | at the first top line the thumb starts at row 1; at the last it ends at the last row |
| Scrollbar.ThumbShrinks | lib/screen.py:115-117 | a longer log never gets a longer thumb |
| Scrollbar.ThreeRowTrackDividesByZero | lack/logwindow.py:97-101 | for a log longer than a track of at least 3 rows, drawing raises ZeroDivisionError exactly when the track has 3 rows |
| Scrollbar.FixedThumbInTrack | lack/logwindow.py:94-103 | with the fix every track of at least 3 rows gets a thumb inside it, the same one as before for 4 rows or more |
| Scrollbar.FixedAgreesUnlessRaised | lack/logwindow.py:94-103 | the fix changes nothing on a draw that does not raise, and draws a full-track thumb where the source raised |
| Viewport.ScrollStepBounds | lack/logwindow.py:48-55 | one scroll step moves the top line by at most one, never below 0 or past the last page |
| Viewport.ScrollRoundTrip | lack/logsubwindow.py:43-50 | up then down, or down then up, returns to the same top line away from the ends |
| Viewport.FollowTail | lack/logwindow.py:62-63 | when the count changed and the log overflows, the view shows its last page; otherwise the top line is kept |
| Viewport.FollowIdempotent | lack/logwindow.py:82 | a second draw with no new lines keeps the top line |
| Viewport.ShrinkKeepsTop | lib/screen.py:84-86 | under the grow-only rule a log that shrank keeps its top line; under the any-change rule it jumps to the last page |
| Viewport.Visible | lack/logwindow.py:66-71 | the shown lines are `lines[top:bottom]` with bottom clipped to the log |
| Viewport.FollowShowsNewest | lack/logsubwindow.py:88-96 | after a follow the newest line is the last one shown, on a full page |
| Viewport.TruncateShape | lack/logwindow.py:77-78 | a line is cut to its first n characters |
| Viewport.Paint | lack/logwindow.py:73-80 | painting sets rows 0..n-1 to the cut lines and leaves the other rows as they were |
| Viewport.PaintIdempotent | lack/logwindow.py:73-80 | painting the same lines twice is painting them once |
| Viewport.DrawView | lack/logwindow.py:59-86 | a draw records the count and raises exactly when the scrollbar divides by zero |
| Viewport.DrawIdempotent | lack/logwindow.py:59-86 | drawing again with nothing new changes nothing |
| Viewport.DrawShowsNewest | lack/logwindow.py:60-80 | a draw after the log changed shows its newest line on the last row |
| Viewport.DrawThumbAtBottom | lack/logwindow.py:60-103 | a draw that followed the tail puts the thumb at the bottom of the track |
| LackLogWindow.VisibleKeys | lack/logwindow.py:71-75 | looking up the keys of `iloc[top:bottom]` gives exactly the visible lines |
| LackLogWindow.LogWindow.constructor | lack/logwindow.py:14-29 | starts at top line 0 with nothing drawn |
| LackLogWindow.LogWindow.KeyValidation | lack/logwindow.py:39-46 | arrow keys scroll one step and redraw; every other key passes with nothing changed |
| LackLogWindow.LogWindow.LogUpDown | lack/logwindow.py:48-57 | one scroll step, then a draw |
| LackLogWindow.LogWindow.Draw | lack/logwindow.py:59-86 | the new state is DrawView's under the any-change rule, with lines cut to width - 2 |
| LackLogWindow.LogWindow.PaintRows | lack/logwindow.py:73-80 | the loop paints exactly the visible lines |
| LackLogWindow.LogWindow.DrawScrollbar | lack/logwindow.py:88-109 | the bar is BarOf's, blank when it raises |
| LackLogSubWindow.LogSubWindow.constructor | lack/logsubwindow.py:16-32 | starts at top line 0 with nothing drawn |
| LackLogSubWindow.LogSubWindow.KeyHandler | lack/logsubwindow.py:34-41 | arrow keys scroll one step without a redraw; keys pass unchanged |
| LackLogSubWindow.LogSubWindow.LogUpDown | lack/logsubwindow.py:43-50 | one scroll step |
| LackLogSubWindow.LogSubWindow.Content | lack/logsubwindow.py:84-109 | the new state is DrawView's under the any-change rule, with lines cut to width - 1 |
| LackLogSubWindow.LogSubWindow.PaintRows | lack/logsubwindow.py:98-105 | the loop paints exactly the visible lines |
| LackLogSubWindow.LogSubWindow.DrawScrollbar | lack/logsubwindow.py:52-82 | the bar is BarOf's, blank when it raises |
| LibScreen.Validated | lib/screen.py:137-153 | DEL becomes KEY_BACKSPACE and every other key is returned as it is |
| LibScreen.SubmitKeys | lib/screen.py:226-237 | the pad submits on Enter or on what the stock editor answers 0 for; the arrow keys never submit |
| LibScreen.PromptSends | lib/screen.py:155-192 | a message is sent exactly when a key was read, it submits, and the stripped text is not blank; the message is the stripped text |
| LibScreen.BlankNeverSent | lib/screen.py:184-188 | a whitespace-only pad is never sent |
| LibScreen.LogDrawn | lib/screen.py:81-104 | `_draw_log` records the count and keeps the remembered count and the bar |
| LibScreen.LogDrawnIsDrawView | lib/screen.py:81-104 | `_draw_log` follows, cuts and paints as a lack view's draw does under the grow-only rule |
| LibScreen.SlackScreen.constructor | lib/screen.py:19-64 | the pane is rows - 5 by cols - 5, at top line 0, with the log's current length |
| LibScreen.SlackScreen.LogUpDown | lib/screen.py:70-79 | one scroll step; the un-awaited redraw does nothing |
| LibScreen.SlackScreen.Validator | lib/screen.py:137-153 | returns Validated's key and scrolls on the arrow keys |
| LibScreen.SlackScreen.Prompt | lib/screen.py:155-192 | sends PromptSends's message, closes the pad on a submitting key, and scrolls on arrows |
| LibScreen.SlackScreen.DrawLog | lib/screen.py:81-104 | the new state is LogDrawn's, with bottom = min(top + height, count) |
| LibScreen.SlackScreen.PaintRows | lib/screen.py:93-102 | the loop paints exactly the shown lines, cut to cols - 5 |
| LibScreen.SlackScreen.DrawScrollbar | lib/screen.py:106-135 | the bar is BarOf's, blank when it raises |
| LibScreen.SlackScreen.Draw | lib/screen.py:206-215 | a frame draws the log, then the scrollbar; a ZeroDivisionError ends the frame before the prompt; otherwise the prompt runs, the pad stays open exactly when no submitting key was read, and the count is remembered; the bottom line is the page end; with no arrow key the result is DrawView's |

## Left out

- Slack's real-time connection, the web API calls, `_reconnect`, `update_messages` and the debug logger are not modelled. Their answers are parameters: the members list, the channel id found, the history events, and whether the connection succeeded.
- `_update_channel_cache` is reduced to its result (the channel id found, or none). The channel topic is not modelled.
- `html.unescape`, `TextWrapper.wrap` for a positive width, and the timezone conversion with `strftime('%a %I:%M%p')` are uninterpreted functions. The model claims nothing about their output beyond what the source's code around them does.
- Reflow.Substitute: inserts `@name` literally. The source passes `'@' + name` to `re.sub` as a replacement template, so a display name holding a backslash escape is expanded (`\n` becomes a newline) and a bad escape (`\q`, a reference to a group the pattern lacks, a trailing `\`) raises `re.error`, which escapes `_process_event`. Display names with a backslash are not modelled.
- Reflow.DateOf: models the `int()` and date failures only as "the formatter gives no date". `ts.split('.')` not giving exactly two parts is modelled explicitly.
- The float key `float(ts) + 0.000001` is replaced by exact keys. Two distinct stamps whose floats collide, or a second line whose float key equals another message's stamp, are not modelled.
- LackSession.LackManager.FetchHistory: a missing or empty channel id makes the source raise TypeError or IndexError, which escapes `_connect`. The model reports that as an incomplete run and leaves the log unchanged.
- Reflow.AddLine: does not model the ValueError of `float(ts)` in the storing loop. A stamp such as `1503000000.x` passes the `split` and `int` steps, so the source files line 0 under the stamp string and then raises, leaving that one line behind. The model files the message's lines in full; every stamp it treats as well-formed is taken to parse as a float.
- The float keys of later lines can interleave with other messages: a three-line message stamped `1503000000.000100` files its later lines near `1503000000.000101` and `1503000000.000102`, so a message stamped `1503000000.000101` lands on or between them. The exact keys keep every line of a message directly after its own stamp and before any later stamp.
- Scrollbar.BarOf: Python's float division and `round` are replaced by exact rational arithmetic with round-half-to-even. Results that float rounding would move across a .5 boundary are not modelled.
- LackSession.Ingest: an edit event whose `message` is an empty dict is falsy in the source, so the event falls through to the deletion, user and own-post branches. The model treats any present `message` as an edit; an edit with no fields is a swallowed KeyError.
- Exceptions other than KeyError (the ValueError from a malformed stamp, or from `TextWrapper` when the output width, the screen's columns less 4, is 0 or less) escape `_process_event`. The model reports them as the outcome `Raised`, and a history replay stops there.
- curses drawing is reduced to a map from row to (colour, text). Refreshes, borders, cursor visibility, the separator line, the `F1 Help` footer and the scrollbar's column position are not modelled. `clrtoeol` is modelled as the row holding only the new text; stale rows below a shorter page keep their old text, as in the source.
- The stock `Textbox.do_command` editing (insert, backspace, cursor moves) is a parameter `base`. The pad's gathered text is a parameter, and the Textbox's `stripspaces` trimming is part of that gathered text.
- `asyncio` scheduling: the coroutine that sends a message is recorded in an outbox in order. The 25 ms frame timer and the rescheduling of `draw` are one call per frame. The un-awaited `self.draw()` in `_log_up_down` has no effect.
- `BorderedSubWindow` (the base class of `LogSubWindow`) is not part of this model. The view's own fields and methods are modelled as written.
- `lack/mainwindow.py`, `lack/screen.py` and `lack/client.py` only wire the views to the manager, and are not modelled.
- Window resizing (`resize_handler`) does nothing in the source and is not modelled.

## Findings

| source | as written | input that shows it | evidently intended | confidence | as-written member | corrected member |
|---|---|---|---|---|---|---|
| lack/logwindow.py:97-101 (also lack/logsubwindow.py:71-75, lib/screen.py:115-119) | the thumb length is at least 3, and the step divides by `height - thumb length` | a 3-row track and a log of 4 or more lines: the thumb is 3 rows and `overflow / 0.0` raises ZeroDivisionError, ending the draw | a thumb filling the whole track, starting at row 1 | medium, not executed | Scrollbar.ThreeRowTrackDividesByZero | Scrollbar.FixedThumbInTrack |

The three view classes keep the source's behaviour: their draws raise on
such a track. The corrected `Scrollbar.BarOfFixed` is proved to be the
same as the source's bar wherever the source does not raise
(`Scrollbar.FixedAgreesUnlessRaised`). So a view drawn with the fix differs
only on the frames that now raise.
