/**
 * The chat session (`lack/lackmanager.py`): the member cache with its colour
 * palette, the event dispatcher that turns edits, deletions and posts into
 * store updates, the history replay, and the connection start-up that resets
 * the log.
 */
module LackSession {
  import opened Wrappers
  import opened Text
  import opened OrderingKey
  import opened LogStore
  import opened Reflow

  // ---------------------------------------------------------------- palette

  /** The colours the member cache hands out: 1 to 6 and 9 to 14. */
  predicate IsPaletteColor(c: int)
  {
    1 <= c <= 6 || 9 <= c <= 14
  }

  /** The colour of the member at position j of the member list. */
  function PaletteColor(j: nat): (c: int)
    ensures IsPaletteColor(c)
    ensures c != 7 && c != 8
  {
    var k := j % 12;
    if k < 6 then k + 1 else k + 3
  }

  /** The loop's colour update: one up, 7 jumps to 9, 15 wraps to 1. */
  function NextColor(c: int): (n: int)
  {
    if c + 1 == 7 then 9 else if c + 1 == 15 then 1 else c + 1
  }

  /** The loop's colour update walks the palette in list order. */
  lemma NextColorFollowsPalette(j: nat)
    ensures NextColor(PaletteColor(j)) == PaletteColor(j + 1)
  {
    var k := j % 12;
    if k == 11 {
      assert (j + 1) % 12 == 0;
    } else {
      assert (j + 1) % 12 == k + 1;
    }
  }

  /** Twelve members in a row all get different colours; the thirteenth repeats the first. */
  lemma PaletteCycle(i: nat, j: nat)
    requires i < j
    ensures PaletteColor(i) == PaletteColor(j) <==> (j - i) % 12 == 0
  {
    var a, b := i % 12, j % 12;
    assert i == 12 * (i / 12) + a && j == 12 * (j / 12) + b;
    assert PaletteColor(i) == PaletteColor(j) <==> a == b;
    if a == b {
      assert j - i == 12 * (j / 12 - i / 12);
    } else {
      var d := j - i;
      assert d == 12 * (j / 12 - i / 12) + (b - a);
      assert d % 12 == (b - a + 12) % 12;
    }
  }

  // ----------------------------------------------------------- member cache

  /** One entry of the `users.list` response. */
  datatype MemberRecord = MemberRecord(id: string, name: string)

  /** The id appears somewhere in the member list. */
  predicate Listed(ms: seq<MemberRecord>, id: string)
  {
    exists i :: 0 <= i < |ms| && ms[i].id == id
  }

  /**
   * The cache after the member loop: every listed id is (re)entered with its
   * name and the colour of its position; ids not listed keep their entry.
   */
  function CacheAfter(cache: map<string, Member>, ms: seq<MemberRecord>): (r: map<string, Member>)
    ensures forall id :: id in r <==> id in cache || Listed(ms, id)
    ensures forall id :: id in cache && !Listed(ms, id) ==> r[id] == cache[id]
    ensures forall id :: id in r && Listed(ms, id) ==> IsPaletteColor(r[id].color)
    decreases |ms|
  {
    if ms == [] then cache
    else
      var n := |ms| - 1;
      var before := CacheAfter(cache, ms[..n]);
      assert forall id :: Listed(ms, id) <==> Listed(ms[..n], id) || ms[n].id == id by {
        forall id | Listed(ms, id) && ms[n].id != id
          ensures Listed(ms[..n], id)
        {
          var i :| 0 <= i < |ms| && ms[i].id == id;
          assert ms[..n][i] == ms[i];
        }
        forall id | Listed(ms[..n], id)
          ensures Listed(ms, id)
        {
          var i :| 0 <= i < n && ms[..n][i].id == id;
          assert ms[i] == ms[..n][i];
        }
      }
      before[ms[n].id := Member(ms[n].name, PaletteColor(n))]
  }

  /** The member loop's last iteration enters the last listing. */
  lemma CacheAfterLast(cache: map<string, Member>, ms: seq<MemberRecord>)
    requires ms != []
    ensures CacheAfter(cache, ms)
      == CacheAfter(cache, ms[..|ms| - 1])[ms[|ms| - 1].id := Member(ms[|ms| - 1].name, PaletteColor(|ms| - 1))]
  {
  }

  /**
   * A member listed once (or last) ends up with its own name and the colour
   * of its position in the list.
   */
  lemma {:induction false} LastListingWins(cache: map<string, Member>, ms: seq<MemberRecord>, j: nat)
    requires j < |ms|
    requires forall k :: j < k < |ms| ==> ms[k].id != ms[j].id
    ensures ms[j].id in CacheAfter(cache, ms)
    ensures CacheAfter(cache, ms)[ms[j].id] == Member(ms[j].name, PaletteColor(j))
    decreases |ms|
  {
    var n := |ms| - 1;
    CacheAfterLast(cache, ms);
    if j < n {
      LaterListingsOfPrefix(ms, ms[..n], j);
      LastListingWins(cache, ms[..n], j);
      UpdateKeeps(CacheAfter(cache, ms[..n]), ms[n].id, Member(ms[n].name, PaletteColor(n)),
                  ms[j].id, Member(ms[j].name, PaletteColor(j)));
    }
  }

  /** Dropping the last listing keeps listing j, and no later listing repeats its id. */
  lemma LaterListingsOfPrefix(ms: seq<MemberRecord>, front: seq<MemberRecord>, j: nat)
    requires ms != [] && front == ms[..|ms| - 1] && j < |front|
    requires forall k :: j < k < |ms| ==> ms[k].id != ms[j].id
    ensures front[j] == ms[j] && ms[|ms| - 1].id != ms[j].id
    ensures forall k :: j < k < |front| ==> front[k].id != front[j].id
  {
    forall k | j < k < |front|
      ensures front[k].id != front[j].id
    {
      assert front[k] == ms[k];
    }
  }

  /** Updating another key leaves an entry as it was. */
  lemma UpdateKeeps(m: map<string, Member>, k: string, v: Member, k': string, w: Member)
    requires k' in m && m[k'] == w && k != k'
    ensures k' in m[k := v] && m[k := v][k'] == w
  {
  }

  // ----------------------------------------------------------------- events

  /** The `message` object of an edit event. */
  datatype Edited = Edited(ts: Option<string>, user: Option<string>, text: Option<string>)

  /** The fields of an incoming event the dispatcher looks at; None where the key is absent. */
  datatype Event = Event(
    kind: Option<string>,
    channel: Option<string>,
    message: Option<Edited>,
    deletedTs: Option<string>,
    user: Option<string>,
    ts: Option<string>,
    text: Option<string>,
    username: Option<string>)

  /**
   * What one event did: filed or removed lines, was not for this view,
   * was dropped by the KeyError handler, or raised an exception out of the
   * dispatcher.
   */
  datatype Outcome = Applied | Ignored | Dropped | Raised

  /** An outcome and the store after it. */
  datatype Step = Step(outcome: Outcome, store: seq<Entry>)

  /** Python truthiness of an optional string field: present and non-empty. */
  predicate Truthy(f: Option<string>)
  {
    f.Some? && f.value != ""
  }

  /** The configuration and caches an event is interpreted against. */
  datatype Env = Env(lib: Library, width: int, cache: map<string, Member>, channelId: Option<string>)

  /** The colour the client posts its own messages in. */
  const OwnColor := 7

  /** The dispatcher's reaction to `_add_logline`: KeyError is swallowed, ValueError escapes. */
  function Settle(store: seq<Entry>, r: Result<seq<Entry>, Failure>): (s: Step)
    ensures s.outcome == Applied <==> r.Ok?
    ensures s.outcome != Applied ==> s.store == store
    ensures r.Ok? ==> s.store == r.value
  {
    match r
    case Ok(next) => Step(Applied, next)
    case Err(KeyError) => Step(Dropped, store)
    case Err(ValueError) => Step(Raised, store)
  }

  /**
   * `_process_event`: only `message` events are handled; when filtering,
   * only those of the current channel. An edit refiles the original message
   * with " (edited)" appended, a deletion removes the entry stored under the
   * deleted timestamp, a post from a user files it under the author's cache
   * entry, and anything else is the client's own post, filed in colour 7.
   */
  function Ingest(env: Env, store: seq<Entry>, evt: Event, filter: bool): (s: Step)
    requires Sorted(store)
    ensures Sorted(s.store)
    ensures s.outcome != Applied ==> s.store == store
    ensures evt.kind != Some("message") ==> s.outcome == Ignored
    ensures evt.kind == Some("message") && filter && evt.channel.Some? && evt.channel != env.channelId
      ==> s.outcome == Ignored
    ensures evt.kind == Some("message") && filter && evt.channel.None? ==> s.outcome == Dropped
  {
    if evt.kind != Some("message") then Step(Ignored, store)
    else if filter && evt.channel.None? then Step(Dropped, store)
    else if filter && evt.channel != env.channelId then Step(Ignored, store)
    else if evt.message.Some? then
      var m := evt.message.value;
      if m.ts.None? || m.user.None? || m.text.None? || m.user.value !in env.cache then Step(Dropped, store)
      else
        var author := env.cache[m.user.value];
        Settle(store, AddLine(env.lib, env.width, env.cache, store, author.color, m.ts.value, author.name,
                              m.text.value + " (edited)"))
    else if Truthy(evt.deletedTs) then
      match Remove(store, First(evt.deletedTs.value))
      case None => Step(Dropped, store)
      case Some(rest) => Step(Applied, rest)
    else if Truthy(evt.user) then
      if evt.user.value !in env.cache || evt.ts.None? || evt.text.None? then Step(Dropped, store)
      else
        var author := env.cache[evt.user.value];
        Settle(store, AddLine(env.lib, env.width, env.cache, store, author.color, evt.ts.value, author.name,
                              evt.text.value))
    else if evt.ts.None? || evt.username.None? || evt.text.None? then Step(Dropped, store)
    else
      Settle(store, AddLine(env.lib, env.width, env.cache, store, OwnColor, evt.ts.value, evt.username.value,
                            evt.text.value))
  }

  /** A deletion for this view: a message event, no edit, a non-empty deleted timestamp. */
  predicate IsDeletion(env: Env, evt: Event, filter: bool)
  {
    && evt.kind == Some("message")
    && (!filter || (evt.channel.Some? && evt.channel == env.channelId))
    && evt.message.None?
    && Truthy(evt.deletedTs)
  }

  /**
   * A deletion removes exactly the entry stored under the deleted timestamp
   * (the message's first physical line) and nothing else; a deletion of a
   * timestamp not in the store is dropped and changes nothing.
   */
  lemma DeletionRemovesFirstLine(env: Env, store: seq<Entry>, evt: Event, filter: bool)
    requires Sorted(store) && IsDeletion(env, evt, filter)
    ensures var s, k := Ingest(env, store, evt, filter), First(evt.deletedTs.value);
      && (s.outcome == Applied <==> k in Keys(store))
      && (s.outcome != Applied ==> s.outcome == Dropped)
      && Get(s.store, k).None?
      && (forall k' :: k' != k ==> Get(s.store, k') == Get(store, k'))
      && (s.outcome == Applied ==> |s.store| == |store| - 1)
  {
  }

  /** A post from another user: a message event with a non-empty user and no edit or deletion. */
  predicate IsPost(env: Env, evt: Event, filter: bool)
  {
    && evt.kind == Some("message")
    && (!filter || (evt.channel.Some? && evt.channel == env.channelId))
    && evt.message.None?
    && !Truthy(evt.deletedTs)
    && Truthy(evt.user)
  }

  /** A post whose author is not in the member cache is dropped. */
  lemma UnknownAuthorDropped(env: Env, store: seq<Entry>, evt: Event, filter: bool)
    requires Sorted(store) && IsPost(env, evt, filter) && evt.user.value !in env.cache
    ensures Ingest(env, store, evt, filter) == Step(Dropped, store)
  {
  }

  /**
   * A post that mentions a user id missing from the member cache is dropped
   * whole: none of its lines is filed.
   */
  lemma UnknownMentionDropped(env: Env, store: seq<Entry>, evt: Event, filter: bool, p: nat)
    requires Sorted(store) && IsPost(env, evt, filter)
    requires evt.user.value in env.cache && evt.ts.Some? && evt.text.Some?
    requires var t := env.lib.unescape(evt.text.value);
      && p + 9 <= |t| && IsUserId(t[p..p + 9]) && (p > 0 ==> !IdChar(t[p - 1]))
      && t[p..p + 9] !in env.cache
    ensures Ingest(env, store, evt, filter) == Step(Dropped, store)
  {
    var t := env.lib.unescape(evt.text.value);
    MentionIdsFinds(t, p);
    var ids := MentionIds(t);
    var i :| 0 <= i < |ids| && ids[i] == t[p..p + 9];
    assert ids[i] !in env.cache;
  }

  /**
   * A post from a known author whose mentions are all cached, but whose
   * stamp does not split into exactly two parts or whose date cannot be
   * rendered, raises ValueError out of the dispatcher; nothing is filed.
   */
  lemma MalformedStampRaises(env: Env, store: seq<Entry>, evt: Event, filter: bool)
    requires Sorted(store) && IsPost(env, evt, filter)
    requires evt.user.value in env.cache && evt.ts.Some? && evt.text.Some?
    requires var ids := MentionIds(env.lib.unescape(evt.text.value));
      forall i :: 0 <= i < |ids| ==> ids[i] in env.cache
    requires DateOf(env.lib, evt.ts.value).None?
    ensures Ingest(env, store, evt, filter) == Step(Raised, store)
  {
    var author := env.cache[evt.user.value];
    var t := env.lib.unescape(evt.text.value);
    assert forall i :: 0 <= i < |MentionIds(t)| ==> MentionIds(t)[i] in env.cache;
    var r := ReflowLines(env.lib, env.width, env.cache, evt.ts.value, author.name, evt.text.value);
    assert r.Err? && r.error == ValueError;
  }

  /**
   * With an output width of 0 or less every post from a known author whose
   * mentions are all cached raises ValueError out of the dispatcher (the
   * wrapper's, or the stamp's if that comes first); nothing is filed.
   */
  lemma NarrowWidthRaises(env: Env, store: seq<Entry>, evt: Event, filter: bool)
    requires Sorted(store) && IsPost(env, evt, filter)
    requires evt.user.value in env.cache && evt.ts.Some? && evt.text.Some?
    requires var ids := MentionIds(env.lib.unescape(evt.text.value));
      forall i :: 0 <= i < |ids| ==> ids[i] in env.cache
    requires env.width <= 0
    ensures Ingest(env, store, evt, filter) == Step(Raised, store)
  {
    var author := env.cache[evt.user.value];
    var t := env.lib.unescape(evt.text.value);
    assert forall i :: 0 <= i < |MentionIds(t)| ==> MentionIds(t)[i] in env.cache;
    var r := ReflowLines(env.lib, env.width, env.cache, evt.ts.value, author.name, evt.text.value);
    assert r.Err? && r.error == ValueError;
  }

  /**
   * A post from a known author whose text reflows to lines L files line i
   * under the i-th key of its timestamp, in the author's colour, and leaves
   * every other key as it was.
   */
  lemma PostFilesLines(env: Env, store: seq<Entry>, evt: Event, filter: bool)
    requires Sorted(store) && IsPost(env, evt, filter)
    requires evt.user.value in env.cache && evt.ts.Some? && evt.text.Some?
    requires var a := env.cache[evt.user.value];
      ReflowLines(env.lib, env.width, env.cache, evt.ts.value, a.name, evt.text.value).Ok?
    ensures var a := env.cache[evt.user.value];
      var lines := ReflowLines(env.lib, env.width, env.cache, evt.ts.value, a.name, evt.text.value).value;
      var s := Ingest(env, store, evt, filter);
      && s.outcome == Applied
      && (forall i :: 0 <= i < |lines| ==> Get(s.store, NthKey(evt.ts.value, i)) == Some(Line(a.color, lines[i])))
      && (forall k :: !IsLineKey(k, evt.ts.value, |lines|) ==> Get(s.store, k) == Get(store, k))
      && |store| <= |s.store| <= |store| + |lines|
  {
    var a := env.cache[evt.user.value];
    var lines := ReflowLines(env.lib, env.width, env.cache, evt.ts.value, a.name, evt.text.value).value;
    StoreLinesSpec(store, evt.ts.value, a.color, lines);
  }

  /** An edit for this view: a message event carrying the edited message. */
  predicate IsEdit(env: Env, evt: Event, filter: bool)
  {
    && evt.kind == Some("message")
    && (!filter || (evt.channel.Some? && evt.channel == env.channelId))
    && evt.message.Some?
  }

  /**
   * An edit refiles the message under its original timestamp with
   * " (edited)" appended, overwriting the lines already there: when the
   * message was stored before, the store grows by at most one entry fewer
   * than the edit has lines; lines of the old version beyond the new line
   * count stay as they were.
   */
  lemma EditOverwrites(env: Env, store: seq<Entry>, evt: Event, filter: bool)
    requires Sorted(store) && IsEdit(env, evt, filter)
    requires var m := evt.message.value;
      m.ts.Some? && m.user.Some? && m.text.Some? && m.user.value in env.cache
    requires var m := evt.message.value; var a := env.cache[m.user.value];
      ReflowLines(env.lib, env.width, env.cache, m.ts.value, a.name, m.text.value + " (edited)").Ok?
    ensures var m := evt.message.value; var a := env.cache[m.user.value];
      var lines := ReflowLines(env.lib, env.width, env.cache, m.ts.value, a.name, m.text.value + " (edited)").value;
      var s := Ingest(env, store, evt, filter);
      && s.outcome == Applied
      && (forall i :: 0 <= i < |lines| ==> Get(s.store, NthKey(m.ts.value, i)) == Some(Line(a.color, lines[i])))
      && (forall j :: j >= |lines| ==> Get(s.store, NthKey(m.ts.value, j)) == Get(store, NthKey(m.ts.value, j)))
      && (forall k :: !IsLineKey(k, m.ts.value, |lines|) ==> Get(s.store, k) == Get(store, k))
      && (First(m.ts.value) in Keys(store) && |lines| > 0 ==> |s.store| <= |store| + |lines| - 1)
  {
    var m := evt.message.value;
    var a := env.cache[m.user.value];
    var text := m.text.value + " (edited)";
    var lines := ReflowLines(env.lib, env.width, env.cache, m.ts.value, a.name, text).value;
    StoreLinesSpec(store, m.ts.value, a.color, lines);
    if First(m.ts.value) in Keys(store) && |lines| > 0 {
      StoreLinesOverwrite(store, m.ts.value, a.color, lines);
    }
  }

  /** Filing lines whose first key is already stored adds at most one entry fewer than there are lines. */
  lemma {:induction false} StoreLinesOverwrite(store: seq<Entry>, ts: string, color: int, lines: seq<string>)
    requires Sorted(store) && First(ts) in Keys(store) && |lines| > 0
    ensures |StoreLines(store, ts, color, lines)| <= |store| + |lines| - 1
    decreases |lines|
  {
    var n := |lines| - 1;
    var before := StoreLines(store, ts, color, lines[..n]);
    assert StoreLines(store, ts, color, lines) == Put(before, NthKey(ts, n), Line(color, lines[n]));
    if n == 0 {
      assert before == store;
      assert NthKey(ts, 0) == First(ts);
    } else {
      StoreLinesOverwrite(store, ts, color, lines[..n]);
    }
  }

  /** The client's own post: no edit, no deletion, no user. */
  predicate IsOwnPost(env: Env, evt: Event, filter: bool)
  {
    && evt.kind == Some("message")
    && (!filter || (evt.channel.Some? && evt.channel == env.channelId))
    && evt.message.None?
    && !Truthy(evt.deletedTs)
    && !Truthy(evt.user)
  }

  /**
   * The client's own posts are filed in colour 7 under the event's username,
   * leaving every other key as it was.
   */
  lemma OwnPostColor(env: Env, store: seq<Entry>, evt: Event, filter: bool)
    requires Sorted(store) && IsOwnPost(env, evt, filter)
    requires evt.ts.Some? && evt.username.Some? && evt.text.Some?
    requires ReflowLines(env.lib, env.width, env.cache, evt.ts.value, evt.username.value, evt.text.value).Ok?
    ensures var lines := ReflowLines(env.lib, env.width, env.cache, evt.ts.value, evt.username.value, evt.text.value).value;
      var s := Ingest(env, store, evt, filter);
      && s.outcome == Applied
      && (forall i :: 0 <= i < |lines| ==> Get(s.store, NthKey(evt.ts.value, i)) == Some(Line(OwnColor, lines[i])))
      && (forall k :: !IsLineKey(k, evt.ts.value, |lines|) ==> Get(s.store, k) == Get(store, k))
      && |store| <= |s.store| <= |store| + |lines|
  {
    var lines := ReflowLines(env.lib, env.width, env.cache, evt.ts.value, evt.username.value, evt.text.value).value;
    StoreLinesSpec(store, evt.ts.value, OwnColor, lines);
  }

  // ---------------------------------------------------------------- history

  /** The result of a run of events: whether every event was processed, and the store. */
  datatype Run = Run(completed: bool, store: seq<Entry>)

  /** Events processed in order; an exception stops the run where it is raised. */
  function Replay(env: Env, store: seq<Entry>, events: seq<Event>, filter: bool): (r: Run)
    requires Sorted(store)
    ensures Sorted(r.store)
    ensures events == [] ==> r == Run(true, store)
    decreases |events|
  {
    if events == [] then Run(true, store)
    else
      var s := Ingest(env, store, events[0], filter);
      if s.outcome == Raised then Run(false, s.store)
      else Replay(env, s.store, events[1..], filter)
  }

  /** One step of a replay: the first event, then the rest unless it raised. */
  lemma ReplayStep(env: Env, store: seq<Entry>, events: seq<Event>, filter: bool)
    requires Sorted(store) && events != []
    ensures var s := Ingest(env, store, events[0], filter);
      Replay(env, store, events, filter) == if s.outcome == Raised then Run(false, s.store) else Replay(env, s.store, events[1..], filter)
  {
  }

  /**
   * Replaying two batches one after the other is replaying them together,
   * except that the second batch is never reached when the first raised.
   */
  lemma {:induction false} ReplayConcat(env: Env, store: seq<Entry>, a: seq<Event>, b: seq<Event>, filter: bool)
    requires Sorted(store)
    ensures var first := Replay(env, store, a, filter);
      Replay(env, store, a + b, filter) == if first.completed then Replay(env, first.store, b, filter) else first
    decreases |a|
  {
    if a != [] {
      assert (a + b)[0] == a[0] && (a + b)[1..] == a[1..] + b;
      var s := Ingest(env, store, a[0], filter);
      if s.outcome != Raised {
        ReplayConcat(env, s.store, a[1..], b, filter);
      }
    } else {
      assert a + b == b;
    }
  }

  /**
   * The history endpoint chosen from the channel id: group ids start with
   * 'G'. None where indexing the id raises (no channel was found, or the id
   * is empty).
   */
  function HistoryEndpoint(channelId: Option<string>): (m: Option<string>)
    ensures m.Some? <==> channelId.Some? && channelId.value != ""
    ensures m.Some? ==> (m.value == "groups.history" <==> channelId.value[0] == 'G')
  {
    match channelId
    case None => None
    case Some(id) =>
      if id == "" then None
      else if id[0] == 'G' then Some("groups.history")
      else Some("channels.history")
  }

  /** The banner filed when a connection comes up. */
  const ConnectedBanner := "----- Connected -----"

  /** The colour of the connection banner. */
  const BannerColor := 3

  /**
   * The log right after a connection: empty, then the banner filed at the
   * current time, then the channel history replayed without the channel
   * filter. An exception from the banner or from the history stops there.
   */
  function Startup(env: Env, now: string, history: seq<Event>): (r: Run)
    ensures Sorted(r.store)
  {
    match AddLine(env.lib, env.width, env.cache, [], BannerColor, now, "", ConnectedBanner)
    case Err(_) => Run(false, [])
    case Ok(banner) =>
      if HistoryEndpoint(env.channelId).None? then Run(false, banner)
      else Replay(env, banner, history, false)
  }

  /**
   * A connection's log starts from exactly the banner's lines, filed in
   * order under the current time, and nothing else: whatever the log held
   * before is gone. With no usable channel id the run stops there; with no
   * history the log is the banner alone.
   */
  lemma StartupStartsFromBanner(env: Env, now: string, history: seq<Event>, lines: seq<string>)
    requires ReflowLines(env.lib, env.width, env.cache, now, "", ConnectedBanner) == Ok(lines)
    ensures var banner := Filed(now, BannerColor, lines);
      && (HistoryEndpoint(env.channelId).None? ==> Startup(env, now, history) == Run(false, banner))
      && (HistoryEndpoint(env.channelId).Some? ==> Startup(env, now, history) == Replay(env, banner, history, false))
      && (HistoryEndpoint(env.channelId).Some? && history == [] ==> Startup(env, now, history) == Run(true, banner))
  {
    StoreLinesAppends([], now, BannerColor, lines);
    assert [] + Filed(now, BannerColor, lines) == Filed(now, BannerColor, lines);
  }

  // ---------------------------------------------------------------- session

  /** Extending a slice by one element, inside an append. */
  lemma AppendSnoc<T>(a: seq<T>, b: seq<T>, j: nat)
    requires j < |b|
    ensures a + b[..j + 1] == (a + b[..j]) + [b[j]]
  {
    assert b[..j + 1] == b[..j] + [b[j]];
  }

  /** The full slice is the whole sequence, inside an append. */
  lemma AppendWhole<T>(a: seq<T>, b: seq<T>)
    ensures a + b[..|b|] == a + b
  {
    assert b[..|b|] == b;
  }

  /** One turn of the storing loop: line j goes under the next key of its message. */
  lemma FileStep(start: seq<Entry>, ts: string, color: int, filed: seq<string>, lines: seq<string>, j: nat)
    requires Sorted(start) && j < |lines|
    ensures StoreLines(start, ts, color, filed + lines[..j + 1])
      == Put(StoreLines(start, ts, color, filed + lines[..j]), NthKey(ts, |filed| + j), Line(color, lines[j]))
    ensures Next(NthKey(ts, |filed| + j)) == NthKey(ts, |filed| + j + 1)
  {
    AppendSnoc(filed, lines, j);
    StoreLinesSnoc(start, ts, color, filed + lines[..j], lines[j]);
    NthKeyNext(ts, |filed| + j);
  }

  /** An empty slice adds nothing to an append. */
  lemma AppendNone<T>(a: seq<T>, b: seq<T>)
    ensures a + b[..0] == a
  {
  }

  /** A chat session: the log store, the member cache and the current channel. */
  class LackManager {
    var loglines: seq<Entry>
    var memberCache: map<string, Member>
    var channelId: Option<string>
    var connected: bool
    const lib: Library
    const outputWidth: int

    /** The store stays strictly sorted by key. */
    ghost predicate Valid()
      reads this
    {
      Sorted(loglines)
    }

    /** The interpretation context the session's events are read in. */
    function Context(): (e: Env)
      reads this
      ensures e.cache == memberCache && e.channelId == channelId
    {
      Env(lib, outputWidth, memberCache, channelId)
    }

    /** A session not yet connected, with an empty log and member cache. */
    constructor (lib: Library, outputWidth: int)
      ensures Valid()
      ensures loglines == [] && memberCache == map[] && channelId.None? && !connected
      ensures this.lib == lib && this.outputWidth == outputWidth
    {
      this.lib := lib;
      this.outputWidth := outputWidth;
      loglines := [];
      memberCache := map[];
      channelId := None;
      connected := false;
    }

    /** `_update_member_cache`: a no-op unless connected. */
    method UpdateMemberCache(members: seq<MemberRecord>)
      modifies this
      ensures memberCache == if old(connected) then CacheAfter(old(memberCache), members) else old(memberCache)
      ensures loglines == old(loglines) && channelId == old(channelId) && connected == old(connected)
    {
      if !connected {
        return;
      }
      var color := 1;
      var i := 0;
      while i < |members|
        invariant 0 <= i <= |members|
        invariant color == PaletteColor(i)
        invariant memberCache == CacheAfter(old(memberCache), members[..i])
        invariant loglines == old(loglines) && channelId == old(channelId) && connected == old(connected)
      {
        assert members[..i + 1][..i] == members[..i];
        memberCache := memberCache[members[i].id := Member(members[i].name, color)];
        color := color + 1;
        if color == 7 {
          color := 9;
        } else if color == 15 {
          color := 1;
        }
        NextColorFollowsPalette(i);
        i := i + 1;
      }
      assert members[..i] == members;
    }

    /** The mention loop of `_add_logline`, against the current member cache. */
    method ResolveMentions(text: string) returns (r: Result<string, Failure>)
      ensures r == Substitute(text, MentionIds(text), memberCache)
    {
      var ids := MentionIds(text);
      var t := text;
      var i := 0;
      while i < |ids|
        invariant 0 <= i <= |ids|
        invariant Substitute(text, ids, memberCache) == Substitute(t, ids[i..], memberCache)
      {
        if ids[i] !in memberCache {
          return Err(KeyError);
        }
        assert ids[i..][1..] == ids[i + 1..];
        t := ReplaceAll(t, Mention(ids[i]), "@" + memberCache[ids[i]].name);
        i := i + 1;
      }
      return Ok(t);
    }

    /** `_add_logline`: reflows the message and files its lines, or reports the exception. */
    method AddLogline(color: int, ts: string, name: string, text: string) returns (failure: Option<Failure>)
      requires Valid()
      modifies this
      ensures Valid()
      ensures match AddLine(lib, outputWidth, memberCache, old(loglines), color, ts, name, text)
        case Ok(next) => failure.None? && loglines == next
        case Err(e) => failure == Some(e) && loglines == old(loglines)
      ensures memberCache == old(memberCache) && channelId == old(channelId) && connected == old(connected)
    {
      var t := lib.unescape(text);
      var resolved := ResolveMentions(t);
      if resolved.Err? {
        return Some(resolved.error);
      }
      t := resolved.value;
      var date := DateOf(lib, ts);
      if date.None? {
        return Some(ValueError);
      }
      var prefix := Prefix(date.value, name);
      var paragraphs := Split(prefix + t, '\n');
      var leadingPad := Spaces(|prefix|);
      ghost var ps := Paragraphs(prefix, t);
      ghost var start := loglines;
      ghost var filed: seq<string> := [];
      var key := First(ts);
      var i := 0;
      while i < |paragraphs|
        invariant 0 <= i <= |paragraphs| == |ps|
        invariant i > 0 ==> outputWidth > 0
        invariant filed == WrapAll(lib, outputWidth, leadingPad, ps[..i])
        invariant key == NthKey(ts, |filed|)
        invariant loglines == StoreLines(start, ts, color, filed)
        invariant memberCache == old(memberCache) && channelId == old(channelId) && connected == old(connected)
      {
        var p := paragraphs[i];
        if i > 0 {
          p := leadingPad + p;
        }
        assert p == ps[i];
        if outputWidth <= 0 {
          return Some(ValueError);
        }
        var lines := lib.wrap(p, outputWidth, leadingPad);
        key := FileLines(start, color, ts, filed, key, lines);
        WrapAllSnoc(lib, outputWidth, leadingPad, ps, i);
        filed := filed + lines;
        i := i + 1;
      }
      assert ps[..i] == ps;
      return None;
    }

    /**
     * The inner loop of `_add_logline`: each wrapped line of one paragraph is
     * stored under the current key, which then moves on to the next one.
     */
    method FileLines(ghost start: seq<Entry>, color: int, ts: string, ghost filed: seq<string>, key: Key, lines: seq<string>)
      returns (next: Key)
      requires Sorted(start)
      requires key == NthKey(ts, |filed|) && loglines == StoreLines(start, ts, color, filed)
      modifies this
      ensures next == NthKey(ts, |filed| + |lines|)
      ensures loglines == StoreLines(start, ts, color, filed + lines)
      ensures memberCache == old(memberCache) && channelId == old(channelId) && connected == old(connected)
    {
      AppendNone(filed, lines);
      next := key;
      var j := 0;
      while j < |lines|
        invariant 0 <= j <= |lines|
        invariant next == NthKey(ts, |filed| + j)
        invariant loglines == StoreLines(start, ts, color, filed + lines[..j])
        invariant memberCache == old(memberCache) && channelId == old(channelId) && connected == old(connected)
      {
        FileStep(start, ts, color, filed, lines, j);
        loglines := Put(loglines, next, Line(color, lines[j]));
        next := Next(next);
        j := j + 1;
      }
      AppendWhole(filed, lines);
    }

    /** `_process_event`. */
    method ProcessEvent(evt: Event, filter: bool) returns (outcome: Outcome)
      requires Valid()
      modifies this
      ensures Valid()
      ensures Step(outcome, loglines) == Ingest(old(Context()), old(loglines), evt, filter)
      ensures memberCache == old(memberCache) && channelId == old(channelId) && connected == old(connected)
    {
      if evt.kind != Some("message") {
        return Ignored;
      }
      if filter {
        if evt.channel.None? {
          return Dropped;
        }
        if evt.channel != channelId {
          return Ignored;
        }
      }
      var failure: Option<Failure>;
      if evt.message.Some? {
        var m := evt.message.value;
        if m.ts.None? || m.user.None? || m.text.None? || m.user.value !in memberCache {
          return Dropped;
        }
        var author := memberCache[m.user.value];
        failure := AddLogline(author.color, m.ts.value, author.name, m.text.value + " (edited)");
      } else if Truthy(evt.deletedTs) {
        var k := First(evt.deletedTs.value);
        var rest := Remove(loglines, k);
        if rest.None? {
          return Dropped;
        }
        loglines := rest.value;
        return Applied;
      } else if Truthy(evt.user) {
        if evt.user.value !in memberCache || evt.ts.None? || evt.text.None? {
          return Dropped;
        }
        var author := memberCache[evt.user.value];
        failure := AddLogline(author.color, evt.ts.value, author.name, evt.text.value);
      } else {
        if evt.ts.None? || evt.username.None? || evt.text.None? {
          return Dropped;
        }
        failure := AddLogline(OwnColor, evt.ts.value, evt.username.value, evt.text.value);
      }
      outcome := match failure
        case None => Applied
        case Some(KeyError) => Dropped
        case Some(ValueError) => Raised;
    }

    /**
     * `_fetch_history`: every history event is processed without the channel
     * filter, in order, until one raises. False when the run did not complete,
     * which includes a missing or empty channel id.
     */
    method FetchHistory(history: seq<Event>) returns (completed: bool)
      requires Valid()
      modifies this
      ensures Valid()
      ensures HistoryEndpoint(old(channelId)).None? ==> !completed && loglines == old(loglines)
      ensures HistoryEndpoint(old(channelId)).Some? ==>
        Run(completed, loglines) == Replay(old(Context()), old(loglines), history, false)
      ensures memberCache == old(memberCache) && channelId == old(channelId) && connected == old(connected)
    {
      if HistoryEndpoint(channelId).None? {
        return false;
      }
      var i := 0;
      while i < |history|
        invariant 0 <= i <= |history|
        invariant Valid()
        invariant Replay(old(Context()), old(loglines), history, false) == Replay(Context(), loglines, history[i..], false)
        invariant memberCache == old(memberCache) && channelId == old(channelId) && connected == old(connected)
      {
        ReplayStep(Context(), loglines, history[i..], false);
        assert history[i..][0] == history[i] && history[i..][1..] == history[i + 1..];
        var outcome := ProcessEvent(history[i], false);
        if outcome == Raised {
          return false;
        }
        i := i + 1;
      }
      return true;
    }

    /**
     * `_connect`: when the real-time connection comes up, the session is
     * marked connected, the log is emptied, the member cache refreshed, the
     * channel id taken from the channel lookup when it found one, the
     * banner filed and the history replayed. The lookup's answer and the
     * history are parameters.
     */
    method Connect(rtmOk: bool, members: seq<MemberRecord>, found: Option<string>, now: string, history: seq<Event>)
      returns (completed: bool)
      requires Valid()
      modifies this
      ensures Valid()
      ensures !rtmOk ==> (!completed && loglines == old(loglines) && memberCache == old(memberCache)
                          && channelId == old(channelId) && connected == old(connected))
      ensures rtmOk ==> (connected && memberCache == CacheAfter(old(memberCache), members)
                         && channelId == (if found.Some? then found else old(channelId))
                         && Run(completed, loglines) == Startup(Context(), now, history))
    {
      if !rtmOk {
        return false;
      }
      connected := true;
      loglines := [];
      UpdateMemberCache(members);
      if found.Some? {
        channelId := found;
      }
      var failure := AddLogline(BannerColor, now, "", ConnectedBanner);
      if failure.Some? {
        return false;
      }
      completed := FetchHistory(history);
    }
  }
}
