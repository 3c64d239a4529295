/**
 * Line reflow: how one chat message becomes display-ready physical lines and
 * where in the log store they are filed (`LackManager._add_logline`).
 *
 * The message text is HTML-unescaped, every `<@Uxxxxxxxx>` mention is
 * replaced by `@name` from the member cache, a `"{date} {name}: "` prefix is
 * put in front, the result is split into paragraphs at newlines, every
 * paragraph after the first is indented by as many spaces as the prefix is
 * long, each paragraph is word-wrapped with that indent as its hanging
 * indent, and the physical lines are stored one per key, the first under the
 * message's own timestamp and each further one under the next key.
 */
module Reflow {
  import opened Wrappers
  import opened Text
  import opened OrderingKey
  import opened LogStore

  /**
   * Library calls the reflow makes and this model leaves closed: HTML
   * unescaping, the timestamp's rendering (`int(seconds)`, conversion to the
   * configured zone, `strftime('%a %I:%M%p')`; None where that raises
   * ValueError), and `TextWrapper(width=..., subsequent_indent=...).wrap`
   * for a positive width (a width of 0 or less raises ValueError, which the
   * reflow models itself).
   */
  datatype Library = Library(
    unescape: string -> string,
    formatDate: string -> Option<string>,
    wrap: (string, int, string) -> seq<string>)

  /** A member cache entry: display name and palette colour. */
  datatype Member = Member(name: string, color: int)

  /** The exceptions the reflow can raise. */
  datatype Failure = KeyError | ValueError

  /** The mention token for a user id. */
  function Mention(id: string): (m: string)
    ensures |m| == |id| + 3 && m[0] == '<' && m[1] == '@' && m[|m| - 1] == '>'
  {
    "<@" + id + ">"
  }

  /**
   * The mention loop: each matched id, in match order, has its mention token
   * replaced by `@name`; an id missing from the cache raises KeyError, so the
   * text is either fully substituted or not at all.
   */
  function Substitute(text: string, ids: seq<string>, cache: map<string, Member>): (r: Result<string, Failure>)
    ensures r.Ok? <==> forall i :: 0 <= i < |ids| ==> ids[i] in cache
    ensures r.Err? ==> r.error == KeyError
    decreases |ids|
  {
    if ids == [] then Ok(text)
    else if ids[0] !in cache then Err(KeyError)
    else
      var r := Substitute(ReplaceAll(text, Mention(ids[0]), "@" + cache[ids[0]].name), ids[1..], cache);
      assert forall i :: 1 <= i < |ids| ==> ids[i] == ids[1..][i - 1];
      r
  }

  /** Text in which none of the ids' mention tokens occurs comes back unchanged. */
  lemma {:induction false} SubstituteUnchanged(text: string, ids: seq<string>, cache: map<string, Member>)
    requires forall i :: 0 <= i < |ids| ==> ids[i] in cache
    requires forall i, j :: 0 <= i < |ids| && 0 <= j <= |text| ==> !OccursAt(text, Mention(ids[i]), j)
    ensures Substitute(text, ids, cache) == Ok(text)
    decreases |ids|
  {
    if ids != [] {
      var pat := Mention(ids[0]);
      forall j | 0 <= j <= |text|
        ensures !OccursAt(text, pat, j)
      {
        assert !OccursAt(text, Mention(ids[0]), j);
      }
      ReplaceAllAbsent(text, pat, "@" + cache[ids[0]].name);
      forall i, j | 0 <= i < |ids[1..]| && 0 <= j <= |text|
        ensures !OccursAt(text, Mention(ids[1..][i]), j)
      {
        assert ids[1..][i] == ids[i + 1];
      }
      SubstituteUnchanged(text, ids[1..], cache);
    }
  }

  /**
   * A mention token between two stretches of plain text (no '<') becomes
   * `@name`, and the text around it is kept.
   */
  lemma SubstituteReplacesMention(a: string, b: string, id: string, cache: map<string, Member>)
    requires id in cache && '<' !in a && '<' !in b
    ensures Substitute(a + Mention(id) + b, [id], cache) == Ok(a + ("@" + cache[id].name) + b)
  {
    var pat := Mention(id);
    var s := a + pat + b;
    forall j | 0 <= j < |a|
      ensures !OccursAt(s, pat, j)
    {
      assert s[j] == a[j];
    }
    forall j | 0 <= j <= |b|
      ensures !OccursAt(b, pat, j)
    {
      assert j + |pat| <= |b| ==> b[j..j + |pat|][0] == b[j];
    }
    SubstituteAround(a, b, id, cache);
  }

  /**
   * The token's first occurrence is at the end of `a` and none follows it
   * in `b`: the substitution leaves `a` and `b` as they are.
   */
  lemma SubstituteAround(a: string, b: string, id: string, cache: map<string, Member>)
    requires id in cache
    requires forall j :: 0 <= j < |a| ==> !OccursAt(a + Mention(id) + b, Mention(id), j)
    requires forall j :: 0 <= j <= |b| ==> !OccursAt(b, Mention(id), j)
    ensures Substitute(a + Mention(id) + b, [id], cache) == Ok(a + ("@" + cache[id].name) + b)
  {
    var pat, rep := Mention(id), "@" + cache[id].name;
    ReplaceAround(a, pat, b, rep);
    SubstituteOne(a + pat + b, id, cache);
  }

  /** Substituting a single cached id is one `re.sub` of its mention token. */
  lemma SubstituteOne(text: string, id: string, cache: map<string, Member>)
    requires id in cache
    ensures Substitute(text, [id], cache) == Ok(ReplaceAll(text, Mention(id), "@" + cache[id].name))
  {
    assert [id][1..] == [];
  }

  /**
   * The substitution is one left-to-right pass: a display name can complete
   * a mention token that the pass has already moved beyond, and that token
   * stays in the text. With id U12345678 named U1234, the text
   * `<<@U12345678>5678>` comes back as `<@U12345678>`.
   */
  lemma NameCanCompleteMention(id: string, p: string, q: string, cache: map<string, Member>)
    requires id in cache && cache[id].name == p && id == p + q
    ensures Substitute("<" + Mention(id) + (q + ">"), [id], cache) == Ok(Mention(id))
  {
    BracketedMentionAlone(id, q);
    SubstituteAround("<", q + ">", id, cache);
    MentionJoins(p, q);
  }

  /** Behind an extra '<', and with a tail shorter than itself, a token occurs only once. */
  lemma BracketedMentionAlone(id: string, q: string)
    requires |q| <= |id|
    ensures !OccursAt("<" + Mention(id) + (q + ">"), Mention(id), 0)
    ensures forall j :: 0 <= j <= |q + ">"| ==> !OccursAt(q + ">", Mention(id), j)
  {
    var s := "<" + Mention(id) + (q + ">");
    assert s[1] == '<' != Mention(id)[1];
  }

  /** `@p` followed by the rest of the id and '>' spells the mention token of the whole id. */
  lemma MentionJoins(p: string, q: string)
    ensures "<" + ("@" + p) + (q + ">") == Mention(p + q)
  {
  }

  /**
   * Text made of plain stretches with one piece between each pair:
   * `parts[0] + pieces[0] + parts[1] + ... + pieces[n - 1] + parts[n]`.
   */
  function Interleave(parts: seq<string>, pieces: seq<string>): (s: string)
    requires |parts| == |pieces| + 1
    decreases |pieces|
  {
    if pieces == [] then parts[0]
    else parts[0] + (pieces[0] + Interleave(parts[1..], pieces[1..]))
  }

  /** The mention tokens of a list of ids. */
  function Mentions(ids: seq<string>): (ms: seq<string>)
    ensures |ms| == |ids|
  {
    seq(|ids|, i requires 0 <= i < |ids| => Mention(ids[i]))
  }

  /** The `@name` replacements of a list of cached ids. */
  function Names(ids: seq<string>, cache: map<string, Member>): (ns: seq<string>)
    requires forall i :: 0 <= i < |ids| ==> ids[i] in cache
    ensures |ns| == |ids|
  {
    seq(|ids|, i requires 0 <= i < |ids| => "@" + cache[ids[i]].name)
  }

  /** How the token of `id` reads once the ids in `done` have been substituted. */
  function Shown(id: string, done: set<string>, cache: map<string, Member>): string
  {
    if id in done && id in cache then "@" + cache[id].name else Mention(id)
  }

  /** Shown, token by token. */
  function ShownAll(ids: seq<string>, done: set<string>, cache: map<string, Member>): (r: seq<string>)
    ensures |r| == |ids|
  {
    seq(|ids|, i requires 0 <= i < |ids| => Shown(ids[i], done, cache))
  }

  /**
   * The mention loop over any list of cached ids replaces every token whose
   * id is on the list by `@name` and keeps the text between the tokens, as
   * long as neither that text nor the names hold a '<' and the ids hold no
   * '<' or '>' (as the ids `findall` reports never do). The list may repeat
   * an id or carry ids that have no token in the text, such as a bare
   * id-shaped word: their passes change nothing.
   */
  lemma SubstituteReplacesMentions(parts: seq<string>, toks: seq<string>, ids: seq<string>,
                                   cache: map<string, Member>)
    requires |parts| == |toks| + 1
    requires forall i :: 0 <= i < |parts| ==> '<' !in parts[i]
    requires forall i :: 0 <= i < |toks| ==> toks[i] in ids
    requires forall i :: 0 <= i < |ids| ==>
      ids[i] in cache && '<' !in ids[i] && '>' !in ids[i] && '<' !in cache[ids[i]].name
    ensures Substitute(Interleave(parts, Mentions(toks)), ids, cache) == Ok(Interleave(parts, Names(toks, cache)))
  {
    var all := set k | k in ids;
    assert ShownAll(toks, {}, cache) == Mentions(toks);
    assert ShownAll(toks, all, cache) == Names(toks, cache);
    SubstituteFrom(parts, toks, {}, ids, cache);
    assert {} + all == all;
  }

  /** The mention loop from a text in which the ids in `done` are already substituted. */
  lemma {:induction false} SubstituteFrom(parts: seq<string>, toks: seq<string>, done: set<string>,
                                          ids: seq<string>, cache: map<string, Member>)
    requires |parts| == |toks| + 1
    requires forall i :: 0 <= i < |parts| ==> '<' !in parts[i]
    requires forall i :: 0 <= i < |toks| ==> '<' !in toks[i] && '>' !in toks[i]
    requires forall i :: 0 <= i < |toks| && toks[i] in cache ==> '<' !in cache[toks[i]].name
    requires forall i :: 0 <= i < |ids| ==> ids[i] in cache && '>' !in ids[i] && '<' !in cache[ids[i]].name
    ensures Substitute(Interleave(parts, ShownAll(toks, done, cache)), ids, cache)
      == Ok(Interleave(parts, ShownAll(toks, done + (set k | k in ids), cache)))
    decreases |ids|
  {
    if ids == [] {
      assert done + (set k | k in ids) == done;
    } else {
      var x := ids[0];
      SubstitutePass(parts, toks, done, x, cache);
      SubstituteFrom(parts, toks, done + {x}, ids[1..], cache);
      assert done + {x} + (set k | k in ids[1..]) == done + (set k | k in ids);
    }
  }

  /** One pass of the mention loop substitutes exactly the tokens of its id. */
  lemma {:induction false} SubstitutePass(parts: seq<string>, toks: seq<string>, done: set<string>,
                                          x: string, cache: map<string, Member>)
    requires |parts| == |toks| + 1
    requires forall i :: 0 <= i < |parts| ==> '<' !in parts[i]
    requires forall i :: 0 <= i < |toks| ==> '<' !in toks[i] && '>' !in toks[i]
    requires forall i :: 0 <= i < |toks| && toks[i] in cache ==> '<' !in cache[toks[i]].name
    requires x in cache && '>' !in x && '<' !in cache[x].name
    ensures ReplaceAll(Interleave(parts, ShownAll(toks, done, cache)), Mention(x), "@" + cache[x].name)
      == Interleave(parts, ShownAll(toks, done + {x}, cache))
    decreases |toks|
  {
    var pat, rep := Mention(x), "@" + cache[x].name;
    if toks == [] {
      PlainNoStart(parts[0], [], x);
      ReplaceAllSkipsPrefix(parts[0], [], pat, rep);
      assert parts[0] + [] == parts[0];
    } else {
      var t, p := toks[0], parts[0];
      var before, after := ShownAll(toks, done, cache), ShownAll(toks, done + {x}, cache);
      assert before[1..] == ShownAll(toks[1..], done, cache);
      assert after[1..] == ShownAll(toks[1..], done + {x}, cache);
      SubstitutePass(parts[1..], toks[1..], done, x, cache);
      var rest := Interleave(parts[1..], before[1..]);
      PlainNoStart(p, before[0] + rest, x);
      ReplaceAllSkipsPrefix(p, before[0] + rest, pat, rep);
      if t in done && t in cache {
        PlainNoStart(before[0], rest, x);
        ReplaceAllSkipsPrefix(before[0], rest, pat, rep);
      } else if t == x {
        assert (pat + rest)[..|pat|] == pat;
        ReplaceAllHit(pat + rest, pat, rep);
        assert (pat + rest)[|pat|..] == rest;
      } else {
        MentionNoStart(t, x, rest);
        ReplaceAllSkipsPrefix(before[0], rest, pat, rep);
      }
    }
  }

  /** No mention token starts inside text without '<'. */
  lemma PlainNoStart(u: string, v: string, x: string)
    requires '<' !in u
    ensures forall j :: 0 <= j < |u| ==> !OccursAt(u + v, Mention(x), j)
  {
    forall j | 0 <= j < |u|
      ensures !OccursAt(u + v, Mention(x), j)
    {
      assert (u + v)[j] == u[j] != '<';
      assert j + |Mention(x)| <= |u + v| ==> (u + v)[j..j + |Mention(x)|][0] == (u + v)[j];
    }
  }

  /**
   * No other id's token starts inside the token of `t`: a '<' appears only
   * at its head, and there the first '>' ends `t`, not `x`.
   */
  lemma MentionNoStart(t: string, x: string, rest: string)
    requires t != x && '<' !in t && '>' !in t && '>' !in x
    ensures forall j :: 0 <= j < |Mention(t)| ==> !OccursAt(Mention(t) + rest, Mention(x), j)
  {
    var s, pat := Mention(t) + rest, Mention(x);
    forall j | 0 <= j < |Mention(t)|
      ensures !OccursAt(s, pat, j)
    {
      if j == 0 {
        HeadMismatch(t, x, rest);
      } else {
        assert s[j] == Mention(t)[j];
        assert j == 1 || j == |t| + 2 || Mention(t)[j] == t[j - 2];
        assert j + |pat| <= |s| ==> s[j..j + |pat|][0] == s[j];
      }
    }
  }

  /** The token of `t` is not the head of a token of another '>'-free id. */
  lemma HeadMismatch(t: string, x: string, rest: string)
    requires t != x && '>' !in t && '>' !in x
    ensures !OccursAt(Mention(t) + rest, Mention(x), 0)
  {
    var s, pat := Mention(t) + rest, Mention(x);
    if |pat| <= |s| {
      var head := s[..|pat|];
      if |x| < |t| {
        assert head[|x| + 2] == t[|x|] != pat[|x| + 2];
      } else if |x| > |t| {
        assert head[|t| + 2] == '>' != pat[|t| + 2];
      } else {
        var k :| 0 <= k < |x| && x[k] != t[k];
        assert head[k + 2] == t[k] != pat[k + 2];
      }
    }
  }

  /**
   * `ts.split('.')` unpacked into two names, then the date rendered from the
   * part before the dot; None where Python raises ValueError (no dot, more
   * than one dot, or a part the date rendering rejects).
   */
  function DateOf(lib: Library, ts: string): (d: Option<string>)
  {
    var parts := Split(ts, '.');
    if |parts| != 2 then None
    else lib.formatDate(parts[0])
  }

  /** The `"{date} {name}: "` prefix. */
  function Prefix(date: string, name: string): (p: string)
    ensures |p| == |date| + |name| + 3
    ensures p[..|date|] == date && p[|p| - 2..] == ": "
  {
    date + " " + name + ": "
  }

  /**
   * The paragraphs handed to the wrapper: the prefixed text split at
   * newlines, every paragraph after the first indented by the prefix's width.
   */
  function Paragraphs(prefix: string, text: string): (ps: seq<string>)
    ensures |ps| == |Split(prefix + text, '\n')| >= 1
  {
    var parts := Split(prefix + text, '\n');
    seq(|parts|, i requires 0 <= i < |parts| => if i == 0 then parts[0] else Spaces(|prefix|) + parts[i])
  }

  /**
   * Paragraph 0 is the prefix followed by the text's first line; paragraph i
   * is exactly `len(prefix)` spaces followed by the text's i-th line; there
   * is one paragraph per line of the text.
   */
  lemma ParagraphsLayout(prefix: string, text: string)
    requires '\n' !in prefix
    ensures var ps, lines := Paragraphs(prefix, text), Split(text, '\n');
      && |ps| == |lines|
      && ps[0] == prefix + lines[0]
      && forall i :: 1 <= i < |ps| ==> ps[i] == Spaces(|prefix|) + lines[i]
  {
    SplitAfterPrefix(prefix, text, '\n');
  }

  /** The physical lines of a run of paragraphs: each wrapped, in order. */
  function WrapAll(lib: Library, width: int, indent: string, ps: seq<string>): (ls: seq<string>)
    ensures ps == [] ==> ls == []
  {
    if ps == [] then []
    else WrapAll(lib, width, indent, ps[..|ps| - 1]) + lib.wrap(ps[|ps| - 1], width, indent)
  }

  /**
   * The physical lines of one message, or the exception that stops it: a
   * KeyError from an unknown mention comes before a ValueError from the
   * timestamp, which comes before the wrapper's ValueError for a width of 0
   * or less, as in the source's order of work.
   */
  function ReflowLines(lib: Library, width: int, cache: map<string, Member>, ts: string, name: string, text: string)
    : (r: Result<seq<string>, Failure>)
    ensures r.Err? && r.error == KeyError <==>
      exists i :: 0 <= i < |MentionIds(lib.unescape(text))| && MentionIds(lib.unescape(text))[i] !in cache
    ensures r.Err? && r.error == ValueError <==>
      (forall i :: 0 <= i < |MentionIds(lib.unescape(text))| ==> MentionIds(lib.unescape(text))[i] in cache)
      && (DateOf(lib, ts).None? || width <= 0)
  {
    var t := lib.unescape(text);
    match Substitute(t, MentionIds(t), cache)
    case Err(e) => Err(e)
    case Ok(resolved) =>
      match DateOf(lib, ts)
      case None => Err(ValueError)
      case Some(date) =>
        if width <= 0 then Err(ValueError)
        else
          var prefix := Prefix(date, name);
          Ok(WrapAll(lib, width, Spaces(|prefix|), Paragraphs(prefix, resolved)))
  }

  /** The store keys of the first n physical lines of the message stamped ts. */
  predicate IsLineKey(k: Key, ts: string, n: nat)
  {
    k.stamp == ts && k.line < n
  }

  /**
   * The storing loop: physical line i goes to `store[NthKey(ts, i)]`, by
   * insert-or-overwrite, in line order.
   */
  function StoreLines(store: seq<Entry>, ts: string, color: int, lines: seq<string>): (r: seq<Entry>)
    requires Sorted(store)
    ensures Sorted(r)
    decreases |lines|
  {
    if lines == [] then store
    else
      var n := |lines| - 1;
      Put(StoreLines(store, ts, color, lines[..n]), NthKey(ts, n), Line(color, lines[n]))
  }

  /**
   * After the storing loop, line i is found under its key, every other key
   * keeps its entry, and the store has grown by at most one entry per line.
   */
  lemma {:induction false} StoreLinesSpec(store: seq<Entry>, ts: string, color: int, lines: seq<string>)
    requires Sorted(store)
    ensures var r := StoreLines(store, ts, color, lines);
      && (forall i :: 0 <= i < |lines| ==> Get(r, NthKey(ts, i)) == Some(Line(color, lines[i])))
      && (forall k :: !IsLineKey(k, ts, |lines|) ==> Get(r, k) == Get(store, k))
      && |store| <= |r| <= |store| + |lines|
    decreases |lines|
  {
    if lines != [] {
      var n := |lines| - 1;
      StoreLinesSpec(store, ts, color, lines[..n]);
      var before := StoreLines(store, ts, color, lines[..n]);
      var r := Put(before, NthKey(ts, n), Line(color, lines[n]));
      assert r == StoreLines(store, ts, color, lines);
      forall i | 0 <= i < |lines|
        ensures Get(r, NthKey(ts, i)) == Some(Line(color, lines[i]))
      {
        if i < n {
          assert lines[..n][i] == lines[i];
          assert NthKey(ts, i) != NthKey(ts, n);
        }
      }
      forall k | !IsLineKey(k, ts, |lines|)
        ensures Get(r, k) == Get(store, k)
      {
        assert k != NthKey(ts, n) && !IsLineKey(k, ts, n);
      }
    }
  }

  /** Filing one more line is one more insert-or-overwrite, at the next key. */
  lemma StoreLinesSnoc(store: seq<Entry>, ts: string, color: int, lines: seq<string>, l: string)
    requires Sorted(store)
    ensures StoreLines(store, ts, color, lines + [l])
      == Put(StoreLines(store, ts, color, lines), NthKey(ts, |lines|), Line(color, l))
  {
    assert (lines + [l])[..|lines|] == lines;
  }

  /** Wrapping one more paragraph appends its lines. */
  lemma WrapAllSnoc(lib: Library, width: int, indent: string, ps: seq<string>, i: nat)
    requires i < |ps|
    ensures WrapAll(lib, width, indent, ps[..i + 1])
      == WrapAll(lib, width, indent, ps[..i]) + lib.wrap(ps[i], width, indent)
  {
    assert ps[..i + 1][..i] == ps[..i];
  }

  /** The entries a message's lines become when they are simply appended. */
  function Filed(ts: string, color: int, lines: seq<string>): (es: seq<Entry>)
    ensures |es| == |lines|
    ensures forall i :: 0 <= i < |es| ==> es[i] == Entry(NthKey(ts, i), Line(color, lines[i]))
  {
    seq(|lines|, i requires 0 <= i < |lines| => Entry(NthKey(ts, i), Line(color, lines[i])))
  }

  lemma FiledSnoc(ts: string, color: int, lines: seq<string>)
    requires |lines| > 0
    ensures Filed(ts, color, lines)
      == Filed(ts, color, lines[..|lines| - 1]) + [Entry(NthKey(ts, |lines| - 1), Line(color, lines[|lines| - 1]))]
  {
  }

  /**
   * A message stamped after everything in the store is appended at the end,
   * its lines in wrap order: messages that arrive in timestamp order iterate
   * in arrival order.
   */
  lemma {:induction false} StoreLinesAppends(store: seq<Entry>, ts: string, color: int, lines: seq<string>)
    requires Sorted(store)
    requires forall i :: 0 <= i < |store| ==> StrLess(store[i].key.stamp, ts)
    ensures StoreLines(store, ts, color, lines) == store + Filed(ts, color, lines)
    decreases |lines|
  {
    if lines != [] {
      var n := |lines| - 1;
      StoreLinesAppends(store, ts, color, lines[..n]);
      var before := StoreLines(store, ts, color, lines[..n]);
      AboveAll(store, ts, color, lines[..n], before);
      PutAboveAllAppends(before, NthKey(ts, n), Line(color, lines[n]));
      FiledSnoc(ts, color, lines);
    }
  }

  lemma AboveAll(store: seq<Entry>, ts: string, color: int, lines: seq<string>, before: seq<Entry>)
    requires forall i :: 0 <= i < |store| ==> StrLess(store[i].key.stamp, ts)
    requires before == store + Filed(ts, color, lines)
    ensures forall i :: 0 <= i < |before| ==> Less(before[i].key, NthKey(ts, |lines|))
  {
    forall i | 0 <= i < |before|
      ensures Less(before[i].key, NthKey(ts, |lines|))
    {
      if i >= |store| { assert before[i] == Filed(ts, color, lines)[i - |store|]; }
    }
  }

  /**
   * `_add_logline` as a whole: the store after the message's lines are
   * filed, or the exception and the store as it was. Nothing is stored before
   * the mentions and the timestamp have both been resolved.
   */
  function AddLine(lib: Library, width: int, cache: map<string, Member>, store: seq<Entry>,
                   color: int, ts: string, name: string, text: string): (r: Result<seq<Entry>, Failure>)
    requires Sorted(store)
    ensures r.Ok? <==> ReflowLines(lib, width, cache, ts, name, text).Ok?
    ensures r.Err? ==> r.error == ReflowLines(lib, width, cache, ts, name, text).error
    ensures r.Ok? ==> Sorted(r.value)
  {
    match ReflowLines(lib, width, cache, ts, name, text)
    case Err(e) => Err(e)
    case Ok(lines) => Ok(StoreLines(store, ts, color, lines))
  }
}
