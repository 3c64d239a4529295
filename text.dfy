/**
 * The handful of Python string operations the client leans on, written out:
 * `str.split` on one separator, `re.sub` of a literal pattern, `re.findall`
 * of the user-id pattern `U[A-Z0-9]{8}`, `str.strip`, and a run of spaces.
 */
module Text {

  /** `sep.join(parts)`. */
  function Join(parts: seq<string>, sep: char): (s: string)
  {
    if |parts| == 0 then ""
    else if |parts| == 1 then parts[0]
    else parts[0] + [sep] + Join(parts[1..], sep)
  }

  /**
   * `s.split(sep)`: the pieces between separators, at least one (the empty
   * string splits to one empty piece), none containing the separator.
   */
  function Split(s: string, sep: char): (parts: seq<string>)
    ensures |parts| >= 1
    ensures forall i :: 0 <= i < |parts| ==> sep !in parts[i]
    decreases |s|
  {
    if s == [] then [""]
    else
      var rest := Split(s[1..], sep);
      if s[0] == sep then [""] + rest
      else [[s[0]] + rest[0]] + rest[1..]
  }

  /** Joining the pieces back with the separator gives the string that was split. */
  lemma {:induction false} JoinSplit(s: string, sep: char)
    ensures Join(Split(s, sep), sep) == s
    decreases |s|
  {
    if s != [] {
      var rest := Split(s[1..], sep);
      JoinSplit(s[1..], sep);
      if s[0] == sep {
        assert ([""] + rest)[1..] == rest;
        assert s == [s[0]] + s[1..];
      } else {
        var parts := [[s[0]] + rest[0]] + rest[1..];
        if |rest| == 1 {
          assert s == [s[0]] + rest[0];
        } else {
          assert parts[1..] == rest[1..];
          assert Join(rest, sep) == rest[0] + [sep] + Join(rest[1..], sep);
          assert s == [s[0]] + s[1..];
        }
      }
    }
  }

  /** Splitting a join of separator-free pieces gives the pieces back. */
  lemma {:induction false} SplitJoin(parts: seq<string>, sep: char)
    requires |parts| >= 1
    requires forall i :: 0 <= i < |parts| ==> sep !in parts[i]
    ensures Split(Join(parts, sep), sep) == parts
    decreases |parts|, |parts[0]|
  {
    if |parts| == 1 {
      SplitFree(parts[0], sep);
    } else if parts[0] == "" {
      SplitJoin(parts[1..], sep);
      assert Join(parts, sep) == [sep] + Join(parts[1..], sep);
      assert Join(parts, sep)[1..] == Join(parts[1..], sep);
      assert parts == [""] + parts[1..];
    } else {
      var p0 := parts[0];
      var shorter := [p0[1..]] + parts[1..];
      assert sep !in p0[1..];
      assert forall i :: 0 <= i < |shorter| ==> sep !in shorter[i];
      SplitJoin(shorter, sep);
      assert shorter[1..] == parts[1..];
      assert Join(parts, sep) == [p0[0]] + Join(shorter, sep);
      assert Join(parts, sep)[1..] == Join(shorter, sep);
      assert p0 == [p0[0]] + p0[1..];
      assert parts == [p0] + parts[1..];
      var joined := Join(parts, sep);
      assert joined[0] == p0[0] != sep;
      assert joined == [joined[0]] + joined[1..];
    }
  }

  /** A string without the separator splits to itself alone. */
  lemma {:induction false} SplitFree(s: string, sep: char)
    requires sep !in s
    ensures Split(s, sep) == [s]
    decreases |s|
  {
    if s != [] {
      SplitFree(s[1..], sep);
      assert s == [s[0]] + s[1..];
    }
  }

  /** A separator-free prefix joins the first piece; the other pieces are untouched. */
  lemma {:induction false} SplitAfterPrefix(prefix: string, s: string, sep: char)
    requires sep !in prefix
    ensures Split(prefix + s, sep) == [prefix + Split(s, sep)[0]] + Split(s, sep)[1..]
    decreases |prefix|
  {
    if prefix != [] {
      SplitAfterPrefix(prefix[1..], s, sep);
      var whole := prefix + s;
      assert whole[0] == prefix[0] != sep;
      assert whole[1..] == prefix[1..] + s;
      var rest := Split(whole[1..], sep);
      assert Split(whole, sep) == [[whole[0]] + rest[0]] + rest[1..];
      assert rest[0] == prefix[1..] + Split(s, sep)[0];
      assert rest[1..] == Split(s, sep)[1..];
      assert [prefix[0]] + (prefix[1..] + Split(s, sep)[0]) == prefix + Split(s, sep)[0];
    } else {
      var parts := Split(s, sep);
      assert prefix + s == s && prefix + parts[0] == parts[0];
      assert parts == [parts[0]] + parts[1..];
    }
  }

  /** `s` has `pat` at position i. */
  predicate OccursAt(s: string, pat: string, i: nat)
  {
    i + |pat| <= |s| && s[i..i + |pat|] == pat
  }

  /**
   * `re.sub(pat, rep, s)` for a pattern without metacharacters: scanning from
   * the left, each occurrence is replaced and the scan resumes after it.
   */
  function ReplaceAll(s: string, pat: string, rep: string): (r: string)
    requires |pat| > 0
    decreases |s|
  {
    if |s| < |pat| then s
    else if s[..|pat|] == pat then rep + ReplaceAll(s[|pat|..], pat, rep)
    else [s[0]] + ReplaceAll(s[1..], pat, rep)
  }

  /** Text without the pattern is left as it is. */
  lemma {:induction false} ReplaceAllAbsent(s: string, pat: string, rep: string)
    requires |pat| > 0
    requires forall i :: 0 <= i <= |s| ==> !OccursAt(s, pat, i)
    ensures ReplaceAll(s, pat, rep) == s
    decreases |s|
  {
    if |s| >= |pat| {
      assert !OccursAt(s, pat, 0);
      forall i | 0 <= i <= |s[1..]|
        ensures !OccursAt(s[1..], pat, i)
      {
        assert !OccursAt(s, pat, i + 1);
        assert i + |pat| <= |s[1..]| ==> s[1..][i..i + |pat|] == s[i + 1..i + 1 + |pat|];
      }
      ReplaceAllAbsent(s[1..], pat, rep);
      assert s == [s[0]] + s[1..];
    }
  }

  /**
   * The first occurrence is replaced, the text before it is kept, and the
   * replacement carries on after it: with ReplaceAllAbsent this pins down
   * leftmost, non-overlapping substitution.
   */
  lemma ReplaceAllFirst(s: string, pat: string, rep: string, i: nat)
    requires |pat| > 0 && OccursAt(s, pat, i)
    requires forall j :: 0 <= j < i ==> !OccursAt(s, pat, j)
    ensures ReplaceAll(s, pat, rep) == s[..i] + (rep + ReplaceAll(s[i + |pat|..], pat, rep))
  {
    var u, t := s[..i], s[i..];
    assert u + t == s;
    ReplaceAllSkipsPrefix(u, t, pat, rep);
    assert t[..|pat|] == s[i..i + |pat|] && t[|pat|..] == s[i + |pat|..];
    ReplaceAllHit(t, pat, rep);
  }

  /**
   * One occurrence, with none before it and none in what follows it, is
   * the only thing replaced.
   */
  lemma ReplaceAround(a: string, pat: string, b: string, rep: string)
    requires |pat| > 0
    requires forall j :: 0 <= j < |a| ==> !OccursAt(a + pat + b, pat, j)
    requires forall j :: 0 <= j <= |b| ==> !OccursAt(b, pat, j)
    ensures ReplaceAll(a + pat + b, pat, rep) == a + rep + b
  {
    var s := a + pat + b;
    assert s[|a|..|a| + |pat|] == pat;
    ReplaceAllFirst(s, pat, rep, |a|);
    assert s[..|a|] == a && s[|a| + |pat|..] == b;
    ReplaceAllAbsent(b, pat, rep);
  }

  /**
   * Where no occurrence starts inside `u`, the scan copies `u` and carries
   * on with what follows it.
   */
  lemma {:induction false} ReplaceAllSkipsPrefix(u: string, v: string, pat: string, rep: string)
    requires |pat| > 0
    requires forall j :: 0 <= j < |u| ==> !OccursAt(u + v, pat, j)
    ensures ReplaceAll(u + v, pat, rep) == u + ReplaceAll(v, pat, rep)
    decreases |u|
  {
    if u == [] {
      assert u + v == v;
    } else if |u + v| <= |pat| {
      assert !OccursAt(u + v, pat, 0);
      ShortUnchanged(u + v, pat, rep);
      ShortUnchanged(v, pat, rep);
    } else {
      SkipsPrefixStep(u, v, pat, rep);
      ReplaceAllSkipsPrefix(u[1..], v, pat, rep);
      assert [u[0]] + (u[1..] + ReplaceAll(v, pat, rep)) == u + ReplaceAll(v, pat, rep);
    }
  }

  /** One character of an occurrence-free prefix is copied, and the rest stays occurrence-free. */
  lemma SkipsPrefixStep(u: string, v: string, pat: string, rep: string)
    requires |pat| > 0 && u != [] && |u + v| > |pat|
    requires forall j :: 0 <= j < |u| ==> !OccursAt(u + v, pat, j)
    ensures ReplaceAll(u + v, pat, rep) == [u[0]] + ReplaceAll(u[1..] + v, pat, rep)
    ensures forall j :: 0 <= j < |u[1..]| ==> !OccursAt(u[1..] + v, pat, j)
  {
    var s := u + v;
    assert !OccursAt(s, pat, 0);
    ReplaceAllSkip(s, pat, rep);
    assert s[1..] == u[1..] + v && s[0] == u[0];
    AbsentAfterHead(s, pat, |u|);
  }

  /** Text no longer than the pattern, and not equal to it, is left as it is. */
  lemma ShortUnchanged(s: string, pat: string, rep: string)
    requires |pat| > 0 && |s| <= |pat| && (|s| == |pat| ==> s != pat)
    ensures ReplaceAll(s, pat, rep) == s
  {
    if |s| == |pat| {
      assert s[..|pat|] == s;
      assert ReplaceAll(s[1..], pat, rep) == s[1..];
      assert s == [s[0]] + s[1..];
    }
  }

  /** An occurrence at the head is replaced and the scan resumes after it. */
  lemma ReplaceAllHit(t: string, pat: string, rep: string)
    requires |pat| > 0 && |pat| <= |t| && t[..|pat|] == pat
    ensures ReplaceAll(t, pat, rep) == rep + ReplaceAll(t[|pat|..], pat, rep)
  {
  }

  /** Where the text does not start with the pattern, its first character is kept. */
  lemma ReplaceAllSkip(s: string, pat: string, rep: string)
    requires |pat| > 0 && |pat| < |s| && !OccursAt(s, pat, 0)
    ensures ReplaceAll(s, pat, rep) == [s[0]] + ReplaceAll(s[1..], pat, rep)
  {
  }

  /** Dropping the first character shifts the occurrence-free prefix by one. */
  lemma AbsentAfterHead(s: string, pat: string, i: nat)
    requires 0 < i <= |s|
    requires forall j :: 0 <= j < i ==> !OccursAt(s, pat, j)
    ensures forall j :: 0 <= j < i - 1 ==> !OccursAt(s[1..], pat, j)
  {
    forall j | 0 <= j < i - 1
      ensures !OccursAt(s[1..], pat, j)
    {
      assert !OccursAt(s, pat, j + 1);
      assert j + |pat| <= |s[1..]| ==> s[1..][j..j + |pat|] == s[j + 1..j + 1 + |pat|];
    }
  }

  /** The characters of the class `[A-Z0-9]`. */
  predicate IdChar(c: char)
  {
    ('A' <= c <= 'Z') || ('0' <= c <= '9')
  }

  /** A Slack user id as the client recognises one: `U[A-Z0-9]{8}`. */
  predicate IsUserId(w: string)
  {
    |w| == 9 && w[0] == 'U' && forall i :: 1 <= i < 9 ==> IdChar(w[i])
  }

  /** A user id starts at position p of s. */
  predicate IdAt(s: string, p: nat)
  {
    p + 9 <= |s| && IsUserId(s[p..p + 9])
  }

  /**
   * `re.findall('(U[A-Z0-9]{8})', s)`: the user ids in `s`, leftmost first,
   * the scan resuming after each match.
   */
  function MentionIds(s: string): (ids: seq<string>)
    ensures forall w :: w in ids ==> IsUserId(w)
    decreases |s|
  {
    if |s| < 9 then []
    else if IsUserId(s[..9]) then [s[..9]] + MentionIds(s[9..])
    else MentionIds(s[1..])
  }

  /**
   * A user id standing where no id character precedes it (after `<@`, say)
   * is always among the matches: a match never runs across a character
   * outside `[A-Z0-9]`, so the scan cannot step over it.
   */
  lemma {:induction false} MentionIdsFinds(s: string, p: nat)
    requires p + 9 <= |s| && IsUserId(s[p..p + 9])
    requires p > 0 ==> !IdChar(s[p - 1])
    ensures s[p..p + 9] in MentionIds(s)
    decreases |s|
  {
    if p > 0 {
      if IsUserId(s[..9]) {
        assert p >= 9;
        assert s[9..][p - 9..p] == s[p..p + 9];
        if p > 9 { assert s[9..][p - 10] == s[p - 1]; }
        MentionIdsFinds(s[9..], p - 9);
      } else {
        assert s[1..][p - 1..p + 8] == s[p..p + 9];
        if p > 1 { assert s[1..][p - 2] == s[p - 1]; }
        MentionIdsFinds(s[1..], p - 1);
      }
    }
  }

  /** No match at all exactly when no nine-character window is a user id. */
  lemma {:induction false} MentionIdsNone(s: string)
    ensures MentionIds(s) == [] <==> forall p :: 0 <= p ==> !IdAt(s, p)
    decreases |s|
  {
    if |s| >= 9 {
      if IsUserId(s[..9]) {
        assert IdAt(s, 0);
      } else {
        MentionIdsNone(s[1..]);
        assert !IdAt(s, 0);
        forall p | 0 <= p
          ensures IdAt(s, p + 1) <==> IdAt(s[1..], p)
        {
          if p + 10 <= |s| { assert s[1..][p..p + 9] == s[p + 1..p + 10]; }
        }
        forall p | 1 <= p
          ensures IdAt(s, p) <==> IdAt(s[1..], p - 1)
        {
          assert IdAt(s, (p - 1) + 1) <==> IdAt(s[1..], p - 1);
        }
      }
    }
  }

  /** `" " * n`. */
  function Spaces(n: nat): (s: string)
    ensures |s| == n && forall i :: 0 <= i < n ==> s[i] == ' '
  {
    seq(n, _ => ' ')
  }

  /** The characters Python's `str.isspace` accepts, so those `str.strip()` removes. */
  predicate IsSpace(c: char)
  {
    c == ' ' || ('\t' <= c <= '\r') || ('\U{1c}' <= c <= '\U{1f}') || c == '\U{85}' || c == '\U{a0}'
    || c == '\U{1680}' || ('\U{2000}' <= c <= '\U{200a}') || c == '\U{2028}' || c == '\U{2029}'
    || c == '\U{202f}' || c == '\U{205f}' || c == '\U{3000}'
  }

  /** How many whitespace characters `s` starts with. */
  function LeadingSpace(s: string): (n: nat)
    ensures n <= |s|
    ensures forall i :: 0 <= i < n ==> IsSpace(s[i])
    ensures n < |s| ==> !IsSpace(s[n])
    decreases |s|
  {
    if s == [] || !IsSpace(s[0]) then 0 else 1 + LeadingSpace(s[1..])
  }

  /** How many whitespace characters `s` ends with. */
  function TrailingSpace(s: string): (n: nat)
    ensures n <= |s|
    ensures forall i :: |s| - n <= i < |s| ==> IsSpace(s[i])
    ensures n < |s| ==> !IsSpace(s[|s| - n - 1])
    decreases |s|
  {
    if s == [] || !IsSpace(s[|s| - 1]) then 0 else 1 + TrailingSpace(s[..|s| - 1])
  }

  /**
   * `s.strip()`: the middle of `s` once whitespace is taken off both ends.
   * What is taken off is whitespace only, and what remains neither starts
   * nor ends with whitespace.
   */
  function Strip(s: string): (r: string)
    ensures exists lo, hi :: (0 <= lo <= hi <= |s| && r == s[lo..hi]
      && (forall i :: 0 <= i < lo ==> IsSpace(s[i]))
      && (forall i :: hi <= i < |s| ==> IsSpace(s[i])))
    ensures r != [] ==> !IsSpace(r[0]) && !IsSpace(r[|r| - 1])
    ensures r == [] <==> forall i :: 0 <= i < |s| ==> IsSpace(s[i])
  {
    var lo := LeadingSpace(s);
    var hi := lo + |s[lo..]| - TrailingSpace(s[lo..]);
    StripBounds(s, lo, hi);
    s[lo..hi]
  }

  lemma StripBounds(s: string, lo: nat, hi: nat)
    requires lo == LeadingSpace(s) && hi == lo + |s[lo..]| - TrailingSpace(s[lo..])
    ensures 0 <= lo <= hi <= |s|
    ensures forall i :: 0 <= i < lo ==> IsSpace(s[i])
    ensures forall i :: hi <= i < |s| ==> IsSpace(s[i])
    ensures lo < hi ==> !IsSpace(s[lo]) && !IsSpace(s[hi - 1])
    ensures lo == hi <==> forall i :: 0 <= i < |s| ==> IsSpace(s[i])
  {
    var rest := s[lo..];
    var n := TrailingSpace(rest);
    assert forall i :: 0 <= i < |rest| ==> rest[i] == s[lo + i];
    if lo < |s| {
      assert !IsSpace(rest[0]);
      assert n < |rest|;
    }
  }
}
