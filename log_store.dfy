/**
 * The log store: a sorted dictionary from ordering keys to display-ready
 * lines, kept as the sequence of its entries in key order (which is what a
 * sorted dictionary iterates, and what `iloc` indexes).
 */
module LogStore {
  import opened Wrappers
  import opened OrderingKey

  /** One stored physical line: a palette colour and its text. */
  datatype Line = Line(color: int, text: string)

  datatype Entry = Entry(key: Key, line: Line)

  /** Keys strictly increase along the sequence, so no key occurs twice. */
  ghost predicate Sorted(s: seq<Entry>)
  {
    forall i, j :: 0 <= i < j < |s| ==> Less(s[i].key, s[j].key)
  }

  /** The keys in iteration order (`SortedDict.keys()`). */
  function Keys(s: seq<Entry>): (ks: seq<Key>)
    ensures |ks| == |s|
    ensures forall i :: 0 <= i < |s| ==> ks[i] == s[i].key
  {
    seq(|s|, i requires 0 <= i < |s| => s[i].key)
  }

  /** The lines in iteration order: what the log windows page through. */
  function Lines(s: seq<Entry>): (ls: seq<Line>)
    ensures |ls| == |s|
    ensures forall i :: 0 <= i < |s| ==> ls[i] == s[i].line
  {
    seq(|s|, i requires 0 <= i < |s| => s[i].line)
  }

  /** `store[k]`, or None where Python raises KeyError. */
  function Get(s: seq<Entry>, k: Key): (r: Option<Line>)
    ensures r.Some? <==> k in Keys(s)
  {
    if s == [] then None
    else if s[0].key == k then Some(s[0].line)
    else
      assert Keys(s[1..]) == Keys(s)[1..];
      Get(s[1..], k)
  }

  /** In a sorted store the entry at position i is what a lookup of its key returns. */
  lemma {:induction false} GetAt(s: seq<Entry>, i: nat)
    requires Sorted(s) && i < |s|
    ensures Get(s, s[i].key) == Some(s[i].line)
  {
    if i > 0 {
      LessIrreflexive(s[i].key);
      assert Less(s[0].key, s[i].key);
      GetAt(s[1..], i - 1);
    }
  }

  /**
   * `store[k] = line`: insert when the key is new, overwrite when it is
   * present. Exactly one key changes, and the entry count grows by one
   * exactly when the key was absent.
   */
  function Put(s: seq<Entry>, k: Key, v: Line): (r: seq<Entry>)
    requires Sorted(s)
    ensures Sorted(r)
    ensures Get(r, k) == Some(v)
    ensures forall k' :: k' != k ==> Get(r, k') == Get(s, k')
    ensures |r| == if k in Keys(s) then |s| else |s| + 1
    ensures forall k' :: k' in Keys(r) <==> k' == k || k' in Keys(s)
    decreases |s|
  {
    if s == [] then [Entry(k, v)]
    else if Less(k, s[0].key) then
      PutBelowAll(s, k);
      KeysCons(Entry(k, v), s);
      GetCons(Entry(k, v), s, k);
      GetConsOthers(Entry(k, v), s);
      [Entry(k, v)] + s
    else if k == s[0].key then
      PutOver(s, v);
      [Entry(k, v)] + s[1..]
    else
      LessTotal(k, s[0].key);
      var rest := Put(s[1..], k, v);
      PutPast(s, k, v, rest);
      [s[0]] + rest
  }

  lemma GetCons(e: Entry, s: seq<Entry>, k: Key)
    ensures Get([e] + s, k) == if e.key == k then Some(e.line) else Get(s, k)
  {
    assert ([e] + s)[1..] == s;
  }

  lemma GetConsOthers(e: Entry, s: seq<Entry>)
    ensures forall k :: k != e.key ==> Get([e] + s, k) == Get(s, k)
  {
    forall k | k != e.key
      ensures Get([e] + s, k) == Get(s, k)
    {
      GetCons(e, s, k);
    }
  }

  /** Put, second case: the key is the first stored key and its line is overwritten. */
  lemma PutOver(s: seq<Entry>, v: Line)
    requires Sorted(s) && |s| > 0
    ensures Sorted([Entry(s[0].key, v)] + s[1..]) && s[0].key in Keys(s)
    ensures Get([Entry(s[0].key, v)] + s[1..], s[0].key) == Some(v)
    ensures forall k' :: k' != s[0].key ==> Get([Entry(s[0].key, v)] + s[1..], k') == Get(s, k')
    ensures forall k' :: k' in Keys([Entry(s[0].key, v)] + s[1..]) <==> k' == s[0].key || k' in Keys(s)
  {
    var k := s[0].key;
    assert s == [s[0]] + s[1..];
    KeysCons(s[0], s[1..]);
    KeysCons(Entry(k, v), s[1..]);
    GetCons(Entry(k, v), s[1..], k);
    forall k' | k' != k
      ensures Get([Entry(k, v)] + s[1..], k') == Get(s, k')
    {
      GetCons(Entry(k, v), s[1..], k');
      GetCons(s[0], s[1..], k');
    }
  }

  /** Put, third case: the key sorts above the first stored key and goes into the rest. */
  lemma PutPast(s: seq<Entry>, k: Key, v: Line, rest: seq<Entry>)
    requires Sorted(s) && |s| > 0 && Less(s[0].key, k)
    requires Sorted(rest) && Get(rest, k) == Some(v)
    requires forall k' :: k' != k ==> Get(rest, k') == Get(s[1..], k')
    requires |rest| == if k in Keys(s[1..]) then |s| - 1 else |s|
    requires forall k' :: k' in Keys(rest) <==> k' == k || k' in Keys(s[1..])
    ensures Sorted([s[0]] + rest) && Get([s[0]] + rest, k) == Some(v)
    ensures forall k' :: k' != k ==> Get([s[0]] + rest, k') == Get(s, k')
    ensures |[s[0]] + rest| == if k in Keys(s) then |s| else |s| + 1
    ensures forall k' :: k' in Keys([s[0]] + rest) <==> k' == k || k' in Keys(s)
  {
    var r := [s[0]] + rest;
    assert r[0] == s[0] && r[1..] == rest;
    LessIrreflexive(k);
    HeadBelowRest(s, k, rest);
    ConsSorted(s[0], rest);
    KeysCons(s[0], rest);
    assert Keys(s) == [s[0].key] + Keys(s[1..]);
  }

  /** Every key of the rest after an insertion above the head sorts above the head. */
  lemma HeadBelowRest(s: seq<Entry>, k: Key, rest: seq<Entry>)
    requires Sorted(s) && |s| > 0 && Less(s[0].key, k)
    requires forall k' :: k' in Keys(rest) <==> k' == k || k' in Keys(s[1..])
    ensures forall j :: 0 <= j < |rest| ==> Less(s[0].key, rest[j].key)
  {
    forall j | 0 <= j < |rest|
      ensures Less(s[0].key, rest[j].key)
    {
      assert rest[j].key in Keys(rest);
      if rest[j].key != k {
        var i :| 0 <= i < |s| - 1 && s[1..][i].key == rest[j].key;
        assert Less(s[0].key, s[i + 1].key);
      }
    }
  }

  /** An entry below every key of a sorted store can go in front of it. */
  lemma ConsSorted(e: Entry, rest: seq<Entry>)
    requires Sorted(rest)
    requires forall j :: 0 <= j < |rest| ==> Less(e.key, rest[j].key)
    ensures Sorted([e] + rest)
  {
    var r := [e] + rest;
    forall a, b | 0 <= a < b < |r|
      ensures Less(r[a].key, r[b].key)
    {
      if a > 0 { assert r[a] == rest[a - 1] && r[b] == rest[b - 1]; }
    }
  }

  lemma KeysCons(e: Entry, s: seq<Entry>)
    ensures Keys([e] + s) == [e.key] + Keys(s)
  {
  }

  /** A key below the first is below every key, so it is absent. */
  lemma PutBelowAll(s: seq<Entry>, k: Key)
    requires Sorted(s) && |s| > 0 && Less(k, s[0].key)
    ensures forall j :: 0 <= j < |s| ==> Less(k, s[j].key)
    ensures k !in Keys(s)
  {
    forall j | 0 < j < |s|
      ensures Less(k, s[j].key)
    {
      LessTransitive(k, s[0].key, s[j].key);
    }
    if k in Keys(s) {
      var j :| 0 <= j < |s| && s[j].key == k;
      LessIrreflexive(k);
    }
  }

  /** The position of key `k` in iteration order, if it is present. */
  function IndexOf(s: seq<Entry>, k: Key): (r: Option<nat>)
    ensures r.None? <==> k !in Keys(s)
    ensures r.Some? ==> r.value < |s| && s[r.value].key == k
  {
    if s == [] then None
    else if s[0].key == k then Some(0)
    else
      assert Keys(s[1..]) == Keys(s)[1..];
      match IndexOf(s[1..], k)
      case None => None
      case Some(i) => Some(i + 1)
  }

  /**
   * `del store[k]`: None where Python raises KeyError (k absent); otherwise
   * the store with exactly that one entry taken out, the rest in order.
   */
  function Remove(s: seq<Entry>, k: Key): (r: Option<seq<Entry>>)
    requires Sorted(s)
    ensures r.None? <==> k !in Keys(s)
    ensures r.Some? ==> Sorted(r.value) && |r.value| == |s| - 1
    ensures r.Some? ==> forall k' :: k' in Keys(r.value) <==> k' != k && k' in Keys(s)
    ensures r.Some? ==> forall k' :: k' != k ==> Get(r.value, k') == Get(s, k')
  {
    match IndexOf(s, k)
    case None => None
    case Some(i) =>
      CutSpec(s, i);
      Some(s[..i] + s[i+1..])
  }

  /** Cutting one entry out of a sorted store keeps it sorted and every other entry findable. */
  lemma CutSpec(s: seq<Entry>, i: nat)
    requires Sorted(s) && i < |s|
    ensures var t := s[..i] + s[i+1..];
      && Sorted(t) && |t| == |s| - 1
      && (forall k' :: k' in Keys(t) <==> k' != s[i].key && k' in Keys(s))
      && (forall k' :: k' != s[i].key ==> Get(t, k') == Get(s, k'))
  {
    var t := s[..i] + s[i+1..];
    forall a | 0 <= a < |t|
      ensures t[a] == s[if a < i then a else a + 1]
    {
    }
    forall a, b | 0 <= a < b < |t|
      ensures Less(t[a].key, t[b].key)
    {
      var a', b' := if a < i then a else a + 1, if b < i then b else b + 1;
      assert t[a] == s[a'] && t[b] == s[b'];
    }
    forall k' | k' in Keys(t)
      ensures k' != s[i].key && k' in Keys(s)
    {
      var a :| 0 <= a < |t| && t[a].key == k';
      var a' := if a < i then a else a + 1;
      assert t[a] == s[a'];
      LessIrreflexive(k');
      if a' < i { assert Less(s[a'].key, s[i].key); } else { assert Less(s[i].key, s[a'].key); }
    }
    forall k' | k' != s[i].key && k' in Keys(s)
      ensures k' in Keys(t)
    {
      var j :| 0 <= j < |s| && s[j].key == k';
      var j' := if j < i then j else j - 1;
      assert t[j'] == s[j];
    }
    forall k' | k' != s[i].key
      ensures Get(t, k') == Get(s, k')
    {
      if k' in Keys(s) {
        var j :| 0 <= j < |s| && s[j].key == k';
        var j' := if j < i then j else j - 1;
        assert t[j'] == s[j];
        GetAt(s, j);
        GetAt(t, j');
      }
    }
  }

  /** In a sorted store the first key does not occur again. */
  lemma HeadKeyUnique(s: seq<Entry>)
    requires Sorted(s) && |s| > 0
    ensures s[0].key !in Keys(s[1..])
  {
    if s[0].key in Keys(s[1..]) {
      var j :| 0 <= j < |s| - 1 && s[1..][j].key == s[0].key;
      assert Less(s[0].key, s[j + 1].key);
      LessIrreflexive(s[0].key);
    }
  }

  /**
   * A key above every stored key is appended at the end: entries whose keys
   * arrive in increasing order iterate in arrival order.
   */
  lemma {:induction false} PutAboveAllAppends(s: seq<Entry>, k: Key, v: Line)
    requires Sorted(s)
    requires forall i :: 0 <= i < |s| ==> Less(s[i].key, k)
    ensures Put(s, k, v) == s + [Entry(k, v)]
    decreases |s|
  {
    if s != [] {
      var s0 := s[0].key;
      assert Less(s0, k);
      LessIrreflexive(k);
      if Less(k, s0) {
        LessTransitive(k, s0, k);
      }
      assert !Less(k, s0) && k != s0;
      var tail := s[1..];
      assert forall i :: 0 <= i < |tail| ==> Less(tail[i].key, k) by {
        forall i | 0 <= i < |tail| ensures Less(tail[i].key, k) { assert tail[i] == s[i + 1]; }
      }
      PutAboveAllAppends(tail, k, v);
      assert Put(s, k, v) == [s[0]] + Put(tail, k, v);
      ConsAppend(s, Entry(k, v));
    }
  }

  lemma ConsAppend(s: seq<Entry>, e: Entry)
    requires |s| > 0
    ensures [s[0]] + (s[1..] + [e]) == s + [e]
  {
  }
}
