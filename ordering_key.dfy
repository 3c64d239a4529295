/**
 * The key under which the log store files one physical line.
 *
 * The store is keyed by the message's own timestamp string (Slack's `ts`),
 * compared the way Python compares strings: lexicographically by code point,
 * a proper prefix first. A message that wraps to several physical lines files
 * its later lines under keys just above its own; here that is the second
 * component, the line number within the message, in place of the source's
 * "add a microsecond and format again" arithmetic.
 */
module OrderingKey {

  /** Python's `<` on `str`. */
  predicate StrLess(a: string, b: string)
    decreases |a|
  {
    if |a| == 0 then |b| > 0
    else if |b| == 0 then false
    else if a[0] == b[0] then StrLess(a[1..], b[1..])
    else a[0] < b[0]
  }

  lemma {:induction false} StrLessIrreflexive(a: string)
    ensures !StrLess(a, a)
    decreases |a|
  {
    if |a| > 0 {
      StrLessIrreflexive(a[1..]);
    }
  }

  lemma {:induction false} StrLessTransitive(a: string, b: string, c: string)
    requires StrLess(a, b) && StrLess(b, c)
    ensures StrLess(a, c)
    decreases |a|
  {
    if |a| > 0 && a[0] == b[0] && b[0] == c[0] {
      StrLessTransitive(a[1..], b[1..], c[1..]);
    }
  }

  lemma {:induction false} StrLessTotal(a: string, b: string)
    ensures StrLess(a, b) || a == b || StrLess(b, a)
    decreases |a|
  {
    if |a| > 0 && |b| > 0 && a[0] == b[0] {
      StrLessTotal(a[1..], b[1..]);
      if a[1..] == b[1..] {
        assert a == [a[0]] + a[1..] && b == [b[0]] + b[1..];
      }
    }
  }

  /** `line` counts the physical lines of one message, from 0. */
  datatype Key = Key(stamp: string, line: nat)

  /** The store's only comparator: by stamp, then by line number. */
  predicate Less(x: Key, y: Key)
  {
    StrLess(x.stamp, y.stamp) || (x.stamp == y.stamp && x.line < y.line)
  }

  /** The key of a message's first physical line: the message's own timestamp. */
  function First(ts: string): (k: Key)
    ensures k.stamp == ts && k.line == 0
  {
    Key(ts, 0)
  }

  /** The key of the physical line that follows the one filed under `k`. */
  function Next(k: Key): (n: Key)
    ensures Less(k, n)
    ensures n.stamp == k.stamp
  {
    Key(k.stamp, k.line + 1)
  }

  /** The key of the `i`-th physical line of the message stamped `ts`. */
  function NthKey(ts: string, i: nat): (k: Key)
    ensures k.stamp == ts && k.line == i
    ensures i == 0 ==> k == First(ts)
  {
    Key(ts, i)
  }

  /** Moving on from the i-th key of a message gives its (i+1)-th key. */
  lemma NthKeyNext(ts: string, i: nat)
    ensures Next(NthKey(ts, i)) == NthKey(ts, i + 1)
  {
  }

  lemma LessIrreflexive(x: Key)
    ensures !Less(x, x)
  {
    StrLessIrreflexive(x.stamp);
  }

  lemma LessTransitive(x: Key, y: Key, z: Key)
    requires Less(x, y) && Less(y, z)
    ensures Less(x, z)
  {
    if StrLess(x.stamp, y.stamp) && StrLess(y.stamp, z.stamp) {
      StrLessTransitive(x.stamp, y.stamp, z.stamp);
    }
  }

  lemma LessTotal(x: Key, y: Key)
    ensures Less(x, y) || x == y || Less(y, x)
  {
    StrLessTotal(x.stamp, y.stamp);
  }

  /** The keys of one message's lines increase in wrap order. */
  lemma {:induction false} NthKeyIncreasing(ts: string, i: nat, j: nat)
    requires i < j
    ensures Less(NthKey(ts, i), NthKey(ts, j))
  {
  }

  /** Every line of an earlier-stamped message sorts before every line of a later one. */
  lemma StampOrderDominates(ts: string, ts': string, i: nat, j: nat)
    requires StrLess(ts, ts')
    ensures Less(NthKey(ts, i), NthKey(ts', j))
  {
  }
}
