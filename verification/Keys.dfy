/** Byte strings, their lexicographic order, and strictly sorted key-value lists. */
module Keys {

  datatype Option<+T> = None | Some(value: T)

  datatype Ordering = Less | Equal | Greater

  type Byte = b: int | 0 <= b < 256

  /** Lengths in files have 32 bits. */
  const U32: nat := 0x1_0000_0000

  type Key = seq<Byte>

  type Value = seq<Byte>

  /** A row of any layer; `data == None` is a tombstone. */
  datatype KeyValue = KeyValue(key: Key, data: Option<Value>)

  /** An order embedding of byte strings into the reals. Comparing ranks rather than
      unfolding a recursive comparison gives every proof a total order for free. */
  function RankFrom(k: Key, i: nat): (r: real)
    requires i <= |k|
    ensures 0.0 <= r < 1.0
    decreases |k| - i
  {
    if i == |k| then 0.0 else (k[i] as real + 1.0 + RankFrom(k, i + 1)) / 257.0
  }

  function Rank(k: Key): real {
    RankFrom(k, 0)
  }

  predicate Lt(a: Key, b: Key) {
    Rank(a) < Rank(b)
  }

  predicate Le(a: Key, b: Key) {
    Rank(a) <= Rank(b)
  }

  function Compare(a: Key, b: Key): Ordering {
    if Lt(a, b) then Less else if a == b then Equal else Greater
  }

  /** The reference definition of the order on byte strings. */
  predicate LexLt(a: Key, b: Key) {
    |b| > 0 && (|a| == 0 || a[0] < b[0] || (a[0] == b[0] && LexLt(a[1..], b[1..])))
  }

  lemma {:induction false} RankOfSuffix(k: Key, i: nat, j: nat)
    requires i <= j <= |k|
    ensures RankFrom(k, j) == RankFrom(k[i..], j - i)
    decreases |k| - j
  {
    if j < |k| {
      RankOfSuffix(k, i, j + 1);
    }
  }

  /** Stripping an equal first byte keeps the order, and different first bytes decide it. */
  lemma RankStep(a: Key, b: Key)
    requires |a| > 0 && |b| > 0
    ensures a[0] < b[0] ==> Lt(a, b)
    ensures a[0] == b[0] ==> (Lt(a, b) <==> Lt(a[1..], b[1..]))
  {
    RankOfSuffix(a, 1, 1);
    RankOfSuffix(b, 1, 1);
  }

  /** The rank order is the lexicographic order. */
  lemma {:induction false} RankIsLexicographic(a: Key, b: Key)
    ensures Lt(a, b) <==> LexLt(a, b)
  {
    if |a| > 0 && |b| > 0 {
      RankStep(a, b);
      RankStep(b, a);
      if a[0] == b[0] {
        RankIsLexicographic(a[1..], b[1..]);
      }
    }
  }

  lemma {:induction false} RankInjective(a: Key, b: Key)
    requires Rank(a) == Rank(b)
    ensures a == b
  {
    if |a| > 0 && |b| > 0 {
      RankStep(a, b);
      RankStep(b, a);
      if a[0] == b[0] {
        RankOfSuffix(a, 1, 1);
        RankOfSuffix(b, 1, 1);
        RankInjective(a[1..], b[1..]);
        assert a == [a[0]] + a[1..] && b == [b[0]] + b[1..];
      }
    }
  }

  lemma RanksDiffer()
    ensures forall a, b :: Rank(a) == Rank(b) ==> a == b
  {
    forall a, b | Rank(a) == Rank(b) ensures a == b {
      RankInjective(a, b);
    }
  }

  /** A common prefix does not influence a comparison. */
  lemma {:induction false} CompareAfterPrefix(p: Key, a: Key, b: Key)
    ensures Lt(p + a, p + b) <==> Lt(a, b)
    ensures Compare(p + a, p + b) == Compare(a, b)
  {
    if p == [] {
      assert p + a == a && p + b == b;
    } else {
      RankStep(p + a, p + b);
      assert (p + a)[1..] == p[1..] + a && (p + b)[1..] == p[1..] + b;
      CompareAfterPrefix(p[1..], a, b);
      assert (p + a == p + b) <==> a == b by {
        assert (p + a)[|p|..] == a && (p + b)[|p|..] == b;
      }
    }
  }

  /** Prefixes of equal length that differ decide a comparison. */
  lemma {:induction false} CompareByPrefix(p: Key, q: Key, a: Key, b: Key)
    requires |p| == |q| && p != q
    ensures Lt(p + a, q + b) <==> Lt(p, q)
    ensures Compare(p + a, q + b) == Compare(p, q)
  {
    assert (p + a)[..|p|] == p && (q + b)[..|p|] == q;
    RankStep(p + a, q + b);
    RankStep(q + b, p + a);
    RankStep(p, q);
    RankStep(q, p);
    if p[0] == q[0] {
      assert p[1..] != q[1..] by { assert p == [p[0]] + p[1..] && q == [q[0]] + q[1..]; }
      assert (p + a)[1..] == p[1..] + a && (q + b)[1..] == q[1..] + b;
      CompareByPrefix(p[1..], q[1..], a, b);
    }
  }

  /** A proper prefix is smaller. */
  lemma PrefixIsLess(p: Key, a: Key)
    requires a != []
    ensures Lt(p, p + a)
  {
    CompareAfterPrefix(p, [], a);
    assert p + [] == p;
  }

  /** Strictly ascending rows: the shape of every table, buffer and iterator output. */
  predicate Sorted(s: seq<KeyValue>) {
    forall i, j :: 0 <= i < j < |s| ==> Lt(s[i].key, s[j].key)
  }

  predicate Holds(s: seq<KeyValue>, k: Key) {
    exists i :: 0 <= i < |s| && s[i].key == k
  }

  /** The first row with key `k`. */
  function Find(s: seq<KeyValue>, k: Key): (r: Option<Option<Value>>)
    ensures r.Some? <==> Holds(s, k)
    ensures r.Some? ==> KeyValue(k, r.value) in s
  {
    if s == [] then None
    else if s[0].key == k then Some(s[0].data)
    else
      assert Holds(s[1..], k) ==> Holds(s, k) by {
        if i :| 0 <= i < |s[1..]| && s[1..][i].key == k { assert s[i + 1].key == k; }
      }
      assert Holds(s, k) ==> Holds(s[1..], k) by {
        if i :| 0 <= i < |s| && s[i].key == k { assert s[1..][i - 1].key == k; }
      }
      Find(s[1..], k)
  }

  /** In a sorted list a row is the only one with its key. */
  lemma FindIndex(s: seq<KeyValue>, i: nat)
    requires Sorted(s) && i < |s|
    ensures Find(s, s[i].key) == Some(s[i].data)
  {
  }

  lemma FindMember(s: seq<KeyValue>, k: Key, d: Option<Value>)
    requires Sorted(s)
    ensures Find(s, k) == Some(d) <==> KeyValue(k, d) in s
  {
  }

  /** Number of leading rows whose key is below `k`. */
  function CountBelow(s: seq<KeyValue>, k: Key): (n: nat)
    ensures n <= |s|
    ensures forall i :: 0 <= i < n ==> Lt(s[i].key, k)
    ensures n < |s| ==> !Lt(s[n].key, k)
  {
    if s == [] || !Lt(s[0].key, k) then 0 else 1 + CountBelow(s[1..], k)
  }

  /** Insert or replace in an ordered map. */
  function Upsert(s: seq<KeyValue>, k: Key, d: Option<Value>): (r: seq<KeyValue>)
    requires Sorted(s)
  {
    var n := CountBelow(s, k);
    if n < |s| && s[n].key == k then s[n := KeyValue(k, d)]
    else s[..n] + [KeyValue(k, d)] + s[n..]
  }

  lemma UpsertSorted(s: seq<KeyValue>, k: Key, d: Option<Value>)
    requires Sorted(s)
    ensures Sorted(Upsert(s, k, d))
  {
    var n := CountBelow(s, k);
    if n < |s| && s[n].key != k && Rank(s[n].key) == Rank(k) {
      RankInjective(s[n].key, k);
    }
  }

  lemma UpsertMembers(s: seq<KeyValue>, k: Key, d: Option<Value>, e: KeyValue)
    requires Sorted(s)
    ensures e in Upsert(s, k, d) <==> e == KeyValue(k, d) || (e in s && e.key != k)
  {
  }

  /** Upsert is map update. */
  lemma UpsertFind(s: seq<KeyValue>, k: Key, d: Option<Value>, q: Key)
    requires Sorted(s)
    ensures Find(Upsert(s, k, d), q) == if q == k then Some(d) else Find(s, q)
  {
    var r := Upsert(s, k, d);
    UpsertSorted(s, k, d);
    var want := if q == k then Some(d) else Find(s, q);
    if want.Some? {
      UpsertMembers(s, k, d, KeyValue(q, want.value));
      FindMember(r, q, want.value);
    } else if Find(r, q).Some? {
      UpsertMembers(s, k, d, KeyValue(q, Find(r, q).value));
      FindMember(s, q, Find(r, q).value);
    }
  }
}
