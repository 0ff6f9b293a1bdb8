/** List operations on rows shared by flushing, scanning and compaction. */
module Rows {
  import opened Keys

  function OrElse<T>(a: Option<T>, b: Option<T>): Option<T> {
    if a.Some? then a else b
  }

  function Reverse<T>(s: seq<T>): (r: seq<T>)
    ensures |r| == |s|
    ensures forall i :: 0 <= i < |s| ==> r[i] == s[|s| - 1 - i]
  {
    if s == [] then [] else [s[|s| - 1]] + Reverse(s[..|s| - 1])
  }

  function Concat(ss: seq<seq<KeyValue>>): seq<KeyValue> {
    if ss == [] then [] else ss[0] + Concat(ss[1..])
  }

  function KeysOf(rows: seq<KeyValue>): seq<Key> {
    seq(|rows|, i requires 0 <= i < |rows| => rows[i].key)
  }

  predicate NoRepeats<T(==)>(s: seq<T>) {
    forall i, j :: 0 <= i < j < |s| ==> s[i] != s[j]
  }

  /** `unique_by` on the key: the first row of every key stays. */
  function UniqueByKey(s: seq<KeyValue>): seq<KeyValue> {
    if s == [] then []
    else
      var u := UniqueByKey(s[..|s| - 1]);
      var last := s[|s| - 1];
      if Holds(u, last.key) then u else u + [last]
  }

  lemma {:induction false} FindAppend(a: seq<KeyValue>, b: seq<KeyValue>, k: Key)
    ensures Find(a + b, k) == OrElse(Find(a, k), Find(b, k))
  {
    if a == [] {
      assert a + b == b;
    } else {
      assert (a + b)[1..] == a[1..] + b;
      FindAppend(a[1..], b, k);
    }
  }

  lemma {:induction false} ConcatAppend(a: seq<seq<KeyValue>>, b: seq<seq<KeyValue>>)
    ensures Concat(a + b) == Concat(a) + Concat(b)
  {
    if a == [] {
      assert a + b == b;
    } else {
      assert (a + b)[1..] == a[1..] + b;
      ConcatAppend(a[1..], b);
    }
  }

  lemma ConcatSnoc(a: seq<seq<KeyValue>>, last: seq<KeyValue>)
    ensures Concat(a + [last]) == Concat(a) + last
  {
    ConcatAppend(a, [last]);
    assert Concat([last]) == last + Concat([]);
  }

  /** Removing duplicates keeps the first answer for every key. */
  lemma {:induction false} UniqueKeepsFind(s: seq<KeyValue>, k: Key)
    ensures Find(UniqueByKey(s), k) == Find(s, k)
  {
    if s != [] {
      var init, last := s[..|s| - 1], s[|s| - 1];
      assert s == init + [last];
      UniqueKeepsFind(init, k);
      UniqueKeepsFind(init, last.key);
      FindAppend(init, [last], k);
      FindAppend(UniqueByKey(init), [last], k);
    }
  }

  predicate DistinctKeys(s: seq<KeyValue>) {
    forall i, j :: 0 <= i < j < |s| ==> s[i].key != s[j].key
  }

  lemma {:induction false} UniqueIsDistinct(s: seq<KeyValue>)
    ensures DistinctKeys(UniqueByKey(s))
    ensures forall e :: e in UniqueByKey(s) ==> e in s
  {
    if s != [] {
      UniqueIsDistinct(s[..|s| - 1]);
    }
  }

  lemma ReverseKeepsFind(s: seq<KeyValue>, k: Key)
    requires DistinctKeys(s)
    ensures Find(Reverse(s), k) == Find(s, k)
  {
  }

  /** Keys never increase along the list. */
  predicate Descending(s: seq<KeyValue>) {
    forall i, j :: 0 <= i < j < |s| ==> Le(s[j].key, s[i].key)
  }

  predicate StrictlyDescending(s: seq<KeyValue>) {
    forall i, j :: 0 <= i < j < |s| ==> Lt(s[j].key, s[i].key)
  }

  lemma {:induction false} UniqueOfDescending(s: seq<KeyValue>)
    requires Descending(s)
    ensures StrictlyDescending(UniqueByKey(s))
  {
    if s != [] {
      var init, last := s[..|s| - 1], s[|s| - 1];
      UniqueOfDescending(init);
      UniqueIsDistinct(init);
      var u := UniqueByKey(init);
      if !Holds(u, last.key) {
        forall i | 0 <= i < |u| ensures Lt(last.key, u[i].key) {
          assert u[i] in init;
          var j :| 0 <= j < |init| && init[j] == u[i];
          assert Le(s[|s| - 1].key, s[j].key);
          if Rank(last.key) == Rank(u[i].key) { RankInjective(last.key, u[i].key); }
        }
      }
    }
  }

  // ---- rows as a file gives them back ----

  /** An empty value and a tombstone have the same encoding. */
  function Normal(v: Option<Value>): Option<Value> {
    if v == Some([]) then None else v
  }

  function NormalFound(r: Option<Option<Value>>): Option<Option<Value>> {
    if r.Some? then Some(Normal(r.value)) else None
  }

  function NormalRows(rows: seq<KeyValue>): (r: seq<KeyValue>)
    ensures |r| == |rows| && forall i :: 0 <= i < |r| ==> r[i] == KeyValue(rows[i].key, Normal(rows[i].data))
  {
    seq(|rows|, i requires 0 <= i < |rows| => KeyValue(rows[i].key, Normal(rows[i].data)))
  }

  /** Order and keys survive, and every answer is the normalised one. */
  lemma NormalSorted(rows: seq<KeyValue>)
    requires Sorted(rows)
    ensures Sorted(NormalRows(rows))
  {
  }

  lemma {:induction false} NormalRowsFind(rows: seq<KeyValue>, k: Key)
    ensures Find(NormalRows(rows), k) == NormalFound(Find(rows, k))
  {
    if rows != [] {
      assert NormalRows(rows)[1..] == NormalRows(rows[1..]);
      NormalRowsFind(rows[1..], k);
    }
  }

  // ---- what a seek leaves ----

  /** What a cursor over `rows` may still yield after `seek(Backward(k))`: a tail of the rows that
      has every key from `k` on. */
  ghost predicate AfterSeek(rows: seq<KeyValue>, k: Key, rest: seq<KeyValue>) {
    exists n :: 0 <= n <= |rows| && rest == rows[n..] && forall i :: 0 <= i < n ==> Lt(rows[i].key, k)
  }

  lemma AfterSeekFind(rows: seq<KeyValue>, k: Key, rest: seq<KeyValue>)
    requires Sorted(rows) && AfterSeek(rows, k, rest)
    ensures Sorted(rest)
    ensures forall q :: Le(k, q) ==> Find(rest, q) == Find(rows, q)
  {
  }
}
