/** The versioned memtable: records ordered by (key, sequence), a live map and a frozen one. */
module MemTable {
  import opened Keys
  import opened Rows

  type I64 = i: int | -0x8000_0000_0000_0000 <= i <= 0x7fff_ffff_ffff_ffff

  const SEQ_MAX: I64 := 0x7fff_ffff_ffff_ffff
  const SEQ_MIN: I64 := -0x8000_0000_0000_0000

  datatype InternalKey = InternalKey(key: Key, seqId: I64)

  predicate Before(a: InternalKey, b: InternalKey) {
    Lt(a.key, b.key) || (a.key == b.key && a.seqId < b.seqId)
  }

  datatype Record = Record(ikey: InternalKey, data: Option<Value>)

  predicate MapSorted(m: seq<Record>) {
    forall i, j :: 0 <= i < j < |m| ==> Before(m[i].ikey, m[j].ikey)
  }

  /** The ordered skip map. */
  type MemMap = m: seq<Record> | MapSorted(m)

  /** The boundary after `ik`: `upper_bound(Included(ik))` is the record before it and
      `lower_bound(Excluded(ik))` the record at it. */
  function CountUpTo(m: MemMap, ik: InternalKey): (n: nat)
    ensures n <= |m|
    ensures forall i :: 0 <= i < n ==> !Before(ik, m[i].ikey)
    ensures forall i :: n <= i < |m| ==> Before(ik, m[i].ikey)
  {
    if m == [] || Before(ik, m[0].ikey) then 0 else 1 + CountUpTo(m[1..], ik)
  }

  function Insert(m: MemMap, ik: InternalKey, d: Option<Value>): (r: MemMap) {
    RanksDiffer();
    var n := CountUpTo(m, ik);
    if n > 0 && m[n - 1].ikey == ik then m[n - 1 := Record(ik, d)]
    else m[..n] + [Record(ik, d)] + m[n..]
  }

  lemma InsertReplaces(m: MemMap, ik: InternalKey, d: Option<Value>, r: Record, n: nat)
    requires 0 < n <= |m| && m[n - 1].ikey == ik
    ensures r in m[n - 1 := Record(ik, d)] <==> r == Record(ik, d) || (r in m && r.ikey != ik)
  {
    var t := m[n - 1 := Record(ik, d)];
    assert t[n - 1] == Record(ik, d);
    assert forall i :: 0 <= i < |m| && i != n - 1 ==> m[i].ikey != ik && t[i] == m[i];
  }

  lemma InsertMembers(m: MemMap, ik: InternalKey, d: Option<Value>, r: Record)
    ensures r in Insert(m, ik, d) <==> r == Record(ik, d) || (r in m && r.ikey != ik)
  {
    var n := CountUpTo(m, ik);
    if n > 0 && m[n - 1].ikey == ik {
      InsertReplaces(m, ik, d, r, n);
    } else {
      assert Insert(m, ik, d) == m[..n] + [Record(ik, d)] + m[n..] && m == m[..n] + m[n..];
      forall i | 0 <= i < |m| ensures m[i].ikey != ik {
        assert i + 1 < n ==> Before(m[i].ikey, m[n - 1].ikey);
      }
    }
  }

  function InsertBatch(m: MemMap, rows: seq<KeyValue>, s: I64): MemMap {
    if rows == [] then m
    else Insert(InsertBatch(m, rows[..|rows| - 1], s), InternalKey(rows[|rows| - 1].key, s), rows[|rows| - 1].data)
  }

  /** With distinct keys a batch adds exactly its rows, all at one sequence. */
  lemma {:induction false} InsertBatchMembers(m: MemMap, rows: seq<KeyValue>, s: I64, r: Record)
    requires DistinctKeys(rows)
    ensures r in InsertBatch(m, rows, s) <==>
              || (r.ikey.seqId == s && KeyValue(r.ikey.key, r.data) in rows)
              || (r in m && (r.ikey.seqId != s || !Holds(rows, r.ikey.key)))
  {
    if rows != [] {
      var init, last := rows[..|rows| - 1], rows[|rows| - 1];
      assert rows == init + [last];
      InsertBatchMembers(m, init, s, r);
      InsertMembers(InsertBatch(m, init, s), InternalKey(last.key, s), last.data, r);
      assert Holds(rows, r.ikey.key) <==> Holds(init, r.ikey.key) || last.key == r.ikey.key by {
        FindAppend(init, [last], r.ikey.key);
      }
      assert forall kv :: kv in init ==> kv.key != last.key;
    }
  }

  /** `find_`: the record at or before (key, seq), if it is a version of the key. */
  function FindIn(m: MemMap, ik: InternalKey): Option<Option<Value>> {
    var n := CountUpTo(m, ik);
    if n > 0 && m[n - 1].ikey.key == ik.key then Some(m[n - 1].data) else None
  }

  /** `r` is the newest version of `k` that a reader at sequence `s` may see. */
  ghost predicate IsNewest(m: seq<Record>, k: Key, s: int, r: Record) {
    && r in m && r.ikey.key == k && r.ikey.seqId <= s
    && forall o :: o in m && o.ikey.key == k && o.ikey.seqId <= s ==> o.ikey.seqId <= r.ikey.seqId
  }

  /** The neighbour lookup finds the newest visible version, and misses only if there is none. */
  lemma FindIsNewest(m: MemMap, k: Key, s: I64)
    ensures FindIn(m, InternalKey(k, s)).None? <==>
              forall r :: r in m && r.ikey.key == k ==> r.ikey.seqId > s
    ensures forall r :: IsNewest(m, k, s, r) ==> FindIn(m, InternalKey(k, s)) == Some(r.data)
  {
  }

  /** Some version of the key is visible at the sequence. */
  ghost predicate HasUpTo(m: MemMap, k: Key, s: int) {
    exists r :: r in m && r.ikey.key == k && r.ikey.seqId <= s
  }

  /** `check_key_conflict` for one key: is the record after (key, seq) a version of the key? */
  predicate HasNewer(m: MemMap, k: Key, s: I64) {
    var n := CountUpTo(m, InternalKey(k, s));
    n < |m| && m[n].ikey.key == k
  }

  lemma HasNewerIsComplete(m: MemMap, k: Key, s: I64)
    ensures HasNewer(m, k, s) <==> exists r :: r in m && r.ikey.key == k && r.ikey.seqId > s
  {
  }

  // ---- range scans ----

  datatype Bound = Included(key: Key) | Excluded(key: Key) | Unbounded

  predicate AboveMin(k: Key, min: Bound) {
    match min
    case Included(b) => Le(b, k)
    case Excluded(b) => Lt(b, k)
    case Unbounded => true
  }

  predicate BelowMax(k: Key, max: Bound) {
    match max
    case Included(b) => Le(k, b)
    case Excluded(b) => Lt(k, b)
    case Unbounded => true
  }

  predicate InRange(k: Key, min: Bound, max: Bound) {
    AboveMin(k, min) && BelowMax(k, max)
  }

  /** The bounds as the scan passes them to the skip map: the user key padded with the
      smallest or the largest sequence. */
  predicate InternalInRange(ik: InternalKey, min: Bound, max: Bound) {
    && (match min
        case Included(b) => !Before(ik, InternalKey(b, SEQ_MIN))
        case Excluded(b) => Before(InternalKey(b, SEQ_MAX), ik)
        case Unbounded => true)
    && (match max
        case Included(b) => !Before(InternalKey(b, SEQ_MAX), ik)
        case Excluded(b) => Before(ik, InternalKey(b, SEQ_MIN))
        case Unbounded => true)
  }

  /** Padding turns a bound on versions into the bound on user keys. */
  lemma PaddedBounds(ik: InternalKey, min: Bound, max: Bound)
    ensures InternalInRange(ik, min, max) <==> InRange(ik.key, min, max)
  {
  }

  /** What bounds promise, by the lexicographic order: a key strictly between them is in, a key at a
      bound is in if the bound is included. */
  ghost predicate Between(k: Key, min: Bound, max: Bound) {
    && (min.Unbounded? || LexLt(min.key, k) || (min.Included? && k == min.key))
    && (max.Unbounded? || LexLt(k, max.key) || (max.Included? && k == max.key))
  }

  /** No row is below the minimum, above the maximum or at an excluded bound. */
  ghost predicate NoneOutside(rows: seq<KeyValue>, min: Bound, max: Bound) {
    forall k :: Holds(rows, k) ==>
      && (!min.Unbounded? ==> !LexLt(k, min.key)) && (min.Excluded? ==> k != min.key)
      && (!max.Unbounded? ==> !LexLt(max.key, k)) && (max.Excluded? ==> k != max.key)
  }

  /** The tests the scan and the iterator make select exactly these keys. */
  lemma RangeIsLexicographic(k: Key, min: Bound, max: Bound)
    ensures InRange(k, min, max) <==> Between(k, min, max)
    ensures InRange(k, min, max) ==>
              && (!min.Unbounded? ==> !LexLt(k, min.key)) && (min.Excluded? ==> k != min.key)
              && (!max.Unbounded? ==> !LexLt(max.key, k)) && (max.Excluded? ==> k != max.key)
  {
    hide LexLt;
    RanksDiffer();
    if !min.Unbounded? {
      RankIsLexicographic(min.key, k);
      RankIsLexicographic(k, min.key);
    }
    if !max.Unbounded? {
      RankIsLexicographic(max.key, k);
      RankIsLexicographic(k, max.key);
    }
  }

  /** So rows that hold only keys in range hold none outside the bounds. */
  lemma InRangeRows(rows: seq<KeyValue>, min: Bound, max: Bound)
    requires forall k :: Holds(rows, k) ==> InRange(k, min, max)
    ensures NoneOutside(rows, min, max)
  {
    forall k | Holds(rows, k)
      ensures (!min.Unbounded? ==> !LexLt(k, min.key)) && (min.Excluded? ==> k != min.key)
      ensures (!max.Unbounded? ==> !LexLt(max.key, k)) && (max.Excluded? ==> k != max.key)
    {
      RangeIsLexicographic(k, min, max);
    }
  }

  predicate Visible(ik: InternalKey, limit: Option<I64>) {
    limit.None? || limit.value >= ik.seqId
  }

  function LimitOf(limit: Option<I64>): I64 {
    if limit.None? then SEQ_MAX else limit.value
  }

  /** `range(..).rev().filter(..).map(..)`: visible versions in range, newest first. */
  function RangeItems(m: MemMap, min: Bound, max: Bound, limit: Option<I64>): seq<KeyValue> {
    if m == [] then []
    else
      var r := m[|m| - 1];
      var rest := RangeItems(m[..|m| - 1], min, max, limit);
      if InternalInRange(r.ikey, min, max) && Visible(r.ikey, limit)
      then [KeyValue(r.ikey.key, r.data)] + rest else rest
  }

  lemma {:induction false} RangeItemsFrom(m: MemMap, min: Bound, max: Bound, limit: Option<I64>)
    ensures Descending(RangeItems(m, min, max, limit))
    ensures forall e :: e in RangeItems(m, min, max, limit) ==> exists r :: r in m && r.ikey.key == e.key
  {
    if m != [] {
      var init, last := m[..|m| - 1], m[|m| - 1];
      RangeItemsFrom(init, min, max, limit);
      var rest := RangeItems(init, min, max, limit);
      assert last in m;
      forall e | e in rest ensures Le(e.key, last.ikey.key) && exists r :: r in m && r.ikey.key == e.key {
        var r :| r in init && r.ikey.key == e.key;
        var i :| 0 <= i < |init| && init[i] == r;
        assert m[i] == r && Before(m[i].ikey, m[|m| - 1].ikey);
      }
    }
  }

  lemma FindInSnoc(m: MemMap, k: Key, s: I64)
    requires m != []
    ensures var last := m[|m| - 1];
            FindIn(m, InternalKey(k, s)) ==
            if last.ikey.key == k && last.ikey.seqId <= s then Some(last.data)
            else FindIn(m[..|m| - 1], InternalKey(k, s))
  {
  }

  /** The first item of a key in the filtered reverse scan is what the point lookup returns. */
  lemma {:induction false} RangeItemsFind(m: MemMap, min: Bound, max: Bound, limit: Option<I64>, k: Key)
    ensures Find(RangeItems(m, min, max, limit), k) ==
            if InRange(k, min, max) then FindIn(m, InternalKey(k, LimitOf(limit))) else None
  {
    if m != [] {
      var init, last := m[..|m| - 1], m[|m| - 1];
      RangeItemsFind(init, min, max, limit, k);
      FindInSnoc(m, k, LimitOf(limit));
      PaddedBounds(last.ikey, min, max);
      FindAppend([KeyValue(last.ikey.key, last.data)], RangeItems(init, min, max, limit), k);
    }
  }

  /** `find_with_sequence_id`: the live map first, then the frozen one. */
  function MemFind(mem: MemMap, immut: Option<MemMap>, k: Key, s: I64): Option<Option<Value>> {
    OrElse(FindIn(mem, InternalKey(k, s)),
           if immut.Some? then FindIn(immut.value, InternalKey(k, s)) else None)
  }

  function DuplicatesPush(results: seq<KeyValue>, kv: KeyValue): seq<KeyValue> {
    if |results| > 0 && results[|results| - 1].key == kv.key then results else results + [kv]
  }

  /** What a merge that prefers `a` answers for a key. */
  function Answer(a: seq<KeyValue>, b: seq<KeyValue>, k: Key): Option<Option<Value>> {
    OrElse(Find(a, k), Find(b, k))
  }

  /** State of the reverse two-way merge: `a[..i]` and `b[..j]` are consumed. */
  ghost predicate MergeState(a: seq<KeyValue>, b: seq<KeyValue>, i: nat, j: nat, merged: seq<KeyValue>) {
    && i <= |a| && j <= |b| && Descending(a) && Descending(b)
    && StrictlyDescending(merged)
    && (forall x :: i <= x < |a| && merged != [] ==> Le(a[x].key, merged[|merged| - 1].key))
    && (forall y :: j <= y < |b| && merged != [] ==> Le(b[y].key, merged[|merged| - 1].key))
    && (forall e :: e in merged ==> Answer(a, b, e.key) == Some(e.data))
    && (forall x :: 0 <= x < i ==> Holds(merged, a[x].key))
    && (forall y :: 0 <= y < j ==> Holds(merged, b[y].key))
  }

  /** Pushing `kv`, no larger than anything pushed so far, keeps `merged` descending. */
  lemma PushKeeps(merged: seq<KeyValue>, kv: KeyValue)
    requires StrictlyDescending(merged)
    requires merged != [] ==> Le(kv.key, merged[|merged| - 1].key)
    ensures var r := DuplicatesPush(merged, kv);
            && StrictlyDescending(r) && r != [] && r[|r| - 1].key == kv.key
            && (forall k :: Holds(r, k) <==> Holds(merged, k) || k == kv.key)
            && (r == merged <==> Holds(merged, kv.key))
  {
    hide Find;
    RanksDiffer();
    var r := DuplicatesPush(merged, kv);
    assert r[|r| - 1].key == kv.key;
    forall k ensures Holds(r, k) <==> Holds(merged, k) || k == kv.key {
      FindAppend(merged, [kv], k);
    }
    if Holds(merged, kv.key) {
      var i :| 0 <= i < |merged| && merged[i].key == kv.key;
      assert i == |merged| - 1;
    }
  }

  lemma PushFromMem(a: seq<KeyValue>, b: seq<KeyValue>, i: nat, j: nat, merged: seq<KeyValue>)
    requires MergeState(a, b, i, j, merged) && i < |a|
    requires j < |b| ==> Le(b[j].key, a[i].key)
    ensures MergeState(a, b, i + 1, j, DuplicatesPush(merged, a[i]))
    ensures Holds(DuplicatesPush(merged, a[i]), a[i].key)
  {
    hide StrictlyDescending, Find;
    PushKeeps(merged, a[i]);
    if !Holds(merged, a[i].key) {
      FirstOf(a, i);
    }
  }

  lemma PushFromImmut(a: seq<KeyValue>, b: seq<KeyValue>, i: nat, j: nat, merged: seq<KeyValue>)
    requires MergeState(a, b, i, j, merged) && j < |b|
    requires i < |a| ==> Lt(a[i].key, b[j].key)
    ensures MergeState(a, b, i, j + 1, DuplicatesPush(merged, b[j]))
  {
    hide StrictlyDescending, Find;
    PushKeeps(merged, b[j]);
    if !Holds(merged, b[j].key) {
      FirstOf(b, j);
      forall x | 0 <= x < |a| ensures a[x].key != b[j].key {
        assert x < i ==> Holds(merged, a[x].key);
        assert x > i ==> Le(a[x].key, a[i].key);
      }
    }
  }

  lemma SkipImmut(a: seq<KeyValue>, b: seq<KeyValue>, i: nat, j: nat, merged: seq<KeyValue>)
    requires MergeState(a, b, i, j, merged) && j < |b| && Holds(merged, b[j].key)
    ensures MergeState(a, b, i, j + 1, merged)
  {
  }

  /** A row none of whose predecessors has its key is what `Find` returns. */
  lemma {:induction false} FirstOf(s: seq<KeyValue>, i: nat)
    requires i < |s| && forall x :: 0 <= x < i ==> s[x].key != s[i].key
    ensures Find(s, s[i].key) == Some(s[i].data)
  {
    if i > 0 {
      assert s[1..][i - 1] == s[i];
      assert forall x :: 0 <= x < i - 1 ==> s[1..][x] == s[x + 1];
      FirstOf(s[1..], i - 1);
    }
  }

  /** The main merge loop of the scan; the live map's `a` wins ties. */
  method MergeBoth(a: seq<KeyValue>, b: seq<KeyValue>) returns (i: nat, j: nat, merged: seq<KeyValue>)
    requires Descending(a) && Descending(b)
    ensures MergeState(a, b, i, j, merged) && (i == |a| || j == |b|)
  {
    i, j, merged := 0, 0, [];
    while i < |a| && j < |b|
      invariant MergeState(a, b, i, j, merged)
    {
      match Compare(a[i].key, b[j].key)
      case Greater =>
        PushFromMem(a, b, i, j, merged);
        merged, i := DuplicatesPush(merged, a[i]), i + 1;
      case Less =>
        PushFromImmut(a, b, i, j, merged);
        merged, j := DuplicatesPush(merged, b[j]), j + 1;
      case Equal =>
        PushFromMem(a, b, i, j, merged);
        SkipImmut(a, b, i + 1, j, DuplicatesPush(merged, a[i]));
        merged, i, j := DuplicatesPush(merged, a[i]), i + 1, j + 1;
    }
  }

  /** The whole merge: what is left of one side follows. */
  method MergeReverse(a: seq<KeyValue>, b: seq<KeyValue>) returns (merged: seq<KeyValue>)
    requires Descending(a) && Descending(b)
    ensures MergeState(a, b, |a|, |b|, merged)
  {
    var i, j;
    i, j, merged := MergeBoth(a, b);
    while i < |a|
      invariant MergeState(a, b, i, j, merged) && (i == |a| || j == |b|)
    {
      PushFromMem(a, b, i, j, merged);
      merged, i := DuplicatesPush(merged, a[i]), i + 1;
    }
    while j < |b|
      invariant MergeState(a, b, i, j, merged) && i == |a|
    {
      PushFromImmut(a, b, i, j, merged);
      merged, j := DuplicatesPush(merged, b[j]), j + 1;
    }
  }

  lemma ScanAnswersOne(a: seq<KeyValue>, b: seq<KeyValue>, merged: seq<KeyValue>, k: Key)
    requires MergeState(a, b, |a|, |b|, merged)
    ensures Find(Reverse(merged), k) == Answer(a, b, k)
  {
    assert DistinctKeys(merged);
    ReverseKeepsFind(merged, k);
    if x :| 0 <= x < |a| && a[x].key == k {
      assert Holds(merged, a[x].key);
    } else if y :| 0 <= y < |b| && b[y].key == k {
      assert Holds(merged, b[y].key);
    }
  }

  function ImmutItems(immut: Option<MemMap>, min: Bound, max: Bound, limit: Option<I64>): seq<KeyValue> {
    if immut.Some? then RangeItems(immut.value, min, max, limit) else []
  }

  lemma ScanAnswers(mem: MemMap, immut: Option<MemMap>, min: Bound, max: Bound, limit: Option<I64>,
                    merged: seq<KeyValue>)
    requires var a, b := RangeItems(mem, min, max, limit), ImmutItems(immut, min, max, limit);
             MergeState(a, b, |a|, |b|, merged)
    ensures Sorted(Reverse(merged))
    ensures forall k :: Find(Reverse(merged), k) ==
              if InRange(k, min, max) then MemFind(mem, immut, k, LimitOf(limit)) else None
  {
    var a, b := RangeItems(mem, min, max, limit), ImmutItems(immut, min, max, limit);
    forall k ensures Find(Reverse(merged), k) ==
                     if InRange(k, min, max) then MemFind(mem, immut, k, LimitOf(limit)) else None {
      ScanAnswersOne(a, b, merged, k);
      RangeItemsFind(mem, min, max, limit, k);
      if immut.Some? { RangeItemsFind(immut.value, min, max, limit, k); }
    }
  }

  /** `_range_scan`: strictly ascending, exactly the keys in range with a visible version,
      each with the value the point lookup returns. The bounds are those of the lexicographic order. */
  method RangeScan(mem: MemMap, immut: Option<MemMap>, min: Bound, max: Bound, limit: Option<I64>)
    returns (merged: seq<KeyValue>)
    ensures Sorted(merged)
    ensures forall k :: Find(merged, k) ==
              if InRange(k, min, max) then MemFind(mem, immut, k, LimitOf(limit)) else None
    ensures NoneOutside(merged, min, max)
    ensures forall k :: Between(k, min, max) ==> Find(merged, k) == MemFind(mem, immut, k, LimitOf(limit))
  {
    hide InRange, Between, NoneOutside, MemFind;
    RangeItemsFrom(mem, min, max, limit);
    if immut.Some? { RangeItemsFrom(immut.value, min, max, limit); }
    merged := MergeReverse(RangeItems(mem, min, max, limit), ImmutItems(immut, min, max, limit));
    ScanAnswers(mem, immut, min, max, limit, merged);
    merged := Reverse(merged);
    InRangeRows(merged, min, max);
    forall k ensures InRange(k, min, max) <==> Between(k, min, max) { RangeIsLexicographic(k, min, max); }
  }

  /** What `swap` hands to the compactor: the newest version of every key, ascending. */
  function FlushRows(m: MemMap): seq<KeyValue> {
    Reverse(UniqueByKey(RangeItems(m, Unbounded, Unbounded, None)))
  }

  lemma FlushIsNewest(m: MemMap)
    ensures Sorted(FlushRows(m))
    ensures forall k :: Find(FlushRows(m), k) == FindIn(m, InternalKey(k, SEQ_MAX))
    ensures m != [] ==> FlushRows(m) != []
  {
    var items := RangeItems(m, Unbounded, Unbounded, None);
    RangeItemsFrom(m, Unbounded, Unbounded, None);
    UniqueOfDescending(items);
    UniqueIsDistinct(items);
    forall k ensures Find(FlushRows(m), k) == FindIn(m, InternalKey(k, SEQ_MAX)) {
      ReverseKeepsFind(UniqueByKey(items), k);
      UniqueKeepsFind(items, k);
      RangeItemsFind(m, Unbounded, Unbounded, None, k);
    }
    if m != [] {
      FindInSnoc(m, m[|m| - 1].ikey.key, SEQ_MAX);
      assert Find(FlushRows(m), m[|m| - 1].ikey.key).Some?;
    }
  }

  // ---- the shared object ----

  datatype SwapResult = Blocked | NothingToFlush | Flushed(rows: seq<KeyValue>)

  class MemTable {
    var mem: MemMap
    var immut: Option<MemMap>
    var txCount: nat

    constructor (recovered: MemMap)
      ensures mem == recovered && immut == None && txCount == 0
    {
      mem, immut, txCount := recovered, None, 0;
    }

    method InsertData(kv: KeyValue, s: I64)
      modifies this`mem
      ensures forall r :: r in mem <==>
                r == Record(InternalKey(kv.key, s), kv.data) || (r in old(mem) && r.ikey != InternalKey(kv.key, s))
    {
      forall r { InsertMembers(mem, InternalKey(kv.key, s), kv.data, r); }
      mem := Insert(mem, InternalKey(kv.key, s), kv.data);
    }

    method InsertBatchData(rows: seq<KeyValue>, s: I64)
      modifies this`mem
      ensures mem == InsertBatch(old(mem), rows, s)
    {
      var i := 0;
      while i < |rows|
        invariant i <= |rows| && mem == InsertBatch(old(mem), rows[..i], s)
      {
        assert rows[..i + 1][..i] == rows[..i];
        mem := Insert(mem, InternalKey(rows[i].key, s), rows[i].data);
        i := i + 1;
      }
      assert rows[..|rows|] == rows;
    }

    /** Some row's key has a version newer than `s` in the live map. */
    method CheckKeyConflict(rows: seq<KeyValue>, s: I64) returns (conflict: bool)
      ensures conflict <==> exists kv, r :: kv in rows && r in mem && r.ikey.key == kv.key && r.ikey.seqId > s
    {
      var i := 0;
      while i < |rows|
        invariant i <= |rows|
        invariant forall kv, r :: kv in rows[..i] && r in mem && r.ikey.key == kv.key ==> r.ikey.seqId <= s
      {
        HasNewerIsComplete(mem, rows[i].key, s);
        if HasNewer(mem, rows[i].key, s) {
          return true;
        }
        i := i + 1;
      }
      return false;
    }

    /** The double-checked swap; the caller spins while it is `Blocked`. */
    method Swap() returns (r: SwapResult)
      modifies this`mem, this`immut
      ensures r.Blocked? <==> txCount != 0
      ensures r.NothingToFlush? <==> txCount == 0 && old(mem) == []
      ensures !r.Flushed? ==> mem == old(mem) && immut == old(immut)
      ensures r.Flushed? ==> mem == [] && immut == Some(old(mem)) && r.rows == FlushRows(old(mem))
    {
      if txCount != 0 { return Blocked; }
      if mem == [] { return NothingToFlush; }
      r := Flushed(FlushRows(mem));
      immut := Some(mem);
      mem := [];
    }

    /** The newest version at or below the sequence in the live map, else in the frozen one, else none. */
    method FindWithSequenceId(k: Key, s: I64) returns (r: Option<Option<Value>>)
      ensures r == MemFind(mem, immut, k, s)
      ensures forall o :: IsNewest(mem, k, s, o) ==> r == Some(o.data)
      ensures immut.Some? && !HasUpTo(mem, k, s) ==> forall o :: IsNewest(immut.value, k, s, o) ==> r == Some(o.data)
      ensures r.None? <==> !HasUpTo(mem, k, s) && (immut.Some? ==> !HasUpTo(immut.value, k, s))
    {
      FindIsNewest(mem, k, s);
      r := FindIn(mem, InternalKey(k, s));
      if r.None? && immut.Some? {
        FindIsNewest(immut.value, k, s);
        r := FindIn(immut.value, InternalKey(k, s));
      }
    }
  }
}
