/** A transaction's reads, writes, commit and range iteration. */
module Transaction {
  import opened Keys
  import opened Rows
  import opened Levels
  import opened Compaction
  import opened Merging
  import M = MemTable

  function Erase(r: Option<Option<Value>>): Option<Value> {
    if r.Some? then r.value else None
  }

  /** Write buffer, then memtable, then the captured version. */
  function Resolve(buf: Option<seq<KeyValue>>, mem: M.MemMap, immut: Option<M.MemMap>, s: M.I64,
                   tables: Tables, levels: seq<Level>, k: Key): Option<Option<Value>>
    requires |levels| == MAX_LEVEL
  {
    OrElse(if buf.Some? then Find(buf.value, k) else None,
           OrElse(M.MemFind(mem, immut, k, s), Query(tables, levels, k)))
  }

  datatype Call = GetCall(key: Key) | SetCall(key: Key, value: Value) | RemoveCall(key: Key)

  datatype Reply = Value(value: Option<Value>) | Done | KeyNotFound

  /** The value of a key after a call that finds it with value `v`. */
  function CallValue(v: Option<Value>, call: Call, k: Key): Option<Value> {
    if call.key != k || call.GetCall? then v else if call.SetCall? then Some(call.value) else None
  }

  /** What a call replies when its key has this value: a get the value, a remove fails without one. */
  function ReplyTo(call: Call, v: Option<Value>): Reply {
    match call
    case GetCall(_) => Value(v)
    case SetCall(_, _) => Done
    case RemoveCall(_) => if v.Some? then Done else KeyNotFound
  }

  /** The value of a key after some calls: the last set or remove of the key decides, whatever was
      there before. */
  function ValueAfter(before: Option<Value>, calls: seq<Call>, k: Key): Option<Value> {
    if calls == [] then before
    else CallValue(ValueAfter(before, calls[..|calls| - 1], k), calls[|calls| - 1], k)
  }

  lemma ValueAfterNone(before: Option<Value>, k: Key)
    ensures ValueAfter(before, [], k) == before
  {
  }

  lemma ValueAfterSnoc(before: Option<Value>, calls: seq<Call>, n: nat, k: Key)
    requires n < |calls|
    ensures ValueAfter(before, calls[..n + 1], k) == CallValue(ValueAfter(before, calls[..n], k), calls[n], k)
  {
    assert calls[..n + 1][..n] == calls[..n];
  }

  datatype CommitResult = Committed | RepeatedWrite

  class Transaction {
    const store: M.MemTable
    const tables: Tables
    const levels: seq<Level>
    const seqId: M.I64
    var writeBuf: Option<seq<KeyValue>>

    ghost predicate Valid()
      reads this
    {
      |levels| == MAX_LEVEL && (writeBuf.Some? ==> Sorted(writeBuf.value))
    }

    ghost function Lookup(k: Key): Option<Option<Value>>
      requires Valid()
      reads this, store
    {
      LookupWith(writeBuf, k)
    }

    /** What a transaction with this buffer finds. */
    ghost function LookupWith(buf: Option<seq<KeyValue>>, k: Key): Option<Option<Value>>
      requires |levels| == MAX_LEVEL
      reads store
    {
      Resolve(buf, store.mem, store.immut, seqId, tables, levels, k)
    }

    /** Counted before it captures the version and takes its sequence. */
    constructor (store: M.MemTable, tables: Tables, levels: seq<Level>, seqId: M.I64)
      requires |levels| == MAX_LEVEL
      modifies store`txCount
      ensures Valid() && this.store == store && this.seqId == seqId && writeBuf == None
      ensures this.tables == tables && this.levels == levels
      ensures store.txCount == old(store.txCount) + 1
    {
      this.store, this.tables, this.levels, this.seqId, writeBuf := store, tables, levels, seqId, None;
      new;
      store.txCount := store.txCount + 1;
    }

    /** The value, unless nothing or a tombstone is found first. */
    method Get(k: Key) returns (r: Option<Value>)
      requires Valid()
      ensures r == Erase(Lookup(k)) && forall v :: r == Some(v) <==> Lookup(k) == Some(Some(v))
    {
      if writeBuf.Some? {
        var hit := Find(writeBuf.value, k);
        if hit.Some? {
          return hit.value;
        }
      }
      var inMem := store.FindWithSequenceId(k, seqId);
      if inMem.Some? {
        return inMem.value;
      }
      var onDisk := QueryVersion(tables, levels, k);
      return Erase(onDisk);
    }

    method Buffer(k: Key, d: Option<Value>)
      requires Valid()
      modifies this`writeBuf
      ensures Valid() && forall q :: Lookup(q) == if q == k then Some(d) else old(Lookup(q))
    {
      var buf := if writeBuf.Some? then writeBuf.value else [];
      UpsertSorted(buf, k, d);
      forall q ensures Find(Upsert(buf, k, d), q) == if q == k then Some(d) else Find(buf, q) {
        UpsertFind(buf, k, d, q);
      }
      writeBuf := Some(Upsert(buf, k, d));
    }

    /** Read-your-writes: afterwards the key resolves to the value, every other key as before. */
    method Set(k: Key, v: Value)
      requires Valid()
      modifies this`writeBuf
      ensures Valid() && forall q :: Lookup(q) == if q == k then Some(Some(v)) else old(Lookup(q))
    {
      Buffer(k, Some(v));
    }

    /** Fails exactly on a key without a value; otherwise the key resolves to a tombstone. */
    method Remove(k: Key) returns (found: bool)
      requires Valid()
      modifies this`writeBuf
      ensures Valid() && (found <==> exists v :: old(Lookup(k)) == Some(Some(v)))
      ensures forall q :: Lookup(q) == if found && q == k then Some(None) else old(Lookup(q))
    {
      var v := Get(k);
      found := v.Some?;
      if found {
        Buffer(k, None);
      }
    }

    method Answer(call: Call) returns (reply: Reply)
      requires Valid()
      modifies this`writeBuf
      ensures Valid() && reply == ReplyTo(call, Erase(LookupWith(old(writeBuf), call.key)))
      ensures forall k :: Erase(Lookup(k)) == CallValue(Erase(LookupWith(old(writeBuf), k)), call, k)
    {
      hide LookupWith;
      match call {
        case GetCall(k) =>
          var v := Get(k);
          reply := Value(v);
        case SetCall(k, v) =>
          Set(k, v);
          reply := Done;
        case RemoveCall(k) =>
          var found := Remove(k);
          reply := if found then Done else KeyNotFound;
      }
    }

    /** Optimistic commit at sequence `s`: rejected exactly if a key was written since the begin. */
    method Commit(s: M.I64) returns (r: CommitResult)
      requires Valid()
      modifies this`writeBuf, store`mem
      ensures writeBuf == None
      ensures r.RepeatedWrite? <==>
              old(writeBuf).Some? && exists kv, o :: kv in old(writeBuf).value && o in old(store.mem)
                                                  && o.ikey.key == kv.key && o.ikey.seqId > seqId
      ensures store.mem == if r.Committed? && old(writeBuf).Some?
                           then M.InsertBatch(old(store.mem), old(writeBuf).value, s)
                           else old(store.mem)
    {
      r := Committed;
      if writeBuf.Some? {
        var rows := writeBuf.value;
        writeBuf := None;
        var conflict := store.CheckKeyConflict(rows, seqId);
        if conflict {
          return RepeatedWrite;
        }
        store.InsertBatchData(rows, s);
      }
    }

    method Drop()
      requires store.txCount > 0
      modifies store`txCount
      ensures store.txCount == old(store.txCount) - 1
    {
      store.txCount := store.txCount - 1;
    }
  }

  /** Read-your-writes over any sequence of calls of one transaction: every call replies by the last set
      or remove of its key before it, else by what the transaction saw at first. */
  method Session(tx: Transaction, calls: seq<Call>) returns (replies: seq<Reply>)
    requires tx.Valid()
    modifies tx`writeBuf
    ensures tx.Valid() && |replies| == |calls|
    ensures forall i :: 0 <= i < |calls| ==>
              var first := Erase(tx.LookupWith(old(tx.writeBuf), calls[i].key));
              replies[i] == ReplyTo(calls[i], ValueAfter(first, calls[..i], calls[i].key))
    ensures forall k :: Erase(tx.Lookup(k)) == ValueAfter(Erase(tx.LookupWith(old(tx.writeBuf), k)), calls, k)
  {
    hide Transaction.LookupWith, ReplyTo, CallValue, ValueAfter, Erase;
    ghost var buf := tx.writeBuf;
    replies := [];
    forall k ensures ValueAfter(Erase(tx.LookupWith(buf, k)), calls[..0], k) == Erase(tx.Lookup(k)) {
      ValueAfterNone(Erase(tx.LookupWith(buf, k)), k);
    }
    for n := 0 to |calls|
      invariant tx.Valid() && |replies| == n
      invariant forall i :: 0 <= i < n ==>
                  var first := Erase(tx.LookupWith(buf, calls[i].key));
                  replies[i] == ReplyTo(calls[i], ValueAfter(first, calls[..i], calls[i].key))
      invariant forall k :: Erase(tx.Lookup(k)) == ValueAfter(Erase(tx.LookupWith(buf, k)), calls[..n], k)
    {
      forall k { ValueAfterSnoc(Erase(tx.LookupWith(buf, k)), calls, n, k); }
      var reply := tx.Answer(calls[n]);
      replies := replies + [reply];
    }
    assert calls[..|calls|] == calls;
  }

  /** A set, a get, a remove, a get and a second remove of one key. */
  method SetThenRemove(tx: Transaction, k: Key, v: Value)
    returns (got: Option<Value>, removed: bool, after: Option<Value>, again: bool)
    requires tx.Valid()
    modifies tx`writeBuf
    ensures got == Some(v) && removed && after == None && !again
  {
    hide Transaction.LookupWith;
    tx.Set(k, v);
    got := tx.Get(k);
    removed := tx.Remove(k);
    after := tx.Get(k);
    again := tx.Remove(k);
  }

  // ---- range iteration ----

  /** Rows of an ordered map within bounds. */
  function InBounds(rows: seq<KeyValue>, min: M.Bound, max: M.Bound): seq<KeyValue> {
    if rows == [] then []
    else
      var last := rows[|rows| - 1];
      InBounds(rows[..|rows| - 1], min, max) + if M.InRange(last.key, min, max) then [last] else []
  }

  lemma {:induction false} InBoundsSorted(rows: seq<KeyValue>, min: M.Bound, max: M.Bound)
    requires Sorted(rows)
    ensures Sorted(InBounds(rows, min, max)) && (forall e :: e in InBounds(rows, min, max) ==> e in rows)
  {
    if rows != [] {
      var init, last := rows[..|rows| - 1], rows[|rows| - 1];
      InBoundsSorted(init, min, max);
      forall e | e in InBounds(init, min, max) ensures Lt(e.key, last.key) && e in rows {
        var i :| 0 <= i < |init| && init[i] == e;
        assert Lt(rows[i].key, rows[|rows| - 1].key);
      }
    }
  }

  lemma {:induction false} InBoundsFind(rows: seq<KeyValue>, min: M.Bound, max: M.Bound, k: Key)
    ensures Find(InBounds(rows, min, max), k) == if M.InRange(k, min, max) then Find(rows, k) else None
  {
    if rows != [] {
      var init, last := rows[..|rows| - 1], rows[|rows| - 1];
      assert rows == init + [last];
      InBoundsFind(init, min, max, k);
      FindAppend(init, [last], k);
      FindAppend(InBounds(init, min, max), [last], k);
      assert InBounds(init, min, max) + [] == InBounds(init, min, max);
    }
  }

  function LevelLayer(tables: Tables, level: Level): seq<seq<KeyValue>> {
    if level == [] then [] else [LoadAll(tables, level)]
  }

  function NewestFirst(tables: Tables, level: Level): seq<seq<KeyValue>> {
    if level == [] then [] else [Load(tables, level[|level| - 1])] + NewestFirst(tables, level[..|level| - 1])
  }

  /** `merging_with_version`: level 0 newest first, then the levels below except the last. */
  function DiskLayers(tables: Tables, levels: seq<Level>): seq<seq<KeyValue>>
    requires |levels| == MAX_LEVEL
  {
    NewestFirst(tables, levels[0]) + LevelLayer(tables, levels[1]) + LevelLayer(tables, levels[2])
  }

  /** Every disk layer, moved by `seek(Backward(k))`. */
  ghost predicate Seeked(layers: seq<seq<KeyValue>>, k: Key, rest: seq<seq<KeyValue>>) {
    |rest| == |layers| && forall i :: 0 <= i < |layers| ==> AfterSeek(layers[i], k, rest[i])
  }

  lemma {:induction false} LayerAppend(a: seq<seq<KeyValue>>, b: seq<seq<KeyValue>>, k: Key)
    ensures LayerFind(a + b, k) == OrElse(LayerFind(a, k), LayerFind(b, k))
  {
    if a == [] {
      assert a + b == b;
    } else {
      assert (a + b)[1..] == a[1..] + b;
      LayerAppend(a[1..], b, k);
    }
  }

  lemma LayerOne(rows: seq<KeyValue>, k: Key)
    ensures LayerFind([rows], k) == Find(rows, k)
  {
  }

  lemma {:induction false} NewestFirstFind(tables: Tables, level: Level, k: Key)
    requires ScopesOk(tables, level)
    ensures LayerFind(NewestFirst(tables, level), k) == Scan(tables, level, k) && AllSorted(NewestFirst(tables, level))
  {
    if level != [] {
      var init, last := level[..|level| - 1], level[|level| - 1];
      assert last in level && forall s :: s in init ==> s in level;
      NewestFirstFind(tables, init, k);
      ScopeProper(tables, last);
      LayerOne(Load(tables, last), k);
      LayerAppend([Load(tables, last)], NewestFirst(tables, init), k);
    }
  }

  /** It answers like the level. */
  lemma {:induction false} LevelRows(tables: Tables, level: Level, k: Key)
    requires ScopesOk(tables, level) && LevelSorted(level)
    ensures Sorted(LoadAll(tables, level)) && Find(LoadAll(tables, level), k) == Scan(tables, level, k)
  {
    LevelRowsSorted(tables, level);
    LoadAllFind(tables, level, k);
    SortedIsDistinct(LoadAll(tables, level));
    ReverseKeepsFind(LoadAll(tables, level), k);
  }

  /** The disk layers answer like the version without its last level. */
  lemma DiskLayersFind(tables: Tables, levels: seq<Level>, k: Key)
    requires WellFormed(tables, levels)
    ensures AllSorted(DiskLayers(tables, levels))
    ensures OrElse(LayerFind(DiskLayers(tables, levels), k), Scan(tables, levels[3], k)) == Query(tables, levels, k)
  {
    hide LayerFind, Scan, LoadAll, NewestFirst, LevelLayer, Query, AllSorted, ScopesOk, LevelSorted;
    NewestFirstFind(tables, levels[0], k);
    LevelLayerFind(tables, levels[1], k);
    LevelLayerFind(tables, levels[2], k);
    var zero, one, two := NewestFirst(tables, levels[0]), LevelLayer(tables, levels[1]), LevelLayer(tables, levels[2]);
    LayerAppend(zero + one, two, k);
    LayerAppend(zero, one, k);
    AllSortedAppend(zero, one);
    AllSortedAppend(zero + one, two);
    QueryIsScan(tables, levels, k);
  }

  lemma AllSortedAppend(a: seq<seq<KeyValue>>, b: seq<seq<KeyValue>>)
    requires AllSorted(a) && AllSorted(b)
    ensures AllSorted(a + b)
  {
  }

  lemma LevelLayerFind(tables: Tables, level: Level, k: Key)
    requires ScopesOk(tables, level) && LevelSorted(level)
    ensures LayerFind(LevelLayer(tables, level), k) == Scan(tables, level, k) && AllSorted(LevelLayer(tables, level))
  {
    hide Sorted, LoadAll, ScopesOk, LevelSorted;
    LevelRows(tables, level, k);
    LayerOne(LoadAll(tables, level), k);
  }

  lemma {:induction false} SeekedFind(layers: seq<seq<KeyValue>>, k: Key, rest: seq<seq<KeyValue>>, q: Key)
    requires AllSorted(layers) && Seeked(layers, k, rest) && Le(k, q)
    ensures LayerFind(rest, q) == LayerFind(layers, q)
  {
    if layers != [] {
      AfterSeekFind(layers[0], k, rest[0]);
      SeekedFind(layers[1..], k, rest[1..], q);
    }
  }

  lemma SeekedSorted(layers: seq<seq<KeyValue>>, k: Key, rest: seq<seq<KeyValue>>)
    requires AllSorted(layers) && Seeked(layers, k, rest)
    ensures AllSorted(rest)
  {
  }

  /** Layers a range iteration visits: an unbounded minimum leaves the disk out. */
  function Visited(buf: Option<seq<KeyValue>>, mem: M.MemMap, immut: Option<M.MemMap>, s: M.I64,
                   tables: Tables, levels: seq<Level>, min: M.Bound, k: Key): Option<Option<Value>>
    requires |levels| == MAX_LEVEL
  {
    OrElse(if buf.Some? then Find(buf.value, k) else None,
           OrElse(M.MemFind(mem, immut, k, s),
                  if min.Unbounded? then None else LayerFind(DiskLayers(tables, levels), k)))
  }

  /** Iteration and point reads agree on a key exactly when a visited layer holds it or no
      unvisited one does: the last level, and with an unbounded minimum the whole version. */
  lemma IterationAgreesWithGet(buf: Option<seq<KeyValue>>, mem: M.MemMap, immut: Option<M.MemMap>, s: M.I64,
                               tables: Tables, levels: seq<Level>, min: M.Bound, k: Key)
    requires WellFormed(tables, levels)
    ensures Visited(buf, mem, immut, s, tables, levels, min, k) == Resolve(buf, mem, immut, s, tables, levels, k) <==>
            || Visited(buf, mem, immut, s, tables, levels, min, k).Some?
            || (if min.Unbounded? then Query(tables, levels, k) else Scan(tables, levels[3], k)).None?
  {
    DiskLayersFind(tables, levels, k);
  }

  /** Versions whose only table has the key: in the last level, iteration with any bounds misses it;
      elsewhere, iteration with an unbounded minimum does. Point reads find it in both. */
  lemma IterationMisses(tables: Tables, s: Scope, k: Key, l: nat, min: M.Bound, q: M.I64)
    requires ScopeOk(tables, s) && Holds(tables[s.gen], k) && l < MAX_LEVEL && (l == 3 || min.Unbounded?)
    ensures var levels := OneTable(s, l);
            && WellFormed(tables, levels)
            && Visited(None, [], None, q, tables, levels, min, k) == None
            && Resolve(None, [], None, q, tables, levels, k) == Find(tables[s.gen], k) != None
  {
    hide Query, Scan, DiskLayers, LayerFind, M.MemFind;
    var levels := OneTable(s, l);
    OneTableFormed(tables, s, l);
    EmptyMemtable(k, q);
    OneTableQuery(tables, s, k, l);
    if l == 3 {
      DiskLayersFind(tables, levels, k);
      NoLayers(tables, levels, k);
    }
  }

  function OneTable(s: Scope, l: nat): seq<Level>
    requires l < MAX_LEVEL
  {
    seq(MAX_LEVEL, i => if i == l then [s] else [])
  }

  lemma OneTableFormed(tables: Tables, s: Scope, l: nat)
    requires ScopeOk(tables, s) && l < MAX_LEVEL
    ensures WellFormed(tables, OneTable(s, l))
  {
    hide ScopeOk;
  }

  lemma EmptyMemtable(k: Key, q: M.I64)
    ensures M.MemFind([], None, k, q) == None
  {
  }

  lemma OneTableQuery(tables: Tables, s: Scope, k: Key, l: nat)
    requires ScopeOk(tables, s) && l < MAX_LEVEL
    ensures Query(tables, OneTable(s, l), k) == Find(tables[s.gen], k)
  {
    hide Query;
    OneTableFormed(tables, s, l);
    QueryIsScan(tables, OneTable(s, l), k);
    ScopeProper(tables, s);
    ScanOnly(tables, [s], k, s);
  }

  lemma NoLayers(tables: Tables, levels: seq<Level>, k: Key)
    requires |levels| == MAX_LEVEL && levels[0] == [] && levels[1] == [] && levels[2] == []
    ensures LayerFind(DiskLayers(tables, levels), k) == None
  {
  }

  /** The children `Transaction::iter` merges; `disk` are the disk iterators after their seek. */
  function Children(buf: Option<seq<KeyValue>>, scan: seq<KeyValue>, disk: seq<seq<KeyValue>>, min: M.Bound,
                    max: M.Bound)
    : seq<seq<KeyValue>>
  {
    (if buf.Some? then [InBounds(buf.value, min, max)] else []) + [scan] + if min.Unbounded? then [] else disk
  }

  lemma ChildrenFind(buf: Option<seq<KeyValue>>, scan: seq<KeyValue>, disk: seq<seq<KeyValue>>, min: M.Bound,
                     max: M.Bound, k: Key)
    requires buf.Some? ==> Sorted(buf.value)
    requires Sorted(scan) && M.InRange(k, min, max)
    ensures LayerFind(Children(buf, scan, disk, min, max), k) ==
            OrElse(if buf.Some? then Find(buf.value, k) else None,
                   OrElse(Find(scan, k), if min.Unbounded? then None else LayerFind(disk, k)))
  {
    var first := if buf.Some? then [InBounds(buf.value, min, max)] else [];
    LayerAppend(first + [scan], if min.Unbounded? then [] else disk, k);
    LayerAppend(first, [scan], k);
    LayerOne(scan, k);
    if buf.Some? {
      LayerOne(InBounds(buf.value, min, max), k);
      InBoundsFind(buf.value, min, max, k);
    }
  }

  lemma ChildrenSorted(buf: Option<seq<KeyValue>>, scan: seq<KeyValue>, disk: seq<seq<KeyValue>>, min: M.Bound,
                       max: M.Bound)
    requires buf.Some? ==> Sorted(buf.value)
    requires Sorted(scan) && (min.Unbounded? || AllSorted(disk))
    ensures AllSorted(Children(buf, scan, disk, min, max))
  {
    if buf.Some? { InBoundsSorted(buf.value, min, max); }
  }

  /** `out` is strictly ascending, in range, layered, and misses no key in range. */
  ghost predicate RangeComplete(inputs: seq<seq<KeyValue>>, out: seq<KeyValue>, min: M.Bound, max: M.Bound) {
    && Answers(inputs, out) && (forall e :: e in out ==> M.InRange(e.key, min, max))
    && (forall i, x :: 0 <= i < |inputs| && 0 <= x < |inputs[i]| && M.InRange(inputs[i][x].key, min, max)
                       ==> Holds(out, inputs[i][x].key))
  }

  lemma RangeCompleteFind(inputs: seq<seq<KeyValue>>, out: seq<KeyValue>, min: M.Bound, max: M.Bound, k: Key)
    requires RangeComplete(inputs, out, min, max)
    ensures Find(out, k) == if M.InRange(k, min, max) then LayerFind(inputs, k) else None
  {
    if Find(out, k).None? && M.InRange(k, min, max) {
      LayerNone(inputs, k);
      forall i | 0 <= i < |inputs| ensures !Holds(inputs[i], k) {
        forall x | 0 <= x < |inputs[i]| ensures inputs[i][x].key != k {
        }
      }
    }
  }

  /** `out` is what remains of `produced` behind the rows below the minimum. */
  ghost predicate OutOk(inputs: seq<seq<KeyValue>>, produced: seq<KeyValue>, out: seq<KeyValue>, min: M.Bound,
                        max: M.Bound) {
    && Answers(inputs, produced) && |out| <= |produced| && out == produced[|produced| - |out|..]
    && (forall i :: 0 <= i < |produced| - |out| ==> !M.AboveMin(produced[i].key, min))
    && (forall e :: e in out ==> M.InRange(e.key, min, max))
  }

  /** The merge has just produced `item`; `out` covers what it produced before. */
  ghost predicate ItemOk(inputs: seq<seq<KeyValue>>, produced: seq<KeyValue>, item: KeyValue, out: seq<KeyValue>,
                         min: M.Bound, max: M.Bound) {
    && produced != [] && produced[|produced| - 1] == item && Answers(inputs, produced)
    && CoversBelow(inputs, produced[..|produced| - 1], item.key)
    && OutOk(inputs, produced[..|produced| - 1], out, min, max)
  }

  /** The merge has nothing left. */
  ghost predicate AllOk(inputs: seq<seq<KeyValue>>, produced: seq<KeyValue>, out: seq<KeyValue>, min: M.Bound,
                        max: M.Bound) {
    OutOk(inputs, produced, out, min, max) && CoversAll(inputs, produced)
  }

  lemma Produced(inputs: seq<seq<KeyValue>>, before: seq<KeyValue>, item: KeyValue, out: seq<KeyValue>,
                 min: M.Bound, max: M.Bound)
    requires Answers(inputs, before + [item]) && CoversBelow(inputs, before, item.key) &&
             OutOk(inputs, before, out, min, max)
    ensures ItemOk(inputs, before + [item], item, out, min, max)
  {
  }

  lemma Exhausted(inputs: seq<seq<KeyValue>>, produced: seq<KeyValue>, out: seq<KeyValue>, min: M.Bound, max: M.Bound)
    requires OutOk(inputs, produced, out, min, max) && CoversAll(inputs, produced)
    ensures AllOk(inputs, produced, out, min, max)
  {
  }

  lemma AllDone(inputs: seq<seq<KeyValue>>, produced: seq<KeyValue>, out: seq<KeyValue>, min: M.Bound, max: M.Bound)
    requires AllOk(inputs, produced, out, min, max)
    ensures RangeComplete(inputs, out, min, max)
  {
  }

  lemma SkipBelow(inputs: seq<seq<KeyValue>>, produced: seq<KeyValue>, item: KeyValue, min: M.Bound, max: M.Bound)
    requires ItemOk(inputs, produced, item, [], min, max) && !M.AboveMin(item.key, min)
    ensures OutOk(inputs, produced, [], min, max)
  {
  }

  lemma TakeItem(inputs: seq<seq<KeyValue>>, produced: seq<KeyValue>, item: KeyValue, out: seq<KeyValue>,
                 min: M.Bound, max: M.Bound)
    requires ItemOk(inputs, produced, item, out, min, max) && M.InRange(item.key, min, max)
    ensures OutOk(inputs, produced, out + [item], min, max)
  {
  }

  /** A row above the minimum stays above it in everything produced later. */
  lemma StillAbove(inputs: seq<seq<KeyValue>>, produced: seq<KeyValue>, item: KeyValue, out: seq<KeyValue>,
                   min: M.Bound, max: M.Bound)
    requires ItemOk(inputs, produced, item, out, min, max) && out != []
    ensures M.AboveMin(item.key, min)
  {
    var init := produced[..|produced| - 1];
    assert out[0] in out && out[0] == init[|init| - |out|] == produced[|init| - |out|];
    assert Lt(produced[|init| - |out|].key, produced[|produced| - 1].key);
  }

  /** The first row past the maximum shows that the range is complete. */
  lemma PastMax(inputs: seq<seq<KeyValue>>, produced: seq<KeyValue>, item: KeyValue, out: seq<KeyValue>,
                min: M.Bound, max: M.Bound)
    requires ItemOk(inputs, produced, item, out, min, max) && !M.BelowMax(item.key, max)
    ensures RangeComplete(inputs, out, min, max)
  {
  }

  class TransactionIter {
    var inner: MergingIter
    const min: M.Bound
    const max: M.Bound
    var isOvered: bool
    var isInited: bool
    ghost var out: seq<KeyValue>

    ghost predicate Valid()
      reads this, inner
    {
      && inner.Valid() && (!isInited ==> inner.produced == [] && out == [] && !isOvered) &&
         (isInited && !isOvered ==> out != [])
      && (if isOvered then RangeComplete(inner.inputs, out, min, max)
          else OutOk(inner.inputs, inner.produced, out, min, max))
    }

    constructor (children: seq<seq<KeyValue>>, min: M.Bound, max: M.Bound)
      requires AllSorted(children)
      ensures Valid() && inner.inputs == children && out == [] && fresh(inner) && inner.Valid()
      ensures this.min == min && this.max == max
    {
      this.min, this.max, isOvered, isInited, out := min, max, false, false, [];
      inner := new MergingIter(children);
    }

    ghost function Measure(): nat
      reads this, inner
      requires inner.Valid()
    {
      inner.Measure()
    }

    /** The next row in range; `None` once the range is complete. */
    method TryNext() returns (r: Option<KeyValue>)
      requires Valid()
      modifies this, inner
      ensures Valid() && inner == old(inner) && inner.inputs == old(inner.inputs) && inner.Valid()
      ensures r.Some? ==> out == old(out) + [r.value] && Measure() < old(Measure())
      ensures r.None? ==> out == old(out) && RangeComplete(inner.inputs, out, min, max)
    {
      hide ItemOk, OutOk, AllOk, Answers, CoversBelow, CoversAll, RangeComplete, Buffered, NextOk, Left;
      if isOvered {
        return None;
      }
      var item := inner.TryNext();
      if item.Some? {
        Produced(inner.inputs, old(inner.produced), item.value, out, min, max);
      } else {
        Exhausted(inner.inputs, inner.produced, out, min, max);
      }
      if !isInited {
        item := Skip(item);
        isInited := true;
      } else if item.Some? && out != [] {
        StillAbove(inner.inputs, inner.produced, item.value, out, min, max);
      }
      if item.Some? && M.BelowMax(item.value.key, max) {
        TakeItem(inner.inputs, inner.produced, item.value, out, min, max);
        out := out + [item.value];
        return item;
      }
      if item.Some? {
        PastMax(inner.inputs, inner.produced, item.value, out, min, max);
      } else {
        AllDone(inner.inputs, inner.produced, out, min, max);
      }
      isOvered := true;
      return None;
    }

    /** Skips the rows below the minimum. */
    method Skip(first: Option<KeyValue>) returns (item: Option<KeyValue>)
      requires inner.Valid()
      requires first.Some? ==> ItemOk(inner.inputs, inner.produced, first.value, [], min, max)
      requires first.None? ==> AllOk(inner.inputs, inner.produced, [], min, max)
      modifies inner
      ensures inner.Valid() && inner.inputs == old(inner.inputs) && inner.Measure() <= old(inner.Measure())
      ensures item.Some? ==>
                ItemOk(inner.inputs, inner.produced, item.value, [], min, max) && M.AboveMin(item.value.key, min)
      ensures item.None? ==> AllOk(inner.inputs, inner.produced, [], min, max)
      ensures first.None? ==> item.None?
    {
      hide *;
      item := first;
      while item.Some? && !M.AboveMin(item.value.key, min)
        invariant inner.Valid() && inner.inputs == old(inner.inputs) && inner.Measure() <= old(inner.Measure())
        invariant item.Some? ==> ItemOk(inner.inputs, inner.produced, item.value, [], min, max)
        invariant item.None? ==> AllOk(inner.inputs, inner.produced, [], min, max)
        invariant first.None? ==> item.None?
        decreases inner.Measure(), item.Some?
      {
        SkipBelow(inner.inputs, inner.produced, item.value, min, max);
        ghost var before := inner.produced;
        item := inner.TryNext();
        if item.Some? {
          Produced(inner.inputs, before, item.value, [], min, max);
        } else {
          Exhausted(inner.inputs, before, [], min, max);
        }
      }
    }
  }

  /** A complete range iteration of a transaction, given the disk iterators after their seek:
      strictly ascending, exactly the keys in range that a visited layer holds, each with the
      value or tombstone that the first such layer has. */
  method Iterate(tx: Transaction, min: M.Bound, max: M.Bound, disk: seq<seq<KeyValue>>) returns (rows: seq<KeyValue>)
    requires tx.Valid() && WellFormed(tx.tables, tx.levels)
    requires !min.Unbounded? ==> Seeked(DiskLayers(tx.tables, tx.levels), min.key, disk)
    ensures Sorted(rows)
    ensures forall k :: Find(rows, k) ==
              if M.InRange(k, min, max)
              then Visited(tx.writeBuf, tx.store.mem, tx.store.immut, tx.seqId, tx.tables, tx.levels, min, k) else None
    ensures M.NoneOutside(rows, min, max)
    ensures forall k :: M.Between(k, min, max) ==>
              Find(rows, k) ==
              Visited(tx.writeBuf, tx.store.mem, tx.store.immut, tx.seqId, tx.tables, tx.levels, min, k)
  {
    hide M.Between, M.NoneOutside;
    var scan := M.RangeScan(tx.store.mem, tx.store.immut, min, max, Some(tx.seqId));
    var children := Children(tx.writeBuf, scan, disk, min, max);
    DiskLayersFind(tx.tables, tx.levels, []);
    if !min.Unbounded? { SeekedSorted(DiskLayers(tx.tables, tx.levels), min.key, disk); }
    ChildrenSorted(tx.writeBuf, scan, disk, min, max);
    rows := Drain(children, min, max);
    forall k ensures Find(rows, k) ==
              if M.InRange(k, min, max)
              then Visited(tx.writeBuf, tx.store.mem, tx.store.immut, tx.seqId, tx.tables, tx.levels, min, k)
              else None
    {
      RangeCompleteFind(children, rows, min, max, k);
      if M.InRange(k, min, max) {
        ChildrenFind(tx.writeBuf, scan, disk, min, max, k);
        if !min.Unbounded? {
          DiskLayersFind(tx.tables, tx.levels, k);
          SeekedFind(DiskLayers(tx.tables, tx.levels), min.key, disk, k);
        }
      }
    }
    M.InRangeRows(rows, min, max);
    forall k ensures M.InRange(k, min, max) <==> M.Between(k, min, max) { M.RangeIsLexicographic(k, min, max); }
  }

  method Drain(children: seq<seq<KeyValue>>, min: M.Bound, max: M.Bound) returns (rows: seq<KeyValue>)
    requires AllSorted(children)
    ensures RangeComplete(children, rows, min, max)
  {
    hide *;
    var it := new TransactionIter(children, min, max);
    rows := [];
    while true
      invariant it.Valid() && it.inner.inputs == children && rows == it.out && it.min == min && it.max == max
      invariant fresh(it) && fresh(it.inner) && it.inner.Valid()
      decreases it.Measure()
    {
      var r := it.TryNext();
      if r.None? {
        return;
      }
      rows := rows + [r.value];
    }
  }
}
