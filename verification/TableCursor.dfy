/** The cursor over a sorted-string table: a data cursor inside an index cursor. */
module TableCursor {
  import opened Keys
  import opened Rows
  import opened Block
  import opened BlockCursor
  import opened SsTable
  import Codec

  // ---- rows as the file gives them back ----

  function NormalChunks(chunks: seq<seq<KeyValue>>): (r: seq<seq<KeyValue>>)
    ensures |r| == |chunks| && forall i :: 0 <= i < |r| ==> r[i] == NormalRows(chunks[i])
  {
    seq(|chunks|, i requires 0 <= i < |chunks| => NormalRows(chunks[i]))
  }

  lemma {:induction false} NormalConcat(chunks: seq<seq<KeyValue>>)
    ensures Concat(NormalChunks(chunks)) == NormalRows(Concat(chunks))
  {
    if chunks != [] {
      NormalConcat(chunks[1..]);
      assert NormalChunks(chunks)[1..] == NormalChunks(chunks[1..]);
    }
  }

  lemma NormalPairsSorted(rows: seq<KeyValue>)
    requires Sorted(rows)
    ensures SortedPairs(NormalPairs(rows))
  {
  }

  // ---- positions ----

  /** Still to come at row `o` of part `at`, the parts from `p` on untouched. */
  ghost function Remaining(parts: seq<seq<KeyValue>>, at: nat, o: nat, p: nat): seq<KeyValue>
    requires at < |parts|
  {
    (if o <= |parts[at]| then parts[at][o..] else []) + if p <= |parts| then Concat(parts[p..]) else []
  }

  /** The index cursor is one part ahead of the data cursor, or has run off the end. */
  ghost predicate Placed(parts: seq<seq<KeyValue>>, at: nat, o: nat, p: nat) {
    && at < |parts| && 1 <= p <= |parts| + 1
    && (p <= |parts| ==> at == p - 1)
    && (p == |parts| + 1 ==> at == |parts| - 1 || o >= |parts[at]|)
  }

  lemma TailOfThree(a: seq<KeyValue>, b: seq<KeyValue>, c: seq<KeyValue>, o: nat)
    requires o <= |b|
    ensures (a + b + c)[|a| + o..] == b[o..] + c
  {
  }

  lemma RemainingIsTail(parts: seq<seq<KeyValue>>, at: nat, o: nat, p: nat)
    requires Placed(parts, at, o, p)
    ensures exists n :: 0 <= n <= |Concat(parts)| && Remaining(parts, at, o, p) == Concat(parts)[n..]
  {
    var all, rest := Concat(parts), Remaining(parts, at, o, p);
    if p == |parts| + 1 && o >= |parts[at]| {
      assert rest == all[|all|..];
    } else {
      var here := parts[at];
      var o' := if o <= |here| then o else |here|;
      ConcatAt(parts, at);
      TailOfThree(Concat(parts[..at]), here, Concat(parts[at + 1..]), o');
      assert parts[|parts|..] == [];
      var n := |Concat(parts[..at])| + o';
      assert rest == here[o'..] + Concat(parts[at + 1..]);
      assert n <= |all| && rest == all[n..];
    }
  }

  lemma RemainingInside(parts: seq<seq<KeyValue>>, at: nat, o: nat, p: nat)
    requires Placed(parts, at, o, p) && o < |parts[at]|
    ensures Placed(parts, at, o + 1, p)
    ensures var rest := Remaining(parts, at, o, p);
            rest != [] && rest[0] == parts[at][o] && rest[1..] == Remaining(parts, at, o + 1, p)
  {
  }

  lemma RemainingCross(parts: seq<seq<KeyValue>>, at: nat, o: nat, p: nat)
    requires Placed(parts, at, o, p) && o >= |parts[at]| && p < |parts|
    ensures Placed(parts, p, 0, p + 1) && Remaining(parts, at, o, p) == Remaining(parts, p, 0, p + 1)
  {
  }

  lemma RemainingDone(parts: seq<seq<KeyValue>>, at: nat, o: nat, p: nat)
    requires Placed(parts, at, o, p) && o >= |parts[at]| && p >= |parts|
    ensures Remaining(parts, at, o, p) == [] && Placed(parts, at, o, |parts| + 1)
    ensures Placed(parts, at, o + 1, |parts| + 1)
    ensures Remaining(parts, at, o, |parts| + 1) == [] && Remaining(parts, at, o + 1, |parts| + 1) == []
  {
  }

  lemma AllBelow(parts: seq<seq<KeyValue>>, i: nat, k: Key, e: KeyValue)
    requires Sorted(Concat(parts)) && i <= |parts| && (forall j :: 0 <= j < i ==> Lt(LastKey(parts[j]), k))
    requires e in Concat(parts[..i])
    ensures Lt(e.key, k)
  {
    hide Concat, Sorted, LastKey;
    ConcatHolds(parts[..i], e);
    var j :| 0 <= j < i && e in parts[..i][j];
    PartBelow(parts, j, k, e);
  }

  lemma PartBelow(parts: seq<seq<KeyValue>>, j: nat, k: Key, e: KeyValue)
    requires Sorted(Concat(parts)) && j < |parts| && Lt(LastKey(parts[j]), k) && e in parts[j]
    ensures Lt(e.key, k)
  {
    hide Concat, Sorted, LastKey;
    var x :| 0 <= x < |parts[j]| && parts[j][x] == e;
    ChunkSorted(parts, j);
    KeyUpToLast(parts[j], x);
  }

  lemma SeekLands(parts: seq<seq<KeyValue>>, i: nat, o: nat, k: Key)
    requires Sorted(Concat(parts)) && i < |parts| && o <= |parts[i]|
    requires forall j :: 0 <= j < i ==> Lt(LastKey(parts[j]), k)
    requires forall j :: 0 <= j < o ==> Lt(parts[i][j].key, k)
    ensures AfterSeek(Concat(parts), k, parts[i][o..] + Concat(parts[i + 1..]))
  {
    hide Sorted;
    ConcatAt(parts, i);
    var all, before := Concat(parts), Concat(parts[..i]);
    var n := |before| + o;
    forall j | 0 <= j < n ensures Lt(all[j].key, k) {
      if j < |before| {
        assert all[j] == before[j];
        AllBelow(parts, i, k, before[j]);
      } else {
        assert all[j] == parts[i][j - |before|];
      }
    }
    assert parts[i][o..] + Concat(parts[i + 1..]) == all[n..];
  }

  /** A probe above the last key: any tail will do. */
  lemma SeekPast(parts: seq<seq<KeyValue>>, at: nat, o: nat, p: nat, k: Key)
    requires Sorted(Concat(parts)) && Placed(parts, at, o, p)
    requires forall j :: 0 <= j < |parts| ==> Lt(LastKey(parts[j]), k)
    ensures AfterSeek(Concat(parts), k, Remaining(parts, at, o, p))
  {
    hide Sorted, Remaining;
    RemainingIsTail(parts, at, o, p);
    var all := Concat(parts);
    assert parts[..|parts|] == parts;
    forall j | 0 <= j < |all| ensures Lt(all[j].key, k) {
      AllBelow(parts, |parts|, k, all[j]);
    }
  }

  lemma NormalPairsAre(chunks: seq<seq<KeyValue>>)
    ensures forall i, j :: 0 <= i < |chunks| && 0 <= j < |chunks[i]| ==>
              NormalPairs(chunks[i])[j] == Pair(NormalChunks(chunks)[i][j].key, NormalChunks(chunks)[i][j].data)
    ensures forall i :: 0 <= i < |chunks| ==> |NormalPairs(chunks[i])| == |chunks[i]| == |NormalChunks(chunks)[i]|
  {
  }

  lemma PlacedBounds(parts: seq<seq<KeyValue>>, at: nat, o: nat, p: nat)
    requires Placed(parts, at, o, p)
    ensures at < |parts| && 1 <= p <= |parts| + 1
  {
  }

  /** Facts about the parts of a stored table. */
  lemma PartsAre(f: Format, t: Table, chunks: seq<seq<KeyValue>>)
    requires StoresChunks(f, t, chunks)
    ensures Sorted(Concat(NormalChunks(chunks))) && |NormalChunks(chunks)| == |chunks| > 0
    ensures forall i :: 0 <= i < |chunks| ==>
              IndexPairs(f, chunks, t.dataInterval)[i].key == LastKey(chunks[i]) == LastKey(NormalChunks(chunks)[i])
    ensures forall i :: 0 <= i < |chunks| ==> chunks[i] != []
    ensures SortedPairs(IndexPairs(f, chunks, t.dataInterval))
  {
    hide DataBytes, BlockBytes;
    IndexSorted(f, chunks, t.dataInterval);
    NormalConcat(chunks);
    NormalSorted(Concat(chunks));
  }

  lemma AllLastBelow(f: Format, t: Table, chunks: seq<seq<KeyValue>>, k: Key)
    requires StoresChunks(f, t, chunks) && |IndexPairs(f, chunks, t.dataInterval)| == |chunks|
    requires Lt(IndexPairs(f, chunks, t.dataInterval)[|chunks| - 1].key, k)
    ensures forall j :: 0 <= j < |chunks| ==> Lt(LastKey(NormalChunks(chunks)[j]), k)
  {
    hide IndexPairs, NormalChunks, LastKey, Writable, TableOf;
    PartsAre(f, t, chunks);
    var kvs := IndexPairs(f, chunks, t.dataInterval);
    forall j | 0 <= j < |chunks| ensures Lt(LastKey(NormalChunks(chunks)[j]), k) {
      assert j < |chunks| - 1 ==> Lt(kvs[j].key, kvs[|chunks| - 1].key);
    }
  }

  lemma PlacedAt(parts: seq<seq<KeyValue>>, i: nat, o: nat)
    requires i < |parts|
    ensures Placed(parts, i, o, i + 1)
    ensures o <= |parts[i]| ==> Remaining(parts, i, o, i + 1) == parts[i][o..] + Concat(parts[i + 1..])
    ensures o < |parts[i]| ==> Remaining(parts, i, o, i + 1) != []
  {
  }

  lemma PlacedOff(parts: seq<seq<KeyValue>>, at: nat, o: nat, p: nat)
    requires Placed(parts, at, o, p) && p >= |parts|
    ensures Placed(parts, at, o, |parts| + 1) && Remaining(parts, at, o, |parts| + 1) == Remaining(parts, at, o, p)
  {
    assert parts[|parts|..] == [];
  }

  lemma PlacedEnd(parts: seq<seq<KeyValue>>, at: nat, o: nat)
    requires at < |parts| && o > |parts[at]|
    ensures Placed(parts, at, o, |parts| + 1) && Remaining(parts, at, o, |parts| + 1) == []
  {
  }

  lemma PlacedFirst(parts: seq<seq<KeyValue>>)
    requires parts != []
    ensures Placed(parts, 0, 0, 1) && Remaining(parts, 0, 0, 1) == Concat(parts)
  {
  }

  lemma ChunksNotEmpty(f: Format, t: Table, chunks: seq<seq<KeyValue>>)
    requires StoresChunks(f, t, chunks)
    ensures chunks != [] && t.dataInterval > 0 && t.indexInterval > 0
    ensures forall i :: 0 <= i < |chunks| ==> chunks[i] != []
  {
  }

  /** `data_iter_init`: the block an index entry points to reads back as the rows of its chunk. */
  method DataIterInit(f: Format, t: Table, index: Codec.Index, ghost chunks: seq<seq<KeyValue>>, ghost i: nat)
    returns (it: BlockIter<Option<Value>>)
    requires FormatOk(f) && StoresChunks(f, t, chunks) && i < |chunks|
    requires index == IndexPairs(f, chunks, t.dataInterval)[i].item
    ensures fresh(it) && it.Valid() && it.kvs == NormalPairs(chunks[i]) && it.offset == 0
    ensures it.block.interval == t.dataInterval
  {
    hide DataBytes, BlockBytes, LoadData, TableOf, New, Concat, EntryAt;
    DataReadsBack(f, chunks, t.dataInterval, t.indexInterval, i);
    ChunkSorted(chunks, i);
    NormalPairsSorted(chunks[i]);
    var block := LoadData(f, t, index).value;
    assert block.interval == t.dataInterval by { NewSize(NormalPairs(chunks[i]), t.dataInterval); }
    assert chunks[i] != [];
    it := new BlockIter(block, NormalPairs(chunks[i]));
  }

  method IndexIterInit(f: Format, t: Table, ghost chunks: seq<seq<KeyValue>>) returns (it: BlockIter<Codec.Index>)
    requires FormatOk(f) && StoresChunks(f, t, chunks)
    ensures fresh(it) && it.Valid() && it.kvs == IndexPairs(f, chunks, t.dataInterval) && it.offset == 0
    ensures it.block.interval == t.indexInterval
  {
    hide DataBytes, BlockBytes, LoadIndex, TableOf, New, Concat, EntryAt;
    IndexReadsBack(f, chunks, t.dataInterval, t.indexInterval);
    IndexSorted(f, chunks, t.dataInterval);
    IndexPairsLen(f, chunks, t.dataInterval);
    var block := LoadIndex(t).value;
    assert block.interval == t.indexInterval by { NewSize(IndexPairs(f, chunks, t.dataInterval), t.indexInterval); }
    it := new BlockIter(block, IndexPairs(f, chunks, t.dataInterval));
  }

  // ---- where an interval of 1 shows ----

  /** The first key not below the probe is inside a part, behind the part's first row. */
  ghost predicate LandsInside(parts: seq<seq<KeyValue>>, k: Key) {
    exists i, o :: 0 <= i < |parts| && InsideAt(parts[i], o, k)
  }

  ghost predicate InsideAt(part: seq<KeyValue>, o: int, k: Key) {
    0 < o < |part| && Lt(part[o - 1].key, k) && Le(k, part[o].key)
  }

  /** It is then inside the part that the last keys single out. */
  lemma InsideIsPicked(parts: seq<seq<KeyValue>>, k: Key, i: nat)
    requires Sorted(Concat(parts)) && (forall j :: 0 <= j < |parts| ==> parts[j] != []) && i < |parts|
    requires (forall j :: 0 <= j < i ==> Lt(LastKey(parts[j]), k)) && Le(k, LastKey(parts[i]))
    ensures LandsInside(parts, k) ==> Lt(parts[i][0].key, k)
  {
    hide Concat, Sorted, LastKey;
    if LandsInside(parts, k) {
      var x, o :| 0 <= x < |parts| && InsideAt(parts[x], o, k);
      InsideBounds(parts, x, o, k);
      if i < x { PartsAscend(parts, i, x); }
    }
  }

  lemma InsideBounds(parts: seq<seq<KeyValue>>, x: nat, o: int, k: Key)
    requires Sorted(Concat(parts)) && x < |parts| && InsideAt(parts[x], o, k)
    ensures Lt(parts[x][0].key, k) && Le(k, LastKey(parts[x]))
  {
    hide Concat, Sorted, LastKey;
    ChunkSorted(parts, x);
    KeyUpToLast(parts[x], o);
    FirstUpTo(parts[x], o - 1);
  }

  lemma PartsAscend(parts: seq<seq<KeyValue>>, i: nat, x: nat)
    requires Sorted(Concat(parts)) && i < x < |parts| && parts[i] != [] && parts[x] != []
    ensures Lt(LastKey(parts[i]), parts[x][0].key)
  {
    hide Concat, Sorted;
    ChunksAscend(parts, i, x, parts[i][|parts[i]| - 1], parts[x][0]);
  }

  lemma FirstUpTo(part: seq<KeyValue>, i: nat)
    requires Sorted(part) && i < |part|
    ensures Le(part[0].key, part[i].key)
  {
    assert i > 0 ==> Lt(part[0].key, part[i].key);
  }

  lemma LastNotBelow(part: seq<KeyValue>, k: Key)
    requires part != []
    ensures Lt(part[|part| - 1].key, k) <==> Lt(LastKey(part), k)
    ensures Le(k, LastKey(part)) ==> !Lt(part[|part| - 1].key, k)
  {
  }

  /** Where a seek lands: on a tail, and inside the part exactly if the part begins below the probe. */
  lemma Landed(parts: seq<seq<KeyValue>>, i: nat, o: nat, k: Key)
    requires Sorted(Concat(parts)) && (forall j :: 0 <= j < |parts| ==> parts[j] != []) && i < |parts| && o < |parts[i]|
    requires forall j :: 0 <= j < i ==> Lt(LastKey(parts[j]), k)
    requires Le(k, parts[i][o].key) && Le(k, LastKey(parts[i])) && forall j :: 0 <= j < o ==> Lt(parts[i][j].key, k)
    ensures AfterSeek(Concat(parts), k, parts[i][o..] + Concat(parts[i + 1..]))
    ensures LandsInside(parts, k) <==> Lt(parts[i][0].key, k)
    ensures Lt(parts[i][0].key, k) <==> o > 0
  {
    hide Concat, Sorted, AfterSeek, LastKey;
    SeekLands(parts, i, o, k);
    InsideIsPicked(parts, k, i);
    if o > 0 {
      assert InsideAt(parts[i], o, k);
    }
  }

  lemma NoneInside(parts: seq<seq<KeyValue>>, k: Key)
    requires Sorted(Concat(parts)) && forall j :: 0 <= j < |parts| ==> Lt(LastKey(parts[j]), k)
    ensures !LandsInside(parts, k)
  {
    hide Concat;
    forall i, o | 0 <= i < |parts| ensures !InsideAt(parts[i], o, k) {
      ChunkSorted(parts, i);
      if 0 < o < |parts[i]| { KeyUpToLast(parts[i], o); }
    }
  }

  // ---- the cursor ----

  class SsTableIter {
    const format: Format
    const table: Table
    ghost const chunks: seq<seq<KeyValue>>
    ghost var at: nat
    var dataIter: BlockIter<Option<Value>>
    var indexIter: BlockIter<Codec.Index>

    /** With the index cursor on its first entry and the data cursor on that entry's block. */
    constructor (format: Format, table: Table, data: BlockIter<Option<Value>>, index: BlockIter<Codec.Index>,
                 ghost chunks: seq<seq<KeyValue>>)
      requires FormatOk(format) && StoresChunks(format, table, chunks) && table.indexInterval >= 2
      requires (data as object) != (index as object) && index.Valid() && data.Valid() && index.offset == 1 &&
               data.offset == 0
      requires index.kvs == IndexPairs(format, chunks, table.dataInterval) &&
               index.block.interval == table.indexInterval
      requires data.kvs == NormalPairs(chunks[0]) && data.block.interval == table.dataInterval
      ensures Valid() && this.format == format && this.table == table && this.chunks == chunks
      ensures dataIter == data && indexIter == index && Rest() == All()
    {
      hide DataBytes, BlockBytes, StoresChunks, FormatOk, IndexPairs, NormalPairs, BlockIter.Valid;
      ChunksNotEmpty(format, table, chunks);
      PlacedFirst(NormalChunks(chunks));
      this.format, this.table, this.chunks, at, dataIter, indexIter := format, table, chunks, 0, data, index;
    }

    ghost function Repr(): set<object>
      reads this
    {
      {this, dataIter, indexIter}
    }

    ghost function Parts(): seq<seq<KeyValue>> {
      NormalChunks(chunks)
    }

    ghost function All(): seq<KeyValue> {
      Concat(Parts())
    }

    /** An interval of 1 keeps the data cursor at the start or past the end of its block. */
    ghost predicate Valid()
      reads this, dataIter, indexIter
    {
      && FormatOk(format) && StoresChunks(format, table, chunks) && table.indexInterval >= 2 && table.dataInterval >= 1
      && (dataIter as object) != (indexIter as object)
      && indexIter.Valid() && indexIter.kvs == IndexPairs(format, chunks, table.dataInterval)
      && indexIter.block.interval == table.indexInterval && dataIter.block.interval == table.dataInterval
      && at < |chunks| && dataIter.Valid() && dataIter.kvs == NormalPairs(chunks[at])
      && Placed(Parts(), at, dataIter.offset, indexIter.offset)
      && (table.dataInterval == 1 ==> dataIter.offset == 0 || dataIter.offset > |chunks[at]|)
    }

    ghost function Rest(): seq<KeyValue>
      requires Valid()
      reads this, dataIter, indexIter
    {
      Remaining(Parts(), at, dataIter.offset, indexIter.offset)
    }

    /** Yields the rest one by one; with a data interval of 1 there is no next row without a fault. */
    method TryNext() returns (r: Option<KeyValue>, fault: bool)
      requires Valid()
      modifies this, dataIter, indexIter
      ensures fault <==> table.dataInterval == 1 && old(Rest()) != []
      ensures !fault ==> Valid() && fresh(Repr() - old(Repr()))
      ensures !fault ==> r == if old(Rest()) == [] then None else Some(old(Rest())[0])
      ensures !fault ==> Rest() == if old(Rest()) == [] then [] else old(Rest())[1..]
    {
      hide DataBytes, BlockBytes, FormatOk, IndexPairs, BlockIter.Valid, Placed, Remaining, StoresChunks, NormalPairs;
      IndexPairsLen(format, chunks, table.dataInterval);
      NormalPairsAre(chunks);
      PlacedBounds(Parts(), at, dataIter.offset, indexIter.offset);
      ChunksNotEmpty(format, table, chunks);
      ghost var parts, o, p := Parts(), dataIter.offset, indexIter.offset;
      if o < |parts[at]| { RemainingInside(parts, at, o, p); }
      var item;
      r := None;
      item, fault := dataIter.TryNext();
      if fault {
        return;
      }
      if item.None? {
        var index;
        index, fault := indexIter.TryNext();
        if index.Some? {
          RemainingCross(parts, at, o, p);
          RemainingInside(parts, p, 0, p + 1);
          at := p;
          dataIter := DataIterInit(format, table, index.value.item, chunks, p);
          fault := dataIter.Seek(First);
          item, fault := dataIter.TryNext();
          if fault {
            return;
          }
        } else {
          RemainingDone(parts, at, o, p);
        }
      }
      r := if item.Some? then Some(KeyValue(item.value.key, item.value.item)) else None;
    }

    /** A backward seek leaves a tail of the rows that has every key from the probe on. With a data
        interval of 1 it fails exactly if the tail would begin inside a block. */
    method Seek(seek: Seek) returns (fault: bool)
      requires Valid()
      modifies this, dataIter, indexIter
      ensures fault <==> table.dataInterval == 1 && seek.Backward? && LandsInside(Parts(), seek.key)
      ensures !fault ==> Valid() && fresh(Repr() - old(Repr()))
      ensures !fault && seek.First? ==> Rest() == All()
      ensures !fault && seek.Last? ==> Rest() == []
      ensures !fault && seek.Backward? ==> AfterSeek(All(), seek.key, Rest())
      ensures !fault && seek.Backward? ==> Rest() != [] || Rest() == old(Rest())
    {
      hide DataBytes, BlockBytes, FormatOk, IndexPairs, BlockIter.Valid, Placed, Remaining, StoresChunks, NormalPairs,
        AfterSeek, NormalChunks, NormalRows, LandsInside, Concat;
      if seek.Backward? {
        fault := SeekBackward(seek.key);
        return;
      }
      IndexPairsLen(format, chunks, table.dataInterval);
      PartsAre(format, table, chunks);
      NormalPairsAre(chunks);
      fault := indexIter.Seek(seek);
      var index;
      index, fault := indexIter.TryNext();
      if index.Some? {
        at := 0;
        dataIter := DataIterInit(format, table, index.value.item, chunks, 0);
        fault := dataIter.Seek(seek);
        PlacedFirst(Parts());
      }
      if seek.Last? {
        fault := dataIter.Seek(Last);
        PlacedEnd(Parts(), at, dataIter.offset);
      }
    }

    /** The index cursor's part of a backward seek: block `i`, the first whose last key is not below the
        probe, or the next one if there is no such block. */
    method SeekIndex(k: Key) returns (index: Option<Pair<Codec.Index>>, ghost i: nat, ghost past: bool)
      requires Valid()
      modifies indexIter
      ensures unchanged(dataIter) && unchanged(this) && indexIter.Valid()
      ensures index.Some? <==> i < |chunks|
      ensures index.Some? ==> index.value.item == IndexPairs(format, chunks, table.dataInterval)[i].item
      ensures indexIter.offset == if i <= |chunks| then i + 1 else i
      ensures past ==> i == old(indexIter.offset) && forall j :: 0 <= j < |chunks| ==> Lt(LastKey(Parts()[j]), k)
      ensures !past ==> i < |chunks| && Le(k, LastKey(Parts()[i]))
      ensures !past ==> forall j :: 0 <= j < i ==> Lt(LastKey(Parts()[j]), k)
    {
      hide DataBytes, BlockBytes, FormatOk, IndexPairs, BlockIter.Valid, Placed, StoresChunks, NormalPairs,
        NormalChunks, LastKey, Sorted, Concat, Lt, Le, SortedPairs;
      IndexPairsLen(format, chunks, table.dataInterval);
      PartsAre(format, table, chunks);
      past := Lt(indexIter.kvs[|chunks| - 1].key, k);
      var fault := indexIter.Seek(Backward(k));
      i := indexIter.offset;
      index, fault := indexIter.TryNext();
      if past { AllLastBelow(format, table, chunks, k); }
    }

    method SeekBackward(k: Key) returns (fault: bool)
      requires Valid()
      modifies this, dataIter, indexIter
      ensures fault <==> table.dataInterval == 1 && LandsInside(Parts(), k)
      ensures !fault ==> Valid() && fresh(Repr() - old(Repr())) && AfterSeek(All(), k, Rest())
      ensures !fault ==> Rest() != [] || Rest() == old(Rest())
    {
      hide DataBytes, BlockBytes, FormatOk, IndexPairs, BlockIter.Valid, Placed, Remaining, StoresChunks, NormalPairs,
        AfterSeek, NormalChunks, NormalRows, LastKey, Sorted, Concat, Lt, Le, SortedPairs, LandsInside;
      PartsAre(format, table, chunks);
      NormalPairsAre(chunks);
      PlacedBounds(Parts(), at, dataIter.offset, indexIter.offset);
      ghost var parts, o, p := Parts(), dataIter.offset, indexIter.offset;
      var index;
      ghost var i, past;
      index, i, past := SeekIndex(k);
      fault := false;
      if index.Some? {
        at := i;
        dataIter := DataIterInit(format, table, index.value.item, chunks, i);
        LastNotBelow(parts[i], k);
        fault := dataIter.Seek(Backward(k));
        PlacedAt(parts, i, dataIter.offset);
      } else {
        PlacedOff(parts, at, o, p);
      }
      if past {
        NoneInside(parts, k);
        SeekPast(parts, at, dataIter.offset, indexIter.offset, k);
      } else {
        Landed(parts, i, dataIter.offset, k);
      }
    }
  }

  /** `SSTableIter::new`: the index cursor moves to its first entry, which fails exactly at an index
      interval of 1. */
  method OpenTable(f: Format, t: Table, ghost chunks: seq<seq<KeyValue>>) returns (it: SsTableIter?)
    requires FormatOk(f) && StoresChunks(f, t, chunks)
    ensures it == null <==> t.indexInterval == 1
    ensures it != null ==>
              && it.Valid() && fresh(it.Repr()) && it.format == f && it.table == t && it.chunks == chunks
              && it.Rest() == it.All() && it.Rest() != []
  {
    hide DataBytes, BlockBytes, StoresChunks, FormatOk, IndexPairs, NormalPairs, BlockIter.Valid, Placed, Remaining;
    ChunksNotEmpty(f, t, chunks);
    IndexPairsLen(f, chunks, t.dataInterval);
    var index := IndexIterInit(f, t, chunks);
    var first, fault := index.TryNext();
    if fault {
      return null;
    }
    var data := DataIterInit(f, t, first.value.item, chunks, 0);
    it := new SsTableIter(f, t, data, index, chunks);
    PlacedAt(it.Parts(), 0, 0);
  }
}
