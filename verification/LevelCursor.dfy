/** The cursor over the tables of one level. */
module LevelCursor {
  import opened Keys
  import opened Rows
  import opened Search
  import opened Levels
  import opened Compaction
  import opened SsTable
  import opened TableCursor
  import BC = BlockCursor

  /** A file written with a restart interval of 1 somewhere. */
  predicate HasOne(t: Table) {
    t.dataInterval == 1 || t.indexInterval == 1
  }

  /** The files of a level hold the rows of its tables. */
  ghost predicate FilesHold(f: Format, files: map<int, Table>, chunks: map<int, seq<seq<KeyValue>>>,
                            tables: Tables, level: Level) {
    forall i :: 0 <= i < |level| ==>
      var g := level[i].gen;
      && g in files && g in chunks && g in tables && StoresChunks(f, files[g], chunks[g])
      && tables[g] == Concat(NormalChunks(chunks[g]))
  }

  /** Opening a table and seeking in it fails. */
  ghost predicate SeekFaults(t: Table, chunks: seq<seq<KeyValue>>, seek: BC.Seek) {
    t.indexInterval == 1 || (t.dataInterval == 1 && seek.Backward? && LandsInside(NormalChunks(chunks), seek.key))
  }

  ghost function PartsOf(tables: Tables, level: Level): (r: seq<seq<KeyValue>>)
    ensures |r| == |level| && forall i :: 0 <= i < |r| ==> r[i] == Load(tables, level[i])
  {
    seq(|level|, i requires 0 <= i < |level| => Load(tables, level[i]))
  }

  lemma {:induction false} PartsConcat(tables: Tables, level: Level)
    ensures Concat(PartsOf(tables, level)) == LoadAll(tables, level)
  {
    if level != [] {
      var init, last := level[..|level| - 1], level[|level| - 1];
      PartsConcat(tables, init);
      assert PartsOf(tables, level) == PartsOf(tables, init) + [Load(tables, last)];
      ConcatSnoc(PartsOf(tables, init), Load(tables, last));
    }
  }

  lemma FirstPart(tables: Tables, level: Level)
    requires level != []
    ensures LoadAll(tables, level) == Load(tables, level[0]) + Concat(PartsOf(tables, level)[1..])
  {
    PartsConcat(tables, level);
  }

  lemma NextPart(tables: Tables, level: Level, i: nat)
    requires i < |level|
    ensures Concat(PartsOf(tables, level)[i..]) == Load(tables, level[i]) + Concat(PartsOf(tables, level)[i + 1..])
    ensures Concat(PartsOf(tables, level)[|level|..]) == []
  {
  }

  lemma LevelSortedRows(tables: Tables, level: Level)
    requires ScopesOk(tables, level) && LevelSorted(level)
    ensures Sorted(Concat(PartsOf(tables, level)))
  {
    PartsConcat(tables, level);
    LevelRowsSorted(tables, level);
  }

  /** Tables before the one the search picks end below the key. */
  lemma BeforeMeetIndex(tables: Tables, level: Level, k: Key, j: nat)
    requires ScopesOk(tables, level) && LevelSorted(level) && j < MeetIndex(level, k) < |level|
    ensures Lt(LastKey(PartsOf(tables, level)[j]), k)
  {
    var m, cmp := MeetIndex(level, k), StartCompare(level, k);
    forall i | 0 <= i < |level| ensures Le(level[i].start, level[i].end) {
      assert level[i] in level;
      ScopeProper(tables, level[i]);
    }
    forall a, b | 0 <= a < b < |level| && cmp(a) != Less ensures cmp(b) == Greater {
      assert Lt(level[a].end, level[b].start);
    }
    SearchCorrect(cmp, |level|);
    assert cmp(m) != Greater;
    assert level[j] in level && Lt(level[j].end, level[m].start);
  }

  lemma MeetIndexFits(level: Level, k: Key)
    requires level != []
    ensures MeetIndex(level, k) < |level|
  {
  }

  /** A tail found in the picked table is a tail of the level. */
  lemma SeekInLevel(parts: seq<seq<KeyValue>>, m: nat, k: Key, rest: seq<KeyValue>)
    requires Sorted(Concat(parts)) && m < |parts| && AfterSeek(parts[m], k, rest)
    requires forall j :: 0 <= j < m ==> Lt(LastKey(parts[j]), k)
    ensures AfterSeek(Concat(parts), k, rest + Concat(parts[m + 1..]))
  {
    hide Sorted, Concat;
    var n :| 0 <= n <= |parts[m]| && rest == parts[m][n..] && forall i :: 0 <= i < n ==> Lt(parts[m][i].key, k);
    SeekLands(parts, m, n, k);
  }

  lemma HeadOfJoin(a: seq<KeyValue>, b: seq<KeyValue>)
    ensures a != [] ==> (a + b)[0] == a[0] && (a + b)[1..] == a[1..] + b
  {
  }

  class LevelIter {
    const format: Format
    const files: map<int, Table>
    const number: nat
    const level: Level
    ghost const tables: Tables
    ghost const chunks: map<int, seq<seq<KeyValue>>>
    var offset: nat
    var child: SsTableIter

    ghost function Repr(): set<object>
      reads this, child
    {
      {this} + child.Repr()
    }

    ghost predicate Describes()
    {
      && FormatOk(format) && level != [] && FilesHold(format, files, chunks, tables, level)
      && ScopesOk(tables, level) && (number > 0 ==> LevelSorted(level))
    }

    ghost predicate Valid()
      reads this, child, child.dataIter, child.indexIter
    {
      && Describes() && child.Valid()
      && (offset < |level| ==> child.All() == Load(tables, level[offset]) && child.table == File(offset))
      && (offset >= |level| ==> child.Rest() == [])
    }

    ghost function File(i: nat): Table
      requires Describes() && i < |level|
    {
      files[level[i].gen]
    }

    /** The rows still to come. */
    ghost function Rest(): seq<KeyValue>
      requires Valid()
      reads this, child, child.dataIter, child.indexIter
    {
      child.Rest() + Later(offset)
    }

    ghost function Later(offset: nat): seq<KeyValue> {
      if offset < |level| then Concat(PartsOf(tables, level)[offset + 1..]) else []
    }

    /** Reading on to the end meets a file with an interval of 1. */
    ghost predicate WillFault()
      requires Valid()
      reads this, child, child.dataIter, child.indexIter
    {
      (child.Rest() != [] && child.table.dataInterval == 1) || LaterFaults(offset)
    }

    ghost predicate LaterFaults(offset: nat)
      requires Describes()
    {
      exists i :: offset < i < |level| && HasOne(File(i))
    }

    constructor (format: Format, files: map<int, Table>, number: nat, level: Level, first: SsTableIter,
                 ghost tables: Tables, ghost chunks: map<int, seq<seq<KeyValue>>>)
      requires FormatOk(format) && level != [] && FilesHold(format, files, chunks, tables, level)
      requires ScopesOk(tables, level) && (number > 0 ==> LevelSorted(level))
      requires first.Valid() && first.table == files[level[0].gen] &&
               first.Rest() == first.All() == Load(tables, level[0])
      ensures Valid() && child == first && offset == 0 && Rest() == LoadAll(tables, level)
      ensures this.tables == tables && this.level == level && this.number == number
      ensures this.files == files && this.chunks == chunks
    {
      hide StoresChunks, ScopesOk, LevelSorted, Concat, NormalChunks, Remaining, Placed, SsTableIter.Valid, FormatOk;
      FirstPart(tables, level);
      this.format, this.files, this.number, this.level := format, files, number, level;
      this.tables, this.chunks, offset, child := tables, chunks, 0, first;
    }

    /** `child_iter_seek`: a new cursor on the table at `to`; past the end the old one stays. */
    method ChildIterSeek(seek: BC.Seek, to: nat) returns (fault: bool)
      requires Valid() && (to >= |level| ==> child.Rest() == [])
      modifies this
      ensures fault <==> to < |level| && SeekFaults(File(to), chunks[level[to].gen], seek)
      ensures !fault ==> Valid() && offset == to && fresh(Repr() - old(Repr()))
      ensures !fault && to >= |level| ==> child == old(child)
      ensures !fault && to < |level| && seek.First? ==> child.Rest() == Load(tables, level[to])
      ensures !fault && to < |level| && seek.Last? ==> child.Rest() == []
      ensures !fault && to < |level| && seek.Backward? ==>
                AfterSeek(Load(tables, level[to]), seek.key, child.Rest()) && child.Rest() != []
    {
      hide StoresChunks, ScopesOk, LevelSorted, AfterSeek, Concat, NormalChunks, LandsInside, SsTableIter.Valid;
      offset, fault := to, false;
      if offset < |level| {
        var g := level[to].gen;
        var it := OpenTable(format, files[g], chunks[g]);
        if it == null {
          return true;
        }
        fault := it.Seek(seek);
        child := it;
      }
    }

    /** On to the next table: nothing is skipped, and only the end of the level has nothing left. */
    method NextTable() returns (fault: bool)
      requires Valid() && child.Rest() == []
      modifies this
      ensures fault <==> old(offset) + 1 < |level| && File(old(offset) + 1).indexInterval == 1
      ensures !fault ==> Valid() && fresh(Repr() - old(Repr())) && Rest() == old(Rest())
      ensures !fault ==> (child.Rest() == [] ==> Rest() == []) && offset == old(offset) + 1
      ensures !fault ==> (child.Rest() == [] <==> offset >= |level|)
    {
      hide StoresChunks, LevelSorted, Concat, NormalChunks, Remaining, Placed, SsTableIter.Valid, FormatOk, FilesHold;
      var next := offset + 1;
      if offset < |level| { NextPart(tables, level, if next < |level| then next else offset); }
      assert next < |level| ==> level[next] in level && Load(tables, level[next]) != [];
      fault := ChildIterSeek(BC.First, next);
    }

    /** The next row needs a file with an interval of 1. */
    ghost predicate NextFaults()
      requires Valid()
      reads this, child, child.dataIter, child.indexIter
    {
      if child.Rest() != [] then child.table.dataInterval == 1 else offset + 1 < |level| && HasOne(File(offset + 1))
    }

    /** The level's rows in order, table after table; it fails exactly if the next row's file has an
        interval of 1. */
    method TryNext() returns (r: Option<KeyValue>, fault: bool)
      requires Valid()
      modifies this, child, child.dataIter, child.indexIter
      ensures fault <==> old(NextFaults())
      ensures fault ==> old(WillFault())
      ensures !fault ==> Valid() && fresh(Repr() - old(Repr())) && WillFault() == old(WillFault())
      ensures !fault ==> r == if old(Rest()) == [] then None else Some(old(Rest())[0])
      ensures !fault ==> Rest() == if old(Rest()) == [] then [] else old(Rest())[1..]
    {
      hide Describes, Concat, NormalChunks, Remaining, Placed, SsTableIter.Valid, Later;
      ghost var mine, later := child.Rest(), Later(offset);
      r, fault := child.TryNext();
      if !fault && r.None? {
        assert Rest() == old(Rest());
        ghost var at := offset;
        fault := NextTable();
        if fault {
          return;
        }
        LaterStep(at);
        mine, later := child.Rest(), Later(offset);
        r, fault := child.TryNext();
      }
      HeadOfJoin(mine, later);
    }

    lemma LaterStep(at: nat)
      requires Describes()
      ensures LaterFaults(at) <==> LaterFaults(at + 1) || (at + 1 < |level| && HasOne(File(at + 1)))
    {
      hide FilesHold, ScopesOk, LevelSorted, FormatOk;
      if i :| at < i < |level| && HasOne(File(i)) {
        assert i == at + 1 || i > at + 1;
      }
    }

    /** From the table at `m` on, with rows of it left: a fault in that table or a later one. */
    lemma LaterOrHere(m: nat)
      requires Valid() && m == offset < |level| && child.Rest() != [] && child.table.indexInterval != 1
      ensures WillFault() <==> exists i :: m <= i < |level| && HasOne(File(i))
    {
      hide FilesHold, ScopesOk, LevelSorted, FormatOk, SsTableIter.Valid, SsTableIter.Rest;
      if i :| m <= i < |level| && HasOne(File(i)) {
        assert i == m || i > m;
      }
      assert child.table.dataInterval == 1 ==> HasOne(File(m));
    }

    /** `seek_ward`: level 0 does not support it; below it the cursor is left on a tail of the level that
        has every key from the probe on. */
    method SeekWard(key: Key) returns (supported: bool, fault: bool)
      requires Valid()
      modifies this
      ensures supported == (number != 0) && MeetIndex(level, key) < |level|
      ensures var m := MeetIndex(level, key);
              fault <==> supported && SeekFaults(File(m), chunks[level[m].gen], BC.Backward(key))
      ensures !fault ==> Valid() && fresh(Repr() - old(Repr()))
      ensures !fault && supported ==>
                && AfterSeek(LoadAll(tables, level), key, Rest()) && child.Rest() != []
                && offset == MeetIndex(level, key)
      ensures !supported ==> offset == old(offset) && child == old(child)
    {
      hide StoresChunks, Concat, NormalChunks, Remaining, Placed, SsTableIter.Valid, FormatOk, FilesHold, AfterSeek,
        MeetIndex, LevelSorted, ScopesOk, LandsInside;
      MeetIndexFits(level, key);
      if number == 0 {
        return false, false;
      }
      supported := true;
      var m := MeetIndex(level, key);
      fault := ChildIterSeek(BC.Backward(key), m);
      if !fault {
        TailOfLevel(tables, level, m, key, child.Rest());
      }
    }

    /** A seek backward is `seek_ward`, the others open the first or the last table. It fails exactly if
        opening or seeking the picked table does. */
    method Seek(seek: BC.Seek) returns (supported: bool, fault: bool)
      requires Valid()
      modifies this, child, child.dataIter, child.indexIter
      ensures supported == !(seek.Backward? && number == 0)
      ensures fault <==> supported && SeekFaults(File(Picked(seek)), chunks[level[Picked(seek)].gen], seek)
      ensures !fault ==> Valid() && fresh(Repr() - old(Repr()))
      ensures !fault && seek.First? ==> Rest() == LoadAll(tables, level)
      ensures !fault && seek.Last? ==> Rest() == []
      ensures !fault && seek.Backward? && supported ==>
                AfterSeek(LoadAll(tables, level), seek.key, Rest()) && offset == Picked(seek) && child.Rest() != []
      ensures !fault && !supported ==> Rest() == old(Rest())
    {
      hide StoresChunks, Concat, NormalChunks, Remaining, Placed, SsTableIter.Valid, FormatOk, FilesHold, AfterSeek,
        MeetIndex, LevelSorted, ScopesOk, LandsInside;
      supported, fault := true, false;
      match seek {
        case First =>
          FirstPart(tables, level);
          fault := ChildIterSeek(seek, 0);
        case Last =>
          NextPart(tables, level, 0);
          fault := ChildIterSeek(seek, |level| - 1);
        case Backward(key) =>
          supported, fault := SeekWard(key);
      }
    }

    /** The table a seek opens. */
    ghost function Picked(seek: BC.Seek): (i: nat)
      requires level != []
      ensures i < |level|
    {
      match seek
      case First => 0
      case Last => |level| - 1
      case Backward(key) => MeetIndexFits(level, key); MeetIndex(level, key)
    }
  }

  lemma TailOfLevel(tables: Tables, level: Level, m: nat, key: Key, rest: seq<KeyValue>)
    requires ScopesOk(tables, level) && LevelSorted(level) && m == MeetIndex(level, key) < |level|
    requires AfterSeek(Load(tables, level[m]), key, rest)
    ensures AfterSeek(LoadAll(tables, level), key, rest + Concat(PartsOf(tables, level)[m + 1..]))
  {
    hide Concat, AfterSeek, MeetIndex, LevelSorted, ScopesOk, LastKey;
    LevelSortedRows(tables, level);
    PartsConcat(tables, level);
    forall j | 0 <= j < m ensures Lt(LastKey(PartsOf(tables, level)[j]), key) {
      BeforeMeetIndex(tables, level, key, j);
    }
    SeekInLevel(PartsOf(tables, level), m, key, rest);
  }

  /** `LevelIter::new`: opens the first table. */
  method OpenLevel(f: Format, files: map<int, Table>, number: nat, level: Level,
                   ghost tables: Tables, ghost chunks: map<int, seq<seq<KeyValue>>>) returns (it: LevelIter?)
    requires FormatOk(f) && FilesHold(f, files, chunks, tables, level)
    requires ScopesOk(tables, level) && (number > 0 ==> LevelSorted(level))
    ensures it == null <==> level == [] || files[level[0].gen].indexInterval == 1
    ensures it != null ==>
              && it.Valid() && fresh(it.Repr()) && it.offset == 0 && it.Rest() == LoadAll(tables, level)
              && it.level == level && it.tables == tables && it.files == files && it.chunks == chunks &&
                 it.number == number
  {
    hide StoresChunks, ScopesOk, LevelSorted, Concat, NormalChunks, Remaining, Placed, SsTableIter.Valid, FormatOk;
    it := null;
    if level != [] {
      var g := level[0].gen;
      var first := OpenTable(f, files[g], chunks[g]);
      if first != null {
        it := new LevelIter(f, files, number, level, first, tables, chunks);
      }
    }
  }
}
