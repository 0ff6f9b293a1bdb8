/** From files to rows: the disk cursors of a version, moved by a seek and read to their end. */
module DiskCursors {
  import opened Keys
  import opened Rows
  import opened Levels
  import opened Compaction
  import opened SsTable
  import opened TableCursor
  import opened LevelCursor
  import opened Transaction
  import BC = BlockCursor
  import M = MemTable

  lemma TakeHead(rows: seq<KeyValue>, rest: seq<KeyValue>)
    ensures if rest == [] then rows + rest == rows else rows + [rest[0]] + rest[1..] == rows + rest
  {
  }

  /** What repeated `try_next` gives is what the cursor has left. */
  method DrainTable(it: SsTableIter) returns (rows: seq<KeyValue>, fault: bool)
    requires it.Valid()
    modifies it, it.dataIter, it.indexIter
    ensures fault <==> it.table.dataInterval == 1 && old(it.Rest()) != []
    ensures !fault ==> rows == old(it.Rest())
  {
    hide SsTableIter.Valid, SsTableIter.Rest;
    rows, fault := [], false;
    ghost var all := it.Rest();
    while true
      invariant it.Valid() && fresh(it.Repr() - old(it.Repr())) && rows + it.Rest() == all
      invariant rows != [] ==> it.table.dataInterval != 1
      decreases |it.Rest()|
    {
      TakeHead(rows, it.Rest());
      var r;
      r, fault := it.TryNext();
      if fault || r.None? {
        return;
      }
      rows := rows + [r.value];
    }
  }

  method DrainLevel(it: LevelIter) returns (rows: seq<KeyValue>, fault: bool)
    requires it.Valid()
    modifies it, it.child, it.child.dataIter, it.child.indexIter
    ensures fault <==> old(it.WillFault())
    ensures !fault ==> rows == old(it.Rest())
  {
    hide LevelIter.Valid, LevelIter.Rest, LevelIter.WillFault, LevelIter.NextFaults;
    rows, fault := [], false;
    ghost var all := it.Rest();
    while true
      invariant it.Valid() && fresh(it.Repr() - old(it.Repr())) && rows + it.Rest() == all
      invariant it.WillFault() == old(it.WillFault())
      decreases |it.Rest()|
    {
      TakeHead(rows, it.Rest());
      if it.Rest() == [] { AtEnd(it); }
      var r;
      r, fault := it.TryNext();
      if fault || r.None? {
        return;
      }
      rows := rows + [r.value];
    }
  }

  /** With no rows left there is no fault to come. */
  lemma AtEnd(it: LevelIter)
    requires it.Valid() && it.Rest() == []
    ensures !it.WillFault()
  {
    hide SsTableIter.Valid, SsTableIter.Rest, FilesHold, FormatOk, LevelSorted, Concat;
    var next := it.offset + 1;
    assert next < |it.level| ==> it.level[next] in it.level && Load(it.tables, it.level[next]) != [];
    if next < |it.level| { NextPart(it.tables, it.level, next); }
  }

  /** A seek in a new cursor on a table, read to the end: it fails exactly if the file has an interval
      of 1. */
  method SeekTable(f: Format, t: Table, ghost chunks: seq<seq<KeyValue>>, k: Key)
    returns (rows: seq<KeyValue>, fault: bool)
    requires FormatOk(f) && StoresChunks(f, t, chunks)
    ensures fault <==> HasOne(t)
    ensures !fault ==> AfterSeek(Concat(NormalChunks(chunks)), k, rows)
  {
    hide SsTableIter.Valid, SsTableIter.Rest, AfterSeek, Concat, NormalChunks, StoresChunks, FormatOk, LandsInside;
    var it := OpenTable(f, t, chunks);
    if it == null {
      return [], true;
    }
    fault := it.Seek(BC.Backward(k));
    rows := [];
    if !fault {
      rows, fault := DrainTable(it);
    }
  }

  /** Opening a level and reading it from the table with the key on meets a file with an interval of 1. */
  ghost predicate LevelFaults(files: map<int, Table>, level: Level, k: Key)
    requires forall i :: 0 <= i < |level| ==> level[i].gen in files
  {
    level != [] &&
    (files[level[0].gen].indexInterval == 1
     || exists i :: MeetIndex(level, k) <= i < |level| && HasOne(files[level[i].gen]))
  }

  method SeekLevel(f: Format, files: map<int, Table>, number: nat, level: Level,
                   ghost tables: Tables, ghost chunks: map<int, seq<seq<KeyValue>>>, k: Key)
    returns (rows: seq<KeyValue>, fault: bool)
    requires FormatOk(f) && level != [] && FilesHold(f, files, chunks, tables, level)
    requires ScopesOk(tables, level) && number > 0 && LevelSorted(level)
    ensures fault <==> LevelFaults(files, level, k)
    ensures !fault ==> AfterSeek(LoadAll(tables, level), k, rows)
  {
    hide AfterSeek, LoadAll, FormatOk, ScopesOk, LevelSorted, MeetIndex, SsTableIter.Valid, SsTableIter.Rest,
      LandsInside, StoresChunks, Concat;
    var it := OpenLevel(f, files, number, level, tables, chunks);
    if it == null {
      return [], true;
    }
    MeetIndexFits(level, k);
    ghost var m := MeetIndex(level, k);
    var supported;
    supported, fault := it.Seek(BC.Backward(k));
    rows := [];
    if fault {
      assert HasOne(files[level[m].gen]);
    } else {
      it.LaterOrHere(m);
      assert forall i :: 0 <= i < |level| ==> it.File(i) == files[level[i].gen];
      rows, fault := DrainLevel(it);
      assert fault <==> exists i :: m <= i < |level| && HasOne(files[level[i].gen]);
    }
  }

  lemma {:induction false} NewestFirstAt(tables: Tables, level: Level, i: nat)
    requires i < |level|
    ensures |NewestFirst(tables, level)| == |level| &&
            NewestFirst(tables, level)[i] == Load(tables, level[|level| - 1 - i])
  {
    if |level| > 1 {
      NewestFirstAt(tables, level[..|level| - 1], if i == 0 then 0 else i - 1);
    }
  }

  ghost predicate SomeFaults(files: map<int, Table>, level: Level)
    requires forall i :: 0 <= i < |level| ==> level[i].gen in files
  {
    exists i :: 0 <= i < |level| && HasOne(files[level[i].gen])
  }

  /** Level 0: every table from the newest down. */
  method SeekNewestFirst(f: Format, files: map<int, Table>, level: Level,
                         ghost tables: Tables, ghost chunks: map<int, seq<seq<KeyValue>>>, k: Key)
    returns (disk: seq<seq<KeyValue>>, fault: bool)
    requires FormatOk(f) && FilesHold(f, files, chunks, tables, level)
    ensures fault <==> SomeFaults(files, level)
    ensures !fault ==> Seeked(NewestFirst(tables, level), k, disk)
  {
    hide AfterSeek, FormatOk, StoresChunks, Concat, NormalChunks;
    disk, fault := [], false;
    for i := |level| downto 0
      invariant |disk| == |level| - i && !fault
      invariant forall j :: i <= j < |level| ==> !HasOne(files[level[j].gen])
      invariant forall j :: 0 <= j < |disk| ==> AfterSeek(Load(tables, level[|level| - 1 - j]), k, disk[j])
    {
      var g := level[i].gen;
      var rows;
      rows, fault := SeekTable(f, files[g], chunks[g], k);
      if fault {
        return;
      }
      disk := disk + [rows];
    }
    if level != [] {
      NewestFirstAt(tables, level, 0);
      forall j | 0 <= j < |level| ensures AfterSeek(NewestFirst(tables, level)[j], k, disk[j]) {
        NewestFirstAt(tables, level, j);
      }
    }
  }

  lemma SeekedAppend(a: seq<seq<KeyValue>>, b: seq<seq<KeyValue>>, k: Key, x: seq<seq<KeyValue>>, y: seq<seq<KeyValue>>)
    requires Seeked(a, k, x) && Seeked(b, k, y)
    ensures Seeked(a + b, k, x + y)
  {
    hide AfterSeek;
  }

  /** One cursor for a level that has tables. */
  method SeekLayer(f: Format, files: map<int, Table>, number: nat, level: Level,
                   ghost tables: Tables, ghost chunks: map<int, seq<seq<KeyValue>>>, k: Key)
    returns (disk: seq<seq<KeyValue>>, fault: bool)
    requires FormatOk(f) && FilesHold(f, files, chunks, tables, level)
    requires ScopesOk(tables, level) && number > 0 && LevelSorted(level)
    ensures fault <==> LevelFaults(files, level, k)
    ensures !fault ==> Seeked(LevelLayer(tables, level), k, disk)
  {
    hide AfterSeek, FormatOk, ScopesOk, LevelSorted, LoadAll, StoresChunks, MeetIndex;
    disk, fault := [], false;
    if level != [] {
      var rows;
      rows, fault := SeekLevel(f, files, number, level, tables, chunks, k);
      disk := [rows];
    }
  }

  lemma FilesThere(f: Format, files: map<int, Table>, chunks: map<int, seq<seq<KeyValue>>>, tables: Tables,
                   level: Level)
    requires FilesHold(f, files, chunks, tables, level)
    ensures forall i :: 0 <= i < |level| ==> level[i].gen in files
  {
    hide StoresChunks, Concat;
  }

  ghost predicate AllFilesHold(f: Format, files: map<int, Table>, chunks: map<int, seq<seq<KeyValue>>>,
                               tables: Tables, levels: seq<Level>) {
    forall i :: 0 <= i < |levels| ==> FilesHold(f, files, chunks, tables, levels[i])
  }

  /** The seeks, read to the end, meet a file with an interval of 1: anywhere in level 0, or in a lower
      level where its cursor opens or reads. */
  ghost predicate DiskFaults(f: Format, files: map<int, Table>, chunks: map<int, seq<seq<KeyValue>>>,
                             tables: Tables, levels: seq<Level>, k: Key)
    requires |levels| == MAX_LEVEL && AllFilesHold(f, files, chunks, tables, levels)
  {
    FilesThere(f, files, chunks, tables, levels[0]);
    FilesThere(f, files, chunks, tables, levels[1]);
    FilesThere(f, files, chunks, tables, levels[2]);
    SomeFaults(files, levels[0]) || LevelFaults(files, levels[1], k) || LevelFaults(files, levels[2], k)
  }

  /** `merging_with_version`, then `seek(Backward(k))` on every cursor. */
  method SeekDisk(f: Format, files: map<int, Table>, levels: seq<Level>,
                  ghost tables: Tables, ghost chunks: map<int, seq<seq<KeyValue>>>, k: Key)
    returns (disk: seq<seq<KeyValue>>, fault: bool)
    requires FormatOk(f) && WellFormed(tables, levels) && AllFilesHold(f, files, chunks, tables, levels)
    ensures fault <==> DiskFaults(f, files, chunks, tables, levels, k)
    ensures !fault ==> Seeked(DiskLayers(tables, levels), k, disk)
  {
    hide FormatOk, FilesHold, ScopesOk, LevelSorted, Seeked, NewestFirst, LevelLayer, SomeFaults, LevelFaults;
    var zero, one, two;
    disk := [];
    zero, fault := SeekNewestFirst(f, files, levels[0], tables, chunks, k);
    if fault {
      return;
    }
    one, fault := SeekLayer(f, files, 1, levels[1], tables, chunks, k);
    if fault {
      return;
    }
    two, fault := SeekLayer(f, files, 2, levels[2], tables, chunks, k);
    if fault {
      return;
    }
    ghost var a, b := NewestFirst(tables, levels[0]), LevelLayer(tables, levels[1]);
    SeekedAppend(a, b, k, zero, one);
    SeekedAppend(a + b, LevelLayer(tables, levels[2]), k, zero + one, two);
    disk := zero + one + two;
  }

  /** Range iteration down to the files. It yields what the visited layers hold; with a bounded
      minimum and an empty last level that is, for every key in range, what a point read resolves. */
  method IterateFiles(tx: Transaction, f: Format, files: map<int, Table>, ghost chunks: map<int, seq<seq<KeyValue>>>,
                      min: M.Bound, max: M.Bound) returns (rows: seq<KeyValue>, fault: bool)
    requires tx.Valid() && FormatOk(f) && WellFormed(tx.tables, tx.levels)
    requires AllFilesHold(f, files, chunks, tx.tables, tx.levels)
    ensures fault <==> !min.Unbounded? && DiskFaults(f, files, chunks, tx.tables, tx.levels, min.key)
    ensures !fault ==>
              && Sorted(rows) && M.NoneOutside(rows, min, max)
              && forall k :: Find(rows, k) ==
                   if M.InRange(k, min, max)
                   then Visited(tx.writeBuf, tx.store.mem, tx.store.immut, tx.seqId, tx.tables, tx.levels, min, k)
                   else None
    ensures !fault && !min.Unbounded? && tx.levels[3] == [] ==>
              forall k :: M.Between(k, min, max) ==>
                Find(rows, k) ==
                Resolve(tx.writeBuf, tx.store.mem, tx.store.immut, tx.seqId, tx.tables, tx.levels, k)
  {
    hide FormatOk, FilesHold, WellFormed, Visited, Resolve, Seeked, DiskLayers, Sorted, Find, DiskFaults, M.Between,
      M.NoneOutside;
    var disk := [];
    rows, fault := [], false;
    if !min.Unbounded? {
      disk, fault := SeekDisk(f, files, tx.levels, tx.tables, chunks, min.key);
      if fault {
        return;
      }
    }
    rows := Iterate(tx, min, max, disk);
    forall k ensures !min.Unbounded? && tx.levels[3] == [] ==>
                       Visited(tx.writeBuf, tx.store.mem, tx.store.immut, tx.seqId, tx.tables, tx.levels, min, k) ==
                       Resolve(tx.writeBuf, tx.store.mem, tx.store.immut, tx.seqId, tx.tables, tx.levels, k) {
      IterationAgreesWithGet(tx.writeBuf, tx.store.mem, tx.store.immut, tx.seqId, tx.tables, tx.levels, min, k);
    }
  }
}
