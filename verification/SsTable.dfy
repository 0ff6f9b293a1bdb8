/** Sorted-string tables: data blocks, an index block over their last keys, and the lookup. */
module SsTable {
  import opened Keys
  import opened Rows
  import opened Search
  import opened Block
  import opened Codec
  import Sharding

  /** Compression and checksum, of which only these laws matter. */
  datatype Format = Format(compress: Bytes -> Bytes, decompress: Bytes -> Bytes, crc: Bytes -> Bytes)

  ghost predicate FormatOk(f: Format) {
    (forall b :: f.decompress(f.compress(b)) == b) && forall b :: |f.crc(b)| == 4
  }

  // ---- cutting rows into blocks ----

  ghost predicate NonEmptyChunks(chunks: seq<seq<KeyValue>>) {
    forall i :: 0 <= i < |chunks| ==> chunks[i] != []
  }

  class BlockBuilder {
    const blockSize: nat
    var len: nat
    var bytesSize: nat
    var buf: seq<KeyValue>
    var chunks: seq<seq<KeyValue>>

    ghost predicate Valid()
      reads this
    {
      NonEmptyChunks(chunks) && bytesSize == Sharding.TotalBytes(buf) && len == |Added()|
    }

    ghost function Added(): seq<KeyValue>
      reads this
    {
      Concat(chunks) + buf
    }

    constructor (blockSize: nat)
      ensures Valid() && Added() == [] && this.blockSize == blockSize && chunks == []
    {
      this.blockSize, len, bytesSize, buf, chunks := blockSize, 0, 0, [], [];
    }

    /** A full buffer becomes a block. */
    method Add(kv: KeyValue)
      requires Valid() && (buf != [] ==> Lt(buf[|buf| - 1].key, kv.key))
      modifies this
      ensures Valid() && Added() == old(Added()) + [kv]
      ensures if old(bytesSize) + Sharding.RowBytes(kv) >= blockSize then buf == [] else buf == old(buf) + [kv]
    {
      assert (buf + [kv])[..|buf|] == buf;
      buf, bytesSize, len := buf + [kv], bytesSize + Sharding.RowBytes(kv), len + 1;
      assert Concat(chunks) + buf == old(Added()) + [kv];
      if bytesSize >= blockSize {
        Flush();
      }
    }

    method Flush()
      requires Valid()
      modifies this
      ensures Valid() && Added() == old(Added()) && buf == []
    {
      if buf != [] {
        ConcatSnoc(chunks, buf);
        chunks, buf, bytesSize := chunks + [buf], [], 0;
        assert Concat(chunks) + [] == old(Added());
      }
    }
  }

  // ---- the file ----

  function Pairs(rows: seq<KeyValue>): seq<Pair<Option<Value>>> {
    seq(|rows|, i requires 0 <= i < |rows| => Pair(rows[i].key, rows[i].data))
  }

  /** What the rows look like after a trip through the file. */
  function NormalPairs(rows: seq<KeyValue>): seq<Pair<Option<Value>>> {
    seq(|rows|, i requires 0 <= i < |rows| => Pair(rows[i].key, Normal(rows[i].data)))
  }

  /** Entries followed by their checksum. */
  function Raw<T>(f: Format, b: Block<T>, enc: T -> Bytes): Bytes {
    EncodeEntries(b.entries, enc) + f.crc(EncodeEntries(b.entries, enc))
  }

  function FromRaw<T>(raw: Bytes, interval: nat, dec: Bytes -> Parse<T>): Option<Block<T>> {
    if |raw| < 4 then None
    else
      match DecodeEntries(raw[..|raw| - 4], dec)
      case None => None
      case Some(es) => Some(Block(interval, es))
  }

  function BlockBytes(f: Format, chunk: seq<KeyValue>, interval: nat): Bytes
    requires interval > 0
  {
    f.compress(Raw(f, New(Pairs(chunk), interval), EncodeValue))
  }

  function DataBytes(f: Format, chunks: seq<seq<KeyValue>>, interval: nat): Bytes
    requires interval > 0
  {
    if chunks == [] then []
    else DataBytes(f, chunks[..|chunks| - 1], interval) + BlockBytes(f, chunks[|chunks| - 1], interval)
  }

  function LastKey(chunk: seq<KeyValue>): Key {
    if chunk == [] then [] else chunk[|chunk| - 1].key
  }

  /** One index entry per block: its last key, where it starts and how long it is. */
  function IndexPairs(f: Format, chunks: seq<seq<KeyValue>>, interval: nat): seq<Pair<Index>>
    requires interval > 0
  {
    seq(|chunks|, i requires 0 <= i < |chunks| =>
      Pair(LastKey(chunks[i]), Index(|DataBytes(f, chunks[..i], interval)|, |BlockBytes(f, chunks[i], interval)|)))
  }

  datatype Table = Table(bytes: Bytes, indexOffset: nat, indexLen: nat, dataInterval: nat, indexInterval: nat)

  function TableOf(f: Format, chunks: seq<seq<KeyValue>>, dataInterval: nat, indexInterval: nat): Table
    requires dataInterval > 0 && indexInterval > 0
  {
    var data := DataBytes(f, chunks, dataInterval);
    var index := Raw(f, New(IndexPairs(f, chunks, dataInterval), indexInterval), EncodeIndex);
    Table(data + index, |data|, |index|, dataInterval, indexInterval)
  }

  /** `BlockBuilder::build`: encodes block after block and notes where each one landed. */
  method Build(f: Format, chunks: seq<seq<KeyValue>>, dataInterval: nat, indexInterval: nat) returns (t: Table)
    requires dataInterval > 0 && indexInterval > 0
    ensures t == TableOf(f, chunks, dataInterval, indexInterval)
  {
    var bytes, indexes, i := [], [], 0;
    while i < |chunks|
      invariant i <= |chunks| && bytes == DataBytes(f, chunks[..i], dataInterval)
      invariant indexes == IndexPairs(f, chunks, dataInterval)[..i]
    {
      assert chunks[..i + 1][..i] == chunks[..i];
      var offset := |bytes|;
      bytes := bytes + BlockBytes(f, chunks[i], dataInterval);
      indexes := indexes + [Pair(LastKey(chunks[i]), Index(offset, |bytes| - offset))];
      i := i + 1;
    }
    assert chunks[..i] == chunks && indexes == IndexPairs(f, chunks, dataInterval);
    var index := Raw(f, New(indexes, indexInterval), EncodeIndex);
    t := Table(bytes + index, |bytes|, |index|, dataInterval, indexInterval);
  }

  function Slice(bytes: Bytes, offset: nat, len: nat): Option<Bytes> {
    if offset + len <= |bytes| then Some(bytes[offset..offset + len]) else None
  }

  /** `index_block`. */
  function LoadIndex(t: Table): Option<Block<Index>> {
    var s := Slice(t.bytes, t.indexOffset, t.indexLen);
    if s.None? then None else FromRaw(s.value, t.indexInterval, DecodeIndex)
  }

  /** `data_block`. */
  function LoadData(f: Format, t: Table, at: Index): Option<Block<Option<Value>>> {
    var s := Slice(t.bytes, at.offset, at.len);
    if s.None? then None else FromRaw(f.decompress(s.value), t.dataInterval, DecodeValue)
  }

  /** `SSTable::query`: filter, index block, data block. */
  function QueryTable(f: Format, t: Table, filter: Key -> bool, k: Key): Option<Option<Value>> {
    if !filter(k) then None
    else
      var index := LoadIndex(t);
      if index.None? || index.value.interval == 0 || index.value.entries == [] then None
      else
        var data := LoadData(f, t, FindWithUpper(index.value, k));
        if data.None? || data.value.interval == 0 then None
        else
          match SearchBlock(data.value, k)
          case Ok(i) => if i < |data.value.entries| then Some(data.value.entries[i].item) else None
          case Err(_) => None
  }

  // ---- what comes back from the file ----

  lemma {:induction false} DataSplit(f: Format, chunks: seq<seq<KeyValue>>, interval: nat, i: nat)
    requires interval > 0 && i < |chunks|
    ensures var before, len := |DataBytes(f, chunks[..i], interval)|, |BlockBytes(f, chunks[i], interval)|;
            var data := DataBytes(f, chunks, interval);
            before + len <= |data| && data[before..before + len] == BlockBytes(f, chunks[i], interval)
    decreases |chunks|
  {
    hide BlockBytes;
    var n := |chunks| - 1;
    assert chunks[..n][..i] == chunks[..i];
    if i < n {
      DataSplit(f, chunks[..n], interval, i);
      assert chunks[..n][i] == chunks[i];
      var a := DataBytes(f, chunks[..n], interval);
      var before, len := |DataBytes(f, chunks[..i], interval)|, |BlockBytes(f, chunks[i], interval)|;
      assert (a + BlockBytes(f, chunks[n], interval))[before..before + len] == a[before..before + len];
    }
  }

  predicate SmallRows(rows: seq<KeyValue>) {
    forall i :: 0 <= i < |rows| ==> |rows[i].key| < U32 && SmallValue(rows[i].data)
  }

  lemma SameKeysSameShape<T, U>(a: seq<Pair<T>>, b: seq<Pair<U>>, interval: nat, i: nat)
    requires interval > 0 && i < |a| == |b| && forall j :: 0 <= j < |a| ==> a[j].key == b[j].key
    ensures GroupShared(a, i, interval) == GroupShared(b, i, interval)
  {
    assert Group(a, i, interval) == Group(b, i, interval);
  }

  /** A data block read back is the block of the normalised rows. */
  lemma DataBlockReadsBack(f: Format, chunk: seq<KeyValue>, interval: nat)
    requires FormatOk(f) && interval > 0 && SmallRows(chunk)
    ensures FromRaw(f.decompress(BlockBytes(f, chunk, interval)), interval, DecodeValue) ==
            Some(New(NormalPairs(chunk), interval))
  {
    var kvs := Pairs(chunk);
    var es := New(kvs, interval).entries;
    forall i | 0 <= i < |es|
      ensures Codec.EntryOk(es[i]) && ItemRoundTrips(es[i].item, EncodeValue, DecodeValue, Normal)
    {
      SharedFits(kvs, i, interval);
      forall rest ensures DecodeValue(EncodeValue(es[i].item) + rest) == Got(Normal(es[i].item), rest) {
        ValueRoundTrip(es[i].item, rest);
      }
    }
    EntriesRoundTrip(es, EncodeValue, DecodeValue, Normal);
    var raw := Raw(f, New(kvs, interval), EncodeValue);
    assert raw[..|raw| - 4] == EncodeEntries(es, EncodeValue);
    var back := seq(|es|, i requires 0 <= i < |es| => NormalEntry(es[i], Normal));
    forall i | 0 <= i < |es| ensures back[i] == New(NormalPairs(chunk), interval).entries[i] {
      SameKeysSameShape(kvs, NormalPairs(chunk), interval, i);
    }
    assert back == New(NormalPairs(chunk), interval).entries;
  }

  lemma IndexBlockReadsBack(f: Format, kvs: seq<Pair<Index>>, interval: nat)
    requires FormatOk(f) && interval > 0
    requires forall i :: 0 <= i < |kvs| ==> |kvs[i].key| < U32 && kvs[i].item.offset < U32 && kvs[i].item.len < U32
    ensures FromRaw(Raw(f, New(kvs, interval), EncodeIndex), interval, DecodeIndex) == Some(New(kvs, interval))
  {
    var es := New(kvs, interval).entries;
    forall i | 0 <= i < |es|
      ensures Codec.EntryOk(es[i]) && ItemRoundTrips(es[i].item, EncodeIndex, DecodeIndex, x => x)
    {
      SharedFits(kvs, i, interval);
      forall rest ensures DecodeIndex(EncodeIndex(es[i].item) + rest) == Got(es[i].item, rest) {
        IndexRoundTrip(es[i].item, rest);
      }
    }
    EntriesRoundTrip(es, EncodeIndex, DecodeIndex, x => x);
    var raw := Raw(f, New(kvs, interval), EncodeIndex);
    assert raw[..|raw| - 4] == EncodeEntries(es, EncodeIndex);
    assert seq(|es|, i requires 0 <= i < |es| => NormalEntry(es[i], x => x)) == es;
  }

  /** Chunks of a table that can be written: every length and offset fits in 32 bits. */
  ghost predicate Writable(f: Format, chunks: seq<seq<KeyValue>>, interval: nat)
    requires interval > 0
  {
    && NonEmptyChunks(chunks) && (forall i :: 0 <= i < |chunks| ==> SmallRows(chunks[i]))
    && |DataBytes(f, chunks, interval)| < U32
  }

  lemma SliceOfPrefix(a: Bytes, b: Bytes, offset: nat, len: nat)
    requires offset + len <= |a|
    ensures Slice(a + b, offset, len) == Some(a[offset..offset + len])
  {
    assert (a + b)[offset..offset + len] == a[offset..offset + len];
  }

  lemma SliceOfSuffix(a: Bytes, b: Bytes)
    ensures Slice(a + b, |a|, |b|) == Some(b)
  {
    assert (a + b)[|a|..|a| + |b|] == b;
  }

  lemma IndexFits(f: Format, chunks: seq<seq<KeyValue>>, di: nat, i: nat)
    requires di > 0 && Writable(f, chunks, di) && i < |chunks|
    ensures var e := IndexPairs(f, chunks, di)[i]; |e.key| < U32 && e.item.offset < U32 && e.item.len < U32
  {
    hide BlockBytes, DataBytes;
    DataSplit(f, chunks, di, i);
    assert chunks[i] != [] && SmallRows(chunks[i]);
  }

  /** Every data block reads back through its index entry. */
  lemma DataReadsBack(f: Format, chunks: seq<seq<KeyValue>>, di: nat, ii: nat, i: nat)
    requires FormatOk(f) && di > 0 && ii > 0 && Writable(f, chunks, di) && i < |chunks|
    ensures LoadData(f, TableOf(f, chunks, di, ii), IndexPairs(f, chunks, di)[i].item) ==
            Some(New(NormalPairs(chunks[i]), di))
  {
    hide BlockBytes, New, DataBytes;
    var at := IndexPairs(f, chunks, di)[i].item;
    DataSplit(f, chunks, di, i);
    SliceOfPrefix(DataBytes(f, chunks, di), Raw(f, New(IndexPairs(f, chunks, di), ii), EncodeIndex), at.offset, at.len);
    DataBlockReadsBack(f, chunks[i], di);
  }

  /** The index block reads back. */
  lemma IndexReadsBack(f: Format, chunks: seq<seq<KeyValue>>, di: nat, ii: nat)
    requires FormatOk(f) && di > 0 && ii > 0 && Writable(f, chunks, di)
    ensures LoadIndex(TableOf(f, chunks, di, ii)) == Some(New(IndexPairs(f, chunks, di), ii))
  {
    hide BlockBytes, New, DataBytes, Raw, FromRaw, Writable, FormatOk, IndexPairs;
    var index := IndexPairs(f, chunks, di);
    IndexPairsLen(f, chunks, di);
    forall i | 0 <= i < |index| ensures |index[i].key| < U32 && index[i].item.offset < U32 && index[i].item.len < U32 {
      IndexFits(f, chunks, di, i);
    }
    IndexBlockReadsBack(f, index, ii);
    SliceOfSuffix(DataBytes(f, chunks, di), Raw(f, New(index, ii), EncodeIndex));
  }

  lemma IndexPairsLen(f: Format, chunks: seq<seq<KeyValue>>, di: nat)
    requires di > 0
    ensures |IndexPairs(f, chunks, di)| == |chunks|
  {
  }

  /** Consecutive index entries are adjacent, the first at 0, the last ending with the data. */
  lemma IndexTiles(f: Format, chunks: seq<seq<KeyValue>>, di: nat, i: nat)
    requires di > 0 && i < |chunks|
    ensures var index := IndexPairs(f, chunks, di);
            && (i == 0 ==> index[i].item.offset == 0)
            && (i + 1 < |chunks| ==> index[i].item.offset + index[i].item.len == index[i + 1].item.offset)
            && (i + 1 == |chunks| ==> index[i].item.offset + index[i].item.len == |DataBytes(f, chunks, di)|)
  {
    assert chunks[..i + 1][..i] == chunks[..i];
    assert chunks[..|chunks|] == chunks;
  }

  // ---- lookup ----

  /** The rows of a table, found where the index sends a key. */
  lemma {:induction false} ConcatAt(chunks: seq<seq<KeyValue>>, i: nat)
    requires i < |chunks|
    ensures Concat(chunks) == Concat(chunks[..i]) + chunks[i] + Concat(chunks[i + 1..])
  {
    assert chunks == chunks[..i] + ([chunks[i]] + chunks[i + 1..]);
    ConcatAppend(chunks[..i], [chunks[i]] + chunks[i + 1..]);
    assert ([chunks[i]] + chunks[i + 1..])[1..] == chunks[i + 1..];
  }

  lemma {:induction false} ConcatHolds(chunks: seq<seq<KeyValue>>, e: KeyValue)
    requires e in Concat(chunks)
    ensures exists i :: 0 <= i < |chunks| && e in chunks[i]
  {
    if e in chunks[0] {
    } else {
      ConcatHolds(chunks[1..], e);
      var i :| 0 <= i < |chunks| - 1 && e in chunks[1..][i];
      assert e in chunks[i + 1];
    }
  }

  lemma SortedThree(a: seq<KeyValue>, b: seq<KeyValue>, c: seq<KeyValue>)
    requires Sorted(a + b + c)
    ensures Sorted(b)
    ensures forall x, y :: x in a && y in b ==> Lt(x.key, y.key)
    ensures forall x, y :: x in b && y in c ==> Lt(x.key, y.key)
  {
    var s := a + b + c;
    assert forall i :: 0 <= i < |a| ==> s[i] == a[i];
    assert forall i :: 0 <= i < |b| ==> s[|a| + i] == b[i];
    assert forall i :: 0 <= i < |c| ==> s[|a| + |b| + i] == c[i];
    forall i, j | 0 <= i < j < |b| ensures Lt(b[i].key, b[j].key) { assert Lt(s[|a| + i].key, s[|a| + j].key); }
    forall x, y | x in a && y in b ensures Lt(x.key, y.key) {
      var i :| 0 <= i < |a| && a[i] == x;
      var j :| 0 <= j < |b| && b[j] == y;
      assert Lt(s[i].key, s[|a| + j].key);
    }
    forall x, y | x in b && y in c ensures Lt(x.key, y.key) {
      var i :| 0 <= i < |b| && b[i] == x;
      var j :| 0 <= j < |c| && c[j] == y;
      assert Lt(s[|a| + i].key, s[|a| + |b| + j].key);
    }
  }

  lemma {:induction false} ConcatPart(chunks: seq<seq<KeyValue>>, i: nat, e: KeyValue)
    requires i < |chunks| && e in chunks[i]
    ensures e in Concat(chunks)
  {
    ConcatAt(chunks, i);
  }

  /** Rows of an earlier chunk are smaller. */
  lemma ChunksAscend(chunks: seq<seq<KeyValue>>, i: nat, j: nat, x: KeyValue, y: KeyValue)
    requires Sorted(Concat(chunks)) && i < j < |chunks| && x in chunks[i] && y in chunks[j]
    ensures Lt(x.key, y.key)
  {
    hide Concat, Sorted, Lt;
    ConcatAt(chunks, i);
    SortedThree(Concat(chunks[..i]), chunks[i], Concat(chunks[i + 1..]));
    assert chunks[i + 1..][j - i - 1] == chunks[j];
    ConcatPart(chunks[i + 1..], j - i - 1, y);
  }

  lemma ChunkSorted(chunks: seq<seq<KeyValue>>, i: nat)
    requires Sorted(Concat(chunks)) && i < |chunks|
    ensures Sorted(chunks[i])
  {
    ConcatAt(chunks, i);
    SortedThree(Concat(chunks[..i]), chunks[i], Concat(chunks[i + 1..]));
  }

  lemma IndexSorted(f: Format, chunks: seq<seq<KeyValue>>, di: nat)
    requires di > 0 && Sorted(Concat(chunks)) && NonEmptyChunks(chunks)
    ensures SortedPairs(IndexPairs(f, chunks, di))
  {
    hide BlockBytes, DataBytes;
    var index := IndexPairs(f, chunks, di);
    forall i, j | 0 <= i < j < |index| ensures Lt(index[i].key, index[j].key) {
      ChunksAscend(chunks, i, j, chunks[i][|chunks[i]| - 1], chunks[j][|chunks[j]| - 1]);
    }
  }

  lemma KeyUpToLast(chunk: seq<KeyValue>, i: nat)
    requires Sorted(chunk) && i < |chunk|
    ensures Le(chunk[i].key, LastKey(chunk))
  {
  }

  /** Where a key lies between the last keys of its chunk's predecessor and of its chunk. */
  lemma BetweenLastKeys(chunks: seq<seq<KeyValue>>, k: Key, c: nat)
    requires Sorted(Concat(chunks)) && NonEmptyChunks(chunks) && c < |chunks| && Holds(chunks[c], k)
    ensures Le(k, LastKey(chunks[c])) && (c > 0 ==> Lt(LastKey(chunks[c - 1]), k))
  {
    hide Concat, Sorted;
    var i :| 0 <= i < |chunks[c]| && chunks[c][i].key == k;
    ChunkSorted(chunks, c);
    KeyUpToLast(chunks[c], i);
    if c > 0 {
      assert chunks[c - 1] != [];
      LastBelow(chunks, c, chunks[c][i]);
    }
  }

  lemma LastBelow(chunks: seq<seq<KeyValue>>, c: nat, e: KeyValue)
    requires Sorted(Concat(chunks)) && 0 < c < |chunks| && chunks[c - 1] != [] && e in chunks[c]
    ensures Lt(LastKey(chunks[c - 1]), e.key)
  {
    hide Concat, Sorted, Lt;
    var before := chunks[c - 1];
    ChunksAscend(chunks, c - 1, c, before[|before| - 1], e);
  }

  lemma PositionUnique<T>(kvs: seq<Pair<T>>, k: Key, r: SearchResult, c: nat)
    requires PositionOf(kvs, k, r) && c < |kvs| && Le(k, kvs[c].key) && (c > 0 ==> Lt(kvs[c - 1].key, k))
    ensures r.index == c
  {
  }

  /** The chunk the index picks for a key is the only one that can hold it. */
  lemma IndexPicks(f: Format, chunks: seq<seq<KeyValue>>, di: nat, k: Key, r: SearchResult, c: nat)
    requires di > 0 && Sorted(Concat(chunks)) && NonEmptyChunks(chunks) && c < |chunks| && Holds(chunks[c], k)
    requires PositionOf(IndexPairs(f, chunks, di), k, r)
    ensures r.index == c
  {
    hide BlockBytes, DataBytes, Concat, PositionOf, Sorted, LastKey, NonEmptyChunks;
    BetweenLastKeys(chunks, k, c);
    PositionUnique(IndexPairs(f, chunks, di), k, r, c);
  }

  /** Searching the block of one chunk. */
  function SearchChunk(chunk: seq<KeyValue>, interval: nat, k: Key): Option<Option<Value>>
    requires interval > 0
  {
    var b := New(NormalPairs(chunk), interval);
    match SearchBlock(b, k)
    case Ok(i) => if i < |b.entries| then Some(b.entries[i].item) else None
    case Err(_) => None
  }

  lemma SearchChunkIsFind(chunk: seq<KeyValue>, interval: nat, k: Key)
    requires interval > 0 && Sorted(chunk)
    ensures SearchChunk(chunk, interval, k) == NormalFound(Find(chunk, k))
  {
    var kvs := NormalPairs(chunk);
    assert SortedPairs(kvs);
    SearchBlockCorrect(kvs, interval, k);
    var r := SearchBlock(New(kvs, interval), k);
    if r.Ok? {
      FindIndex(chunk, r.index);
    } else {
      forall i | 0 <= i < |chunk| ensures chunk[i].key != k { assert kvs[i].key != k; }
    }
  }

  /** What the table's query computes, without the file in between. */
  lemma QueryIsSearchChunk(f: Format, chunks: seq<seq<KeyValue>>, di: nat, ii: nat, filter: Key -> bool, k: Key)
    requires FormatOk(f) && di > 0 && ii > 0 && Writable(f, chunks, di) && chunks != [] && filter(k)
    ensures var i := SearchBlock(New(IndexPairs(f, chunks, di), ii), k).index;
            QueryTable(f, TableOf(f, chunks, di, ii), filter, k) ==
            SearchChunk(chunks[if i < |chunks| then i else |chunks| - 1], di, k)
  {
    hide BlockBytes, DataBytes, SearchBlock, LoadData, LoadIndex, TableOf, EntryAt;
    var index := IndexPairs(f, chunks, di);
    var b := New(index, ii);
    IndexReadsBack(f, chunks, di, ii);
    var i := SearchBlock(b, k).index;
    var pick := if i < |chunks| then i else |chunks| - 1;
    assert FindWithUpper(b, k) == index[pick].item by {
      assert b.entries[pick] == EntryAt(index, pick, ii);
      EntryItem(index, pick, ii);
    }
    DataReadsBack(f, chunks, di, ii, pick);
  }

  lemma EntryItem<T>(kvs: seq<Pair<T>>, i: nat, interval: nat)
    requires interval > 0 && i < |kvs|
    ensures EntryAt(kvs, i, interval).item == kvs[i].item
  {
  }

  lemma FindInChunk(chunks: seq<seq<KeyValue>>, c: nat, k: Key)
    requires Sorted(Concat(chunks)) && c < |chunks| && Holds(chunks[c], k)
    ensures Find(Concat(chunks), k) == Find(chunks[c], k)
  {
    var d := Find(chunks[c], k).value;
    ConcatPart(chunks, c, KeyValue(k, d));
    FindMember(Concat(chunks), k, d);
  }

  /** Table lookup is map lookup: for every key the query returns the row's value, an empty value
      read back as a tombstone, and nothing for absent keys. */
  lemma TableQueryIsFind(f: Format, rows: seq<KeyValue>, chunks: seq<seq<KeyValue>>, di: nat, ii: nat,
                         filter: Key -> bool, k: Key)
    requires FormatOk(f) && di > 0 && ii > 0 && Writable(f, chunks, di) && chunks != []
    requires Sorted(rows) && Concat(chunks) == rows
    requires forall e :: e in rows ==> filter(e.key)
    ensures QueryTable(f, TableOf(f, chunks, di, ii), filter, k) == NormalFound(Find(rows, k))
  {
    hide BlockBytes, DataBytes, SearchChunk, TableOf, SearchBlock;
    assert Find(rows, k).Some? ==> KeyValue(k, Find(rows, k).value) in rows;
    if filter(k) {
      QueryIsSearchChunk(f, chunks, di, ii, filter, k);
      IndexSorted(f, chunks, di);
      SearchBlockCorrect(IndexPairs(f, chunks, di), ii, k);
      var r := SearchBlock(New(IndexPairs(f, chunks, di), ii), k);
      var pick := if r.index < |chunks| then r.index else |chunks| - 1;
      ChunkSorted(chunks, pick);
      SearchChunkIsFind(chunks[pick], di, k);
      if Find(rows, k).Some? {
        ConcatHolds(chunks, KeyValue(k, Find(rows, k).value));
        var c :| 0 <= c < |chunks| && KeyValue(k, Find(rows, k).value) in chunks[c];
        assert Holds(chunks[c], k) by {
          var j :| 0 <= j < |chunks[c]| && chunks[c][j] == KeyValue(k, Find(rows, k).value);
        }
        IndexPicks(f, chunks, di, k, r, c);
        FindInChunk(chunks, c, k);
      } else if Find(chunks[pick], k).Some? {
        ConcatPart(chunks, pick, KeyValue(k, Find(chunks[pick], k).value));
        FindMember(rows, k, Find(chunks[pick], k).value);
      }
    }
  }

  /** A file written for these chunks. */
  ghost predicate StoresChunks(f: Format, t: Table, chunks: seq<seq<KeyValue>>) {
    && t.dataInterval > 0 && t.indexInterval > 0 && chunks != [] && Sorted(Concat(chunks))
    && Writable(f, chunks, t.dataInterval) && t == TableOf(f, chunks, t.dataInterval, t.indexInterval)
  }

  /** A lookup in the file is the lookup in the rows exactly where the value is not the empty string,
      which reads back as a tombstone. */
  lemma EmptyValuesAreLost(f: Format, rows: seq<KeyValue>, chunks: seq<seq<KeyValue>>, di: nat, ii: nat,
                           filter: Key -> bool, k: Key)
    requires FormatOk(f) && di > 0 && ii > 0 && Writable(f, chunks, di) && chunks != []
    requires Sorted(rows) && Concat(chunks) == rows
    requires forall e :: e in rows ==> filter(e.key)
    ensures QueryTable(f, TableOf(f, chunks, di, ii), filter, k) == Find(rows, k) <==> Find(rows, k) != Some(Some([]))
  {
    hide Writable, TableOf, QueryTable, Sorted, Concat, Find;
    TableQueryIsFind(f, rows, chunks, di, ii, filter, k);
  }

  /** A file with one row of an empty value: the row's key is found as removed. */
  lemma EmptyValueTable(f: Format, k: Key, di: nat, ii: nat, filter: Key -> bool)
    requires FormatOk(f) && di > 0 && ii > 0 && |k| < U32 && filter(k)
    requires |DataBytes(f, [[KeyValue(k, Some([]))]], di)| < U32
    ensures Find([KeyValue(k, Some([]))], k) == Some(Some([]))
    ensures QueryTable(f, TableOf(f, [[KeyValue(k, Some([]))]], di, ii), filter, k) == Some(None)
  {
    hide TableOf, QueryTable, DataBytes;
    var rows := [KeyValue(k, Some([]))];
    var chunks := [rows];
    assert Concat(chunks) == rows + Concat([]) == rows by { assert chunks[1..] == []; }
    TableQueryIsFind(f, rows, chunks, di, ii, filter, k);
  }
}
