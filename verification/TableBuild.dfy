/** Building a table with its filter, and querying it after a reload. */
module TableBuild {
  import opened Keys
  import opened Rows
  import opened SsTable
  import Bloom
  import Codec

  /** The filter of a table as a test on keys. */
  function Test(hash: Bloom.Hash, v: Bloom.Filter): Key -> bool
    requires Bloom.FilterOk(v)
  {
    (k: Key) => Bloom.Contains(hash, v, k)
  }

  lemma NextIsLarger(builder: BlockBuilder, rows: seq<KeyValue>, i: nat)
    requires i < |rows| && Sorted(rows) && builder.Added() == rows[..i]
    ensures builder.buf != [] ==> Lt(builder.buf[|builder.buf| - 1].key, rows[i].key)
  {
    hide Concat, Lt;
    if builder.buf != [] {
      var added := builder.Added();
      assert added[|added| - 1] == builder.buf[|builder.buf| - 1];
    }
  }

  /** The filter has exactly the positions of the keys marked. */
  ghost predicate Marks(hash: Bloom.Hash, v: Bloom.Filter, now: Bloom.Filter, keys: seq<Key>) {
    && Bloom.FilterOk(v) && Bloom.FilterOk(now) && now == v.(groups := now.groups)
    && Bloom.Marked(now) == Bloom.AllPositions(hash, v, keys)
  }

  lemma MarksOneMore(hash: Bloom.Hash, v: Bloom.Filter, now: Bloom.Filter, next: Bloom.Filter, keys: seq<Key>, k: Key)
    requires Marks(hash, v, now, keys) && Bloom.FilterOk(next) && next == now.(groups := next.groups)
    requires Bloom.Marked(next) == Bloom.Marked(now) + Bloom.Positions(hash, now, k)
    ensures Marks(hash, v, next, keys + [k])
  {
    hide Bloom.Marked, Bloom.Positions;
    Bloom.SamePositions(hash, v, now, k);
    assert (keys + [k])[..|keys|] == keys;
  }

  /** Every lookup in the table is a lookup in its rows. */
  ghost predicate Answers(f: Format, t: Table, test: Key -> bool, rows: seq<KeyValue>) {
    forall k :: QueryTable(f, t, test, k) == NormalFound(Find(rows, k))
  }

  /** Every row goes into the filter and the block builder. */
  method FeedRows(rows: seq<KeyValue>, blockSize: nat, filter: Bloom.BloomFilter) returns (chunks: seq<seq<KeyValue>>)
    requires Sorted(rows) && Bloom.FilterOk(filter.Value()) && Bloom.Marked(filter.Value()) == {}
    modifies filter.bits
    ensures Concat(chunks) == rows && NonEmptyChunks(chunks) && Bloom.FilterOk(filter.Value())
    ensures forall k :: k in KeysOf(rows) ==> Bloom.Contains(filter.hash, filter.Value(), k)
  {
    hide Bloom.Marked, Bloom.Positions, Concat, Bloom.Contains, Bloom.AllPositions, NonEmptyChunks, Marks, Sorted, Lt,
      BlockBuilder.Valid, BlockBuilder.Added, Bloom.FilterOk;
    ghost var v, keys := filter.Value(), KeysOf(rows);
    var builder := new BlockBuilder(blockSize);
    var i := 0;
    NoneMarked(filter.hash, v);
    while i < |rows|
      invariant i <= |rows| && builder.Valid() && builder.Added() == rows[..i] && fresh(builder)
      invariant Bloom.FilterOk(filter.Value()) && Marks(filter.hash, v, filter.Value(), keys[..i])
    {
      ghost var now := filter.Value();
      filter.Insert(rows[i].key);
      MarksOneMore(filter.hash, v, now, filter.Value(), keys[..i], rows[i].key);
      NextIsLarger(builder, rows, i);
      builder.Add(rows[i]);
      assert rows[..i + 1] == rows[..i] + [rows[i]] && keys[..i + 1] == keys[..i] + [rows[i].key];
      i := i + 1;
    }
    builder.Flush();
    assert rows[..i] == rows && keys[..i] == keys;
    MarkedKeys(filter.hash, v, filter.Value(), keys);
    chunks := builder.chunks;
    AllInChunks(builder);
  }

  lemma NoneMarked(hash: Bloom.Hash, v: Bloom.Filter)
    requires Bloom.FilterOk(v) && Bloom.Marked(v) == {}
    ensures Marks(hash, v, v, [])
  {
  }

  lemma MarkedKeys(hash: Bloom.Hash, v: Bloom.Filter, now: Bloom.Filter, keys: seq<Key>)
    requires Marks(hash, v, now, keys)
    ensures Bloom.FilterOk(now) && forall k :: k in keys ==> Bloom.Contains(hash, now, k)
  {
    hide Bloom.Marked, Bloom.AllPositions, Bloom.Contains;
    Bloom.NoFalseNegatives(hash, v, now, keys);
  }

  lemma AllInChunks(builder: BlockBuilder)
    requires builder.Valid() && builder.buf == []
    ensures Concat(builder.chunks) == builder.Added() && NonEmptyChunks(builder.chunks)
  {
    assert Concat(builder.chunks) + [] == Concat(builder.chunks);
  }

  /** `SSTable::new`. If its lengths fit the format's 32 bits, the table answers like its rows. */
  method NewTable(f: Format, rows: seq<KeyValue>, blockSize: nat, di: nat, ii: nat, filter: Bloom.BloomFilter)
    returns (t: Table)
    requires FormatOk(f) && Sorted(rows) && rows != [] && di > 0 && ii > 0
    requires Bloom.FilterOk(filter.Value()) && Bloom.Marked(filter.Value()) == {}
    modifies filter.bits
    ensures Bloom.FilterOk(filter.Value()) && t.dataInterval == di && t.indexInterval == ii
    ensures SmallRows(rows) && |t.bytes| < U32 ==>
              && Answers(f, t, Test(filter.hash, filter.Value()), rows)
              && exists chunks :: StoresChunks(f, t, chunks) && Concat(chunks) == rows
  {
    hide Bloom.Marked, Bloom.Contains, Concat, NonEmptyChunks, KeysOf, Answers, SmallRows, StoresChunks, Sorted,
      FormatOk;
    var chunks := FeedRows(rows, blockSize, filter);
    t := Build(f, chunks, di, ii);
    if SmallRows(rows) && |t.bytes| < U32 {
      BuiltAnswers(f, rows, chunks, di, ii, filter.hash, filter.Value());
    }
  }

  lemma BuiltWritable(f: Format, rows: seq<KeyValue>, chunks: seq<seq<KeyValue>>, di: nat, ii: nat)
    requires di > 0 && ii > 0 && Concat(chunks) == rows && NonEmptyChunks(chunks) && SmallRows(rows)
    requires |TableOf(f, chunks, di, ii).bytes| < U32
    ensures Writable(f, chunks, di)
  {
    forall i | 0 <= i < |chunks| ensures SmallRows(chunks[i]) {
      forall j | 0 <= j < |chunks[i]| ensures |chunks[i][j].key| < U32 && Codec.SmallValue(chunks[i][j].data) {
        ConcatPart(chunks, i, chunks[i][j]);
        var n :| 0 <= n < |rows| && rows[n] == chunks[i][j];
      }
    }
  }

  lemma BuiltAnswers(f: Format, rows: seq<KeyValue>, chunks: seq<seq<KeyValue>>, di: nat, ii: nat, hash: Bloom.Hash,
                     v: Bloom.Filter)
    requires FormatOk(f) && Sorted(rows) && rows != [] && di > 0 && ii > 0
    requires Concat(chunks) == rows && NonEmptyChunks(chunks) && SmallRows(rows)
    requires |TableOf(f, chunks, di, ii).bytes| < U32
    requires Bloom.FilterOk(v) && forall k :: k in KeysOf(rows) ==> Bloom.Contains(hash, v, k)
    ensures StoresChunks(f, TableOf(f, chunks, di, ii), chunks)
    ensures Answers(f, TableOf(f, chunks, di, ii), Test(hash, v), rows)
  {
    BuiltWritable(f, rows, chunks, di, ii);
    var test := Test(hash, v);
    forall e | e in rows ensures test(e.key) {
      var i :| 0 <= i < |rows| && rows[i] == e;
      assert KeysOf(rows)[i] == e.key;
    }
    forall k ensures QueryTable(f, TableOf(f, chunks, di, ii), test, k) == NormalFound(Find(rows, k)) {
      TableQueryIsFind(f, rows, chunks, di, ii, test, k);
    }
  }

  /** The filter in the file is followed by other bytes when it is loaded; lookups do not change. */
  lemma ReloadedAnswers(f: Format, t: Table, rows: seq<KeyValue>, hash: Bloom.Hash, v: Bloom.Filter, tail: seq<Byte>)
    requires Bloom.FilterOk(v) && Answers(f, t, Test(hash, v), rows)
    ensures |Bloom.Raw(v) + tail| >= 32 && Bloom.FilterOk(Bloom.FromRaw(Bloom.Raw(v) + tail))
    ensures Answers(f, t, Test(hash, Bloom.FromRaw(Bloom.Raw(v) + tail)), rows)
  {
    Bloom.RawRoundTrip(hash, v, tail, []);
    var w := Bloom.FromRaw(Bloom.Raw(v) + tail);
    forall k ensures QueryTable(f, t, Test(hash, w), k) == NormalFound(Find(rows, k)) {
      Bloom.RawRoundTrip(hash, v, tail, k);
      assert Test(hash, w)(k) == Test(hash, v)(k);
      assert QueryTable(f, t, Test(hash, v), k) == NormalFound(Find(rows, k));
    }
  }
}
