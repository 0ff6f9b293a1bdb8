/** Cutting a compaction's merged rows into table-sized shards. */
module Sharding {
  import opened Keys
  import opened Rows

  datatype Shard = Shard(gen: int, rows: seq<KeyValue>)

  function RowBytes(kv: KeyValue): nat {
    |kv.key| + if kv.data.Some? then |kv.data.value| else 0
  }

  function TotalBytes(rows: seq<KeyValue>): nat {
    if rows == [] then 0 else TotalBytes(rows[..|rows| - 1]) + RowBytes(rows[|rows| - 1])
  }

  function PartCount(rows: seq<KeyValue>, fileSize: nat): nat
    requires fileSize > 0
  {
    (TotalBytes(rows) + fileSize - 1) / fileSize
  }

  function RowsOf(shards: seq<Shard>): seq<seq<KeyValue>> {
    seq(|shards|, i requires 0 <= i < |shards| => shards[i].rows)
  }

  /** At most `fileSize` bytes behind the first row. */
  predicate Bounded(rows: seq<KeyValue>, fileSize: nat) {
    rows == [] || TotalBytes(rows[1..]) <= fileSize
  }

  predicate GensAscend(shards: seq<Shard>) {
    forall i, j :: 0 <= i < j < |shards| ==> shards[i].gen < shards[j].gen
  }

  /** Slots with rows become shards, numbered from `gen0`. */
  function Retained(slots: seq<seq<KeyValue>>, gen0: int): seq<Shard> {
    if slots == [] then []
    else
      var n := |slots| - 1;
      Retained(slots[..n], gen0) + if slots[n] == [] then [] else [Shard(gen0 + n, slots[n])]
  }

  lemma {:induction false} TotalBytesAppend(a: seq<KeyValue>, b: seq<KeyValue>)
    ensures TotalBytes(a + b) == TotalBytes(a) + TotalBytes(b)
  {
    if b == [] {
      assert a + b == a;
    } else {
      assert (a + b)[..|a + b| - 1] == a + b[..|b| - 1];
      TotalBytesAppend(a, b[..|b| - 1]);
    }
  }

  lemma TotalBytesSplit(rows: seq<KeyValue>, n: nat)
    requires n <= |rows|
    ensures TotalBytes(rows) == TotalBytes(rows[..n]) + TotalBytes(rows[n..])
  {
    assert rows == rows[..n] + rows[n..];
    TotalBytesAppend(rows[..n], rows[n..]);
  }

  lemma {:induction false} RetainedRows(slots: seq<seq<KeyValue>>, gen0: int)
    ensures Concat(RowsOf(Retained(slots, gen0))) == Concat(slots)
  {
    hide Concat;
    if slots != [] {
      var n := |slots| - 1;
      var init := Retained(slots[..n], gen0);
      RetainedRows(slots[..n], gen0);
      assert slots == slots[..n] + [slots[n]];
      ConcatSnoc(slots[..n], slots[n]);
      if slots[n] != [] {
        assert RowsOf(init + [Shard(gen0 + n, slots[n])]) == RowsOf(init) + [slots[n]];
        ConcatSnoc(RowsOf(init), slots[n]);
      } else {
        assert Retained(slots, gen0) == init && Concat(slots[..n]) + [] == Concat(slots[..n]);
      }
    } else {
      assert RowsOf([]) == [];
    }
  }

  lemma {:induction false} RetainedKeeps(slots: seq<seq<KeyValue>>, gen0: int)
    ensures Concat(RowsOf(Retained(slots, gen0))) == Concat(slots)
    ensures GensAscend(Retained(slots, gen0))
    ensures forall s :: s in Retained(slots, gen0) ==>
              gen0 <= s.gen < gen0 + |slots| && s.rows != [] && s.rows in slots
  {
    hide Concat, RowsOf;
    RetainedRows(slots, gen0);
    if slots != [] {
      var n := |slots| - 1;
      RetainedKeeps(slots[..n], gen0);
      assert slots[n] in slots && forall r :: r in slots[..n] ==> r in slots;
    }
  }

  /** Rounding up: one part fewer would not hold the bytes. */
  lemma PartsCover(total: nat, fileSize: nat, parts: nat)
    requires fileSize > 0 && parts == (total + fileSize - 1) / fileSize
    ensures total > 0 <==> parts > 0
    ensures parts > 0 ==> (parts - 1) * fileSize < total <= parts * fileSize
  {
  }

  /** State between two shards: slots before `i` are final, slot `i` holds at most the carried row. */
  ghost predicate Progress(rows: seq<KeyValue>, slots: seq<seq<KeyValue>>, i: nat, pos: nat, fileSize: nat) {
    && i <= |slots| && pos <= |rows|
    && Concat(slots) == rows[..pos]
    && (forall j :: 0 <= j < i ==> Bounded(slots[j], fileSize))
    && (i < |slots| ==> |slots[i]| <= 1)
    && (forall j :: i < j < |slots| ==> slots[j] == [])
    && (pos < |rows| ==> TotalBytes(rows[..pos]) >= i * fileSize)
  }

  lemma {:induction false} ConcatEmpty(slots: seq<seq<KeyValue>>)
    requires forall j :: 0 <= j < |slots| ==> slots[j] == []
    ensures Concat(slots) == []
  {
    if slots != [] {
      ConcatEmpty(slots[1..]);
    }
  }

  /** With empty slots behind it, extending slot `i` extends the concatenation. */
  lemma ConcatExtend(slots: seq<seq<KeyValue>>, i: nat, row: KeyValue)
    requires i < |slots| && forall j :: i < j < |slots| ==> slots[j] == []
    ensures Concat(slots[i := slots[i] + [row]]) == Concat(slots) + [row]
  {
    var t := slots[i := slots[i] + [row]];
    assert slots == slots[..i] + [slots[i]] + slots[i + 1..];
    assert t == slots[..i] + [slots[i] + [row]] + slots[i + 1..];
    ConcatEmpty(slots[i + 1..]);
    ConcatAppend(slots[..i] + [slots[i]], slots[i + 1..]);
    ConcatAppend(slots[..i] + [slots[i] + [row]], slots[i + 1..]);
    ConcatSnoc(slots[..i], slots[i]);
    ConcatSnoc(slots[..i], slots[i] + [row]);
  }

  /** Takes rows from `start` while they fit; a row that overflows is handed to the next slot,
      unless this is the last one. */
  method TakeRows(rows: seq<KeyValue>, carried: seq<KeyValue>, start: nat, fileSize: nat, isLast: bool)
    returns (slot: seq<KeyValue>, overflow: bool, pos: nat)
    requires start <= |rows| && fileSize > 0
    ensures start <= pos <= |rows| && (overflow ==> !isLast && start < pos) && (!overflow ==> pos == |rows|)
    ensures var end := if overflow then pos - 1 else pos;
            slot == carried + rows[start..end] && (!isLast ==> TotalBytes(rows[start..end]) < fileSize)
    ensures overflow ==> TotalBytes(rows[start..pos]) >= fileSize
  {
    slot, overflow, pos := carried, false, start;
    var dataLen := 0;
    while pos < |rows|
      invariant start <= pos <= |rows|
      invariant dataLen == TotalBytes(rows[start..pos])
      invariant !isLast ==> dataLen < fileSize
      invariant slot == carried + rows[start..pos]
    {
      var row := rows[pos];
      assert rows[start..pos + 1][..pos - start] == rows[start..pos];
      pos, dataLen := pos + 1, dataLen + RowBytes(row);
      if dataLen >= fileSize && !isLast {
        overflow := true;
        return;
      }
      slot := slot + [row];
    }
  }

  /** The slots after slot `i` took its rows. */
  function Stored(rows: seq<KeyValue>, slots: seq<seq<KeyValue>>, i: nat, slot: seq<KeyValue>, overflow: bool, pos: nat)
    : seq<seq<KeyValue>>
    requires i < |slots| && (overflow ==> i + 1 < |slots| && 0 < pos <= |rows|)
  {
    var t := slots[i := slot];
    if overflow then t[i + 1 := t[i + 1] + [rows[pos - 1]]] else t
  }

  lemma {:induction false} ConcatExtendMany(slots: seq<seq<KeyValue>>, i: nat, more: seq<KeyValue>)
    requires i < |slots| && forall j :: i < j < |slots| ==> slots[j] == []
    ensures Concat(slots[i := slots[i] + more]) == Concat(slots) + more
  {
    if more == [] {
      assert slots[i] + more == slots[i];
      assert slots[i := slots[i] + more] == slots;
    } else {
      var init, last := more[..|more| - 1], more[|more| - 1];
      assert more == init + [last];
      var t := slots[i := slots[i] + init];
      ConcatExtendMany(slots, i, init);
      ConcatExtend(t, i, last);
      assert t[i := t[i] + [last]] == slots[i := slots[i] + more] by {
        assert slots[i] + init + [last] == slots[i] + more;
      }
    }
  }

  lemma TakeAppend(rows: seq<KeyValue>, a: nat, b: nat)
    requires a <= b <= |rows|
    ensures rows[..a] + rows[a..b] == rows[..b]
    ensures b == a + 1 ==> rows[a..b] == [rows[a]]
  {
  }

  lemma StoredKeepsRows(rows: seq<KeyValue>, slots: seq<seq<KeyValue>>, i: nat, start: nat, slot: seq<KeyValue>,
                        overflow: bool, pos: nat)
    requires start <= pos <= |rows| && (overflow ==> i + 1 < |slots| && start < pos)
    requires i < |slots| && (forall j :: i < j < |slots| ==> slots[j] == []) && Concat(slots) == rows[..start]
    requires slot == slots[i] + rows[start..if overflow then pos - 1 else pos]
    ensures Concat(Stored(rows, slots, i, slot, overflow, pos)) == rows[..pos]
  {
    hide Concat;
    var end := if overflow then pos - 1 else pos;
    var t := slots[i := slot];
    assert Concat(t) == rows[..end] by {
      ConcatExtendMany(slots, i, rows[start..end]);
      TakeAppend(rows, start, end);
    }
    if overflow {
      assert Concat(t) + [rows[end]] == rows[..pos] by { TakeAppend(rows, end, pos); }
      ConcatExtend(t, i + 1, rows[end]);
    }
  }

  /** Bytes consumed after `i + 1` shards, and what that leaves for the last one. */
  lemma StoredBytes(rows: seq<KeyValue>, i: nat, start: nat, pos: nat, fileSize: nat)
    requires start <= pos <= |rows| && fileSize > 0 && TotalBytes(rows[..start]) >= i * fileSize
    ensures TotalBytes(rows[start..pos]) >= fileSize ==> TotalBytes(rows[..pos]) >= (i + 1) * fileSize
    ensures i + 1 == PartCount(rows, fileSize) ==> TotalBytes(rows[start..pos]) <= fileSize
  {
    TotalBytesSplit(rows[..pos], start);
    assert rows[..pos][..start] == rows[..start] && rows[..pos][start..] == rows[start..pos];
    TotalBytesSplit(rows, pos);
    assert (i + 1) * fileSize == i * fileSize + fileSize;
    PartsCover(TotalBytes(rows), fileSize, PartCount(rows, fileSize));
  }

  lemma StoredProgress(rows: seq<KeyValue>, slots: seq<seq<KeyValue>>, i: nat, start: nat, slot: seq<KeyValue>,
                       overflow: bool, pos: nat, fileSize: nat)
    requires fileSize > 0 && |slots| == PartCount(rows, fileSize) && i < |slots|
    requires Progress(rows, slots, i, start, fileSize)
    requires start <= pos <= |rows| && (overflow ==> i + 1 < |slots| && start < pos) && (!overflow ==> pos == |rows|)
    requires var end := if overflow then pos - 1 else pos;
             slot == slots[i] + rows[start..end]
             && (i + 1 < |slots| ==> TotalBytes(rows[start..end]) < fileSize)
    requires overflow ==> TotalBytes(rows[start..pos]) >= fileSize
    ensures Progress(rows, Stored(rows, slots, i, slot, overflow, pos), i + 1, pos, fileSize)
  {
    var end := if overflow then pos - 1 else pos;
    StoredKeepsRows(rows, slots, i, start, slot, overflow, pos);
    if start < |rows| {
      StoredBytes(rows, i, start, pos, fileSize);
    }
    FilledIsBounded(rows, slots[i], start, end, fileSize);
  }

  lemma FilledIsBounded(rows: seq<KeyValue>, carried: seq<KeyValue>, start: nat, end: nat, fileSize: nat)
    requires start <= end <= |rows| && |carried| <= 1
    requires TotalBytes(rows[start..end]) <= fileSize
    ensures Bounded(carried + rows[start..end], fileSize)
  {
    var all := carried + rows[start..end];
    if carried == [] {
      assert all == rows[start..end];
      if all != [] { TotalBytesSplit(all, 1); }
    } else {
      assert all[1..] == rows[start..end];
    }
  }

  /** `data_sharding` with gens allocated from `gen0`: the shards are in order, non-empty and
      within a table's size plus one row, and they are the input exactly when it has bytes. */
  method DataSharding(rows: seq<KeyValue>, fileSize: nat, gen0: int) returns (shards: seq<Shard>)
    requires fileSize > 0
    ensures Concat(RowsOf(shards)) == rows <==> rows == [] || TotalBytes(rows) > 0
    ensures GensAscend(shards)
    ensures forall s :: s in shards ==> s.rows != [] && Bounded(s.rows, fileSize)
    ensures forall s :: s in shards ==> gen0 <= s.gen < gen0 + PartCount(rows, fileSize)
  {
    var parts := PartCount(rows, fileSize);
    PartsCover(TotalBytes(rows), fileSize, parts);
    var slots := seq(parts, _ => []);
    ConcatEmpty(slots);
    var pos: nat, i: nat := 0, 0;
    while i < parts
      invariant i <= parts && |slots| == parts && Progress(rows, slots, i, pos, fileSize)
      invariant i == parts > 0 ==> pos == |rows|
    {
      var slot, overflow, next := TakeRows(rows, slots[i], pos, fileSize, i == parts - 1);
      StoredProgress(rows, slots, i, pos, slot, overflow, next, fileSize);
      slots := Stored(rows, slots, i, slot, overflow, next);
      pos, i := next, i + 1;
    }
    shards := Retained(slots, gen0);
    RetainedKeeps(slots, gen0);
    forall s | s in shards ensures Bounded(s.rows, fileSize) {
      var j :| 0 <= j < |slots| && slots[j] == s.rows;
    }
    if parts > 0 {
      assert rows[..pos] == rows;
    }
  }
}
