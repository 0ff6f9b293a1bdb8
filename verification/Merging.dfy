/** The k-way merge with priority: the lowest-numbered input wins a key. */
module Merging {
  import opened Keys
  import opened Rows

  datatype IterKey = IterKey(key: Key, num: nat)

  predicate Before(a: IterKey, b: IterKey) {
    Lt(a.key, b.key) || (a.key == b.key && a.num < b.num)
  }

  type Buffer = map<IterKey, Option<Value>>

  /** Layered lookup: the first input that holds the key answers. */
  function LayerFind(inputs: seq<seq<KeyValue>>, k: Key): Option<Option<Value>> {
    if inputs == [] then None else OrElse(Find(inputs[0], k), LayerFind(inputs[1..], k))
  }

  ghost predicate AllSorted(inputs: seq<seq<KeyValue>>) {
    forall i :: 0 <= i < |inputs| ==> Sorted(inputs[i])
  }

  /** `heads[i]` is the first row of input `i` that has not left the buffer. */
  ghost predicate HeadsOk(inputs: seq<seq<KeyValue>>, heads: seq<nat>) {
    |heads| == |inputs| && forall i :: 0 <= i < |inputs| ==> heads[i] <= |inputs[i]|
  }

  /** The buffer holds the head row of every input that still has one. */
  ghost predicate BufferOk(buf: Buffer, inputs: seq<seq<KeyValue>>, heads: seq<nat>)
    requires HeadsOk(inputs, heads)
  {
    && (forall ik :: ik in buf ==>
          && ik.num < |inputs| && heads[ik.num] < |inputs[ik.num]|
          && KeyValue(ik.key, buf[ik]) == inputs[ik.num][heads[ik.num]])
    && (forall i :: 0 <= i < |inputs| && heads[i] < |inputs[i]| ==> IterKey(inputs[i][heads[i]].key, i) in buf)
  }

  /** Rows before the heads are at most `k`, the others at least `k`. */
  ghost predicate CutAt(inputs: seq<seq<KeyValue>>, heads: seq<nat>, k: Key)
    requires HeadsOk(inputs, heads)
  {
    && (forall i, x :: 0 <= i < |inputs| && 0 <= x < heads[i] ==> Le(inputs[i][x].key, k))
    && (forall i, x :: 0 <= i < |inputs| && heads[i] <= x < |inputs[i]| ==> Le(k, inputs[i][x].key))
  }

  ghost predicate CoversBelow(inputs: seq<seq<KeyValue>>, produced: seq<KeyValue>, k: Key) {
    forall i, x :: 0 <= i < |inputs| && 0 <= x < |inputs[i]| && Lt(inputs[i][x].key, k) ==>
      Holds(produced, inputs[i][x].key)
  }

  ghost predicate CoversAll(inputs: seq<seq<KeyValue>>, produced: seq<KeyValue>) {
    forall i, x :: 0 <= i < |inputs| && 0 <= x < |inputs[i]| ==> Holds(produced, inputs[i][x].key)
  }

  /** Strictly ascending, each row with the layered answer. */
  ghost predicate Answers(inputs: seq<seq<KeyValue>>, produced: seq<KeyValue>) {
    Sorted(produced) && forall e :: e in produced ==> LayerFind(inputs, e.key) == Some(e.data)
  }

  /** `next` is the smallest key not produced yet. */
  ghost predicate NextOk(inputs: seq<seq<KeyValue>>, heads: seq<nat>, produced: seq<KeyValue>, next: Option<KeyValue>)
    requires HeadsOk(inputs, heads)
  {
    match next
    case None => CoversAll(inputs, produced)
    case Some(n) =>
      && LayerFind(inputs, n.key) == Some(n.data) && CutAt(inputs, heads, n.key)
      && CoversBelow(inputs, produced, n.key) && (forall e :: e in produced ==> Lt(e.key, n.key))
  }

  lemma {:induction false} LayerNone(inputs: seq<seq<KeyValue>>, k: Key)
    ensures LayerFind(inputs, k).None? <==> forall i :: 0 <= i < |inputs| ==> !Holds(inputs[i], k)
  {
    if inputs != [] {
      LayerNone(inputs[1..], k);
      assert forall i :: 1 <= i < |inputs| ==> inputs[i] == inputs[1..][i - 1];
    }
  }

  lemma {:induction false} LayerFirst(inputs: seq<seq<KeyValue>>, num: nat, k: Key)
    requires num < |inputs| && Holds(inputs[num], k) && forall i :: 0 <= i < num ==> !Holds(inputs[i], k)
    ensures LayerFind(inputs, k) == Find(inputs[num], k)
  {
    if num > 0 {
      assert forall i :: 1 <= i < |inputs| ==> inputs[i] == inputs[1..][i - 1];
      LayerFirst(inputs[1..], num - 1, k);
    }
  }

  lemma {:induction false} FirstExists(keys: set<IterKey>)
    requires keys != {}
    ensures exists ik :: ik in keys && forall o :: o in keys && o != ik ==> Before(ik, o)
  {
    RanksDiffer();
    var a :| a in keys;
    var rest := keys - {a};
    if rest == {} {
      assert keys == {a};
    } else {
      FirstExists(rest);
      var b :| b in rest && forall o :: o in rest && o != b ==> Before(b, o);
      var ik := if Before(a, b) then a else b;
      forall o | o in keys && o != ik ensures Before(ik, o) {
        assert o == a || o == b || Before(b, o);
      }
      assert ik in keys;
    }
  }

  /** A child has given its head row and all rows before it. */
  ghost predicate TakenOk(inputs: seq<seq<KeyValue>>, heads: seq<nat>, taken: seq<nat>)
    requires HeadsOk(inputs, heads)
  {
    && |taken| == |inputs|
    && forall i :: 0 <= i < |inputs| ==> taken[i] == if heads[i] < |inputs[i]| then heads[i] + 1 else heads[i]
  }

  /** The first row of every child. */
  method FirstRows(inputs: seq<seq<KeyValue>>) returns (buf: Buffer, taken: seq<nat>)
    ensures var zeros := seq(|inputs|, _ => 0); BufferOk(buf, inputs, zeros) && TakenOk(inputs, zeros, taken)
  {
    buf, taken := map[], [];
    var num := 0;
    while num < |inputs|
      invariant num <= |inputs| && |taken| == num
      invariant forall i :: 0 <= i < num ==> taken[i] == if |inputs[i]| > 0 then 1 else 0
      invariant forall ik :: ik in buf ==>
                  ik.num < num && |inputs[ik.num]| > 0 && KeyValue(ik.key, buf[ik]) == inputs[ik.num][0]
      invariant forall i :: 0 <= i < num && |inputs[i]| > 0 ==> IterKey(inputs[i][0].key, i) in buf
    {
      if |inputs[num]| > 0 {
        buf := buf[IterKey(inputs[num][0].key, num) := inputs[num][0].data];
        taken := taken + [1];
      } else {
        taken := taken + [0];
      }
      num := num + 1;
    }
  }

  /** `pop_first` without the removal. */
  method FirstKey(buf: Buffer) returns (ik: IterKey)
    requires buf != map[]
    ensures ik in buf && forall o :: o in buf && o != ik ==> Before(ik, o)
  {
    FirstExists(buf.Keys);
    ik :| ik in buf.Keys && forall o :: o in buf.Keys && o != ik ==> Before(ik, o);
  }

  /** Rows still to leave the buffer. */
  function Left(inputs: seq<seq<KeyValue>>, heads: seq<nat>): nat
    requires HeadsOk(inputs, heads)
  {
    if inputs == [] then 0 else |inputs[0]| - heads[0] + Left(inputs[1..], heads[1..])
  }

  lemma {:induction false} LeftStep(inputs: seq<seq<KeyValue>>, heads: seq<nat>, num: nat)
    requires HeadsOk(inputs, heads) && num < |inputs| && heads[num] < |inputs[num]|
    ensures Left(inputs, heads[num := heads[num] + 1]) == Left(inputs, heads) - 1
  {
    if num > 0 {
      assert heads[num := heads[num] + 1][1..] == heads[1..][num - 1 := heads[num] + 1];
      LeftStep(inputs[1..], heads[1..], num - 1);
    }
  }

  /** The first buffered key is the smallest of all remaining rows and belongs to the
      lowest-numbered input that still holds it. */
  lemma FirstIsLeast(inputs: seq<seq<KeyValue>>, heads: seq<nat>, buf: Buffer, ik: IterKey)
    requires HeadsOk(inputs, heads) && AllSorted(inputs) && BufferOk(buf, inputs, heads)
    requires ik in buf && forall o :: o in buf && o != ik ==> Before(ik, o)
    ensures forall i, x :: 0 <= i < |inputs| && heads[i] <= x < |inputs[i]| ==> Le(ik.key, inputs[i][x].key)
    ensures forall i, x :: 0 <= i < ik.num && heads[i] <= x < |inputs[i]| ==> ik.key != inputs[i][x].key
  {
  }

  /** Popping the first key of the buffer and refilling it from the same input. */
  lemma PopKeepsBuffer(inputs: seq<seq<KeyValue>>, heads: seq<nat>, buf: Buffer, ik: IterKey, buf': Buffer)
    requires HeadsOk(inputs, heads) && AllSorted(inputs) && BufferOk(buf, inputs, heads) && ik in buf
    requires var h := heads[ik.num] + 1;
             buf' == if h < |inputs[ik.num]|
                     then (buf - {ik})[IterKey(inputs[ik.num][h].key, ik.num) := inputs[ik.num][h].data]
                     else buf - {ik}
    ensures HeadsOk(inputs, heads[ik.num := heads[ik.num] + 1])
    ensures BufferOk(buf', inputs, heads[ik.num := heads[ik.num] + 1])
  {
  }

  /** The next popped key has the value of the first input that holds it. */
  lemma AdvanceValue(inputs: seq<seq<KeyValue>>, heads: seq<nat>, buf: Buffer, n: Key, ik: IterKey)
    requires HeadsOk(inputs, heads) && AllSorted(inputs) && BufferOk(buf, inputs, heads) && CutAt(inputs, heads, n)
    requires ik in buf && ik.key != n && forall o :: o in buf && o != ik ==> Before(ik, o)
    ensures LayerFind(inputs, ik.key) == Some(buf[ik]) && Lt(n, ik.key)
  {
    FirstIsLeast(inputs, heads, buf, ik);
    assert Lt(n, ik.key) by {
      if Rank(n) == Rank(ik.key) { RankInjective(n, ik.key); }
    }
    forall i | 0 <= i < ik.num ensures !Holds(inputs[i], ik.key) {
      forall x | 0 <= x < |inputs[i]| ensures inputs[i][x].key != ik.key {
      }
    }
    LayerFirst(inputs, ik.num, ik.key);
    FindIndex(inputs[ik.num], heads[ik.num]);
  }

  /** Below it there is nothing but what was produced. */
  lemma AdvanceCovers(inputs: seq<seq<KeyValue>>, heads: seq<nat>, produced: seq<KeyValue>, n: KeyValue, k: Key)
    requires HeadsOk(inputs, heads) && CutAt(inputs, heads, n.key) && CoversBelow(inputs, produced, n.key)
    requires forall i, x :: 0 <= i < |inputs| && heads[i] <= x < |inputs[i]| ==> Le(k, inputs[i][x].key)
    ensures CoversBelow(inputs, produced + [n], k)
  {
    forall i, x | 0 <= i < |inputs| && 0 <= x < |inputs[i]| && Lt(inputs[i][x].key, k)
      ensures Holds(produced + [n], inputs[i][x].key)
    {
      FindAppend(produced, [n], inputs[i][x].key);
      RanksDiffer();
    }
  }

  /** The next popped key, larger than the produced one, is the next to produce. */
  lemma Advance(inputs: seq<seq<KeyValue>>, heads: seq<nat>, buf: Buffer, produced: seq<KeyValue>, n: KeyValue,
                ik: IterKey)
    requires HeadsOk(inputs, heads) && AllSorted(inputs) && BufferOk(buf, inputs, heads)
    requires NextOk(inputs, heads, produced, Some(n)) && ik in buf && ik.key != n.key
    requires forall o :: o in buf && o != ik ==> Before(ik, o)
    ensures HeadsOk(inputs, heads[ik.num := heads[ik.num] + 1])
    ensures NextOk(inputs, heads[ik.num := heads[ik.num] + 1], produced + [n], Some(KeyValue(ik.key, buf[ik])))
  {
    hide LayerFind, CoversBelow;
    AdvanceValue(inputs, heads, buf, n.key, ik);
    FirstIsLeast(inputs, heads, buf, ik);
    AdvanceCovers(inputs, heads, produced, n, ik.key);
  }

  lemma Finish(inputs: seq<seq<KeyValue>>, heads: seq<nat>, produced: seq<KeyValue>, n: KeyValue)
    requires HeadsOk(inputs, heads) && NextOk(inputs, heads, produced, Some(n))
    requires forall i :: 0 <= i < |inputs| ==> heads[i] == |inputs[i]|
    ensures CoversAll(inputs, produced + [n])
  {
    forall i, x | 0 <= i < |inputs| && 0 <= x < |inputs[i]| ensures Holds(produced + [n], inputs[i][x].key) {
      FindAppend(produced, [n], inputs[i][x].key);
      RanksDiffer();
    }
  }

  lemma AnswersSnoc(inputs: seq<seq<KeyValue>>, heads: seq<nat>, produced: seq<KeyValue>, n: KeyValue)
    requires HeadsOk(inputs, heads) && Answers(inputs, produced) && NextOk(inputs, heads, produced, Some(n))
    ensures Answers(inputs, produced + [n])
  {
  }

  /** Everything produced: the merge is the layered lookup. */
  lemma Complete(inputs: seq<seq<KeyValue>>, produced: seq<KeyValue>, k: Key)
    requires Answers(inputs, produced) && CoversAll(inputs, produced)
    ensures Find(produced, k) == LayerFind(inputs, k)
  {
    LayerNone(inputs, k);
    if Find(produced, k).None? {
      forall i | 0 <= i < |inputs| ensures !Holds(inputs[i], k) {
        forall x | 0 <= x < |inputs[i]| ensures inputs[i][x].key != k {
        }
      }
    }
  }

  ghost predicate Advanced(heads: seq<nat>, heads': seq<nat>, num: nat) {
    num < |heads| && heads' == heads[num := heads[num] + 1]
  }

  ghost predicate Buffered(inputs: seq<seq<KeyValue>>, taken: seq<nat>, buf: Buffer, heads: seq<nat>) {
    HeadsOk(inputs, heads) && AllSorted(inputs) && BufferOk(buf, inputs, heads) && TakenOk(inputs, heads, taken)
  }

  method Start(inputs: seq<seq<KeyValue>>)
    returns (buf: Buffer, taken: seq<nat>, next: Option<KeyValue>, ghost heads: seq<nat>)
    requires AllSorted(inputs)
    ensures Buffered(inputs, taken, buf, heads) && NextOk(inputs, heads, [], next)
  {
    heads := seq(|inputs|, _ => 0);
    buf, taken := FirstRows(inputs);
    if buf == map[] {
      EmptyBuffer(buf, inputs, heads);
      next := None;
    } else {
      var ik := FirstKey(buf);
      PeekOk(inputs, heads, buf, ik);
      next := Some(KeyValue(ik.key, buf[ik]));
    }
  }

  lemma NextNone(inputs: seq<seq<KeyValue>>, heads: seq<nat>, produced: seq<KeyValue>)
    requires HeadsOk(inputs, heads) && CoversAll(inputs, produced)
    requires forall i :: 0 <= i < |inputs| ==> heads[i] == |inputs[i]|
    ensures NextOk(inputs, heads, produced, None)
  {
  }

  /** Removes the first buffered row and refills the buffer from the same child. */
  method PopFirst(inputs: seq<seq<KeyValue>>, taken0: seq<nat>, buf0: Buffer, ghost heads0: seq<nat>)
    returns (ik: IterKey, taken: seq<nat>, buf: Buffer, ghost heads: seq<nat>)
    requires Buffered(inputs, taken0, buf0, heads0) && buf0 != map[]
    ensures ik in buf0 && forall o :: o in buf0 && o != ik ==> Before(ik, o)
    ensures Advanced(heads0, heads, ik.num) && Buffered(inputs, taken, buf, heads)
  {
    ik := FirstKey(buf0);
    buf, taken := buf0 - {ik}, taken0;
    if taken0[ik.num] < |inputs[ik.num]| {
      var row := inputs[ik.num][taken0[ik.num]];
      buf := buf[IterKey(row.key, ik.num) := row.data];
      taken := taken0[ik.num := taken0[ik.num] + 1];
    }
    PopKeepsBuffer(inputs, heads0, buf0, ik, buf);
    heads := heads0[ik.num := heads0[ik.num] + 1];
  }

  lemma BufferedHead(inputs: seq<seq<KeyValue>>, taken: seq<nat>, buf: Buffer, heads: seq<nat>, ik: IterKey)
    requires Buffered(inputs, taken, buf, heads) && ik in buf
    ensures HeadsOk(inputs, heads) && AllSorted(inputs) && BufferOk(buf, inputs, heads)
    ensures ik.num < |inputs| && heads[ik.num] < |inputs[ik.num]| && inputs[ik.num][heads[ik.num]].key == ik.key
  {
  }

  lemma SkipKeepsNext(inputs: seq<seq<KeyValue>>, heads: seq<nat>, produced: seq<KeyValue>, item: KeyValue, num: nat)
    requires HeadsOk(inputs, heads) && AllSorted(inputs) && NextOk(inputs, heads, produced, Some(item))
    requires num < |inputs| && heads[num] < |inputs[num]| && inputs[num][heads[num]].key == item.key
    ensures HeadsOk(inputs, heads[num := heads[num] + 1])
    ensures NextOk(inputs, heads[num := heads[num] + 1], produced, Some(item))
  {
  }

  /** What popping `ik` means for the row being returned: its duplicate, or the row after it. */
  lemma PopStep(inputs: seq<seq<KeyValue>>, taken: seq<nat>, buf: Buffer, heads: seq<nat>, heads': seq<nat>,
                produced: seq<KeyValue>, item: KeyValue, ik: IterKey)
    requires Buffered(inputs, taken, buf, heads) && NextOk(inputs, heads, produced, Some(item))
    requires ik in buf && (forall o :: o in buf && o != ik ==> Before(ik, o)) && Advanced(heads, heads', ik.num)
    ensures HeadsOk(inputs, heads') && Left(inputs, heads') == Left(inputs, heads) - 1
    ensures ik.key == item.key ==> NextOk(inputs, heads', produced, Some(item))
    ensures ik.key != item.key ==> NextOk(inputs, heads', produced + [item], Some(KeyValue(ik.key, buf[ik])))
  {
    hide Buffered, NextOk, AllSorted, BufferOk, Left, Before, HeadsOk;
    BufferedHead(inputs, taken, buf, heads, ik);
    LeftStep(inputs, heads, ik.num);
    if ik.key != item.key {
      Advance(inputs, heads, buf, produced, item, ik);
    } else {
      SkipKeepsNext(inputs, heads, produced, item, ik.num);
    }
  }

  lemma BufferedEnd(inputs: seq<seq<KeyValue>>, taken: seq<nat>, heads: seq<nat>)
    requires Buffered(inputs, taken, map[], heads)
    ensures HeadsOk(inputs, heads) && forall i :: 0 <= i < |inputs| ==> heads[i] == |inputs[i]|
  {
  }

  lemma BufferedHeads(inputs: seq<seq<KeyValue>>, taken: seq<nat>, buf: Buffer, heads: seq<nat>)
    requires Buffered(inputs, taken, buf, heads)
    ensures HeadsOk(inputs, heads)
  {
  }

  /** The loop of `try_next`: pops rows with the key being returned, then the next key. */
  method PopUntilNew(inputs: seq<seq<KeyValue>>, taken0: seq<nat>, buf0: Buffer, item: KeyValue,
                     ghost heads0: seq<nat>, ghost produced: seq<KeyValue>)
    returns (taken: seq<nat>, buf: Buffer, next: Option<KeyValue>, ghost heads: seq<nat>)
    requires Buffered(inputs, taken0, buf0, heads0) && NextOk(inputs, heads0, produced, Some(item))
    ensures Buffered(inputs, taken, buf, heads) && NextOk(inputs, heads, produced + [item], next)
    ensures Left(inputs, heads) <= Left(inputs, heads0) && (next.Some? ==> Left(inputs, heads) < Left(inputs, heads0))
  {
    BufferedHeads(inputs, taken0, buf0, heads0);
    hide Buffered, NextOk, AllSorted, BufferOk, Left, HeadsOk, Before, CoversAll, Advanced;
    taken, buf, heads := taken0, buf0, heads0;
    while buf != map[]
      invariant Buffered(inputs, taken, buf, heads) && HeadsOk(inputs, heads) &&
                NextOk(inputs, heads, produced, Some(item))
      invariant Left(inputs, heads) <= Left(inputs, heads0)
      decreases Left(inputs, heads)
    {
      ghost var hs, ts := heads, taken;
      var full := buf;
      var ik;
      ik, taken, buf, heads := PopFirst(inputs, taken, buf, heads);
      PopStep(inputs, ts, full, hs, heads, produced, item, ik);
      if ik.key != item.key {
        return taken, buf, Some(KeyValue(ik.key, full[ik])), heads;
      }
    }
    BufferedEnd(inputs, taken, heads);
    Finish(inputs, heads, produced, item);
    NextNone(inputs, heads, produced + [item]);
    next := None;
  }

  class MergingIter {
    /** What each child yields, and how many of its rows have been taken. */
    var inputs: seq<seq<KeyValue>>
    var taken: seq<nat>
    var mapBuf: Buffer
    var nextBuf: Option<KeyValue>
    ghost var heads: seq<nat>
    ghost var produced: seq<KeyValue>

    ghost predicate Valid()
      reads this
    {
      && Buffered(inputs, taken, mapBuf, heads) && Answers(inputs, produced) && NextOk(inputs, heads, produced, nextBuf)
    }

    ghost function Measure(): nat
      reads this
      requires Valid()
    {
      Left(inputs, heads) + if nextBuf.Some? then 1 else 0
    }

    constructor (children: seq<seq<KeyValue>>)
      requires AllSorted(children)
      ensures Valid() && inputs == children && produced == []
    {
      inputs := children;
      taken := [];
      mapBuf := map[];
      nextBuf := None;
      heads := [];
      produced := [];
      new;
      Fill();
    }

    /** Buffers the first row of every child and peeks at the smallest. */
    method Fill()
      requires AllSorted(inputs)
      modifies this
      ensures Valid() && inputs == old(inputs) && produced == []
    {
      produced := [];
      mapBuf, taken, nextBuf, heads := Start(inputs);
    }

    /** `SeekMergingIter::seek`. The merge starts over on the moved children; seeking the last element
        empties the buffer instead, and then nothing is pulled from any child any more. */
    method Seek(last: bool, children: seq<seq<KeyValue>>)
      requires AllSorted(children)
      modifies this
      ensures Valid() && produced == [] && (!last ==> inputs == children)
      ensures last ==> nextBuf == None && mapBuf == map[] && forall k :: LayerFind(inputs, k) == None
    {
      if last {
        inputs := [];
      } else {
        inputs := children;
      }
      Fill();
    }

    /** Produces the next row, or nothing once every key has been produced. */
    method TryNext() returns (r: Option<KeyValue>)
      requires Valid()
      modifies this
      ensures Valid() && inputs == old(inputs) && Answers(inputs, produced)
      ensures r.Some? ==> produced == old(produced) + [r.value] && Measure() < old(Measure())
      ensures r.Some? ==> CoversBelow(inputs, old(produced), r.value.key)
      ensures r.None? ==> produced == old(produced) && CoversAll(inputs, produced) && Measure() == old(Measure())
    {
      r := nextBuf;
      if nextBuf.Some? {
        AnswersSnoc(inputs, heads, produced, nextBuf.value);
        taken, mapBuf, nextBuf, heads := PopUntilNew(inputs, taken, mapBuf, nextBuf.value, heads, produced);
        produced := produced + [r.value];
      }
    }
  }

  lemma EmptyBuffer(buf: Buffer, inputs: seq<seq<KeyValue>>, heads: seq<nat>)
    requires HeadsOk(inputs, heads) && BufferOk(buf, inputs, heads) && buf == map[]
    ensures forall i :: 0 <= i < |inputs| ==> heads[i] == |inputs[i]|
  {
  }

  lemma PeekOk(inputs: seq<seq<KeyValue>>, heads: seq<nat>, buf: Buffer, ik: IterKey)
    requires HeadsOk(inputs, heads) && AllSorted(inputs) && BufferOk(buf, inputs, heads)
    requires (forall i :: 0 <= i < |heads| ==> heads[i] == 0) && ik in buf
    requires forall o :: o in buf && o != ik ==> Before(ik, o)
    ensures NextOk(inputs, heads, [], Some(KeyValue(ik.key, buf[ik])))
  {
    FirstIsLeast(inputs, heads, buf, ik);
    forall i | 0 <= i < ik.num ensures !Holds(inputs[i], ik.key) {
    }
    FindIndex(inputs[ik.num], 0);
    LayerFirst(inputs, ik.num, ik.key);
  }

  /** The whole output: the strictly ascending union, each key from the lowest-numbered holder. */
  method Merge(children: seq<seq<KeyValue>>) returns (rows: seq<KeyValue>)
    requires AllSorted(children)
    ensures Sorted(rows) && forall k :: Find(rows, k) == LayerFind(children, k)
  {
    var it := new MergingIter(children);
    rows := [];
    while true
      invariant it.Valid() && it.inputs == children && rows == it.produced && fresh(it)
      decreases it.Measure()
    {
      var r := it.TryNext();
      if r.None? {
        forall k ensures Find(rows, k) == LayerFind(children, k) { Complete(children, rows, k); }
        return;
      }
      rows := rows + [r.value];
    }
  }
}
