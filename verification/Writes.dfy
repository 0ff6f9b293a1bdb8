/** What a transaction's writes come to: its own reads, its commit and the records in history. */
module Writes {
  import opened Keys
  import opened Rows
  import opened MemTable
  import opened Mvcc
  import opened Reads

  /** Rows a transaction has written and not yet inserted. */
  function Written(tx: Stage): seq<KeyValue> {
    match tx
    case Running(_, _, _, _) => Buffered(tx)
    case Checked(_, rows) => rows
    case Committing(_, rows, _) => rows
    case _ => []
  }

  predicate Writing(tx: Stage) {
    tx.Running? || tx.Checked? || tx.Committing?
  }

  /** The last write of `t` to `k` among the first `i` steps, since it took its sequence. */
  function LastWrite(steps: seq<Step>, t: nat, i: nat, k: Key): Option<Option<Value>>
    requires i <= |steps|
  {
    if i == 0 || steps[i - 1] == BeginSeq(t) then None
    else if steps[i - 1].TxWrite? && steps[i - 1].t == t && steps[i - 1].kv.key == k then Some(steps[i - 1].kv.data)
    else LastWrite(steps, t, i - 1, k)
  }

  // ---- one step ----

  lemma BufferedSorted(s: State, t: nat)
    requires Inv(s) && t in s.txs && Writing(s.txs[t])
    ensures Sorted(Written(s.txs[t]))
  {
    hide StoreOk, IsView, Represents;
    assert StageOk(s, s.txs[t]);
  }

  /** Read-your-writes: after a write the key reads as written and every other key as before. */
  lemma WriteThenRead(s: State, s': State, t: nat, kv: KeyValue, k: Key)
    requires Inv(s) && Next(s, s', TxWrite(t, kv))
    ensures t in s'.txs && s'.txs[t].Running?
    ensures TxFind(s', s'.txs[t], k) == if k == kv.key then Some(kv.data) else TxFind(s, s.txs[t], k)
  {
    hide Inv, MemFind, Lookup, Upsert, Sorted;
    BufferedSorted(s, t);
    UpsertFind(Buffered(s.txs[t]), kv.key, kv.data, k);
  }

  /** What a step does to a transaction's rows. */
  lemma StepWrites(s: State, s': State, step: Step, t: nat, k: Key)
    requires Inv(s) && Next(s, s', step) && t in s'.txs && Writing(s'.txs[t])
    ensures step == BeginSeq(t) ==> Find(Written(s'.txs[t]), k) == None
    ensures step != BeginSeq(t) ==> t in s.txs && Writing(s.txs[t])
    ensures step != BeginSeq(t) ==>
              Find(Written(s'.txs[t]), k) ==
              if step.TxWrite? && step.t == t && step.kv.key == k then Some(step.kv.data)
              else Find(Written(s.txs[t]), k)
  {
    hide Inv, FlushRows, InsertBatch, AddBatch, Upsert, Sorted, Overlay, Insert, Conflicts;
    if step.TxWrite? {
      BufferedSorted(s, step.t);
      UpsertFind(Buffered(s.txs[step.t]), step.kv.key, step.kv.data, k);
    }
  }

  lemma KeysFound(rows: seq<KeyValue>, k: Key)
    ensures k in KeysOf(rows) <==> Find(rows, k).Some?
  {
    hide Find;
    if i :| 0 <= i < |rows| && rows[i].key == k { assert KeysOf(rows)[i] == k; }
  }

  /** The value a step gives a record it inserts. */
  lemma StepValue(s: State, s': State, step: Step, ik: InternalKey)
    requires Inv(s) && Next(s, s', step) && Inserts(s, step, ik)
    ensures ik in s'.hist && Some(s'.hist[ik]) ==
            if step.StoreWrite? then Some(step.kv.data) else Find(Written(s.txs[step.t]), ik.key)
  {
    hide Inv, FlushRows, InsertBatch, AddBatch, Upsert, Sorted, Overlay, Insert, Conflicts;
    if step.CommitInsert? {
      LateRecorded(s, s', step, ik.key);
    }
  }

  // ---- whole runs ----

  /** In every run the rows a transaction carries, also through its commit, answer every key with its
      last write to that key. */
  lemma {:induction false} RowsAreLastWrites(run: seq<State>, steps: seq<Step>, i: nat, t: nat, k: Key)
    requires Run(run, steps) && i < |run| && t in run[i].txs && Writing(run[i].txs[t])
    ensures i <= |steps| && Find(Written(run[i].txs[t]), k) == LastWrite(steps, t, i, k)
  {
    hide Inv, Next, Find, Written;
    if i > 0 {
      hide Init;
      RunStep(run, steps, i - 1);
      StepWrites(run[i - 1], run[i], steps[i - 1], t, k);
      if steps[i - 1] != BeginSeq(t) {
        RowsAreLastWrites(run, steps, i - 1, t, k);
      }
    }
  }

  /** In every run a live transaction reads its own last write to a key, and where it has none what a
      reader at its sequence sees. */
  lemma OwnReads(run: seq<State>, steps: seq<Step>, i: nat, t: nat, k: Key)
    requires Run(run, steps) && i < |run| && t in run[i].txs && run[i].txs[t].Running?
    ensures i <= |steps| && 0 <= run[i].txs[t].seqId < run[i].nextSeq
    ensures TxFind(run[i], run[i].txs[t], k) ==
            OrElse(LastWrite(steps, t, i, k), Seen(run[i], k, run[i].txs[t].seqId))
  {
    hide Inv, Init, Next, Run, MemFind, Lookup, Seen, LastWrite;
    RunInv(run, steps, i);
    SequenceBound(run[i], t);
    RowsAreLastWrites(run, steps, i, t, k);
    if LastWrite(steps, t, i, k).None? {
      ReadNow(run[i], t, k);
    }
  }

  /** The value that step `m` of a run gives the key it writes. */
  function InsertedValue(steps: seq<Step>, m: nat, k: Key): Option<Option<Value>>
    requires m < |steps|
  {
    if steps[m].StoreWrite? then Some(steps[m].kv.data)
    else if steps[m].CommitInsert? then LastWrite(steps, steps[m].t, m, k)
    else None
  }

  /** In every run a record has, ever after, the value its store write was given or the last write of
      its transaction to the key. */
  lemma {:induction false} RecordValue(run: seq<State>, steps: seq<Step>, m: nat, i: nat, ik: InternalKey)
    requires Run(run, steps) && m < i < |run| && Inserts(run[m], steps[m], ik)
    ensures ik in run[i].hist && Some(run[i].hist[ik]) == InsertedValue(steps, m, ik.key)
    decreases i
  {
    hide Inv, Init, Next, LastWrite, Written, Find;
    RunStep(run, steps, i - 1);
    if i == m + 1 {
      StepValue(run[m], run[i], steps[m], ik);
      if steps[m].CommitInsert? {
        RowsAreLastWrites(run, steps, m, steps[m].t, ik.key);
      }
    } else {
      RecordValue(run, steps, m, i - 1, ik);
      StepInserts(run[i - 1], run[i], steps[i - 1]);
    }
  }

  /** A commit inserts, in one step and at one sequence, exactly the keys its transaction has written,
      each with its last write. */
  lemma CommitInsertsLastWrites(run: seq<State>, steps: seq<Step>, i: nat, t: nat, k: Key)
    requires Run(run, steps) && i < |steps| && steps[i] == CommitInsert(t)
    ensures t in run[i].txs && run[i].txs[t].Committing? && i < |run| && i + 1 < |run|
    ensures var ik := InternalKey(k, run[i].txs[t].at);
            && ik !in run[i].hist
            && (ik in run[i + 1].hist <==> LastWrite(steps, t, i, k).Some?)
            && (ik in run[i + 1].hist ==> Some(run[i + 1].hist[ik]) == LastWrite(steps, t, i, k))
  {
    hide Inv, Init, LastWrite, InsertBatch, AddBatch, Find;
    RunStep(run, steps, i);
    CommitStep(run[i], run[i + 1], t);
    RowsAreLastWrites(run, steps, i, t, k);
    KeysFound(run[i].txs[t].rows, k);
    var ik := InternalKey(k, run[i].txs[t].at);
    if LastWrite(steps, t, i, k).Some? {
      assert Inserts(run[i], steps[i], ik);
      StepValue(run[i], run[i + 1], steps[i], ik);
    }
  }
}
