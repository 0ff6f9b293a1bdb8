/** What transactions and the store read, over whole runs. */
module Reads {
  import opened Keys
  import opened Rows
  import opened MemTable
  import opened Mvcc

  // ---- what a step writes ----

  /** The step makes the record of `ik` visible. */
  predicate Inserts(s: State, step: Step, ik: InternalKey) {
    || (step.StoreWrite? && ik == InternalKey(step.kv.key, s.nextSeq))
    || (step.CommitInsert? && step.t in s.txs && s.txs[step.t].Committing?
        && ik.seqId == s.txs[step.t].at && ik.key in KeysOf(s.txs[step.t].rows))
  }

  /** Nothing recorded is lost or changed. */
  ghost predicate Kept(h: History, h': History) {
    forall ik :: ik in h ==> ik in h' && h[ik] == h'[ik]
  }

  lemma {:induction false} AddBatchValue(h: History, rows: seq<KeyValue>, s: I64, i: nat)
    requires Sorted(rows) && i < |rows|
    ensures InternalKey(rows[i].key, s) in AddBatch(h, rows, s)
    ensures AddBatch(h, rows, s)[InternalKey(rows[i].key, s)] == rows[i].data
  {
    var init := rows[..|rows| - 1];
    if i < |init| {
      assert Lt(rows[i].key, rows[|rows| - 1].key);
      AddBatchValue(h, init, s, i);
    }
  }

  lemma CommitStep(s: State, s': State, t: nat)
    requires Inv(s) && Next(s, s', CommitInsert(t))
    ensures forall ik :: ik in s'.hist <==> ik in s.hist || Inserts(s, CommitInsert(t), ik)
    ensures Kept(s.hist, s'.hist) && forall ik :: ik in s.hist ==> ik.seqId != s.txs[t].at
    ensures s.liveFrom <= s.txs[t].at < s.nextSeq && Sorted(s.txs[t].rows)
  {
    hide StoreOk, Conflicts, InsertBatch, AddBatch, Represents;
    var tx := s.txs[t];
    assert StageOk(s, tx);
    AddBatchAdds(s.hist, tx.rows, tx.at);
  }

  lemma StepInserts(s: State, s': State, step: Step)
    requires Inv(s) && Next(s, s', step)
    ensures forall ik :: ik in s'.hist <==> ik in s.hist || Inserts(s, step, ik)
    ensures Kept(s.hist, s'.hist) && SameBelow(s.hist, s'.hist, s.liveFrom)
    ensures forall ik :: Inserts(s, step, ik) ==> ik !in s.hist
  {
    hide Inv, Enabled, Do;
    StoreHistory(s) by { assert StoreOk(s) by { InvStore(s); } }
    if step.CommitInsert? {
      CommitStep(s, s', step.t);
    } else {
      OtherSteps(s, s', step);
    }
  }

  /** A step other than a commit's insert writes at most one record, at the next sequence. */
  lemma OtherSteps(s: State, s': State, step: Step)
    requires Next(s, s', step) && !step.CommitInsert?
    ensures !step.StoreWrite? ==> s'.hist == s.hist
    ensures step.StoreWrite? ==>
              s.nextSeq < SEQ_MAX && s'.hist == s.hist[InternalKey(step.kv.key, s.nextSeq) := step.kv.data]
  {
    hide FlushRows, InsertBatch, AddBatch, Upsert, Sorted, Overlay, Insert, CheckResult;
  }

  lemma InvStore(s: State)
    requires Inv(s)
    ensures StoreOk(s) && s.viewMark <= s.liveFrom && s.frozenFrom <= s.viewMark
  {
  }

  /** Marks only move forward, to where the sequence stood or to the mark before them. */
  lemma StepMarks(s: State, s': State, step: Step)
    requires Inv(s) && Next(s, s', step)
    ensures s'.base == s.base && s.nextSeq <= s'.nextSeq
    ensures s'.liveFrom == s.liveFrom || (s'.liveFrom == s.nextSeq && s'.hist == s.hist && s'.nextSeq == s.nextSeq)
    ensures s'.viewMark == s.viewMark || s'.viewMark == s.liveFrom == s'.liveFrom
  {
    hide Inv, FlushRows, InsertBatch, AddBatch, Upsert, Sorted, Overlay, Insert, CheckResult;
  }

  lemma KeepsSequence(s: State, s': State, step: Step, t: nat)
    requires Next(s, s', step) && t in s.txs && s.txs[t].Running? && t in s'.txs && s'.txs[t].Running?
    ensures s'.txs[t].seqId == s.txs[t].seqId
  {
    hide FlushRows, InsertBatch, AddBatch, Upsert, Sorted, Overlay, Insert, Conflicts;
  }

  // ---- the version a read returns ----

  /** The sequence of the newest write to `k` below `hi`, -1 if there is none. */
  ghost function VersionRead(h: History, k: Key, hi: int): int
    requires hi <= SEQ_MAX + 1
    decreases if hi < 0 then 0 else hi
  {
    if hi <= 0 then -1 else if InternalKey(k, hi - 1) in h then hi - 1 else VersionRead(h, k, hi - 1)
  }

  lemma {:induction false} VersionIsNewest(h: History, k: Key, hi: int)
    requires hi <= SEQ_MAX + 1
    ensures var v := VersionRead(h, k, hi);
            && -1 <= v && (v >= 0 ==> v < hi && InternalKey(k, v) in h)
            && (forall ik :: ik in h && ik.key == k && 0 <= ik.seqId < hi ==> ik.seqId <= v)
            && NewestIn(h, k, 0, hi) == (if v < 0 then None else Some(h[InternalKey(k, v)]))
    decreases if hi < 0 then 0 else hi
  {
    if hi > 0 && InternalKey(k, hi - 1) !in h {
      VersionIsNewest(h, k, hi - 1);
      assert forall ik: InternalKey :: ik.key == k && ik.seqId == hi - 1 ==> ik == InternalKey(k, hi - 1);
    }
  }

  lemma VersionUnique(h: History, k: Key, hi: int, v: int)
    requires hi <= SEQ_MAX + 1 && -1 <= v && (v >= 0 ==> v < hi && InternalKey(k, v) in h)
    requires forall ik :: ik in h && ik.key == k && 0 <= ik.seqId < hi ==> ik.seqId <= v
    ensures VersionRead(h, k, hi) == v
  {
    VersionIsNewest(h, k, hi);
    var w := VersionRead(h, k, hi);
    assert w >= 0 ==> InternalKey(k, w) in h;
    assert v >= 0 ==> InternalKey(k, v) in h;
  }

  /** The step is the insert of a commit whose sequence a reader at `q` has already passed, and no
      version in between hides it from that reader. */
  ghost predicate Late(s: State, step: Step, k: Key, q: int) {
    && step.CommitInsert? && step.t in s.txs && s.txs[step.t].Committing?
    && s.txs[step.t].at <= q && k in KeysOf(s.txs[step.t].rows)
    && forall ik :: ik in s.hist && ik.key == k && ik.seqId <= q ==> ik.seqId < s.txs[step.t].at
  }

  /** The value a late insert gives the key. */
  function LateValue(s: State, step: Step, k: Key): Option<Option<Value>>
    requires step.CommitInsert? && step.t in s.txs && s.txs[step.t].Committing?
  {
    Find(s.txs[step.t].rows, k)
  }

  /** Snapshots are decided by the version read. */
  lemma SnapshotIsVersion(base: View, h: History, k: Key, hi: int)
    requires hi <= SEQ_MAX + 1
    ensures var v := VersionRead(h, k, hi);
            && (v >= 0 ==> v < hi && InternalKey(k, v) in h)
            && Snapshot(base, h, k, hi) == if v < 0 then Lookup(base, k) else Some(h[InternalKey(k, v)])
  {
    VersionIsNewest(h, k, hi);
  }

  /** Without a late insert the version read stays. */
  lemma NotLateVersion(s: State, s': State, step: Step, k: Key, q: int)
    requires Inv(s) && Next(s, s', step) && 0 <= q < s.nextSeq && q <= SEQ_MAX && !Late(s, step, k, q)
    ensures VersionRead(s'.hist, k, q + 1) == VersionRead(s.hist, k, q + 1)
  {
    hide Inv, Enabled, Do, Next, Late, Inserts, SameBelow;
    StepInserts(s, s', step);
    InvStore(s);
    StoreHistory(s);
    VersionIsNewest(s.hist, k, q + 1);
    var v := VersionRead(s.hist, k, q + 1);
    forall ik | ik in s'.hist && ik.key == k && 0 <= ik.seqId < q + 1 ensures ik.seqId <= v {
      if ik !in s.hist {
        assert Inserts(s, step, ik);
        NotLate(s, step, ik, q, v);
      }
    }
    VersionUnique(s'.hist, k, q + 1, v);
  }

  /** A late insert is the version read. */
  lemma LateVersion(s: State, s': State, step: Step, k: Key, q: int)
    requires Inv(s) && Next(s, s', step) && 0 <= q < s.nextSeq && q <= SEQ_MAX && Late(s, step, k, q)
    ensures VersionRead(s'.hist, k, q + 1) == s.txs[step.t].at
    ensures VersionRead(s.hist, k, q + 1) < s.txs[step.t].at
  {
    hide Inv, Enabled, Do, Next, SameBelow, LateValue;
    StepInserts(s, s', step);
    VersionIsNewest(s.hist, k, q + 1);
    LateRecorded(s, s', step, k);
    VersionUnique(s'.hist, k, q + 1, s.txs[step.t].at);
  }

  /** What a reader at `q` sees of a key changes exactly by a late insert. */
  lemma LateStep(s: State, s': State, step: Step, k: Key, q: int)
    requires Inv(s) && Next(s, s', step) && 0 <= q < s.nextSeq && q <= SEQ_MAX
    ensures VersionRead(s'.hist, k, q + 1) ==
            if Late(s, step, k, q) then s.txs[step.t].at else VersionRead(s.hist, k, q + 1)
    ensures Late(s, step, k, q) ==> VersionRead(s.hist, k, q + 1) < s.txs[step.t].at
    ensures Snapshot(s'.base, s'.hist, k, q + 1) ==
            if Late(s, step, k, q) then LateValue(s, step, k) else Snapshot(s.base, s.hist, k, q + 1)
  {
    hide Inv, Enabled, Do, Next, Snapshot, VersionRead, SameBelow, LateValue, Inserts;
    StepMarks(s, s', step);
    SnapshotIsVersion(s.base, s.hist, k, q + 1);
    SnapshotIsVersion(s'.base, s'.hist, k, q + 1);
    if Late(s, step, k, q) {
      LateVersion(s, s', step, k, q);
      LateRecorded(s, s', step, k);
    } else {
      NotLateVersion(s, s', step, k, q);
      StepInserts(s, s', step);
    }
  }

  lemma LateRecorded(s: State, s': State, step: Step, k: Key)
    requires Inv(s) && Next(s, s', step) && step.CommitInsert? && k in KeysOf(s.txs[step.t].rows)
    ensures var at := s.txs[step.t].at;
            InternalKey(k, at) in s'.hist && Some(s'.hist[InternalKey(k, at)]) == LateValue(s, step, k) && 0 <= at
  {
    hide StoreOk, InsertBatch, AddBatch, Represents;
    var tx := s.txs[step.t];
    assert StageOk(s, tx);
    var i :| 0 <= i < |tx.rows| && tx.rows[i].key == k;
    AddBatchValue(s.hist, tx.rows, tx.at, i);
    FindIndex(tx.rows, i);
  }

  lemma NotLate(s: State, step: Step, ik: InternalKey, q: int, v: int)
    requires Inserts(s, step, ik) && !Late(s, step, ik.key, q) && ik.seqId <= q < s.nextSeq
    requires forall o :: o in s.hist && o.key == ik.key && 0 <= o.seqId < q + 1 ==> o.seqId <= v
    requires forall o :: o in s.hist ==> 0 <= o.seqId
    ensures ik.seqId <= v
  {
  }

  // ---- snapshot stability ----

  ghost predicate LiveThroughout(run: seq<State>, i: nat, j: nat, t: nat)
    requires i <= j < |run|
  {
    forall x :: i <= x <= j ==> t in run[x].txs && run[x].txs[t].Running?
  }

  lemma {:induction false} SameTransaction(run: seq<State>, steps: seq<Step>, i: nat, j: nat, t: nat)
    requires Run(run, steps) && i <= j < |run| && LiveThroughout(run, i, j, t)
    ensures run[i].txs[t].seqId == run[j].txs[t].seqId
    decreases j
  {
    hide Inv, Init, Next;
    if i < j {
      SameTransaction(run, steps, i, j - 1, t);
      RunStep(run, steps, j - 1);
      KeepsSequence(run[j - 1], run[j], steps[j - 1], t);
    }
  }

  lemma SequenceBound(s: State, t: nat)
    requires Inv(s) && t in s.txs && s.txs[t].Running?
    ensures 0 <= s.txs[t].seqId < s.nextSeq && StoreOk(s) && StageOk(s, s.txs[t])
  {
    assert StageOk(s, s.txs[t]);
    hide IsView, Represents;
  }

  /** No late insert between two moments. */
  ghost predicate NoneLate(run: seq<State>, steps: seq<Step>, i: nat, j: nat, k: Key, q: int)
    requires |run| == |steps| + 1 && i <= j < |run|
  {
    forall m {:trigger steps[m]} :: i <= m < j ==> !Late(run[m], steps[m], k, q)
  }

  lemma {:induction false} VersionsBetween(run: seq<State>, steps: seq<Step>, i: nat, j: nat, k: Key, q: int)
    requires Run(run, steps) && i <= j < |run| && 0 <= q < run[i].nextSeq && q <= SEQ_MAX
    ensures run[i].nextSeq <= run[j].nextSeq && run[i].base == run[j].base
    ensures VersionRead(run[i].hist, k, q + 1) <= VersionRead(run[j].hist, k, q + 1)
    ensures VersionRead(run[i].hist, k, q + 1) == VersionRead(run[j].hist, k, q + 1) <==>
              NoneLate(run, steps, i, j, k, q)
    ensures NoneLate(run, steps, i, j, k, q) ==>
              Snapshot(run[i].base, run[i].hist, k, q + 1) == Snapshot(run[j].base, run[j].hist, k, q + 1)
    decreases j
  {
    hide Inv, Init, Next, Late, Snapshot, VersionRead;
    if i < j {
      VersionsBetween(run, steps, i, j - 1, k, q);
      RunStep(run, steps, j - 1);
      LateStep(run[j - 1], run[j], steps[j - 1], k, q);
      StepMarks(run[j - 1], run[j], steps[j - 1]);
      assert NoneLate(run, steps, i, j, k, q) <==>
             NoneLate(run, steps, i, j - 1, k, q) && !Late(run[j - 1], steps[j - 1], k, q);
    }
  }

  /** What a reader at `q` sees of a key: the newest write, as a file gives it back once the write has
      left the memtable. */
  ghost function Seen(s: State, k: Key, q: int): Option<Option<Value>>
    requires q <= SEQ_MAX
  {
    var snap := Snapshot(s.base, s.hist, k, q + 1);
    if VersionRead(s.hist, k, q + 1) >= s.frozenFrom then snap else NormalFound(snap)
  }

  lemma {:induction false} InStretch(h: History, k: Key, lo: int, hi: int)
    requires 0 <= lo <= hi <= SEQ_MAX + 1
    ensures NewestIn(h, k, lo, hi).Some? <==> VersionRead(h, k, hi) >= lo
    decreases hi
  {
    if lo == hi {
      VersionIsNewest(h, k, hi);
    } else if InternalKey(k, hi - 1) !in h {
      InStretch(h, k, lo, hi - 1);
    }
  }

  lemma ReadNow(s: State, t: nat, k: Key)
    requires Inv(s) && t in s.txs && s.txs[t].Running? && Unwritten(s.txs[t], k)
    ensures 0 <= s.txs[t].seqId < s.nextSeq && TxFind(s, s.txs[t], k) == Seen(s, k, s.txs[t].seqId)
    ensures var mem, snap := MemFind(s.mem, s.immut, k, s.txs[t].seqId),
                Snapshot(s.base, s.hist, k, s.txs[t].seqId + 1);
            TxFind(s, s.txs[t], k) == snap <==> mem.Some? || snap != Some(Some([]))
  {
    hide Represents, Snapshot, IsView, TxFind, MemFind;
    SequenceBound(s, t);
    ReadIsSnapshot(s, s.txs[t], k);
    MemFindIsNewest(s, k, s.txs[t].seqId);
    InStretch(s.hist, k, s.frozenFrom, s.txs[t].seqId + 1);
  }

  /** With a transaction counted and the lock free, nothing is swapped. */
  lemma LockStaysFree(s: State, s': State, step: Step, t: nat)
    requires Inv(s) && Next(s, s', step) && t in s.txs && !s.swapping
    ensures !s'.swapping && s'.frozenFrom == s.frozenFrom && s'.liveFrom == s.liveFrom
  {
    hide StoreOk, StagesOk, FlushRows, InsertBatch, AddBatch, Upsert, Sorted, Overlay, Insert, CheckResult;
    assert s.txs.Keys != {};
  }

  lemma {:induction false} FreeThroughout(run: seq<State>, steps: seq<Step>, i: nat, j: nat, t: nat)
    requires Run(run, steps) && i <= j < |run| && LiveThroughout(run, i, j, t) && !run[i].swapping
    ensures !run[j].swapping && run[j].frozenFrom == run[i].frozenFrom && run[j].liveFrom == run[i].liveFrom
    decreases j
  {
    hide Inv, Init, Next;
    if i < j {
      FreeThroughout(run, steps, i, j - 1, t);
      RunStep(run, steps, j - 1);
      LockStaysFree(run[j - 1], run[j], steps[j - 1], t);
    }
  }

  /** A live transaction reads the same version of an unwritten key at two moments exactly if no
      commit that took its sequence before the transaction began inserts in between, unhidden. Reads
      take the memtable lock, and from a moment when it is free the same version is the same answer. */
  lemma SameVersionIff(run: seq<State>, steps: seq<Step>, i: nat, j: nat, t: nat, k: Key)
    requires Run(run, steps) && i <= j < |run| && LiveThroughout(run, i, j, t)
    requires Unwritten(run[i].txs[t], k) && Unwritten(run[j].txs[t], k)
    ensures var q := run[i].txs[t].seqId;
            && run[j].txs[t].seqId == q
            && (VersionRead(run[i].hist, k, q + 1) == VersionRead(run[j].hist, k, q + 1) <==>
                NoneLate(run, steps, i, j, k, q))
            && (NoneLate(run, steps, i, j, k, q) && !run[i].swapping ==>
                TxFind(run[i], run[i].txs[t], k) == TxFind(run[j], run[j].txs[t], k))
  {
    hide Inv, Init, Next, Snapshot, VersionRead, NoneLate, TxFind;
    RunInv(run, steps, i);
    RunInv(run, steps, j);
    SameTransaction(run, steps, i, j, t);
    ReadNow(run[i], t, k);
    ReadNow(run[j], t, k);
    VersionsBetween(run, steps, i, j, k, run[i].txs[t].seqId);
    if !run[i].swapping { FreeThroughout(run, steps, i, j, t); }
  }

  /** The answers agree exactly if no late insert happened or the last one wrote the same value. */
  lemma ReadsAgreeIff(run: seq<State>, steps: seq<Step>, i: nat, j: nat, t: nat, k: Key, m: nat)
    requires Run(run, steps) && i <= m < j < |run| && LiveThroughout(run, i, j, t)
    requires Unwritten(run[i].txs[t], k) && Unwritten(run[j].txs[t], k)
    requires Late(run[m], steps[m], k, run[i].txs[t].seqId) && NoneLate(run, steps, m + 1, j, k, run[i].txs[t].seqId)
    ensures TxFind(run[j], run[j].txs[t], k) == LateValue(run[m], steps[m], k)
    ensures TxFind(run[i], run[i].txs[t], k) == TxFind(run[j], run[j].txs[t], k) <==>
            TxFind(run[i], run[i].txs[t], k) == LateValue(run[m], steps[m], k)
  {
    hide Inv, Init, Next, Snapshot, VersionRead, NoneLate, LateValue, TxFind, StoreOk;
    var q := run[i].txs[t].seqId;
    RunInv(run, steps, i);
    RunInv(run, steps, j);
    RunStep(run, steps, m);
    SameTransaction(run, steps, i, j, t);
    ReadNow(run[i], t, k);
    ReadNow(run[j], t, k);
    VersionsBetween(run, steps, i, m, k, q);
    LateStep(run[m], run[m + 1], steps[m], k, q);
    LateInMemory(run[m], run[m + 1], steps[m]);
    FreeThroughout(run, steps, m + 1, j, t);
    StepMarks(run[m], run[m + 1], steps[m]);
    VersionsBetween(run, steps, m + 1, j, k, q);
  }

  /** A commit inserts with the lock, into the live map. */
  lemma LateInMemory(s: State, s': State, step: Step)
    requires Inv(s) && Next(s, s', step) && step.CommitInsert?
    ensures !s'.swapping && s'.frozenFrom <= s.txs[step.t].at
  {
    hide InsertBatch, AddBatch, Represents, IsView, Sorted;
    assert StageOk(s, s.txs[step.t]);
  }

  /** No transaction takes its sequence while another is between its sequence and its insert. */
  ghost predicate BeginsOutside(run: seq<State>, steps: seq<Step>)
    requires |run| == |steps| + 1
  {
    forall m, u {:trigger steps[m], run[m].txs[u]} ::
      0 <= m < |steps| && steps[m].BeginSeq? && u in run[m].txs ==> !run[m].txs[u].Committing?
  }

  /** Every running transaction began before every pending commit took its sequence. */
  ghost predicate Ahead(s: State) {
    forall t, u :: t in s.txs && u in s.txs && s.txs[t].Running? && s.txs[u].Committing? ==>
      s.txs[t].seqId < s.txs[u].at
  }

  lemma AheadStep(s: State, s': State, step: Step)
    requires Inv(s) && Ahead(s) && Next(s, s', step)
    requires step.BeginSeq? ==> forall u :: u in s.txs ==> !s.txs[u].Committing?
    ensures Ahead(s')
  {
    hide Inv, FlushRows, InsertBatch, AddBatch, Upsert, Sorted, Overlay, Insert, Conflicts;
    RunningBelow(s);
  }

  lemma RunningBelow(s: State)
    requires Inv(s)
    ensures forall t :: t in s.txs && s.txs[t].Running? ==> s.txs[t].seqId < s.nextSeq
  {
    hide StoreOk, OwnSequences, IsView;
    forall t | t in s.txs && s.txs[t].Running? ensures s.txs[t].seqId < s.nextSeq {
      assert StageOk(s, s.txs[t]);
    }
  }

  lemma {:induction false} AheadAlways(run: seq<State>, steps: seq<Step>, i: nat)
    requires Run(run, steps) && BeginsOutside(run, steps) && i < |run|
    ensures Ahead(run[i])
  {
    hide Inv, Next;
    if i > 0 {
      AheadAlways(run, steps, i - 1);
      RunStep(run, steps, i - 1);
      hide Ahead;
      if steps[i - 1].BeginSeq? {
        var txs := run[i - 1].txs;
        assert forall u :: u in txs ==> !txs[u].Committing?;
      }
      AheadStep(run[i - 1], run[i], steps[i - 1]);
    }
  }

  /** Snapshot stability: if no transaction takes its sequence inside another's window from sequence
      to insert, a live transaction reads the same answer for a key it has not written at any two
      moments when the memtable lock is free. It is the newest write up to its own sequence exactly if
      the memtable holds that write or it is not an empty value. */
  lemma SnapshotStability(run: seq<State>, steps: seq<Step>, i: nat, j: nat, t: nat, k: Key)
    requires Run(run, steps) && i <= j < |run| && LiveThroughout(run, i, j, t) && BeginsOutside(run, steps)
    requires Unwritten(run[i].txs[t], k) && Unwritten(run[j].txs[t], k)
    ensures !run[i].swapping ==> TxFind(run[i], run[i].txs[t], k) == TxFind(run[j], run[j].txs[t], k)
    ensures var s, q := run[j], run[j].txs[t].seqId;
            var snap := Snapshot(s.base, s.hist, k, q + 1);
            && TxFind(s, s.txs[t], k) == Seen(s, k, q)
            && (TxFind(s, s.txs[t], k) == snap <==> MemFind(s.mem, s.immut, k, q).Some? || snap != Some(Some([])))
  {
    hide Inv, Init, Next, Snapshot, VersionRead, Run, BeginsOutside, TxFind, Seen;
    var q := run[i].txs[t].seqId;
    RunLength(run, steps);
    forall m {:trigger steps[m]} | i <= m < j ensures !Late(run[m], steps[m], k, q) {
      AheadAlways(run, steps, m);
      SameTransaction(run, steps, i, m, t);
    }
    RunInv(run, steps, j);
    ReadNow(run[j], t, k);
    SameVersionIff(run, steps, i, j, t, k);
  }

  lemma RunLength(run: seq<State>, steps: seq<Step>)
    requires Run(run, steps)
    ensures |run| == |steps| + 1
  {
  }

  // ---- reads of the store ----

  /** What the store holds for a key right now. */
  ghost function Current(s: State, k: Key): Option<Option<Value>> {
    Snapshot(s.base, s.hist, k, s.nextSeq)
  }

  /** A hit in the memtable is the current value; a miss means only the version can hold it. */
  lemma MemtableLook(s: State, k: Key)
    requires StoreOk(s)
    ensures var hit := MemFind(s.mem, s.immut, k, SEQ_MAX);
            && (hit.Some? ==> hit == Current(s, k))
            && (hit.None? ==> forall ik :: ik in s.hist && ik.key == k ==> ik.seqId < s.frozenFrom)
  {
    hide Represents, MemFind, IsView;
    MemFindIsNewest(s, k, SEQ_MAX);
    NewestSplit(s.hist, k, 0, s.frozenFrom, s.nextSeq);
    if MemFind(s.mem, s.immut, k, SEQ_MAX).None? {
      NewestNone(s.hist, k, s.frozenFrom, s.nextSeq);
    }
  }

  lemma {:induction false} NewestNone(h: History, k: Key, lo: int, hi: int)
    requires SEQ_MIN <= lo && hi <= SEQ_MAX + 1 && NewestIn(h, k, lo, hi).None?
    ensures forall ik :: ik in h && ik.key == k && lo <= ik.seqId ==> ik.seqId >= hi
    decreases hi - lo
  {
    if lo < hi {
      NewestNone(h, k, lo, hi - 1);
      assert forall ik: InternalKey :: ik.key == k && ik.seqId == hi - 1 ==> ik == InternalKey(k, hi - 1);
    }
  }

  /** Nothing below a mark of state `j` was written since moment `m`: when the mark was the sequence,
      or moment `i` if the mark was already passed then. */
  ghost predicate Settled(run: seq<State>, i: nat, j: nat, mark: int, m: nat)
    requires j < |run|
  {
    && i <= m <= j && SameBelow(run[m].hist, run[j].hist, mark)
    && (run[m].nextSeq == mark || (m == i && mark < run[i].nextSeq))
  }

  lemma SettledStep(run: seq<State>, i: nat, j: nat, mark: int, m: nat, top: int)
    requires j + 1 < |run| && Settled(run, i, j, mark, m) && SameBelow(run[j].hist, run[j + 1].hist, top) && mark <= top
    ensures Settled(run, i, j + 1, mark, m)
  {
  }

  lemma SettledNow(run: seq<State>, i: nat, j: nat, mark: int)
    requires i <= j < |run| && (run[j].nextSeq == mark || (j == i && mark < run[i].nextSeq))
    ensures Settled(run, i, j, mark, j)
  {
  }

  lemma {:induction false} MarksSettle(run: seq<State>, steps: seq<Step>, i: nat, j: nat) returns (live: nat, view: nat)
    requires Run(run, steps) && i <= j < |run|
    ensures Settled(run, i, j, run[j].liveFrom, live) && Settled(run, i, j, run[j].viewMark, view)
    ensures run[j].base == run[i].base && run[i].viewMark <= run[j].viewMark
    decreases j
  {
    hide Inv, Init, Next, Settled, SameBelow, Kept, StoreOk;
    if i == j {
      RunInv(run, steps, j);
      InvStore(run[j]);
      StoreHistory(run[j]);
      live, view := j, j;
      SettledNow(run, i, j, run[j].liveFrom);
      SettledNow(run, i, j, run[j].viewMark);
    } else {
      live, view := MarksSettle(run, steps, i, j - 1);
      RunStep(run, steps, j - 1);
      var s, s' := run[j - 1], run[j];
      StepMarks(s, s', steps[j - 1]);
      StepInserts(s, s', steps[j - 1]);
      InvStore(s);
      if s'.viewMark == s.viewMark {
        SettledStep(run, i, j - 1, s.viewMark, view, s.liveFrom);
      } else {
        SettledStep(run, i, j - 1, s.liveFrom, live, s.liveFrom);
        view := live;
      }
      if s'.liveFrom == s.liveFrom {
        SettledStep(run, i, j - 1, s.liveFrom, live, s.liveFrom);
      } else {
        live := j;
        SettledNow(run, i, j, s'.liveFrom);
      }
    }
  }

  /** `KipStorage::get` looks in the memtable and, on a miss, in the version current some time later.
      Hit or miss, it answers with what the store held at one moment between the two looks, on a miss
      as a file gives it back: exactly what the store held unless that was an empty value on a miss. */
  lemma StoreGetIsLinearizable(run: seq<State>, steps: seq<Step>, i: nat, j: nat, k: Key)
    requires Run(run, steps) && i <= j < |run|
    ensures var hit := MemFind(run[i].mem, run[i].immut, k, SEQ_MAX);
            var answer := OrElse(hit, Lookup(run[j].view, k));
            exists m ::
              && i <= m <= j
              && answer == (if hit.Some? then Current(run[m], k) else NormalFound(Current(run[m], k)))
              && (answer == Current(run[m], k) <==> hit.Some? || Current(run[m], k) != Some(Some([])))
  {
    hide Inv, Init, Next, Current, MemFind, SameBelow, StoreOk;
    RunInv(run, steps, i);
    RunInv(run, steps, j);
    InvStore(run[i]);
    InvStore(run[j]);
    MemtableLook(run[i], k);
    if MemFind(run[i].mem, run[i].immut, k, SEQ_MAX).None? {
      var live, m := MarksSettle(run, steps, i, j);
      if run[m].nextSeq == run[j].viewMark {
        SameBase(run, steps, m, j);
        VersionAnswers(run[j], run[m], k);
        assert NormalFound(Current(run[m], k)) == Lookup(run[j].view, k);
      } else {
        MissMeansVersion(run[i], run[j], k);
        assert NormalFound(Current(run[i], k)) == Lookup(run[j].view, k);
      }
    } else {
      assert Current(run[i], k) == MemFind(run[i].mem, run[i].immut, k, SEQ_MAX);
    }
  }

  lemma SameBase(run: seq<State>, steps: seq<Step>, i: nat, j: nat)
    requires Run(run, steps) && i <= j < |run|
    ensures run[i].base == run[j].base
  {
    var live, view := MarksSettle(run, steps, i, j);
  }

  /** A version answers as of the moment its mark was the sequence. */
  lemma VersionAnswers(s: State, past: State, k: Key)
    requires StoreOk(s) && past.base == s.base && past.nextSeq == s.viewMark && SameBelow(past.hist, s.hist, s.viewMark)
    ensures NormalFound(Current(past, k)) == Lookup(s.view, k)
  {
    NewestFrame(past.hist, s.hist, k, 0, s.viewMark);
  }

  lemma MissMeansVersion(s: State, s': State, k: Key)
    requires StoreOk(s) && StoreOk(s') && s.base == s'.base && s.frozenFrom <= s'.viewMark <= s.nextSeq
    requires SameBelow(s.hist, s'.hist, s'.viewMark)
    requires forall ik :: ik in s.hist && ik.key == k ==> ik.seqId < s.frozenFrom
    ensures NormalFound(Current(s, k)) == Lookup(s'.view, k)
  {
    hide Represents;
    NewestFrame(s.hist, s'.hist, k, 0, s'.viewMark);
    NewestSplit(s.hist, k, 0, s'.viewMark, s.nextSeq);
    NoneAbove(s.hist, k, s'.viewMark, s.nextSeq);
  }

  lemma {:induction false} NoneAbove(h: History, k: Key, lo: int, hi: int)
    requires SEQ_MIN <= lo && hi <= SEQ_MAX + 1 && forall ik :: ik in h && ik.key == k ==> ik.seqId < lo
    ensures NewestIn(h, k, lo, hi) == None
    decreases hi - lo
  {
    if lo < hi {
      NoneAbove(h, k, lo, hi - 1);
    }
  }
}
