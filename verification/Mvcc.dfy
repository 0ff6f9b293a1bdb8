/** Transactions over the memtable and an immutable version, as a step machine whose runs
    are the interleavings of transactions, plain writes, the compactor's swap and version
    installs. Every piece the source does under a lock is one step; a commit is three. A version
    is abstracted to its `query` answers. */
module Mvcc {
  import opened Keys
  import opened Rows
  import opened MemTable

  type View = map<Key, Option<Value>>

  type History = map<InternalKey, Option<Value>>

  function Lookup(v: View, k: Key): Option<Option<Value>> {
    if k in v then Some(v[k]) else None
  }

  /** A transaction from the counter increment to its drop. `mark` bounds the writes its captured
      version contains; it is used in properties only. A commit passes its check, takes a sequence
      and inserts; a rejected or empty one is finished at once. */
  datatype Stage =
    | Counted
    | Captured(view: View, mark: int)
    | Running(view: View, mark: int, seqId: I64, writes: Option<seq<KeyValue>>)
    | Checked(seqId: I64, rows: seq<KeyValue>)
    | Committing(seqId: I64, rows: seq<KeyValue>, at: I64)
    | Finished

  /** `flushing`: rows swapped out and not yet installed. `swapping`: the compactor holds the
      memtable lock and has seen no transaction. The last five fields are history. */
  datatype State = State(
    nextSeq: I64, mem: MemMap, immut: Option<MemMap>, txCount: nat, view: View,
    flushing: Option<seq<KeyValue>>, swapping: bool, txs: map<nat, Stage>,
    base: View, hist: History, frozenFrom: int, liveFrom: int, viewMark: int)

  datatype Step =
    | BeginCount(t: nat)
    | BeginCapture(t: nat)
    | BeginSeq(t: nat)
    | StoreWrite(kv: KeyValue)
    | TxWrite(t: nat, kv: KeyValue)
    | CommitCheck(t: nat)
    | CommitSeq(t: nat)
    | CommitInsert(t: nat)
    | Drop(t: nat)
    | SwapCheck
    | SwapMove
    | InstallFlush
    | InstallMajor

  // ---- the steps ----

  predicate Conflicts(m: MemMap, rows: seq<KeyValue>, s: I64) {
    exists i :: 0 <= i < |rows| && HasNewer(m, rows[i].key, s)
  }

  function AddBatch(h: History, rows: seq<KeyValue>, s: I64): History {
    if rows == [] then h
    else AddBatch(h, rows[..|rows| - 1], s)[InternalKey(rows[|rows| - 1].key, s) := rows[|rows| - 1].data]
  }

  /** A flushed table becomes the newest table of the version, with the rows its file gives back. */
  function Overlay(v: View, rows: seq<KeyValue>): View {
    if rows == [] then v else Overlay(v, rows[1..])[rows[0].key := rows[0].data]
  }

  function Buffered(tx: Stage): seq<KeyValue>
    requires tx.Running?
  {
    if tx.writes.Some? then tx.writes.value else []
  }

  /** The outcome of `check_key_conflict` on the buffered rows. */
  function CheckResult(s: State, tx: Stage): Stage
    requires tx.Running?
  {
    if tx.writes.None? || Conflicts(s.mem, tx.writes.value, tx.seqId) then Finished
    else Checked(tx.seqId, tx.writes.value)
  }

  /** Steps that need the memtable lock wait while the compactor holds it. */
  predicate Enabled(s: State, step: Step) {
    match step
    case BeginCount(t) => t !in s.txs
    case BeginCapture(t) => t in s.txs && s.txs[t].Counted?
    case BeginSeq(t) => t in s.txs && s.txs[t].Captured? && s.nextSeq < SEQ_MAX
    case StoreWrite(kv) => !s.swapping && s.nextSeq < SEQ_MAX
    case TxWrite(t, kv) => t in s.txs && s.txs[t].Running? && Sorted(Buffered(s.txs[t]))
    case CommitCheck(t) => t in s.txs && s.txs[t].Running? && !s.swapping
    case CommitSeq(t) => t in s.txs && s.txs[t].Checked? && s.nextSeq < SEQ_MAX
    case CommitInsert(t) => t in s.txs && s.txs[t].Committing? && !s.swapping
    case Drop(t) => t in s.txs && (s.txs[t].Running? || s.txs[t].Finished?) && s.txCount > 0
    case SwapCheck => !s.swapping && s.flushing.None? && s.txCount == 0
    case SwapMove => s.swapping
    case InstallFlush => s.flushing.Some?
    case InstallMajor => true
  }

  function Do(s: State, step: Step): State
    requires Enabled(s, step)
  {
    match step
    case BeginCount(t) => s.(txCount := s.txCount + 1, txs := s.txs[t := Counted])
    case BeginCapture(t) => s.(txs := s.txs[t := Captured(s.view, s.viewMark)])
    case BeginSeq(t) =>
      s.(nextSeq := s.nextSeq + 1, txs := s.txs[t := Running(s.txs[t].view, s.txs[t].mark, s.nextSeq, None)])
    case StoreWrite(kv) =>
      s.(nextSeq := s.nextSeq + 1, mem := Insert(s.mem, InternalKey(kv.key, s.nextSeq), kv.data),
         hist := s.hist[InternalKey(kv.key, s.nextSeq) := kv.data])
    case TxWrite(t, kv) =>
      s.(txs := s.txs[t := s.txs[t].(writes := Some(Upsert(Buffered(s.txs[t]), kv.key, kv.data)))])
    case CommitCheck(t) => s.(txs := s.txs[t := CheckResult(s, s.txs[t])])
    case CommitSeq(t) =>
      s.(nextSeq := s.nextSeq + 1, txs := s.txs[t := Committing(s.txs[t].seqId, s.txs[t].rows, s.nextSeq)])
    case CommitInsert(t) =>
      s.(mem := InsertBatch(s.mem, s.txs[t].rows, s.txs[t].at), hist := AddBatch(s.hist, s.txs[t].rows, s.txs[t].at),
         txs := s.txs[t := Finished])
    case Drop(t) => s.(txCount := s.txCount - 1, txs := s.txs - {t})
    case SwapCheck => s.(swapping := true)
    case SwapMove =>
      if s.mem == [] then s.(swapping := false)
      else s.(swapping := false, mem := [], immut := Some(s.mem), flushing := Some(FlushRows(s.mem)),
              frozenFrom := s.liveFrom, liveFrom := s.nextSeq)
    case InstallFlush =>
      s.(flushing := None, view := Overlay(s.view, NormalRows(s.flushing.value)), viewMark := s.liveFrom)
    // a compaction round that keeps every answer
    case InstallMajor => s
  }

  ghost predicate Next(s: State, s': State, step: Step) {
    Enabled(s, step) && s' == Do(s, step)
  }

  ghost predicate Init(s: State) {
    && s.nextSeq == 1 && s.immut == None && s.txCount == 0 && s.view == s.base
    && s.flushing == None && !s.swapping && s.txs == map[]
    && s.frozenFrom == 0 && s.liveFrom == 0 && s.viewMark == 0
    // records recovered from the log carry sequence 0
    && (forall ik :: ik in s.hist ==> ik.seqId == 0)
    && Represents(s.mem, s.hist, 0, 1)
    // the opening version is read from files
    && NormalView(s.base)
  }

  /** Every state follows from the one before it by a step. */
  ghost predicate Run(run: seq<State>, steps: seq<Step>) {
    && |run| == |steps| + 1 && Init(run[0])
    && forall i {:trigger steps[i]} :: 0 <= i < |steps| ==> Next(run[i], run[i + 1], steps[i])
  }

  /** `Transaction::get` before the tombstone is erased: buffer, memtable, captured version. */
  function TxFind(s: State, tx: Stage, k: Key): Option<Option<Value>>
    requires tx.Running?
  {
    OrElse(if tx.writes.Some? then Find(tx.writes.value, k) else None,
           OrElse(MemFind(s.mem, s.immut, k, tx.seqId), Lookup(tx.view, k)))
  }

  predicate Unwritten(tx: Stage, k: Key) {
    tx.Running? && (tx.writes.Some? ==> !Holds(tx.writes.value, k))
  }

  // ---- the meaning of a read ----

  /** The newest write to `k` with `lo <= seq < hi`. */
  ghost function NewestIn(h: History, k: Key, lo: int, hi: int): Option<Option<Value>>
    requires SEQ_MIN <= lo && hi <= SEQ_MAX + 1
    decreases hi - lo
  {
    if hi <= lo then None
    else if InternalKey(k, hi - 1) in h then Some(h[InternalKey(k, hi - 1)])
    else NewestIn(h, k, lo, hi - 1)
  }

  /** The newest write with a sequence below `mark`, else what the store started from. */
  ghost function Snapshot(base: View, h: History, k: Key, mark: int): Option<Option<Value>>
    requires mark <= SEQ_MAX + 1
  {
    OrElse(NewestIn(h, k, 0, mark), Lookup(base, k))
  }

  /** `m` holds exactly the writes with `lo <= seq < hi`. */
  ghost predicate Represents(m: MemMap, h: History, lo: int, hi: int) {
    && (forall r :: r in m ==> r.ikey in h && h[r.ikey] == r.data && lo <= r.ikey.seqId < hi)
    && (forall ik :: ik in h && lo <= ik.seqId < hi ==> Record(ik, h[ik]) in m)
  }

  /** No answer is an empty value: a file gives that back as a tombstone. */
  ghost predicate NormalView(v: View) {
    forall k :: k in v ==> v[k] != Some([])
  }

  /** A version answers with the newest write below its mark as its file gives it back. */
  ghost predicate IsView(v: View, base: View, h: History, mark: int)
    requires mark <= SEQ_MAX + 1
  {
    forall k :: Lookup(v, k) == NormalFound(Snapshot(base, h, k, mark))
  }

  lemma {:induction false} NewestSplit(h: History, k: Key, a: int, b: int, c: int)
    requires SEQ_MIN <= a <= b <= c <= SEQ_MAX + 1
    ensures NewestIn(h, k, a, c) == OrElse(NewestIn(h, k, b, c), NewestIn(h, k, a, b))
    decreases c - b
  {
    if b < c && InternalKey(k, c - 1) !in h {
      NewestSplit(h, k, a, b, c - 1);
    }
  }

  ghost predicate SameBelow(h: History, h': History, mark: int) {
    forall ik: InternalKey :: ik.seqId < mark ==> (ik in h <==> ik in h') && (ik in h ==> h[ik] == h'[ik])
  }

  /** Later writes do not change what was written before. */
  lemma {:induction false} NewestFrame(h: History, h': History, k: Key, lo: int, hi: int)
    requires SEQ_MIN <= lo && hi <= SEQ_MAX + 1
    requires SameBelow(h, h', hi)
    ensures NewestIn(h, k, lo, hi) == NewestIn(h', k, lo, hi)
    decreases hi - lo
  {
    if lo < hi {
      assert InternalKey(k, hi - 1).key == k;
      NewestFrame(h, h', k, lo, hi - 1);
    }
  }

  /** A point lookup in one map is the newest write of the stretch it represents. */
  lemma {:induction false} FindIsNewestIn(m: MemMap, h: History, lo: int, hi: int, k: Key, s: I64, top: int)
    requires Represents(m, h, lo, hi) && SEQ_MIN <= lo && hi <= SEQ_MAX + 1
    requires top <= s + 1 && top <= hi
    requires forall ik :: ik in h && ik.key == k && lo <= ik.seqId < hi && ik.seqId >= top ==> ik.seqId > s
    ensures FindIn(m, InternalKey(k, s)) == NewestIn(h, k, lo, top)
    decreases top - lo
  {
    FindIsNewest(m, k, s);
    if top <= lo {
    } else if InternalKey(k, top - 1) in h {
      assert IsNewest(m, k, s, Record(InternalKey(k, top - 1), h[InternalKey(k, top - 1)]));
    } else {
      FindIsNewestIn(m, h, lo, hi, k, s, top - 1);
    }
  }

  lemma {:induction false} OverlayLookup(v: View, rows: seq<KeyValue>, k: Key)
    ensures Lookup(Overlay(v, rows), k) == OrElse(Find(rows, k), Lookup(v, k))
  {
    if rows != [] {
      OverlayLookup(v, rows[1..], k);
    }
  }

  // ---- the invariant ----

  ghost predicate StageOk(s: State, tx: Stage) {
    match tx
    case Counted => true
    case Captured(view, mark) =>
      && s.frozenFrom <= mark <= s.liveFrom && mark <= s.nextSeq && IsView(view, s.base, s.hist, mark)
      && (s.swapping ==> mark == s.liveFrom)
    case Running(view, mark, seqId, writes) =>
      && s.frozenFrom <= mark <= s.liveFrom && mark <= seqId < s.nextSeq && IsView(view, s.base, s.hist, mark)
      && (s.swapping ==> mark == s.liveFrom)
      && (writes.Some? ==> Sorted(writes.value))
      // every write after this transaction began is still in the live map
      && (forall ik :: ik in s.hist && ik.seqId > seqId ==> ik.seqId >= s.liveFrom)
      && (s.swapping ==> forall ik :: ik in s.hist ==> ik.seqId <= seqId)
    case Checked(seqId, rows) => 0 <= seqId < s.nextSeq && Sorted(rows) && !s.swapping
    case Committing(seqId, rows, at) =>
      && 0 <= seqId < at < s.nextSeq && s.liveFrom <= at && Sorted(rows) && !s.swapping
      && (forall ik :: ik in s.hist ==> ik.seqId != at)
    case Finished => true
  }

  ghost predicate StoreOk(s: State) {
    && 1 <= s.nextSeq && 0 <= s.frozenFrom <= s.liveFrom <= s.nextSeq
    && (forall ik :: ik in s.hist ==> 0 <= ik.seqId < s.nextSeq)
    && Represents(s.mem, s.hist, s.liveFrom, s.nextSeq)
    && (if s.immut.Some? then Represents(s.immut.value, s.hist, s.frozenFrom, s.liveFrom)
        else s.frozenFrom == s.liveFrom)
    && (s.flushing.None? ==> s.viewMark == s.liveFrom)
    && (s.flushing.Some? ==>
          && s.viewMark == s.frozenFrom && !s.swapping
          && s.immut.Some? && s.flushing.value == FlushRows(s.immut.value))
    && NormalView(s.base) && IsView(s.view, s.base, s.hist, s.viewMark)
  }

  /** No two commits hold the same sequence. */
  ghost predicate OwnSequences(txs: map<nat, Stage>) {
    forall t, u :: t in txs && u in txs && t != u && txs[t].Committing? && txs[u].Committing? ==> txs[t].at != txs[u].at
  }

  ghost predicate StagesOk(s: State) {
    forall t :: t in s.txs ==> StageOk(s, s.txs[t])
  }

  ghost predicate Inv(s: State) {
    StoreOk(s) && s.txCount == |s.txs| && StagesOk(s) && OwnSequences(s.txs)
  }

  lemma InitInv(s: State)
    requires Init(s)
    ensures Inv(s)
  {
  }

  /** Writes at the next sequence leave every older snapshot alone. */
  lemma ViewFrame(v: View, base: View, h: History, h': History, mark: int)
    requires mark <= SEQ_MAX + 1 && IsView(v, base, h, mark)
    requires SameBelow(h, h', mark)
    ensures IsView(v, base, h', mark)
  {
    forall k ensures Lookup(v, k) == NormalFound(Snapshot(base, h', k, mark)) {
      NewestFrame(h, h', k, 0, mark);
    }
  }

  ghost predicate Extends(h: History, h': History, s: int) {
    && (forall ik :: ik in h' && ik !in h ==> ik.seqId == s)
    && (forall ik :: ik in h ==> ik in h' && h[ik] == h'[ik])
  }

  lemma RepresentsInsert(m: MemMap, h: History, lo: int, hi: int, ik: InternalKey, d: Option<Value>)
    requires Represents(m, h, lo, hi) && lo <= ik.seqId < hi
    ensures Represents(Insert(m, ik, d), h[ik := d], lo, hi)
  {
    forall r ensures r in Insert(m, ik, d) <==> r == Record(ik, d) || (r in m && r.ikey != ik) {
      InsertMembers(m, ik, d, r);
    }
  }

  lemma KeysOfSnoc(rows: seq<KeyValue>)
    requires rows != []
    ensures KeysOf(rows) == KeysOf(rows[..|rows| - 1]) + [rows[|rows| - 1].key]
  {
  }

  lemma {:induction false} RepresentsBatch(m: MemMap, h: History, lo: int, hi: int, rows: seq<KeyValue>, s: I64)
    requires Represents(m, h, lo, hi) && lo <= s < hi
    ensures Represents(InsertBatch(m, rows, s), AddBatch(h, rows, s), lo, hi)
  {
    if rows != [] {
      var init, last := rows[..|rows| - 1], rows[|rows| - 1];
      RepresentsBatch(m, h, lo, hi, init, s);
      RepresentsInsert(InsertBatch(m, init, s), AddBatch(h, init, s), lo, hi, InternalKey(last.key, s), last.data);
    }
  }

  lemma {:induction false} AddBatchAdds(h: History, rows: seq<KeyValue>, s: I64)
    requires forall ik :: ik in h ==> ik.seqId != s
    ensures Extends(h, AddBatch(h, rows, s), s)
    ensures forall ik :: ik in AddBatch(h, rows, s) && ik.seqId == s ==> ik.key in KeysOf(rows)
    ensures forall k :: k in KeysOf(rows) ==> InternalKey(k, s) in AddBatch(h, rows, s)
  {
    if rows != [] {
      AddBatchAdds(h, rows[..|rows| - 1], s);
      KeysOfSnoc(rows);
    }
  }

  lemma StoreHistory(s: State)
    requires StoreOk(s)
    ensures forall ik :: ik in s.hist ==> 0 <= ik.seqId < s.nextSeq
    ensures Represents(s.mem, s.hist, s.liveFrom, s.nextSeq) && Represents(s.mem, s.hist, s.liveFrom, s.nextSeq + 1)
    ensures 0 <= s.liveFrom <= s.nextSeq <= SEQ_MAX
  {
  }

  /** New records at a sequence of the live stretch leave the store and every stage intact, except
      a commit that holds the same sequence. */
  lemma WriteKeeps(s: State, s': State, at: int)
    requires StoreOk(s) && !s.swapping && s.liveFrom <= at < s'.nextSeq && s.nextSeq <= s'.nextSeq
    requires Extends(s.hist, s'.hist, at) && Represents(s'.mem, s'.hist, s.liveFrom, s'.nextSeq)
    requires s' == s.(nextSeq := s'.nextSeq, mem := s'.mem, hist := s'.hist, txs := s'.txs)
    ensures StoreOk(s')
    ensures forall tx :: StageOk(s, tx) && !(tx.Committing? && tx.at == at) ==> StageOk(s', tx)
  {
    ViewFrame(s.view, s.base, s.hist, s'.hist, s.viewMark);
    forall tx | StageOk(s, tx) && !(tx.Committing? && tx.at == at) ensures StageOk(s', tx) {
      if tx.Captured? || tx.Running? { ViewFrame(tx.view, s.base, s.hist, s'.hist, tx.mark); }
    }
  }

  lemma CommittingBelow(s: State)
    requires StagesOk(s)
    ensures forall t :: t in s.txs && s.txs[t].Committing? ==> s.txs[t].at < s.nextSeq
  {
    forall t | t in s.txs && s.txs[t].Committing? ensures s.txs[t].at < s.nextSeq {
      assert StageOk(s, s.txs[t]);
    }
  }

  lemma StoreWriteInv(s: State, s': State, kv: KeyValue)
    requires Inv(s) && Next(s, s', StoreWrite(kv))
    ensures Inv(s')
  {
    hide StoreOk, StageOk, Represents, Insert;
    StoreHistory(s);
    CommittingBelow(s);
    RepresentsInsert(s.mem, s.hist, s.liveFrom, s.nextSeq + 1, InternalKey(kv.key, s.nextSeq), kv.data);
    WriteKeeps(s, s', s.nextSeq);
  }

  // ---- committing ----

  /** The check of the live map alone is complete: it sees every write since the begin. */
  lemma NoConflictMeansUntouched(s: State, tx: Stage)
    requires StoreOk(s) && tx.Running? && StageOk(s, tx) && tx.writes.Some?
    ensures Conflicts(s.mem, tx.writes.value, tx.seqId) <==>
            exists ik :: ik in s.hist && ik.key in KeysOf(tx.writes.value) && ik.seqId > tx.seqId
  {
    var rows := tx.writes.value;
    assert forall i :: 0 <= i < |rows| ==> KeysOf(rows)[i] == rows[i].key;
  }

  /** One transaction moves to a new stage while the rest of the state keeps what it promised. */
  lemma SetStageInv(s: State, s': State, t: nat, tx: Stage)
    requires Inv(s) && StoreOk(s') && s'.txs == s.txs[t := tx] && StageOk(s', tx)
    requires forall u :: u in s.txs && u != t ==> StageOk(s', s.txs[u])
    requires s'.txCount == s.txCount + if t in s.txs then 0 else 1
    requires tx.Committing? ==> forall u :: u in s.txs && u != t && s.txs[u].Committing? ==> s.txs[u].at != tx.at
    ensures Inv(s')
  {
    hide StoreOk, StageOk;
    CountWith(s.txs, t, tx);
  }

  lemma CountWith<T>(m: map<nat, T>, t: nat, x: T)
    ensures |m[t := x]| == |m| + if t in m then 0 else 1
    ensures t in m ==> |m - {t}| == |m| - 1
  {
    assert m[t := x].Keys == m.Keys + {t};
    assert t in m ==> m[t := x].Keys == m.Keys && m.Keys == (m - {t}).Keys + {t};
  }

  /** Allocating sequences keeps the store and every stage. */
  lemma SequenceFrame(s: State, s': State)
    requires StoreOk(s) && s' == s.(txCount := s'.txCount, txs := s'.txs, nextSeq := s'.nextSeq)
    requires s.nextSeq <= s'.nextSeq
    ensures StoreOk(s') && forall o :: StageOk(s, o) ==> StageOk(s', o)
  {
  }

  lemma CommitCheckInv(s: State, s': State, t: nat)
    requires Inv(s) && Next(s, s', CommitCheck(t))
    ensures Inv(s')
  {
    assert StageOk(s, s.txs[t]);
    assert StageOk(s', s'.txs[t]) by { hide IsView, Conflicts; }
    hide StoreOk, StageOk, Conflicts;
    SequenceFrame(s, s');
    SetStageInv(s, s', t, s'.txs[t]);
  }

  lemma CommitSeqInv(s: State, s': State, t: nat)
    requires Inv(s) && Next(s, s', CommitSeq(t))
    ensures Inv(s')
  {
    assert StageOk(s, s.txs[t]);
    assert StageOk(s', s'.txs[t]) by { StoreHistory(s); }
    hide StoreOk, StageOk;
    CommittingBelow(s);
    SequenceFrame(s, s');
    SetStageInv(s, s', t, s'.txs[t]);
  }

  lemma CommitInsertInv(s: State, s': State, t: nat)
    requires Inv(s) && Next(s, s', CommitInsert(t))
    ensures Inv(s')
  {
    var tx := s.txs[t];
    assert StageOk(s, tx);
    assert s.liveFrom <= tx.at < s.nextSeq && forall ik :: ik in s.hist ==> ik.seqId != tx.at;
    hide StoreOk, StageOk, Represents, AddBatch, InsertBatch, Extends;
    StoreHistory(s);
    RepresentsBatch(s.mem, s.hist, s.liveFrom, s.nextSeq, tx.rows, tx.at);
    AddBatchAdds(s.hist, tx.rows, tx.at);
    WriteKeeps(s, s', tx.at);
    FinishedOk(s');
    SetStageInv(s, s', t, Finished);
  }

  lemma FinishedOk(s: State)
    ensures StageOk(s, Finished) && StageOk(s, Counted)
  {
  }

  lemma DropInv(s: State, s': State, t: nat)
    requires Inv(s) && Next(s, s', Drop(t))
    ensures Inv(s')
  {
    hide StoreOk, StageOk;
    SequenceFrame(s, s');
    CountWith(s.txs, t, Finished);
  }

  // ---- beginning ----

  /** The stage a begin step or a buffered write leads to. */
  lemma BeginStage(s: State, s': State, step: Step)
    requires StoreOk(s) && StagesOk(s) && Next(s, s', step)
    requires step.BeginCount? || step.BeginCapture? || step.BeginSeq? || step.TxWrite?
    ensures StageOk(s', s'.txs[step.t])
  {
    hide IsView, Represents;
    if step.TxWrite? {
      UpsertSorted(Buffered(s.txs[step.t]), step.kv.key, step.kv.data);
    }
  }

  lemma BeginInv(s: State, s': State, step: Step)
    requires Inv(s) && Next(s, s', step)
    requires step.BeginCount? || step.BeginCapture? || step.BeginSeq? || step.TxWrite?
    ensures Inv(s')
  {
    BeginStage(s, s', step);
    hide StoreOk, StageOk, Upsert, Sorted;
    SequenceFrame(s, s');
    SetStageInv(s, s', step.t, s'.txs[step.t]);
  }

  // ---- swapping and installing ----

  lemma SwapCheckInv(s: State, s': State)
    requires Inv(s) && Next(s, s', SwapCheck)
    ensures Inv(s')
  {
  }

  lemma SwapMoveStore(s: State, s': State)
    requires StoreOk(s) && Next(s, s', SwapMove)
    ensures StoreOk(s')
  {
    hide IsView, FlushRows, Represents;
    StoreHistory(s);
    NoneLive(s.hist, s.nextSeq);
  }

  lemma NoneLive(h: History, next: int)
    requires forall ik :: ik in h ==> ik.seqId < next
    ensures Represents([], h, next, next)
  {
  }

  lemma SwapMoveStages(s: State, s': State)
    requires StoreOk(s) && Next(s, s', SwapMove)
    ensures forall tx :: StageOk(s, tx) ==> StageOk(s', tx)
  {
    hide IsView, Represents, FlushRows, Sorted, NormalView;
    StoreHistory(s);
  }

  /** The live map becomes the frozen one. */
  lemma SwapMoveInv(s: State, s': State)
    requires Inv(s) && Next(s, s', SwapMove)
    ensures Inv(s')
  {
    hide IsView, StoreOk, StageOk, FlushRows;
    SwapMoveStore(s, s');
    SwapMoveStages(s, s');
  }

  lemma InstallInv(s: State, s': State)
    requires Inv(s) && Next(s, s', InstallFlush)
    ensures Inv(s')
  {
    var im := s.immut.value;
    FlushIsNewest(im);
    forall k ensures Lookup(s'.view, k) == NormalFound(Snapshot(s.base, s.hist, k, s.liveFrom)) {
      OverlayLookup(s.view, NormalRows(s.flushing.value), k);
      NormalRowsFind(s.flushing.value, k);
      FindIsNewestIn(im, s.hist, s.frozenFrom, s.liveFrom, k, SEQ_MAX, s.liveFrom);
      NewestSplit(s.hist, k, 0, s.frozenFrom, s.liveFrom);
    }
  }

  /** Every step of every actor keeps the invariant. */
  lemma NextInv(s: State, s': State, step: Step)
    requires Inv(s) && Next(s, s', step)
    ensures Inv(s')
  {
    hide Inv, Enabled, Do;
    match step
    case BeginCount(_) => BeginInv(s, s', step);
    case BeginCapture(_) => BeginInv(s, s', step);
    case BeginSeq(_) => BeginInv(s, s', step);
    case TxWrite(_, _) => BeginInv(s, s', step);
    case StoreWrite(kv) => StoreWriteInv(s, s', kv);
    case CommitCheck(t) => CommitCheckInv(s, s', t);
    case CommitSeq(t) => CommitSeqInv(s, s', t);
    case CommitInsert(t) => CommitInsertInv(s, s', t);
    case Drop(t) => DropInv(s, s', t);
    case SwapCheck => SwapCheckInv(s, s');
    case SwapMove => SwapMoveInv(s, s');
    case InstallFlush => InstallInv(s, s');
    case InstallMajor => MajorInv(s, s');
  }

  lemma MajorInv(s: State, s': State)
    requires Inv(s) && Next(s, s', InstallMajor)
    ensures Inv(s')
  {
  }

  lemma {:induction false} RunInv(run: seq<State>, steps: seq<Step>, i: nat)
    requires Run(run, steps) && i < |run|
    ensures Inv(run[i])
  {
    hide Inv, Init, Next;
    if i == 0 {
      InitInv(run[0]);
    } else {
      RunInv(run, steps, i - 1);
      NextInv(run[i - 1], run[i], steps[i - 1]);
    }
  }

  lemma RunStep(run: seq<State>, steps: seq<Step>, i: nat)
    requires Run(run, steps) && i < |steps|
    ensures |run| == |steps| + 1 && Inv(run[i]) && Inv(run[i + 1]) && Next(run[i], run[i + 1], steps[i])
  {
    hide Inv, Init, Next;
    RunInv(run, steps, i);
    RunInv(run, steps, i + 1);
  }

  // ---- reads ----

  /** What the memtable holds for a reader at `q`: the newest write of the stretch still in memory. */
  lemma MemFindIsNewest(s: State, k: Key, q: I64)
    requires StoreOk(s) && s.frozenFrom <= q + 1
    ensures var top := if q < s.nextSeq then q + 1 else s.nextSeq;
            MemFind(s.mem, s.immut, k, q) == NewestIn(s.hist, k, s.frozenFrom, top)
  {
    hide Represents, FindIn, IsView;
    var h, top := s.hist, if q < s.nextSeq then q + 1 else s.nextSeq;
    var mid := if top <= s.liveFrom then top else s.liveFrom;
    FindIsNewestIn(s.mem, h, s.liveFrom, s.nextSeq, k, q, top);
    if s.immut.Some? {
      FindIsNewestIn(s.immut.value, h, s.frozenFrom, s.liveFrom, k, q, mid);
    }
    NewestSplit(h, k, s.frozenFrom, mid, top);
  }

  /** A read of an unwritten key resolves to the newest write at or below the reader's sequence, as a
      file gives it back if the memtable has no such write any more. It is that write exactly if the
      memtable holds it or it is not an empty value. */
  lemma ReadIsSnapshot(s: State, tx: Stage, k: Key)
    requires StoreOk(s) && StageOk(s, tx) && Unwritten(tx, k)
    ensures var mem, snap := MemFind(s.mem, s.immut, k, tx.seqId), Snapshot(s.base, s.hist, k, tx.seqId + 1);
            && TxFind(s, tx, k) == (if mem.Some? then snap else NormalFound(snap))
            && (TxFind(s, tx, k) == snap <==> mem.Some? || snap != Some(Some([])))
  {
    hide Represents, FindIn, MemFind;
    var h, top := s.hist, tx.seqId + 1;
    MemFindIsNewest(s, k, tx.seqId);
    NewestSplit(h, k, 0, s.frozenFrom, top);
    NewestSplit(h, k, 0, tx.mark, top);
    NewestSplit(h, k, s.frozenFrom, tx.mark, top);
  }

  /** A record inserted at `s` changes what a reader at `q` sees of its key exactly when `s` is
      not above `q` and no version in between hides it. `Transaction::commit` allocates its
      sequence before it takes the lock, so a reader that begins in between has `s <= q`. */
  lemma LateInsertVisibility(m: MemMap, k: Key, s: I64, d: Option<Value>, q: I64)
    ensures FindIn(Insert(m, InternalKey(k, s), d), InternalKey(k, q)) ==
            if s <= q && (forall r :: r in m && r.ikey.key == k && r.ikey.seqId <= q ==> r.ikey.seqId <= s)
            then Some(d) else FindIn(m, InternalKey(k, q))
  {
    var ik := InternalKey(k, s);
    var m' := Insert(m, ik, d);
    forall r ensures r in m' <==> r == Record(ik, d) || (r in m && r.ikey != ik) {
      InsertMembers(m, ik, d, r);
    }
    FindIsNewest(m, k, q);
    FindIsNewest(m', k, q);
    if s <= q && forall r :: r in m && r.ikey.key == k && r.ikey.seqId <= q ==> r.ikey.seqId <= s {
      assert IsNewest(m', k, q, Record(ik, d));
    } else if FindIn(m, InternalKey(k, q)).Some? {
      var r := m[CountUpTo(m, InternalKey(k, q)) - 1];
      assert r in m && r.ikey.key == k && r.ikey.seqId <= q;
      NewestExists(m, k, q);
      var w :| IsNewest(m, k, q, w);
      assert IsNewest(m', k, q, w);
    }
  }

  lemma NewestExists(m: MemMap, k: Key, q: I64)
    requires FindIn(m, InternalKey(k, q)).Some?
    ensures exists r :: IsNewest(m, k, q, r)
  {
    var n := CountUpTo(m, InternalKey(k, q));
    var r := m[n - 1];
    forall o | o in m && o.ikey.key == k && o.ikey.seqId <= q ensures o.ikey.seqId <= r.ikey.seqId {
      var i :| 0 <= i < |m| && m[i] == o;
      assert i < n - 1 ==> Before(m[i].ikey, m[n - 1].ikey);
    }
    assert IsNewest(m, k, q, r);
  }
}
