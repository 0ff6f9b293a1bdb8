/** When optimistic commits keep their promise: `Transaction::commit` checks, takes a sequence and
    inserts in three steps, and other transactions run in between. */
module Commits {
  import opened Keys
  import opened Rows
  import opened MemTable
  import opened Mvcc
  import opened Reads

  // ---- what a check sees ----

  lemma {:induction false} HistoryIs(run: seq<State>, steps: seq<Step>, c: nat, ik: InternalKey)
    requires Run(run, steps) && c < |run|
    ensures ik in run[c].hist <==> ik in run[0].hist || exists b :: 0 <= b < c && Inserts(run[b], steps[b], ik)
  {
    hide Inv, Init, Next, Inserts;
    if c > 0 {
      HistoryIs(run, steps, c - 1, ik);
      RunStep(run, steps, c - 1);
      StepInserts(run[c - 1], run[c], steps[c - 1]);
      if b :| 0 <= b < c && Inserts(run[b], steps[b], ik) {
        assert b < c - 1 || Inserts(run[c - 1], steps[c - 1], ik);
      }
    }
  }

  /** Step `b` writes one of the rows' keys at a sequence above `q`. */
  ghost predicate Contends(run: seq<State>, steps: seq<Step>, b: nat, rows: seq<KeyValue>, q: int)
    requires |run| == |steps| + 1
  {
    b < |steps| && exists ik :: Inserts(run[b], steps[b], ik) && ik.key in KeysOf(rows) && ik.seqId > q
  }

  lemma InitialSequences(run: seq<State>, steps: seq<Step>)
    requires Run(run, steps)
    ensures forall ik :: ik in run[0].hist ==> ik.seqId == 0
  {
  }

  lemma CheckOutcome(s: State, s': State, t: nat)
    requires Inv(s) && Next(s, s', CommitCheck(t)) && s.txs[t].writes.Some?
    ensures t in s'.txs && (s'.txs[t].Checked? || s'.txs[t].Finished?)
    ensures s'.txs[t].Checked? <==>
            !exists ik :: ik in s.hist && ik.key in KeysOf(s.txs[t].writes.value) && ik.seqId > s.txs[t].seqId
  {
    hide StoreOk, StageOk, Conflicts;
    SequenceBound(s, t);
    NoConflictMeansUntouched(s, s.txs[t]);
  }

  /** A check passes exactly if, in the whole run, every write to one of its keys at a sequence above
      the transaction's is inserted after the check. */
  lemma CheckPassesIff(run: seq<State>, steps: seq<Step>, c: nat, t: nat)
    requires Run(run, steps) && c < |steps| && steps[c] == CommitCheck(t)
    requires t in run[c].txs && run[c].txs[t].Running? && run[c].txs[t].writes.Some?
    ensures t in run[c + 1].txs
    ensures run[c + 1].txs[t].Checked? <==>
            forall b :: Contends(run, steps, b, run[c].txs[t].writes.value, run[c].txs[t].seqId) ==> c < b
  {
    hide Inv, Init, Next, Inserts, StoreOk, StageOk;
    RunStep(run, steps, c);
    CheckOutcome(run[c], run[c + 1], t);
    SequenceBound(run[c], t);
    InitialSequences(run, steps);
    var rows, q := run[c].txs[t].writes.value, run[c].txs[t].seqId;
    if ik :| ik in run[c].hist && ik.key in KeysOf(rows) && ik.seqId > q {
      HistoryIs(run, steps, c, ik);
      var b :| 0 <= b < c && Inserts(run[b], steps[b], ik);
      assert Contends(run, steps, b, rows, q);
    }
    if b: nat :| Contends(run, steps, b, rows, q) && b <= c {
      var ik :| Inserts(run[b], steps[b], ik) && ik.key in KeysOf(rows) && ik.seqId > q;
      assert b < c by { CheckInsertsNothing(run[c], t, ik); }
      HistoryIs(run, steps, c, ik);
    }
  }

  lemma CheckInsertsNothing(s: State, t: nat, ik: InternalKey)
    ensures !Inserts(s, CommitCheck(t), ik)
  {
  }

  // ---- a whole commit ----

  predicate IsCommitting(s: State, t: nat) {
    t in s.txs && (s.txs[t].Checked? || s.txs[t].Committing?)
  }

  /** Transaction `t` passes its check at step `c` and inserts at step `x`. */
  ghost predicate Commits(run: seq<State>, steps: seq<Step>, t: nat, c: nat, x: nat)
    requires |run| == |steps| + 1
  {
    && c < x < |steps| && steps[c] == CommitCheck(t) && steps[x] == CommitInsert(t)
    && forall m {:trigger run[m]} :: c < m <= x ==> IsCommitting(run[m], t)
  }

  lemma CommitKeepsRows(s: State, s': State, step: Step, t: nat)
    requires Next(s, s', step) && IsCommitting(s, t) && IsCommitting(s', t)
    ensures s'.txs[t].seqId == s.txs[t].seqId && s'.txs[t].rows == s.txs[t].rows
  {
    hide FlushRows, InsertBatch, AddBatch, Upsert, Sorted, Overlay, Insert, Conflicts;
  }

  lemma {:induction false} CommitCarries(run: seq<State>, steps: seq<Step>, t: nat, c: nat, x: nat, m: nat)
    requires Run(run, steps) && Commits(run, steps, t, c, x) && c < m <= x
    ensures t in run[c].txs && run[c].txs[t].Running? && IsCommitting(run[m], t)
    ensures run[c].txs[t].writes == Some(run[m].txs[t].rows) && run[c].txs[t].seqId == run[m].txs[t].seqId
    decreases m
  {
    hide Inv, Init, Conflicts, FlushRows, InsertBatch, AddBatch, Upsert, Sorted, Overlay, Insert;
    assert IsCommitting(run[m], t);
    if m == c + 1 {
      RunStep(run, steps, c);
    } else {
      CommitCarries(run, steps, t, c, x, m - 1);
      RunStep(run, steps, m - 1);
      CommitKeepsRows(run[m - 1], run[m], steps[m - 1], t);
    }
  }

  /** What a commit is made of: its begin, its sequence and its keys. */
  lemma CommitParts(run: seq<State>, steps: seq<Step>, t: nat, c: nat, x: nat)
    requires Run(run, steps) && Commits(run, steps, t, c, x)
    ensures t in run[c].txs && run[c].txs[t].Running? && t in run[x].txs && run[x].txs[t].Committing?
    ensures run[c].txs[t].writes == Some(run[x].txs[t].rows) && run[c].txs[t].seqId == run[x].txs[t].seqId
    ensures t in run[c + 1].txs && run[c + 1].txs[t].Checked?
  {
    hide Inv, Init, Conflicts, FlushRows, InsertBatch, AddBatch, Upsert, Sorted, Overlay, Insert;
    CommitCarries(run, steps, t, c, x, x);
    RunStep(run, steps, c);
    RunStep(run, steps, x);
    assert IsCommitting(run[c + 1], t);
  }

  /** Both began before the other took its commit sequence. */
  ghost predicate Overlap(run: seq<State>, t: nat, x: nat, u: nat, y: nat)
    requires x < |run| && t in run[x].txs && run[x].txs[t].Committing?
    requires y < |run| && u in run[y].txs && run[y].txs[u].Committing?
  {
    run[x].txs[t].seqId < run[y].txs[u].at && run[y].txs[u].seqId < run[x].txs[t].at
  }

  lemma CommitContends(run: seq<State>, steps: seq<Step>, t: nat, c: nat, x: nat, rows: seq<KeyValue>, q: int, k: Key)
    requires Run(run, steps) && Commits(run, steps, t, c, x) && t in run[x].txs && run[x].txs[t].Committing?
    requires k in KeysOf(run[x].txs[t].rows) && k in KeysOf(rows) && run[x].txs[t].at > q
    ensures Contends(run, steps, x, rows, q)
  {
    hide Init, Next;
    assert Inserts(run[x], steps[x], InternalKey(k, run[x].txs[t].at));
  }

  /** In every run: a transaction that shares a key with a commit of a later sequence passes its check
      only before that commit's insert, and does pass it then unless a third write stops it. */
  lemma PassesIffBeforeInsert(run: seq<State>, steps: seq<Step>, t: nat, c: nat, u: nat, d: nat, y: nat, k: Key)
    requires Run(run, steps) && Commits(run, steps, u, d, y) && u in run[y].txs && run[y].txs[u].Committing?
    requires c < |steps| && steps[c] == CommitCheck(t)
    requires t in run[c].txs && run[c].txs[t].Running? && run[c].txs[t].writes.Some?
    requires k in KeysOf(run[c].txs[t].writes.value) && k in KeysOf(run[y].txs[u].rows)
    requires run[c].txs[t].seqId < run[y].txs[u].at
    ensures t in run[c + 1].txs && (run[c + 1].txs[t].Checked? ==> c < y)
    ensures (forall b :: Contends(run, steps, b, run[c].txs[t].writes.value, run[c].txs[t].seqId) ==>
              b == y || c < b) ==>
              (run[c + 1].txs[t].Checked? <==> c < y)
  {
    hide Inv, Init, Next, Commits, Contends, KeysOf;
    CheckPassesIff(run, steps, c, t);
    CommitContends(run, steps, u, d, y, run[c].txs[t].writes.value, run[c].txs[t].seqId, k);
  }

  /** In every run two overlapping commits share a key only if each checks before the other inserts. */
  lemma SharedKeyNeedsCrossing(run: seq<State>, steps: seq<Step>, t: nat, c: nat, x: nat, u: nat, d: nat, y: nat,
                               k: Key)
    requires Run(run, steps) && Commits(run, steps, t, c, x) && Commits(run, steps, u, d, y)
    requires t in run[x].txs && run[x].txs[t].Committing? && u in run[y].txs && run[y].txs[u].Committing?
    requires Overlap(run, t, x, u, y) && k in KeysOf(run[x].txs[t].rows) && k in KeysOf(run[y].txs[u].rows)
    ensures c < y && d < x
  {
    hide Inv, Init, Next, KeysOf;
    CommitParts(run, steps, t, c, x);
    CommitParts(run, steps, u, d, y);
    PassesIffBeforeInsert(run, steps, t, c, u, d, y, k);
    PassesIffBeforeInsert(run, steps, u, d, t, c, x, k);
  }

  /** No commit's window from check to insert crosses another's. */
  ghost predicate WindowsApart(run: seq<State>, steps: seq<Step>)
    requires |run| == |steps| + 1
  {
    forall t, c, x, u, d, y ::
      Commits(run, steps, t, c, x) && Commits(run, steps, u, d, y) && c != d ==> x < d || y < c
  }

  /** First committer wins: in a run whose windows do not cross, two overlapping commits share no key. */
  lemma FirstCommitterWins(run: seq<State>, steps: seq<Step>, t: nat, c: nat, x: nat, u: nat, d: nat, y: nat)
    requires Run(run, steps) && WindowsApart(run, steps) && c != d
    requires Commits(run, steps, t, c, x) && Commits(run, steps, u, d, y)
    requires t in run[x].txs && run[x].txs[t].Committing? && u in run[y].txs && run[y].txs[u].Committing?
    requires Overlap(run, t, x, u, y)
    ensures forall k :: k in KeysOf(run[x].txs[t].rows) ==> k !in KeysOf(run[y].txs[u].rows)
  {
    hide Init, Next, KeysOf;
    forall k | k in KeysOf(run[x].txs[t].rows) ensures k !in KeysOf(run[y].txs[u].rows) {
      if k in KeysOf(run[y].txs[u].rows) {
        SharedKeyNeedsCrossing(run, steps, t, c, x, u, d, y, k);
      }
    }
  }

  // ---- commits without interruption ----

  /** A passed check is followed at once by the sequence and the insert. */
  ghost predicate Atomic(run: seq<State>, steps: seq<Step>)
    requires |run| == |steps| + 1
  {
    forall c, t {:trigger steps[c], run[c + 1].txs[t]} ::
      0 <= c < |steps| && steps[c] == CommitCheck(t) && t in run[c + 1].txs && run[c + 1].txs[t].Checked? ==>
        && (c + 1 < |steps| ==> steps[c + 1] == CommitSeq(t))
        && (c + 2 < |steps| ==> steps[c + 2] == CommitInsert(t))
  }

  lemma AtomicAt(run: seq<State>, steps: seq<Step>, c: nat, t: nat)
    requires |run| == |steps| + 1 && Atomic(run, steps) && c < |steps| && steps[c] == CommitCheck(t)
    requires t in run[c + 1].txs && run[c + 1].txs[t].Checked?
    ensures c + 1 < |steps| ==> steps[c + 1] == CommitSeq(t)
    ensures c + 2 < |steps| ==> steps[c + 2] == CommitInsert(t)
  {
  }

  lemma StageOrigin(s: State, s': State, step: Step, u: nat)
    requires Next(s, s', step) && u in s'.txs
    ensures s'.txs[u].Checked? ==> step == CommitCheck(u) || (u in s.txs && s.txs[u].Checked? && step != CommitSeq(u))
    ensures s'.txs[u].Committing? ==>
              (step == CommitSeq(u) && u in s.txs && s.txs[u].Checked?)
              || (u in s.txs && s.txs[u].Committing? && step != CommitInsert(u))
  {
    hide FlushRows, InsertBatch, AddBatch, Upsert, Sorted, Overlay, Insert, Conflicts;
  }

  /** Under atomic commits a stage inside a commit tells the steps just taken. */
  lemma {:induction false} AtomicStage(run: seq<State>, steps: seq<Step>, m: nat, u: nat)
    requires Run(run, steps) && Atomic(run, steps) && m < |run| && u in run[m].txs
    ensures run[m].txs[u].Checked? ==> m >= 1 && steps[m - 1] == CommitCheck(u)
    ensures run[m].txs[u].Committing? ==>
              m >= 2 && steps[m - 1] == CommitSeq(u) && steps[m - 2] == CommitCheck(u)
              && u in run[m - 1].txs && run[m - 1].txs[u].Checked?
    decreases m
  {
    hide Next, Inv, Atomic;
    if m > 0 && (run[m].txs[u].Checked? || run[m].txs[u].Committing?) {
      RunStep(run, steps, m - 1);
      StageOrigin(run[m - 1], run[m], steps[m - 1], u);
      if u in run[m - 1].txs {
        AtomicStage(run, steps, m - 1, u);
        if run[m - 1].txs[u].Checked? {
          AtomicAt(run, steps, m - 2, u);
        } else if run[m - 1].txs[u].Committing? {
          AtomicAt(run, steps, m - 3, u);
        }
      }
    }
  }

  /** Nobody begins inside an atomic commit, so snapshots are stable. */
  lemma AtomicBegins(run: seq<State>, steps: seq<Step>)
    requires Run(run, steps) && Atomic(run, steps)
    ensures BeginsOutside(run, steps)
  {
    hide Next, Atomic;
    forall m, u {:trigger steps[m], run[m].txs[u]} |
      0 <= m < |steps| && steps[m].BeginSeq? && u in run[m].txs
      ensures !run[m].txs[u].Committing?
    {
      AtomicStage(run, steps, m, u);
      if run[m].txs[u].Committing? {
        AtomicAt(run, steps, m - 2, u);
      }
    }
  }

  lemma AtomicLength(run: seq<State>, steps: seq<Step>, t: nat, c: nat, x: nat)
    requires Run(run, steps) && Atomic(run, steps) && Commits(run, steps, t, c, x)
    ensures x == c + 2 && steps[c + 1] == CommitSeq(t)
  {
    hide Next, Inv, Atomic;
    CommitParts(run, steps, t, c, x);
    AtomicStage(run, steps, x, t);
    if x > c + 2 {
      assert IsCommitting(run[x - 2], t);
      RunStep(run, steps, x - 2);
      NotRunning(run[x - 2], run[x - 1], t);
    }
  }

  lemma NotRunning(s: State, s': State, t: nat)
    requires Next(s, s', CommitCheck(t))
    ensures !IsCommitting(s, t)
  {
  }

  /** Nor does another commit, so the first committer wins. */
  lemma AtomicApart(run: seq<State>, steps: seq<Step>)
    requires Run(run, steps) && Atomic(run, steps)
    ensures WindowsApart(run, steps)
  {
    hide Run, Atomic;
    RunLength(run, steps);
    forall t, c, x, u, d, y | Commits(run, steps, t, c, x) && Commits(run, steps, u, d, y) && c != d
      ensures x < d || y < c
    {
      AtomicLength(run, steps, t, c, x);
      AtomicLength(run, steps, u, d, y);
    }
  }

  // ---- runs that break the promise ----

  lemma Extend(run: seq<State>, steps: seq<Step>, step: Step) returns (run': seq<State>, steps': seq<Step>)
    requires Run(run, steps) && Enabled(run[|run| - 1], step)
    ensures run' == run + [Do(run[|run| - 1], step)] && steps' == steps + [step] && Run(run', steps')
  {
    hide Init, Do, Enabled;
    run', steps' := run + [Do(run[|run| - 1], step)], steps + [step];
    forall i {:trigger steps'[i]} | 0 <= i < |steps'| ensures Next(run'[i], run'[i + 1], steps'[i]) {
      assert i < |steps| ==> steps'[i] == steps[i];
    }
  }

  /** `r'` continues `r` by `n` steps. */
  ghost predicate Continues(r: seq<State>, r': seq<State>, n: nat) {
    |r'| == |r| + n && r' == r + r'[|r|..]
  }

  function Begun(s: State, t: nat): State
    requires s.nextSeq < SEQ_MAX
  {
    s.(nextSeq := s.nextSeq + 1, txCount := s.txCount + 1,
       txs := s.txs[t := Running(s.view, s.viewMark, s.nextSeq, None)])
  }

  lemma Begin(run: seq<State>, steps: seq<Step>, t: nat) returns (run': seq<State>, steps': seq<Step>)
    requires Run(run, steps) && t !in run[|run| - 1].txs && run[|run| - 1].nextSeq < SEQ_MAX
    ensures Run(run', steps') && Continues(run, run', 3) && run'[|run'| - 1] == Begun(run[|run| - 1], t)
  {
    hide Run;
    RunLength(run, steps);
    var s := run[|run| - 1];
    run', steps' := Extend(run, steps, BeginCount(t));
    run', steps' := Extend(run', steps', BeginCapture(t));
    run', steps' := Extend(run', steps', BeginSeq(t));
    var end := run'[|run'| - 1];
    assert end.txs == s.txs[t := Running(s.view, s.viewMark, s.nextSeq, None)];
  }

  lemma Write(run: seq<State>, steps: seq<Step>, t: nat, kv: KeyValue) returns (run': seq<State>, steps': seq<Step>)
    requires Run(run, steps) && t in run[|run| - 1].txs && run[|run| - 1].txs[t].Running?
    requires run[|run| - 1].txs[t].writes == None
    ensures Run(run', steps') && Continues(run, run', 1)
    ensures var s := run[|run| - 1];
            run'[|run'| - 1] == s.(txs := s.txs[t := s.txs[t].(writes := Some([kv]))])
  {
    hide Run;
    run', steps' := Extend(run, steps, TxWrite(t, kv));
    assert Upsert([], kv.key, kv.data) == [kv];
  }

  /** Two transactions that would both pass their check now. */
  ghost predicate BothReady(s: State, t: nat, u: nat) {
    && t != u && t in s.txs && u in s.txs && s.txs[t].Running? && s.txs[u].Running? && !s.swapping
    && s.txs[t].writes.Some? && s.txs[u].writes.Some? && s.nextSeq + 1 < SEQ_MAX
    && !Conflicts(s.mem, s.txs[t].writes.value, s.txs[t].seqId)
    && !Conflicts(s.mem, s.txs[u].writes.value, s.txs[u].seqId)
  }

  lemma ChecksPass(run: seq<State>, steps: seq<Step>, t: nat, u: nat) returns (run': seq<State>, steps': seq<Step>)
    requires Run(run, steps) && BothReady(run[|run| - 1], t, u)
    ensures Run(run', steps') && Continues(run, run', 2) && steps' == steps + [CommitCheck(t), CommitCheck(u)]
    ensures var s, n := run[|run| - 1], |run|;
            var a, b := Checked(s.txs[t].seqId, s.txs[t].writes.value), Checked(s.txs[u].seqId, s.txs[u].writes.value);
            run'[n] == s.(txs := s.txs[t := a]) && run'[n + 1] == s.(txs := s.txs[t := a][u := b])
  {
    hide Run, Conflicts;
    RunLength(run, steps);
    run', steps' := Extend(run, steps, CommitCheck(t));
    run', steps' := Extend(run', steps', CommitCheck(u));
  }

  lemma TakeSequences(run: seq<State>, steps: seq<Step>, t: nat, u: nat) returns (run': seq<State>, steps': seq<Step>)
    requires Run(run, steps) && t != u && t in run[|run| - 1].txs && u in run[|run| - 1].txs
    requires var s := run[|run| - 1]; s.txs[t].Checked? && s.txs[u].Checked? && s.nextSeq + 1 < SEQ_MAX
    ensures Run(run', steps') && Continues(run, run', 2) && steps' == steps + [CommitSeq(t), CommitSeq(u)]
    ensures var s, n := run[|run| - 1], |run|;
            var a := Committing(s.txs[t].seqId, s.txs[t].rows, s.nextSeq);
            var b := Committing(s.txs[u].seqId, s.txs[u].rows, s.nextSeq + 1);
            && run'[n] == s.(nextSeq := s.nextSeq + 1, txs := s.txs[t := a])
            && run'[n + 1] == s.(nextSeq := s.nextSeq + 2, txs := s.txs[t := a][u := b])
  {
    hide Run;
    RunLength(run, steps);
    run', steps' := Extend(run, steps, CommitSeq(t));
    run', steps' := Extend(run', steps', CommitSeq(u));
  }

  lemma InsertBoth(run: seq<State>, steps: seq<Step>, t: nat, u: nat) returns (run': seq<State>, steps': seq<Step>)
    requires Run(run, steps) && t != u && t in run[|run| - 1].txs && u in run[|run| - 1].txs
    requires var s := run[|run| - 1]; s.txs[t].Committing? && s.txs[u].Committing? && !s.swapping
    ensures Run(run', steps') && Continues(run, run', 2) && steps' == steps + [CommitInsert(t), CommitInsert(u)]
    ensures u in run'[|run|].txs && run'[|run|].txs[u] == run[|run| - 1].txs[u]
  {
    hide Run, InsertBatch, AddBatch;
    RunLength(run, steps);
    run', steps' := Extend(run, steps, CommitInsert(t));
    run', steps' := Extend(run', steps', CommitInsert(u));
  }

  /** From every such state both commit, overlapping, if each checks before the other inserts. */
  lemma CrossingBothCommit(run: seq<State>, steps: seq<Step>, t: nat, u: nat)
    returns (run': seq<State>, steps': seq<Step>)
    requires Run(run, steps) && BothReady(run[|run| - 1], t, u)
    ensures Run(run', steps') && Continues(run, run', 6)
    ensures var n, s := |steps|, run[|run| - 1];
            && Commits(run', steps', t, n, n + 4) && Commits(run', steps', u, n + 1, n + 5)
            && t in run'[n + 4].txs &&
               run'[n + 4].txs[t] == Committing(s.txs[t].seqId, s.txs[t].writes.value, s.nextSeq)
            && u in run'[n + 5].txs
            && run'[n + 5].txs[u] == Committing(s.txs[u].seqId, s.txs[u].writes.value, s.nextSeq + 1)
            && Overlap(run', t, n + 4, u, n + 5)
  {
    hide Conflicts, Run, Init, Next, Do, Enabled, Commits, Inv;
    RunLength(run, steps);
    var n, s := |steps|, run[|run| - 1];
    assert s.txs[t].seqId < s.nextSeq && s.txs[u].seqId < s.nextSeq by {
      RunInv(run, steps, n);
      RunningBelow(s);
    }
    var r2, p2 := ChecksPass(run, steps, t, u);
    var r4, p4 := TakeSequences(r2, p2, t, u);
    run', steps' := InsertBoth(r4, p4, t, u);
    assert run'[..n + 5] == r4 && r4[..n + 3] == r2;
    assert run'[n + 1] == r2[n + 1] && run'[n + 2] == r2[n + 2] && run'[n + 3] == r4[n + 3] && run'[n + 4] == r4[n + 4];
    SpanOfFour(run', steps', t, n);
    SpanOfFour(run', steps', u, n + 1);
  }

  lemma SpanOfFour(run: seq<State>, steps: seq<Step>, t: nat, c: nat)
    requires |run| == |steps| + 1 && c + 4 < |steps| && steps[c] == CommitCheck(t) && steps[c + 4] == CommitInsert(t)
    requires IsCommitting(run[c + 1], t) && IsCommitting(run[c + 2], t)
    requires IsCommitting(run[c + 3], t) && IsCommitting(run[c + 4], t)
    ensures Commits(run, steps, t, c, c + 4)
  {
    hide IsCommitting;
    forall m {:trigger run[m]} | c < m <= c + 4 ensures IsCommitting(run[m], t) {
      assert m == c + 1 || m == c + 2 || m == c + 3 || m == c + 4;
    }
  }

  /** A commit that nothing interrupts. */
  lemma CommitAlone(run: seq<State>, steps: seq<Step>, t: nat, u: nat) returns (run': seq<State>, steps': seq<Step>)
    requires Run(run, steps) && BothReady(run[|run| - 1], t, u)
    ensures Run(run', steps') && Continues(run, run', 3)
    ensures steps' == steps + [CommitCheck(t), CommitSeq(t), CommitInsert(t)]
    ensures var s, before, end := run[|run| - 1], run'[|run'| - 2], run'[|run'| - 1];
            && t in before.txs && before.txs[t] == Committing(s.txs[t].seqId, s.txs[t].writes.value, s.nextSeq)
            && u in end.txs && end.txs[u] == s.txs[u] && !end.swapping
  {
    hide Conflicts, Run, InsertBatch, AddBatch;
    RunLength(run, steps);
    run', steps' := Extend(run, steps, CommitCheck(t));
    run', steps' := Extend(run', steps', CommitSeq(t));
    run', steps' := Extend(run', steps', CommitInsert(t));
  }

  /** From every such state with a common key the second is rejected if the first commits before it
      checks. */
  lemma SerialRejects(run: seq<State>, steps: seq<Step>, t: nat, u: nat, k: Key)
    returns (run': seq<State>, steps': seq<Step>)
    requires Run(run, steps) && BothReady(run[|run| - 1], t, u)
    requires var s := run[|run| - 1]; k in KeysOf(s.txs[t].writes.value) && k in KeysOf(s.txs[u].writes.value)
    ensures Run(run', steps') && Continues(run, run', 4)
    ensures steps' == steps + [CommitCheck(t), CommitSeq(t), CommitInsert(t)] + [CommitCheck(u)]
    ensures u in run'[|run'| - 1].txs && run'[|run'| - 1].txs[u].Finished?
  {
    hide Conflicts, Run, Init, KeysOf, Next, Do, Inv;
    RunLength(run, steps);
    var n, s := |steps|, run[|run| - 1];
    assert s.txs[u].seqId < s.nextSeq by {
      RunInv(run, steps, n);
      RunningBelow(s);
    }
    var r3, p3 := CommitAlone(run, steps, t, u);
    run', steps' := Extend(r3, p3, CommitCheck(u));
    assert run'[n + 2] == r3[n + 2] && run'[n + 3] == r3[n + 3];
    assert Inserts(run'[n + 2], steps'[n + 2], InternalKey(k, s.nextSeq));
    assert Contends(run', steps', n + 2, s.txs[u].writes.value, s.txs[u].seqId);
    CheckPassesIff(run', steps', n + 3, u);
    RunStep(run', steps', n + 3);
    CheckOutcome(run'[n + 3], run'[n + 4], u);
  }

  lemma OpeningHasNoConflict(run: seq<State>, steps: seq<Step>, s0: State, t: nat)
    requires Run(run, steps) && Init(s0) && run[|run| - 1].hist == s0.hist
    requires var s := run[|run| - 1]; t in s.txs && s.txs[t].Running? && s.txs[t].writes.Some?
    ensures !Conflicts(run[|run| - 1].mem, run[|run| - 1].txs[t].writes.value, run[|run| - 1].txs[t].seqId)
  {
    hide Conflicts, StoreOk, StageOk, KeysOf;
    var s := run[|run| - 1];
    RunInv(run, steps, |run| - 1);
    SequenceBound(s, t);
    NoConflictMeansUntouched(s, s.txs[t]);
  }

  /** A lost update, from every opening state and for every key: two transactions begin one after the
      other, write the key, and both commit. */
  lemma LostUpdate(s0: State, k: Key, d: Option<Value>, e: Option<Value>) returns (run: seq<State>, steps: seq<Step>)
    requires Init(s0)
    ensures Run(run, steps) && run[0] == s0
    ensures Commits(run, steps, 0, 8, 12) && Commits(run, steps, 1, 9, 13)
    ensures 0 in run[12].txs && run[12].txs[0] == Committing(1, [KeyValue(k, d)], 3)
    ensures 1 in run[13].txs && run[13].txs[1] == Committing(2, [KeyValue(k, e)], 4)
    ensures Overlap(run, 0, 12, 1, 13) && k in KeysOf([KeyValue(k, d)]) && k in KeysOf([KeyValue(k, e)])
  {
    hide Run, Commits, Conflicts, Init;
    run, steps := [s0], [];
    OpeningRun(s0);
    run, steps := Begin(run, steps, 0);
    run, steps := Begin(run, steps, 1);
    run, steps := Write(run, steps, 0, KeyValue(k, d));
    run, steps := Write(run, steps, 1, KeyValue(k, e));
    RunLength(run, steps);
    OpeningHasNoConflict(run, steps, s0, 0);
    OpeningHasNoConflict(run, steps, s0, 1);
    run, steps := CrossingBothCommit(run, steps, 0, 1);
    assert KeysOf([KeyValue(k, d)])[0] == k && KeysOf([KeyValue(k, e)])[0] == k;
  }

  lemma OpeningRun(s0: State)
    requires Init(s0)
    ensures Run([s0], []) && s0.nextSeq == 1 && s0.liveFrom == 0 && s0.txCount == 0 && s0.txs == map[]
    ensures !s0.swapping && s0.flushing.None?
  {
    hide Represents, NormalView;
  }

  /** A reader that began after a commit took its sequence and before it inserts. */
  lemma ReaderBehind(s0: State, k: Key, d: Option<Value>) returns (run: seq<State>, steps: seq<Step>)
    requires Init(s0)
    ensures Run(run, steps) && run[0] == s0
    ensures run[|run| - 1] == s0.(nextSeq := 4, txCount := 2, txs := run[|run| - 1].txs)
    ensures run[|run| - 1].txs ==
            map[0 := Committing(1, [KeyValue(k, d)], 2), 1 := Running(s0.view, s0.viewMark, 3, None)]
  {
    hide Run, Conflicts, Init;
    run, steps := [s0], [];
    OpeningRun(s0);
    run, steps := Begin(run, steps, 0);
    run, steps := Write(run, steps, 0, KeyValue(k, d));
    OpeningHasNoConflict(run, steps, s0, 0);
    run, steps := Extend(run, steps, CommitCheck(0));
    run, steps := Extend(run, steps, CommitSeq(0));
    run, steps := Begin(run, steps, 1);
  }

  /** A moving snapshot, from every opening state and for every key: that reader reads the old answer
      first and the commit's value later. */
  lemma MovingSnapshot(s0: State, k: Key, d: Option<Value>) returns (run: seq<State>, steps: seq<Step>, i: nat)
    requires Init(s0)
    ensures Run(run, steps) && run[0] == s0 && i + 1 < |run|
    ensures 1 in run[i].txs && 1 in run[i + 1].txs && Unwritten(run[i].txs[1], k) && run[i + 1].txs[1] == run[i].txs[1]
    ensures TxFind(run[i], run[i].txs[1], k) == Current(s0, k)
    ensures TxFind(run[i + 1], run[i + 1].txs[1], k) == Some(d)
  {
    hide Run, InsertBatch, AddBatch, Snapshot, TxFind, Inv, Seen, StoreOk;
    run, steps := ReaderBehind(s0, k, d);
    RunLength(run, steps);
    i := |run| - 1;
    var s := run[i];
    run, steps := Extend(run, steps, CommitInsert(0));
    RunLength(run, steps);
    RunStep(run, steps, i);
    ReadNow(run[i], 1, k);
    ReadNow(run[i + 1], 1, k);
    InvStore(run[i]);
    InvStore(run[i + 1]);
    AllInMemory(run[i], k, 3);
    AllInMemory(run[i + 1], k, 3);
    LateStep(run[i], run[i + 1], steps[i], k, 3);
    assert Late(s, CommitInsert(0), k, 3) by { assert KeysOf([KeyValue(k, d)])[0] == k; }
    OpeningSnapshot(s0, k, 4);
  }

  /** At the opening every later sequence reads the same. */
  lemma OpeningSnapshot(s0: State, k: Key, top: int)
    requires Init(s0) && 1 <= top <= SEQ_MAX + 1
    ensures Snapshot(s0.base, s0.hist, k, top) == Current(s0, k)
  {
    NewestSplit(s0.hist, k, 0, 1, top);
    NoneAbove(s0.hist, k, 1, top);
  }

  /** Before the first swap no write has left the memtable. */
  lemma AllInMemory(s: State, k: Key, q: int)
    requires StoreOk(s) && s.frozenFrom == 0 && q <= SEQ_MAX
    ensures Seen(s, k, q) == Snapshot(s.base, s.hist, k, q + 1)
  {
    hide Represents, IsView;
    VersionIsNewest(s.hist, k, q + 1);
  }

  // ---- an empty value that is lost ----

  /** A write that is flushed and installed with nobody else around. */
  function Flushed(s: State, s': State, kv: KeyValue): State
    requires s.nextSeq < SEQ_MAX
  {
    State(s.nextSeq + 1, [], Some(Insert(s.mem, InternalKey(kv.key, s.nextSeq), kv.data)), s.txCount, s'.view, None,
          false, s.txs, s.base, s.hist[InternalKey(kv.key, s.nextSeq) := kv.data], s.liveFrom, s.nextSeq + 1,
          s.nextSeq + 1)
  }

  lemma WriteAndFlush(run: seq<State>, steps: seq<Step>, kv: KeyValue) returns (run': seq<State>, steps': seq<Step>)
    requires Run(run, steps)
    requires var s := run[|run| - 1]; !s.swapping && s.flushing.None? && s.txCount == 0 && s.nextSeq < SEQ_MAX
    ensures Run(run', steps') && Continues(run, run', 4)
    ensures steps' == steps + [StoreWrite(kv), SwapCheck, SwapMove, InstallFlush]
    ensures run'[|run'| - 1] == Flushed(run[|run| - 1], run'[|run'| - 1], kv)
  {
    hide Run, Insert, Overlay, FlushRows;
    RunLength(run, steps);
    var s := run[|run| - 1];
    var ik := InternalKey(kv.key, s.nextSeq);
    InsertMembers(s.mem, ik, kv.data, Record(ik, kv.data));
    run', steps' := Extend(run, steps, StoreWrite(kv));
    run', steps' := Extend(run', steps', SwapCheck);
    run', steps' := Extend(run', steps', SwapMove);
    run', steps' := Extend(run', steps', InstallFlush);
  }

  /** From every opening state and for every key: an empty value is set and flushed, another key is set
      and flushed, and then the store holds the empty value and a get answers that the key was removed. */
  lemma EmptyValueLost(s0: State, k: Key, other: KeyValue) returns (run: seq<State>, steps: seq<Step>)
    requires Init(s0) && other.key != k
    ensures Run(run, steps) && run[0] == s0
    ensures steps == [StoreWrite(KeyValue(k, Some([]))), SwapCheck, SwapMove, InstallFlush] +
                     [StoreWrite(other), SwapCheck, SwapMove, InstallFlush]
    ensures var s := run[|run| - 1];
            && Current(s, k) == Some(Some([]))
            && OrElse(MemFind(s.mem, s.immut, k, SEQ_MAX), Lookup(s.view, k)) == Some(None)
  {
    hide Run, Insert, StoreOk, MemFind, FindIn, StagesOk, Init, Snapshot, Current;
    run, steps := [s0], [];
    OpeningRun(s0);
    run, steps := WriteAndFlush(run, steps, KeyValue(k, Some([])));
    run, steps := WriteAndFlush(run, steps, other);
    RunLength(run, steps);
    var s := run[|run| - 1];
    RunInv(run, steps, |run| - 1);
    LastWrite(s0, s, k, other);
  }

  lemma LastWrite(s0: State, s: State, k: Key, other: KeyValue)
    requires Init(s0) && StoreOk(s) && other.key != k && s.nextSeq == s.viewMark == 3 && s.frozenFrom == 2
    requires s.hist == s0.hist[InternalKey(k, 1) := Some([])][InternalKey(other.key, 2) := other.data]
    ensures Current(s, k) == Some(Some([]))
    ensures MemFind(s.mem, s.immut, k, SEQ_MAX) == None && Lookup(s.view, k) == Some(None)
  {
    hide Represents, MemFind;
    MemFindIsNewest(s, k, SEQ_MAX);
    assert NewestIn(s.hist, k, 2, 3) == NewestIn(s.hist, k, 2, 2);
    assert NewestIn(s.hist, k, 0, 3) == NewestIn(s.hist, k, 0, 2);
  }
}
