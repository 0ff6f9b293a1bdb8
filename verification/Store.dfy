/** The memtable machine and the version's files together: every version a transaction captures is one
    of the disk's, and a compaction round leaves what it answers alone. */
module Store {
  import opened Keys
  import opened Rows
  import opened Levels
  import V = Mvcc
  import R = Reads
  import D = CompactionRuns
  import Sharding
  import Compaction
  import MemTable
  import Transaction

  /** `captured`: the version each transaction holds. */
  datatype State = State(store: V.State, disk: D.Disk, captured: map<nat, D.Disk>)

  datatype Step =
    | Memory(step: V.Step)
    | Flush(gen: int)
    | Round(level: nat, target: Scope, shards: seq<Sharding.Shard>)

  /** The step of the memtable machine that a step contains. */
  function MemoryStep(step: Step): V.Step {
    match step
    case Memory(m) => m
    case Flush(_) => V.InstallFlush
    case Round(_, _, _) => V.InstallMajor
  }

  ghost predicate Next(s: State, s': State, step: Step) {
    && V.Next(s.store, s'.store, MemoryStep(step))
    && match step
       case Memory(m) =>
         && !m.InstallFlush? && !m.InstallMajor? && s'.disk == s.disk
         && s'.captured == if m.BeginCapture? then s.captured[m.t := s.disk] else s.captured
       case Flush(gen) => D.Next(s.disk, s'.disk, D.Flush(gen, s.store.flushing.value)) && s'.captured == s.captured
       // the rounds that keep every answer
       case Round(l, target, shards) =>
         var round := D.Round(l, target, shards);
         && D.Next(s.disk, s'.disk, round) && s'.captured == s.captured
         && D.Placed(s.disk, round) && D.KeepsAnswers(s.disk, round)
  }

  /** A version's answers, from its files. */
  ghost predicate Answers(view: V.View, d: D.Disk) {
    WellFormed(d.tables, d.levels) && forall k :: V.Lookup(view, k) == Query(d.tables, d.levels, k)
  }

  ghost predicate Init(s: State) {
    V.Init(s.store) && s.captured == map[] && Answers(s.store.base, s.disk) && D.NormalTables(s.disk.tables)
  }

  ghost predicate Run(run: seq<State>, steps: seq<Step>) {
    && |run| == |steps| + 1 && Init(run[0])
    && forall i {:trigger steps[i]} :: 0 <= i < |steps| ==> Next(run[i], run[i + 1], steps[i])
  }

  /** The installed version and every captured one answer as their files do, which hold no empty value. */
  ghost predicate Inv(s: State) {
    && V.Inv(s.store) && Answers(s.store.view, s.disk) && D.NormalTables(s.disk.tables)
    && forall t :: t in s.store.txs && (s.store.txs[t].Captured? || s.store.txs[t].Running?) ==>
         t in s.captured && Answers(s.store.txs[t].view, s.captured[t])
  }

  lemma FlushAnswers(s: State, s': State, gen: int)
    requires Inv(s) && Next(s, s', Flush(gen))
    ensures Answers(s'.store.view, s'.disk)
  {
    hide WellFormed, Query, Sorted, Find, V.Inv, V.Next, D.FreshGen, Compaction.ApplyEdit;
    InstallKeepsTransactions(s.store, s'.store, V.InstallFlush);
    var rows := s.store.flushing.value;
    D.FlushSorted(s.disk, gen, rows);
    D.FlushQuery(s.disk, gen, rows, []);
    forall k ensures V.Lookup(s'.store.view, k) == Query(s'.disk.tables, s'.disk.levels, k) {
      V.OverlayLookup(s.store.view, NormalRows(rows), k);
      NormalRowsFind(rows, k);
      D.FlushQuery(s.disk, gen, rows, k);
    }
  }

  lemma RoundAnswers(s: State, s': State, l: nat, target: Scope, shards: seq<Sharding.Shard>)
    requires Inv(s) && Next(s, s', Round(l, target, shards))
    ensures Answers(s'.store.view, s'.disk)
  {
    hide WellFormed, Query, V.Inv, V.Next, D.Next, D.Placed, D.KeepsAnswers;
    InstallKeepsTransactions(s.store, s'.store, V.InstallMajor);
    D.RoundKeepsAnswers(s.disk, s'.disk, D.Round(l, target, shards));
  }

  /** A memory step changes no view but the one just captured. */
  lemma MemoryViews(s: State, s': State, m: V.Step)
    requires Next(s, s', Memory(m))
    ensures s'.store.view == s.store.view
    ensures forall t :: t in s'.store.txs && (s'.store.txs[t].Captured? || s'.store.txs[t].Running?) ==>
              if m == V.BeginCapture(t) then s'.store.txs[t].view == s.store.view
              else t in s.store.txs && (s.store.txs[t].Captured? || s.store.txs[t].Running?)
                   && s'.store.txs[t].view == s.store.txs[t].view
  {
    hide MemTable.FlushRows, MemTable.InsertBatch, V.AddBatch, Upsert, Sorted, V.Overlay, MemTable.Insert, V.Conflicts;
  }

  lemma NextInv(s: State, s': State, step: Step)
    requires Inv(s) && Next(s, s', step)
    ensures Inv(s')
  {
    hide V.Inv, V.Next, Answers, D.Next, D.Placed, D.KeepsAnswers, D.NormalTables;
    V.NextInv(s.store, s'.store, MemoryStep(step));
    match step
    case Memory(m) => MemoryViews(s, s', m);
    case Flush(gen) =>
      FlushAnswers(s, s', gen);
      InstallKeepsTransactions(s.store, s'.store, V.InstallFlush);
      D.NormalStep(s.disk, s'.disk, D.Flush(gen, s.store.flushing.value));
    case Round(l, target, shards) =>
      RoundAnswers(s, s', l, target, shards);
      InstallKeepsTransactions(s.store, s'.store, V.InstallMajor);
      D.NormalStep(s.disk, s'.disk, D.Round(l, target, shards));
  }

  lemma InstallKeepsTransactions(s: V.State, s': V.State, step: V.Step)
    requires V.Next(s, s', step) && (step.InstallFlush? || step.InstallMajor?)
    ensures s'.txs == s.txs && (step.InstallMajor? ==> s' == s)
    ensures step.InstallFlush? ==> s.flushing.Some? && s'.view == V.Overlay(s.view, NormalRows(s.flushing.value))
  {
    hide V.Overlay;
  }

  lemma InitInv(s: State)
    requires Init(s)
    ensures Inv(s)
  {
    hide V.Inv, Answers, D.NormalTables;
    V.InitInv(s.store);
  }

  lemma {:induction false} RunInv(run: seq<State>, steps: seq<Step>, i: nat)
    requires Run(run, steps) && i < |run|
    ensures Inv(run[i])
  {
    hide Next, Inv, Init;
    if i == 0 {
      InitInv(run[0]);
    } else {
      RunInv(run, steps, i - 1);
      NextInv(run[i - 1], run[i], steps[i - 1]);
    }
  }

  lemma MemoryPart(s: State, s': State, step: Step)
    requires Next(s, s', step)
    ensures V.Next(s.store, s'.store, MemoryStep(step))
  {
    hide V.Next, D.Next;
  }

  /** The memtable's part of a run is a run of the memtable machine. */
  lemma MemoryRun(run: seq<State>, steps: seq<Step>)
    requires Run(run, steps)
    ensures V.Run(Stores(run), MemorySteps(steps))
  {
    hide V.Init, V.Next, Next, MemoryStep, Answers;
    var r, p := Stores(run), MemorySteps(steps);
    forall i {:trigger p[i]} | 0 <= i < |p| ensures V.Next(r[i], r[i + 1], p[i]) {
      MemoryPart(run[i], run[i + 1], steps[i]);
    }
  }

  ghost function Stores(run: seq<State>): seq<V.State> {
    seq(|run|, i requires 0 <= i < |run| => run[i].store)
  }

  ghost function MemorySteps(steps: seq<Step>): seq<V.Step> {
    seq(|steps|, i requires 0 <= i < |steps| => MemoryStep(steps[i]))
  }

  /** In every run a transaction's read through its captured files is the read of the memtable machine:
      for an unwritten key the newest write up to its sequence, whatever flushes and rounds came since,
      exactly if the memtable holds that write or it is not an empty value. */
  lemma GetIsSnapshot(run: seq<State>, steps: seq<Step>, i: nat, t: nat, k: Key)
    requires Run(run, steps) && i < |run| && t in run[i].store.txs && run[i].store.txs[t].Running?
    ensures t in run[i].captured && |run[i].captured[t].levels| == MAX_LEVEL
    ensures var s, tx, d := run[i].store, run[i].store.txs[t], run[i].captured[t];
            var answer := Transaction.Resolve(tx.writes, s.mem, s.immut, tx.seqId, d.tables, d.levels, k);
            && 0 <= tx.seqId < s.nextSeq && answer == V.TxFind(s, tx, k)
            && (V.Unwritten(tx, k) ==>
                  var snap := V.Snapshot(s.base, s.hist, k, tx.seqId + 1);
                  && answer == R.Seen(s, k, tx.seqId)
                  && (answer == snap <==>
                      MemTable.MemFind(s.mem, s.immut, k, tx.seqId).Some? || snap != Some(Some([]))))
  {
    hide Next, Init, V.Inv, Query, V.Snapshot, MemTable.MemFind, Find, R.Seen, D.NormalTables;
    RunInv(run, steps, i);
    R.SequenceBound(run[i].store, t);
    if V.Unwritten(run[i].store.txs[t], k) {
      R.ReadNow(run[i].store, t, k);
    }
  }
}
