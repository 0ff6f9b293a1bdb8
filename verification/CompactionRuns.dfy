/** Whole runs of flushes and compaction rounds, and what order and answers need of the rounds. */
module CompactionRuns {
  import opened Keys
  import opened Rows
  import opened Levels
  import opened Sharding
  import opened Compaction
  import opened CompactionRound
  import opened CompactionCode

  /** A store's tables, as their files give them back, and current levels; `flushed` is history: the
      flushed row lists in order. */
  datatype Disk = Disk(tables: Tables, levels: seq<Level>, flushed: seq<seq<KeyValue>>)

  datatype Step =
    | Flush(gen: int, rows: seq<KeyValue>)
    | Round(level: nat, target: Scope, shards: seq<Shard>)

  /** The newest flushed row of a key. */
  function NewestFlushed(flushed: seq<seq<KeyValue>>, k: Key): Option<Option<Value>> {
    if flushed == [] then None
    else OrElse(Find(flushed[|flushed| - 1], k), NewestFlushed(flushed[..|flushed| - 1], k))
  }

  function FlushEdit(gen: int, rows: seq<KeyValue>): Edit
    requires rows != []
  {
    NewFile([ShardScope(Shard(gen, rows))], 0, 0)
  }

  ghost predicate FreshGen(d: Disk, gen: int)
    requires d.levels != []
  {
    gen !in d.tables && forall s :: s in d.levels[0] ==> s.gen < gen
  }

  /** A flush, or any round as the code makes it. The rows of a round come from files, so writing and
      reading them back changes nothing (`RunNormal`). */
  ghost predicate Next(d: Disk, d': Disk, step: Step) {
    match step
    case Flush(gen, rows) =>
      && |d.levels| == MAX_LEVEL && rows != [] && Sorted(rows) && FreshGen(d, gen)
      && d'.tables == d.tables[gen := NormalRows(rows)] && d'.flushed == d.flushed + [rows]
      && d'.levels == ApplyEdit(d.levels, FlushEdit(gen, rows))
    case Round(l, target, shards) =>
      && Cut(d.tables, d.levels, l, target, shards)
      && d'.tables == AddTables(d.tables, shards) && d'.flushed == d.flushed
      && (var edits := RoundEdits(PlanOf(d.tables, d.levels, l, target), l, shards);
          AllFit(d.levels, edits) && d'.levels == ApplyEdits(d.levels, edits))
  }

  ghost predicate Init(d: Disk) {
    d == Disk(map[], [[], [], [], []], [])
  }

  ghost predicate Run(run: seq<Disk>, steps: seq<Step>) {
    && |run| == |steps| + 1 && Init(run[0])
    && forall i {:trigger steps[i]} :: 0 <= i < |steps| ==> Next(run[i], run[i + 1], steps[i])
  }

  // ---- one step ----

  lemma FlushLevels(d: Disk, gen: int, rows: seq<KeyValue>)
    requires Numbered(d.tables, d.levels) && rows != [] && Sorted(rows) && FreshGen(d, gen)
    ensures var s, tables' := ShardScope(Shard(gen, rows)), d.tables[gen := NormalRows(rows)];
            && ApplyEdit(d.levels, FlushEdit(gen, rows)) == d.levels[0 := d.levels[0] + [s]]
            && ScopeOk(tables', s) && Numbered(tables', d.levels[0 := d.levels[0] + [s]])
  {
    hide Meet, SortByGen;
    var s, tables' := ShardScope(Shard(gen, rows)), d.tables[gen := NormalRows(rows)];
    SortByGenSorted([s]);
    NormalSorted(rows);
    var levels' := d.levels[0 := d.levels[0] + [s]];
    assert ScopeOk(tables', s);
    forall i | 0 <= i < MAX_LEVEL ensures ScopesOk(tables', levels'[i]) {
      assert ScopesOk(d.tables, d.levels[i]);
    }
    assert GensAscending(levels'[0]);
    AscendingIsDistinct(levels'[0]);
  }

  lemma FlushSorted(d: Disk, gen: int, rows: seq<KeyValue>)
    requires WellFormed(d.tables, d.levels) && rows != [] && Sorted(rows) && FreshGen(d, gen)
    ensures WellFormed(d.tables[gen := NormalRows(rows)], ApplyEdit(d.levels, FlushEdit(gen, rows)))
  {
    hide Meet, SortByGen, ScopesOk, GensAscending, DistinctGens, ApplyEdit, FreshGen;
    WellFormedIsNumbered(d.tables, d.levels);
    FlushLevels(d, gen, rows);
    var levels' := d.levels[0 := d.levels[0] + [ShardScope(Shard(gen, rows))]];
    WellFormedIsNumbered(d.tables[gen := NormalRows(rows)], levels');
  }

  /** A flush answers with its rows as the file gives them back, else as before. */
  lemma FlushQuery(d: Disk, gen: int, rows: seq<KeyValue>, k: Key)
    requires WellFormed(d.tables, d.levels) && rows != [] && Sorted(rows) && FreshGen(d, gen)
    ensures |ApplyEdit(d.levels, FlushEdit(gen, rows))| == MAX_LEVEL
    ensures Query(d.tables[gen := NormalRows(rows)], ApplyEdit(d.levels, FlushEdit(gen, rows)), k) ==
            OrElse(NormalFound(Find(rows, k)), Query(d.tables, d.levels, k))
  {
    hide Meet, SortByGen, DistinctGens, ApplyEdit, LevelSorted, Query, Chain, Scan, GensAscending, Find;
    var s, tables' := ShardScope(Shard(gen, rows)), d.tables[gen := NormalRows(rows)];
    WellFormedIsNumbered(d.tables, d.levels);
    FlushLevels(d, gen, rows);
    FlushSorted(d, gen, rows);
    var levels' := d.levels[0 := d.levels[0] + [s]];
    QueryIsChain(d.tables, d.levels, k);
    QueryIsChain(tables', levels', k);
    forall i | 0 <= i < MAX_LEVEL ensures Scan(tables', d.levels[i], k) == Scan(d.tables, d.levels[i], k) {
      assert ScopesOk(d.tables, d.levels[i]);
      ScanFrame(d.tables, tables', d.levels[i], k);
    }
    ScanSnoc(tables', d.levels[0], s, k);
    ScopeProper(tables', s);
    NormalRowsFind(rows, k);
    PutInFront(Scans(d.tables, d.levels, k), Scans(tables', levels', k), NormalFound(Find(rows, k)));
  }

  lemma PutInFront<T>(a: seq<Option<T>>, b: seq<Option<T>>, x: Option<T>)
    requires |a| == |b| == 4 && b[0] == OrElse(x, a[0]) && b[1] == a[1] && b[2] == a[2] && b[3] == a[3]
    ensures Chain(b) == OrElse(x, Chain(a))
  {
  }

  /** The round's insertion point is right, or it inserts nothing. */
  ghost predicate Placed(d: Disk, step: Step) {
    step.Round? && Cut(d.tables, d.levels, step.level, step.target, step.shards) ==>
      var plan := PlanOf(d.tables, d.levels, step.level, step.target);
      Byteless(plan) || InsertionPointOk(d.levels[step.level + 1], plan.fused)
  }

  /** The round keeps every answer. */
  ghost predicate KeepsAnswers(d: Disk, step: Step) {
    step.Round? && Plannable(d.tables, d.levels, step.level, step.target) ==>
      forall k :: Harmless(d.tables, d.levels, step.level, step.target, k)
  }

  lemma RoundStep(d: Disk, d': Disk, step: Step)
    requires WellFormed(d.tables, d.levels) && Next(d, d', step) && step.Round?
    ensures WellFormed(d'.tables, d'.levels) <==> Placed(d, step)
    ensures |d'.levels| == MAX_LEVEL && d'.flushed == d.flushed
    ensures Plannable(d.tables, d.levels, step.level, step.target)
    ensures Placed(d, step) ==> forall k :: Query(d'.tables, d'.levels, k) == Query(d.tables, d.levels, k) <==>
              Harmless(d.tables, d.levels, step.level, step.target, k)
  {
    hide Chosen, PlanOf, AllFit, ApplyEdits, Byteless, InsertionPointOk, Harmless, Query, CutLevels, SearchFinds,
      AddTables, ShardsOf, WellFormed, RoundEdits;
    CodeRound(d.tables, d.levels, step.level, step.target, step.shards);
  }

  /** A step leaves a sorted version sorted exactly if it is rightly placed. */
  lemma StaysSortedIff(d: Disk, d': Disk, step: Step)
    requires WellFormed(d.tables, d.levels) && Next(d, d', step)
    ensures WellFormed(d'.tables, d'.levels) <==> Placed(d, step)
  {
    hide WellFormed, Cut, ApplyEdit, FreshGen, ApplyEdits, AllFit, RoundEdits;
    match step
    case Flush(gen, rows) => FlushSorted(d, gen, rows);
    case Round(_, _, _) => RoundStep(d, d', step);
  }

  /** A round that is rightly placed and harmless. */
  lemma RoundKeepsAnswers(d: Disk, d': Disk, step: Step)
    requires WellFormed(d.tables, d.levels) && Next(d, d', step) && step.Round?
    requires Placed(d, step) && KeepsAnswers(d, step)
    ensures WellFormed(d'.tables, d'.levels)
    ensures forall k :: Query(d'.tables, d'.levels, k) == Query(d.tables, d.levels, k)
  {
    hide Next, Placed, WellFormed, Query, Harmless, Plannable;
    RoundStep(d, d', step);
  }

  /** The version answers with the newest flushed row of every key as its file gives it back. */
  ghost predicate AnswersNewest(d: Disk) {
    |d.levels| == MAX_LEVEL && forall k :: Query(d.tables, d.levels, k) == NormalFound(NewestFlushed(d.flushed, k))
  }

  lemma FlushAnswers(d: Disk, d': Disk, gen: int, rows: seq<KeyValue>)
    requires WellFormed(d.tables, d.levels) && AnswersNewest(d) && Next(d, d', Flush(gen, rows))
    ensures AnswersNewest(d')
  {
    hide Query, WellFormed, Find, Sorted, ApplyEdit, FreshGen;
    FlushQuery(d, gen, rows, []);
    forall k ensures Query(d'.tables, d'.levels, k) == NormalFound(NewestFlushed(d'.flushed, k)) {
      FlushQuery(d, gen, rows, k);
      assert d'.flushed[..|d.flushed|] == d.flushed;
    }
  }

  /** A rightly placed step keeps the answers exactly if it is harmless. */
  lemma StaysNewestIff(d: Disk, d': Disk, step: Step)
    requires WellFormed(d.tables, d.levels) && AnswersNewest(d) && Next(d, d', step) && Placed(d, step)
    ensures AnswersNewest(d') <==> KeepsAnswers(d, step)
  {
    hide WellFormed, Next, Query, Harmless, Plannable, Placed, NewestFlushed;
    match step
    case Flush(gen, rows) => FlushAnswers(d, d', gen, rows);
    case Round(_, _, _) => RoundStep(d, d', step);
  }

  // ---- whole runs ----

  lemma NumberedStep(d: Disk, d': Disk, step: Step)
    requires Numbered(d.tables, d.levels) && Next(d, d', step)
    ensures Numbered(d'.tables, d'.levels)
  {
    hide Numbered, Cut, ApplyEdit, FreshGen, ApplyEdits, AllFit, RoundEdits, PlanOf, Chosen, FreshShards, LeftBehind,
      NextLevel;
    match step
    case Flush(gen, rows) => FlushLevels(d, gen, rows);
    case Round(l, target, shards) =>
      CutShards(d.tables, d.levels, l, target, shards);
      CutKeepsNumbers(d.tables, d.levels, l, target, shards);
      RoundApplies(d.tables, d.levels, l, target, shards);
  }

  /** In every run, whatever its rounds, scopes describe their tables and gens identify them. */
  lemma {:induction false} RunNumbered(run: seq<Disk>, steps: seq<Step>, i: nat)
    requires Run(run, steps) && i < |run|
    ensures Numbered(run[i].tables, run[i].levels)
  {
    hide Next;
    if i > 0 {
      RunNumbered(run, steps, i - 1);
      hide Numbered;
      NumberedStep(run[i - 1], run[i], steps[i - 1]);
    }
  }

  /** The first `n` steps are rightly placed. */
  ghost predicate AllPlaced(run: seq<Disk>, steps: seq<Step>, n: int)
    requires n <= |steps| <= |run|
  {
    forall i {:trigger steps[i]} :: 0 <= i < n ==> Placed(run[i], steps[i])
  }

  ghost predicate AllKeepAnswers(run: seq<Disk>, steps: seq<Step>, n: int)
    requires n <= |steps| <= |run|
  {
    forall i {:trigger steps[i]} :: 0 <= i < n ==> KeepsAnswers(run[i], steps[i])
  }

  lemma OpeningDisk(d: Disk)
    requires Init(d)
    ensures WellFormed(d.tables, d.levels) && AnswersNewest(d)
  {
    forall k ensures Query(d.tables, d.levels, k) == None {
      QueryIsScan(d.tables, d.levels, k);
    }
  }

  lemma {:induction false} SortedSoFar(run: seq<Disk>, steps: seq<Step>, i: nat)
    requires Run(run, steps) && i < |run| && AllPlaced(run, steps, i)
    ensures WellFormed(run[i].tables, run[i].levels)
  {
    hide Next, WellFormed, Placed, Init, AnswersNewest;
    if i == 0 {
      OpeningDisk(run[0]);
    } else {
      SortedSoFar(run, steps, i - 1);
      StaysSortedIff(run[i - 1], run[i], steps[i - 1]);
    }
  }

  /** Every state of a run has sorted levels exactly if every round of the run is rightly placed. */
  lemma LevelsSortedIff(run: seq<Disk>, steps: seq<Step>)
    requires Run(run, steps)
    ensures (forall i {:trigger run[i]} :: 0 <= i < |run| ==> WellFormed(run[i].tables, run[i].levels)) <==>
            AllPlaced(run, steps, |steps|)
  {
    hide Next, WellFormed, Placed, Init;
    if AllPlaced(run, steps, |steps|) {
      forall i {:trigger run[i]} | 0 <= i < |run| ensures WellFormed(run[i].tables, run[i].levels) {
        SortedSoFar(run, steps, i);
      }
    }
    if forall i {:trigger run[i]} :: 0 <= i < |run| ==> WellFormed(run[i].tables, run[i].levels) {
      forall i {:trigger steps[i]} | 0 <= i < |steps| ensures Placed(run[i], steps[i]) {
        StaysSortedIff(run[i], run[i + 1], steps[i]);
      }
    }
  }

  /** While every round is rightly placed every level from 1 down stays sorted and disjoint, so the
      table binary search picks is the only one whose range has the key. */
  lemma LevelsStaySorted(run: seq<Disk>, steps: seq<Step>, i: nat, l: nat, k: Key, j: nat)
    requires Run(run, steps) && i < |run| && AllPlaced(run, steps, i) && 1 <= l < MAX_LEVEL
    ensures |run[i].levels| == MAX_LEVEL && LevelSorted(run[i].levels[l])
    ensures j < |run[i].levels[l]| && MeetByKey(run[i].levels[l][j], k) ==> MeetIndex(run[i].levels[l], k) == j
  {
    hide Run, AllPlaced;
    SortedSoFar(run, steps, i);
    if j < |run[i].levels[l]| && MeetByKey(run[i].levels[l][j], k) {
      OnlyTableForKey(run[i].tables, run[i].levels[l], k, j);
    }
  }

  lemma {:induction false} NewestSoFar(run: seq<Disk>, steps: seq<Step>, i: nat)
    requires Run(run, steps) && i < |run| && AllPlaced(run, steps, i) && AllKeepAnswers(run, steps, i)
    ensures AnswersNewest(run[i])
  {
    hide Next, WellFormed, Placed, KeepsAnswers, Init, AnswersNewest;
    if i == 0 {
      OpeningDisk(run[0]);
    } else {
      NewestSoFar(run, steps, i - 1);
      SortedSoFar(run, steps, i - 1);
      StaysNewestIff(run[i - 1], run[i], steps[i - 1]);
    }
  }

  /** In a run of rightly placed rounds every state answers with the newest flushed row of every key, as
      its file gives it back, tombstones included, exactly if every round is harmless. */
  lemma VersionIsNewestFlushed(run: seq<Disk>, steps: seq<Step>)
    requires Run(run, steps) && AllPlaced(run, steps, |steps|)
    ensures (forall i {:trigger run[i]} :: 0 <= i < |run| ==> AnswersNewest(run[i])) <==>
            AllKeepAnswers(run, steps, |steps|)
  {
    hide Next, WellFormed, Placed, KeepsAnswers, Init, AnswersNewest;
    if AllKeepAnswers(run, steps, |steps|) {
      forall i {:trigger run[i]} | 0 <= i < |run| ensures AnswersNewest(run[i]) { NewestSoFar(run, steps, i); }
    }
    if forall i {:trigger run[i]} :: 0 <= i < |run| ==> AnswersNewest(run[i]) {
      forall i {:trigger steps[i]} | 0 <= i < |steps| ensures KeepsAnswers(run[i], steps[i]) {
        SortedSoFar(run, steps, i);
        StaysNewestIff(run[i], run[i + 1], steps[i]);
      }
    }
  }

  // ---- rows read from files ----

  /** Rows without empty values: writing them to a file and reading them back changes nothing. */
  predicate NormalList(rows: seq<KeyValue>) {
    forall e :: e in rows ==> e.data != Some([])
  }

  ghost predicate NormalTables(tables: Tables) {
    forall g :: g in tables ==> NormalList(tables[g])
  }

  lemma NormalIsUnchanged(rows: seq<KeyValue>)
    ensures NormalList(rows) <==> NormalRows(rows) == rows
  {
    assert forall i :: 0 <= i < |rows| ==> rows[i] in rows;
    if NormalRows(rows) == rows {
      forall e | e in rows ensures e.data != Some([]) {
        var i :| 0 <= i < |rows| && rows[i] == e;
        assert NormalRows(rows)[i] == rows[i];
      }
    }
  }

  lemma {:induction false} LoadedNormal(tables: Tables, scopes: seq<Scope>)
    requires NormalTables(tables)
    ensures NormalList(LoadAll(tables, scopes))
  {
    if scopes != [] {
      LoadedNormal(tables, scopes[..|scopes| - 1]);
    }
  }

  lemma {:induction false} WithoutMembers(rows: seq<KeyValue>, upper: seq<KeyValue>)
    ensures forall e :: e in Without(rows, upper) ==> e in rows
  {
    if rows != [] {
      WithoutMembers(rows[..|rows| - 1], upper);
    }
  }

  lemma {:induction false} SortByKeyMembers(rows: seq<KeyValue>)
    ensures forall e :: e in SortByKey(rows) ==> e in rows
  {
    if rows != [] {
      var init, last := SortByKey(rows[..|rows| - 1]), rows[|rows| - 1];
      SortByKeyMembers(rows[..|rows| - 1]);
      forall e | e in SortByKey(rows) ensures e in rows {
        UpsertMembers(init, last.key, last.data, e);
      }
    }
  }

  lemma MergedNormal(tables: Tables, upper: seq<Scope>, lower: seq<Scope>)
    requires NormalTables(tables)
    ensures NormalList(MergedRows(tables, upper, lower))
  {
    hide NormalTables, UniqueByKey, Without, LoadAll, SortByKey, SortByGen;
    var l, ll := LoadAll(tables, SortByGen(upper)), LoadAll(tables, lower);
    LoadedNormal(tables, SortByGen(upper));
    LoadedNormal(tables, lower);
    WithoutMembers(ll, l);
    UniqueIsDistinct(Reverse(Without(ll, l) + l));
    SortByKeyMembers(UniqueByKey(Reverse(Without(ll, l) + l)));
  }

  lemma {:induction false} PartNormal(shards: seq<Shard>, rows: seq<KeyValue>)
    requires Concat(RowsOf(shards)) == rows && NormalList(rows)
    ensures forall i :: 0 <= i < |shards| ==> NormalList(shards[i].rows)
  {
    if shards != [] {
      assert RowsOf(shards)[1..] == RowsOf(shards[1..]);
      PartNormal(shards[1..], Concat(RowsOf(shards[1..])));
    }
  }

  lemma {:induction false} AddedNormal(tables: Tables, shards: seq<Shard>)
    requires NormalTables(tables) && forall i :: 0 <= i < |shards| ==> NormalList(shards[i].rows)
    ensures NormalTables(AddTables(tables, shards))
  {
    if shards != [] {
      AddedNormal(tables, shards[..|shards| - 1]);
    }
  }

  lemma NormalStep(d: Disk, d': Disk, step: Step)
    requires NormalTables(d.tables) && Next(d, d', step)
    ensures NormalTables(d'.tables)
    ensures step.Round? ==> forall i :: 0 <= i < |step.shards| ==> NormalList(step.shards[i].rows)
  {
    hide ApplyEdit, FreshGen, ApplyEdits, AllFit, RoundEdits, Chosen, MergedRows, Fusion, NormalTables;
    match step
    case Flush(gen, rows) => FlushedNormal(d.tables, gen, rows);
    case Round(l, target, shards) =>
      var plan := PlanOf(d.tables, d.levels, l, target);
      MergedNormal(d.tables, plan.upper, plan.lower);
      if shards != [] { PartNormal(shards, plan.rows); }
      AddedNormal(d.tables, shards);
  }

  lemma FlushedNormal(tables: Tables, gen: int, rows: seq<KeyValue>)
    requires NormalTables(tables)
    ensures NormalTables(tables[gen := NormalRows(rows)])
  {
  }

  /** In every run no table has an empty value, and a round writes rows that read back unchanged. */
  lemma {:induction false} RunNormal(run: seq<Disk>, steps: seq<Step>, i: nat)
    requires Run(run, steps) && i < |run|
    ensures NormalTables(run[i].tables)
    ensures i < |steps| && steps[i].Round? ==> forall x :: 0 <= x < |steps[i].shards| ==>
              NormalRows(steps[i].shards[x].rows) == steps[i].shards[x].rows
  {
    hide Next, NormalList;
    if i > 0 {
      RunNormal(run, steps, i - 1);
      NormalStep(run[i - 1], run[i], steps[i - 1]);
    }
    if i < |steps| && steps[i].Round? {
      NormalStep(run[i], run[i + 1], steps[i]);
      forall x | 0 <= x < |steps[i].shards| ensures NormalRows(steps[i].shards[x].rows) == steps[i].shards[x].rows {
        NormalIsUnchanged(steps[i].shards[x].rows);
      }
    }
  }

  // ---- a flush and a round in one batch ----

  lemma ApplyFour(levels: seq<Level>, a: Edit, b: Edit, c: Edit, d: Edit)
    requires Fits(levels, a) && Fits(ApplyEdit(levels, a), b) && Fits(ApplyEdit(ApplyEdit(levels, a), b), c)
    requires Fits(ApplyEdit(ApplyEdit(ApplyEdit(levels, a), b), c), d)
    ensures AllFit(levels, [a, b, c, d])
    ensures ApplyEdits(levels, [a, b, c, d]) == ApplyEdit(ApplyEdit(ApplyEdit(ApplyEdit(levels, a), b), c), d)
  {
    ApplyThree(ApplyEdit(levels, a), b, c, d);
    assert [a, b, c, d][1..] == [b, c, d];
  }

  /** A flush to level 0 commutes with a round's edits. */
  lemma FlushCommutes(levels: seq<Level>, s: Scope, a: Edit, b: Edit, c: Edit)
    requires |levels| == MAX_LEVEL && a.NewFile? && a.level == 1 && a.index <= |levels[1]|
    requires b.DeleteFile? && b.level == 0 && s.gen !in b.gens && c.DeleteFile? && c.level == 1
    ensures var f := NewFile([s], 0, 0);
            && AllFit(levels, [f, a, b, c]) && AllFit(levels, [a, b, c, f])
            && ApplyEdits(levels, [f, a, b, c]) == ApplyEdits(levels, [a, b, c, f])
  {
    hide Retain, SortByGen, AllFit, ApplyEdits, Meet;
    var f := NewFile([s], 0, 0);
    assert SortByGen([s]) == [s] by { SortByGenSorted([s]); }
    assert Retain(levels[0] + [s], b.gens) == Retain(levels[0], b.gens) + [s] by {
      RetainAppend(levels[0], [s], b.gens);
      RetainAll([s], b.gens);
    }
    var filled := levels[1][..a.index] + SortByGen(a.scopes) + levels[1][a.index..];
    var zero, one := Retain(levels[0], b.gens), Retain(filled, c.gens);
    var f1 := levels[0 := levels[0] + [s]];
    assert ApplyEdit(levels, f) == f1;
    assert ApplyEdit(f1, a) == f1[1 := filled];
    assert ApplyEdit(f1[1 := filled], b) == levels[0 := zero + [s]][1 := filled];
    ApplyFour(levels, f, a, b, c);
    var a1 := levels[1 := filled];
    assert ApplyEdit(levels, a) == a1;
    assert ApplyEdit(a1, b) == levels[0 := zero][1 := filled];
    assert ApplyEdit(levels[0 := zero][1 := filled], c) == levels[0 := zero][1 := one];
    ApplyFour(levels, a, b, c, f);
  }

  lemma FourEdits(f: Edit, edits: seq<Edit>)
    requires |edits| == 3
    ensures [f] + edits == [f, edits[0], edits[1], edits[2]] && edits + [f] == [edits[0], edits[1], edits[2], f]
  {
  }

  /** `minor_compaction` logs the new table and the first round's edits as one batch, planned on
      the version before both. It is the round followed by the flush. */
  lemma MinorBatch(d: Disk, gen: int, rows: seq<KeyValue>, target: Scope, shards: seq<Shard>)
    requires rows != [] && d.levels != [] && FreshGen(d, gen) && Cut(d.tables, d.levels, 0, target, shards)
    ensures var f, edits := FlushEdit(gen, rows), RoundEdits(PlanOf(d.tables, d.levels, 0, target), 0, shards);
            && AllFit(d.levels, [f] + edits) && AllFit(d.levels, edits + [f])
            && ApplyEdits(d.levels, [f] + edits) == ApplyEdits(d.levels, edits + [f])
  {
    CutShards(d.tables, d.levels, 0, target, shards);
    NotAmongChosen(d.levels[0], target, gen);
    FirstMeetBounds(d.levels[1], PlanOf(d.tables, d.levels, 0, target).fused);
    hide Chosen, MergedRows, Fusion, AllFit, ApplyEdits, Meet, Cut, GensOf, NewScopes, ShardScope, FreshGen,
      NonEmptyShards, InsertIndex;
    var plan, f := PlanOf(d.tables, d.levels, 0, target), FlushEdit(gen, rows);
    var edits := RoundEdits(plan, 0, shards);
    FlushCommutes(d.levels, f.scopes[0], edits[0], edits[1], edits[2]);
    FourEdits(f, edits);
  }

  // ---- why the conditions are needed ----

  /** Without the level-0 condition a round can bring back an old value: the chosen newer table
      sinks below an older table that holds one of its keys. */
  lemma OlderTableResurfaces(tables: Tables, older: Scope, newer: Scope, target: Scope, k: Key)
    requires !Meet(older, target) && Meet(newer, target)
    requires QueryScope(tables, older, k).Some? && QueryScope(tables, newer, k).Some?
    ensures OverriddenByEqual(tables, [older, newer], target, k) <==>
              QueryScope(tables, older, k) == QueryScope(tables, newer, k)
  {
    hide Meet, QueryScope, Scan, Chosen, LeftBehind, OverriddenByEqual;
    ChooseTwo(older, newer, target);
    ScanTwo(tables, older, newer, k);
    LeftBehindWinsIff(tables, [older, newer], target, k);
  }

  lemma ChooseTwo(older: Scope, newer: Scope, target: Scope)
    requires !Meet(older, target) && Meet(newer, target)
    ensures Chosen([older, newer], target) == [newer] && LeftBehind([older, newer], target) == [older]
  {
    hide Meet;
    NoneChosen([older], target);
    ChosenSnoc([older, newer], target);
    assert [older, newer][..1] == [older];
  }

  lemma ScanTwo(tables: Tables, older: Scope, newer: Scope, k: Key)
    ensures Scan(tables, [older], k) == QueryScope(tables, older, k)
    ensures Scan(tables, [newer], k) == QueryScope(tables, newer, k)
    ensures Scan(tables, [older, newer], k) == OrElse(QueryScope(tables, newer, k), QueryScope(tables, older, k))
  {
  }

  /** Such tables exist. */
  lemma ResurfacingTables(tables: Tables)
    requires tables == map[1 := [KeyValue([1], None)], 2 := [KeyValue([1], Some([7])), KeyValue([5], None)]]
    ensures var older, newer, target := Scope([1], [1], 1), Scope([1], [5], 2), Scope([5], [5], 0);
            && ScopesOk(tables, [older, newer]) && GensAscending([older, newer]) && !Meet(older, target) &&
               Meet(newer, target)
            && QueryScope(tables, older, [1]) == Some(None) && QueryScope(tables, newer, [1]) == Some(Some([7]))
  {
  }
}
