/** The edits of flushes and compaction rounds are honest, so their statistics stay exact. */
module StatisticsRounds {
  import opened Keys
  import opened Rows
  import opened Levels
  import opened Sharding
  import opened Compaction
  import opened CompactionRound
  import opened CompactionCode
  import opened Statistics
  import D = CompactionRuns

  lemma {:induction false} DistinctOnce(level: Level)
    requires DistinctGens(level)
    ensures OnceEach(level)
  {
    forall g ensures Count(level, g) <= 1 {
      CountDistinct(level, g);
    }
  }

  lemma {:induction false} CountDistinct(level: Level, g: int)
    requires DistinctGens(level)
    ensures Count(level, g) <= 1
  {
    if level != [] {
      var init := level[..|level| - 1];
      CountDistinct(init, g);
      CountIsMembership(init, g);
      assert forall i :: 0 <= i < |init| ==> init[i] == level[i];
    }
  }

  /** The gens of the chosen tables: no repeats, all there. */
  lemma ChosenGensThere(level: Level, target: Scope)
    requires DistinctGens(level)
    ensures NoRepeats(GensOf(Chosen(level, target)))
    ensures forall g :: g in GensOf(Chosen(level, target)) ==> HasGen(level, g)
  {
    hide Meet, Chosen;
    var c := Chosen(level, target);
    ChosenDistinct(level, target);
    forall g | g in GensOf(c) ensures HasGen(level, g) {
      var x :| 0 <= x < |c| && c[x].gen == g;
      ChosenMembers(level, target, c[x]);
      var i :| 0 <= i < |level| && level[i] == c[x];
    }
  }

  lemma {:induction false} ChosenDistinct(level: Level, target: Scope)
    requires DistinctGens(level)
    ensures DistinctGens(Chosen(level, target))
  {
    hide Meet;
    if level != [] {
      var init, last := level[..|level| - 1], level[|level| - 1];
      ChosenDistinct(init, target);
      forall s | s in Chosen(init, target) ensures s.gen != last.gen {
        ChosenMembers(init, target, s);
        var i :| 0 <= i < |init| && init[i] == s;
        assert level[i].gen != level[|level| - 1].gen;
      }
    }
  }

  function LoggedRound(edits: seq<Edit>, metas: Metas): seq<LoggedEdit>
    requires |edits| == 3 && edits[0].NewFile? && edits[1].DeleteFile? && edits[2].DeleteFile?
  {
    [LoggedEdit(edits[0], MetaOfScopes(edits[0].scopes, metas)), LoggedEdit(edits[1], MetaOfGens(edits[1].gens, metas)),
     LoggedEdit(edits[2], MetaOfGens(edits[2].gens, metas))]
  }

  /** Three edits on two levels, seen separately. */
  lemma ThreeHonest(levels: seq<Level>, l: nat, a: Edit, b: Edit, c: Edit, metas: Metas)
    requires l + 1 < |levels| && a.NewFile? && a.level == l + 1 && a.index <= |levels[l + 1]|
    requires b.DeleteFile? && b.level == l && c.DeleteFile? && c.level == l + 1
    requires OnceEach(a.scopes)
    requires NoneShared(a.scopes, levels[l + 1])
    requires NoRepeats(b.gens) && forall g :: g in b.gens ==> HasGen(levels[l], g)
    requires NoRepeats(c.gens) && forall g :: g in c.gens ==> HasGen(levels[l + 1], g)
    ensures HonestLog(levels, LoggedRound([a, b, c], metas), metas)
  {
    hide Retain, SortByGen, OnceEach, MetaOfGens, MetaOfScopes;
    var log := LoggedRound([a, b, c], metas);
    var one := ApplyEdit(levels, a);
    var two := ApplyEdit(one, b);
    assert one[l] == levels[l] && two[l + 1] == one[l + 1];
    var level, index := levels[l + 1], a.index;
    assert one[l + 1] == level[..index] + SortByGen(a.scopes) + level[index..];
    forall g | g in c.gens ensures HasGen(two[l + 1], g) {
      var i :| 0 <= i < |level| && level[i].gen == g;
      assert two[l + 1][if i < index then i else i + |SortByGen(a.scopes)|].gen == g;
    }
    assert log[1..] == [log[1], log[2]] && log[1..][1..] == [log[2]] && [log[2]][1..] == [];
    assert HonestLog(two, [log[2]], metas);
    assert HonestLog(one, log[1..], metas);
  }

  lemma NewScopesHonest(tables: Tables, level: Level, shards: seq<Shard>)
    requires ScopesOk(tables, level) && FreshShards(shards, tables)
    ensures OnceEach(NewScopes(shards)) && NoneShared(NewScopes(shards), level)
  {
    hide NewScopes, ScopesOk, OnceEach, GensAscend;
    FreshScopes(tables, level, shards);
    AscendingIsDistinct(NewScopes(shards));
    DistinctOnce(NewScopes(shards));
  }

  /** A compaction round logs honest edits, wherever it inserts and whatever it does to the answers. */
  lemma RoundIsHonest(tables: Tables, levels: seq<Level>, l: nat, target: Scope, shards: seq<Shard>, metas: Metas)
    requires Numbered(tables, levels) && Cut(tables, levels, l, target, shards)
    ensures NonEmptyShards(shards)
    ensures var edits := RoundEdits(PlanOf(tables, levels, l, target), l, shards);
            HonestLog(levels, LoggedRound(edits, metas), metas)
  {
    hide MergedRows, Fusion, Chosen, NewScopes, HonestLog, OnceEach, NoRepeats, GensOf, Cut, FreshShards,
      NonEmptyShards, DistinctGens, ScopesOk, NoneShared, HasGen, InsertIndex, LoggedRound, GensAscending;
    CutShards(tables, levels, l, target, shards);
    var plan := PlanOf(tables, levels, l, target);
    FirstMeetBounds(levels[l + 1], plan.fused);
    NewScopesHonest(tables, levels[l + 1], shards);
    ChosenGensThere(levels[l], target);
    ChosenGensThere(levels[l + 1], plan.fused);
    var edits := RoundEdits(plan, l, shards);
    ThreeHonest(levels, l, edits[0], edits[1], edits[2], metas);
    assert edits == [edits[0], edits[1], edits[2]];
  }

  /** A flush logs an honest edit. */
  lemma FlushIsHonest(d: D.Disk, gen: int, rows: seq<KeyValue>, metas: Metas)
    requires rows != [] && |d.levels| == MAX_LEVEL && D.FreshGen(d, gen)
    ensures HonestLog(d.levels, LoggedFlush(gen, rows, metas), metas)
  {
    hide MetaOfScopes, OnceEach;
    var e := D.FlushEdit(gen, rows);
    DistinctOnce(e.scopes);
    assert NoneShared(e.scopes, d.levels[0]) by {
      forall i, j | 0 <= i < |e.scopes| && 0 <= j < |d.levels[0]| ensures e.scopes[i].gen != d.levels[0][j].gen {
        assert d.levels[0][j] in d.levels[0];
      }
    }
    var log := LoggedFlush(gen, rows, metas);
    assert log[1..] == [];
  }

  function LoggedFlush(gen: int, rows: seq<KeyValue>, metas: Metas): seq<LoggedEdit>
    requires rows != []
  {
    [LoggedEdit(D.FlushEdit(gen, rows), MetaOfScopes(D.FlushEdit(gen, rows).scopes, metas))]
  }

  /** A step that has something to log. */
  predicate Loggable(d: D.Disk, step: D.Step) {
    match step
    case Flush(gen, rows) => rows != []
    case Round(l, target, shards) =>
      |d.levels| == MAX_LEVEL && l + 1 < MAX_LEVEL && Chosen(d.levels[l], target) != [] && NonEmptyShards(shards)
  }

  lemma StepsLog(d: D.Disk, d': D.Disk, step: D.Step)
    requires D.Next(d, d', step)
    ensures Loggable(d, step)
  {
    hide Cut, AllFit, ApplyEdits, RoundEdits, Chosen, NonEmptyShards, ApplyEdit;
    if step.Round? {
      CutShards(d.tables, d.levels, step.level, step.target, step.shards);
    }
  }

  /** What a step logs. */
  function LoggedStep(d: D.Disk, step: D.Step, metas: Metas): seq<LoggedEdit>
    requires Loggable(d, step)
  {
    match step
    case Flush(gen, rows) => LoggedFlush(gen, rows, metas)
    case Round(l, target, shards) => LoggedRound(RoundEdits(PlanOf(d.tables, d.levels, l, target), l, shards), metas)
  }

  lemma FlushStep(d: D.Disk, d': D.Disk, gen: int, rows: seq<KeyValue>, metas: Metas)
    requires D.Next(d, d', D.Flush(gen, rows))
    ensures var log := LoggedFlush(gen, rows, metas);
            HonestLog(d.levels, log, metas) && ApplyLog(d.levels, log, metas) == d'.levels
  {
    hide HonestLog, ApplyEdit, D.FreshGen, MetaOfScopes;
    FlushIsHonest(d, gen, rows, metas);
    var log := LoggedFlush(gen, rows, metas);
    LogFits(d.levels, log, metas);
    var e := D.FlushEdit(gen, rows);
    assert EditsOf(log) == [e] && [e][1..] == [];
    assert ApplyEdits(d.levels, [e]) == ApplyEdits(ApplyEdit(d.levels, e), []);
  }

  lemma RoundStep(d: D.Disk, step: D.Step, metas: Metas)
    requires Loggable(d, step) && step.Round? && Numbered(d.tables, d.levels)
    requires Cut(d.tables, d.levels, step.level, step.target, step.shards)
    ensures HonestLog(d.levels, LoggedStep(d, step, metas), metas)
    ensures EditsOf(LoggedStep(d, step, metas)) ==
            RoundEdits(PlanOf(d.tables, d.levels, step.level, step.target), step.level, step.shards)
  {
    hide HonestLog, PlanOf, Cut, Chosen, NewScopes, MetaOfScopes, MetaOfGens, GensOf, NonEmptyShards, Numbered;
    RoundIsHonest(d.tables, d.levels, step.level, step.target, step.shards, metas);
  }

  lemma StepIsHonest(d: D.Disk, d': D.Disk, step: D.Step, metas: Metas)
    requires Loggable(d, step) && D.Next(d, d', step) && Numbered(d.tables, d.levels)
    ensures var log := LoggedStep(d, step, metas);
            HonestLog(d.levels, log, metas) && ApplyLog(d.levels, log, metas) == d'.levels
  {
    hide HonestLog, ApplyEdits, AllFit, PlanOf, Cut, Chosen, ApplyEdit, LoggedRound, RoundEdits, Numbered;
    match step
    case Flush(gen, rows) => FlushStep(d, d', gen, rows, metas);
    case Round(_, _, _) => RoundStep(d, step, metas);
  }

  /** The log after `i` steps. */
  ghost function LogOf(run: seq<D.Disk>, steps: seq<D.Step>, i: nat, metas: Metas): seq<LoggedEdit>
    requires i < |run| == |steps| + 1
  {
    if i == 0 then []
    else
      LogOf(run, steps, i - 1, metas) +
      if Loggable(run[i - 1], steps[i - 1]) then LoggedStep(run[i - 1], steps[i - 1], metas) else []
  }

  /** Every run of flushes and rounds, wherever the rounds insert and whatever they do to the answers,
      logs an honest log that replays to its levels. */
  lemma {:induction false} RunIsHonest(run: seq<D.Disk>, steps: seq<D.Step>, i: nat, metas: Metas)
    requires D.Run(run, steps) && i < |run|
    ensures HonestLog(EmptyLevels, LogOf(run, steps, i, metas), metas)
    ensures ApplyLog(EmptyLevels, LogOf(run, steps, i, metas), metas) == run[i].levels
  {
    hide D.Next, LoggedStep, Loggable, Numbered;
    if i == 0 {
      assert EditsOf([]) == [];
    } else {
      hide HonestLog, D.Init, ApplyLog;
      RunIsHonest(run, steps, i - 1, metas);
      assert D.Next(run[i - 1], run[i], steps[i - 1]);
      D.RunNumbered(run, steps, i - 1);
      StepsLog(run[i - 1], run[i], steps[i - 1]);
      StepIsHonest(run[i - 1], run[i], steps[i - 1], metas);
      HonestLogSplit(EmptyLevels, LogOf(run, steps, i - 1, metas), LoggedStep(run[i - 1], steps[i - 1], metas), metas);
    }
  }

  /** In every run the counters never run below zero and are the sums over the tables of all levels. */
  lemma RunStatistics(run: seq<D.Disk>, steps: seq<D.Step>, i: nat, metas: Metas)
    requires D.Run(run, steps) && i < |run|
    ensures var types := Types(LogOf(run, steps, i, metas));
            Enough(TableMeta(0, 0), types) && Processed(TableMeta(0, 0), types) == MetaOfLevels(run[i].levels, metas)
  {
    hide HonestLog, D.Init, D.Next, Enough, Processed, MetaOfLevels, AllOnce, LogOf;
    RunIsHonest(run, steps, i, metas);
    EmptyLevelsFacts(metas);
    LogStatistics(EmptyLevels, LogOf(run, steps, i, metas), metas);
  }
}
