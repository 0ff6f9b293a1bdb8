/** Versions, their tables and the cleaner together: every flush and every compaction round is an apply
    step of the cleaner's protocol, so the files of a version somebody holds are there. */
module FilesOnDisk {
  import opened Keys
  import opened Rows
  import opened Levels
  import opened Sharding
  import opened Compaction
  import opened CompactionRound
  import opened CompactionCode
  import opened Statistics
  import opened StatisticsRounds
  import D = CompactionRuns
  import C = Cleaner

  // ---- gens of a version ----

  function GensIn(levels: seq<Level>): set<int> {
    set l, i | 0 <= l < |levels| && 0 <= i < |levels[l]| :: levels[l][i].gen
  }

  /** No gen is in two levels. */
  ghost predicate OneLevelEach(levels: seq<Level>) {
    forall l, m, g :: 0 <= l < m < |levels| && HasGen(levels[l], g) ==> !HasGen(levels[m], g)
  }

  lemma GensInIs(levels: seq<Level>, g: int)
    ensures g in GensIn(levels) <==> exists l :: 0 <= l < |levels| && HasGen(levels[l], g)
  {
  }

  lemma KnownGens(tables: Tables, levels: seq<Level>, l: nat, g: int)
    requires Numbered(tables, levels) && l < MAX_LEVEL && HasGen(levels[l], g)
    ensures g in tables
  {
    var i :| 0 <= i < |levels[l]| && levels[l][i].gen == g;
    assert levels[l][i] in levels[l];
  }

  lemma HasGenMember(level: Level, g: int)
    ensures HasGen(level, g) <==> exists s :: s in level && s.gen == g
  {
  }

  // ---- what a step deletes and adds ----

  /** The gens a step's edits delete. */
  function Deleted(d: D.Disk, step: D.Step): seq<int>
    requires Loggable(d, step)
  {
    match step
    case Flush(_, _) => []
    case Round(l, target, _) =>
      var plan := PlanOf(d.tables, d.levels, l, target);
      GensOf(plan.upper) + GensOf(plan.lower)
  }

  /** The gens of its new tables. */
  function Added(step: D.Step): set<int> {
    match step
    case Flush(gen, _) => {gen}
    case Round(_, _, shards) => set i | 0 <= i < |shards| :: shards[i].gen
  }

  /** They are what the version announces for the step's log. */
  lemma TagOfStep(d: D.Disk, step: D.Step, metas: Metas)
    requires Loggable(d, step)
    ensures DeletedGens(LoggedStep(d, step, metas)) == Deleted(d, step)
  {
    hide Chosen, MergedRows, Fusion, MetaOfScopes, MetaOfGens, NewScopes, GensOf;
    var log := LoggedStep(d, step, metas);
    if step.Flush? {
      DeletedGensLast(log, 0);
      LogParts(log);
      assert log[..0] == [];
    } else {
      DeletedGensHead(log);
      DeletedGensHead(log[1..]);
      DeletedGensHead(log[1..][1..]);
      LogParts(log);
      assert log[1..][1..][1..] == [] && log[..0] == [];
    }
  }

  lemma LeftBehindGens(level: Level, target: Scope, g: int)
    requires DistinctGens(level)
    ensures HasGen(LeftBehind(level, target), g) <==> HasGen(level, g) && g !in GensOf(Chosen(level, target))
  {
    hide Meet, Chosen, LeftBehind, GensOf, Retain;
    ChosenGens(level, target);
    RetainIsLeftBehind(level, target, GensOf(Chosen(level, target)));
    RetainGens(level, GensOf(Chosen(level, target)), g);
  }

  lemma NextLevelHas(level: Level, fused: Scope, new_: Level, g: int)
    requires DistinctGens(level)
    ensures HasGen(NextLevel(level, fused, new_), g) <==>
            HasGen(new_, g) || (HasGen(level, g) && g !in GensOf(Chosen(level, fused)))
  {
    hide Meet, Chosen, LeftBehind, GensOf, NextLevel, HasGen, DistinctGens;
    LeftBehindGens(level, fused, g);
    HasGenMember(NextLevel(level, fused, new_), g);
    HasGenMember(new_, g);
    HasGenMember(LeftBehind(level, fused), g);
    forall s ensures s in NextLevel(level, fused, new_) <==> s in new_ || s in LeftBehind(level, fused) {
      NextLevelParts(level, fused, new_, s);
    }
  }

  lemma NewGens(shards: seq<Shard>, g: int)
    requires NonEmptyShards(shards)
    ensures HasGen(NewScopes(shards), g) <==> exists i :: 0 <= i < |shards| && shards[i].gen == g
  {
    var new_ := NewScopes(shards);
    assert forall i :: 0 <= i < |shards| ==> new_[i].gen == shards[i].gen;
    if i :| 0 <= i < |shards| && shards[i].gen == g { assert new_[i].gen == g; }
  }

  /** The gens of each level after a round. */
  lemma RoundHas(tables: Tables, levels: seq<Level>, l: nat, target: Scope, shards: seq<Shard>, m: nat, g: int)
    requires Numbered(tables, levels) && Cut(tables, levels, l, target, shards) && NonEmptyShards(shards)
    requires m < MAX_LEVEL
    ensures var plan := PlanOf(tables, levels, l, target);
            HasGen(CutLevels(tables, levels, l, target, shards)[m], g) <==>
            || (&& HasGen(levels[m], g)
                && !(m == l && g in GensOf(plan.upper)) && !(m == l + 1 && g in GensOf(plan.lower)))
            || (m == l + 1 && HasGen(NewScopes(shards), g))
  {
    hide Meet, Chosen, LeftBehind, GensOf, NextLevel, HasGen, MergedRows, Fusion, NewScopes, ScopesOk, DistinctGens,
      Byteless, ShardsOf;
    var plan := PlanOf(tables, levels, l, target);
    LeftBehindGens(levels[l], target, g);
    NextLevelHas(levels[l + 1], plan.fused, NewScopes(shards), g);
  }

  /** The gens a round deletes are there, and its plan's are those of the two levels. */
  lemma PlanGensThere(tables: Tables, levels: seq<Level>, l: nat, target: Scope)
    requires Numbered(tables, levels) && l + 1 < MAX_LEVEL && Chosen(levels[l], target) != []
    ensures var plan := PlanOf(tables, levels, l, target);
            && NoRepeats(GensOf(plan.upper)) && NoRepeats(GensOf(plan.lower))
            && (forall g :: g in GensOf(plan.upper) ==> HasGen(levels[l], g))
            && (forall g :: g in GensOf(plan.lower) ==> HasGen(levels[l + 1], g))
  {
    hide Meet, Chosen, GensOf, HasGen, MergedRows, Fusion, ScopesOk, DistinctGens, NoRepeats;
    ChosenGensThere(levels[l], target);
    ChosenGensThere(levels[l + 1], PlanOf(tables, levels, l, target).fused);
  }

  lemma JoinNoRepeats(a: seq<int>, b: seq<int>)
    requires NoRepeats(a) && NoRepeats(b) && forall g :: g in a ==> g !in b
    ensures NoRepeats(a + b)
  {
    var s := a + b;
    forall i, j | 0 <= i < j < |s| ensures s[i] != s[j] {
      assert i < |a| ==> s[i] in a;
      assert j >= |a| ==> s[j] in b;
    }
  }

  /** What the cleaner's protocol asks of an apply. */
  ghost predicate IsApply(d: D.Disk, d': D.Disk, del: seq<int>, new_: set<int>) {
    && NoRepeats(del) && C.SetOf(del) <= GensIn(d.levels) && new_ !! d.tables.Keys
    && GensIn(d'.levels) == GensIn(d.levels) - C.SetOf(del) + new_ && d'.tables.Keys == d.tables.Keys + new_
  }

  lemma {:induction false} AddedKeys(tables: Tables, shards: seq<Shard>, g: int)
    ensures g in AddTables(tables, shards) <==> g in tables || exists i :: 0 <= i < |shards| && shards[i].gen == g
  {
    if shards != [] {
      var init := shards[..|shards| - 1];
      AddedKeys(tables, init, g);
      assert forall i :: 0 <= i < |init| ==> init[i] == shards[i];
    }
  }

  lemma FlushIsApply(d: D.Disk, d': D.Disk, gen: int, rows: seq<KeyValue>)
    requires Numbered(d.tables, d.levels) && OneLevelEach(d.levels) && D.Next(d, d', D.Flush(gen, rows))
    ensures IsApply(d, d', [], {gen}) && OneLevelEach(d'.levels)
  {
    hide ScopesOk, DistinctGens, GensAscending, Sorted, ApplyEdit, HasGen, GensIn;
    D.FlushLevels(d, gen, rows);
    var s := ShardScope(Shard(gen, rows));
    forall m: nat, g | m < MAX_LEVEL ensures MovedTo(d.levels, d'.levels, d.tables.Keys, [], [], {gen}, 0, 0, m, g) {
      HasGenSnoc(d.levels[0], s, g);
      if HasGen(d.levels[m], g) { KnownGens(d.tables, d.levels, m, g); }
    }
    var none: seq<int> := [];
    LevelsApply(d.levels, d'.levels, d.tables.Keys, 0, 0, none, none, {gen});
    assert none + none == none;
  }

  lemma RoundIsApply(d: D.Disk, d': D.Disk, l: nat, target: Scope, shards: seq<Shard>)
    requires Numbered(d.tables, d.levels) && OneLevelEach(d.levels) && D.Next(d, d', D.Round(l, target, shards))
    requires Loggable(d, D.Round(l, target, shards))
    ensures var step := D.Round(l, target, shards);
            IsApply(d, d', Deleted(d, step), Added(step)) && OneLevelEach(d'.levels)
  {
    hide Chosen, LeftBehind, NextLevel, MergedRows, Fusion, NewScopes, ScopesOk, DistinctGens, GensAscending, HasGen,
      GensOf, ApplyEdits, AllFit, RoundEdits, Cut, FreshShards, AddTables, GensIn;
    var step, plan := D.Round(l, target, shards), PlanOf(d.tables, d.levels, l, target);
    CutShards(d.tables, d.levels, l, target, shards);
    RoundApplies(d.tables, d.levels, l, target, shards);
    assert d'.levels == CutLevels(d.tables, d.levels, l, target, shards);
    PlanGensThere(d.tables, d.levels, l, target);
    var up, low, new_, below := GensOf(plan.upper), GensOf(plan.lower), Added(step), l + 1;
    JoinNoRepeats(up, low);
    forall g ensures HasGen(NewScopes(shards), g) <==> g in new_ { NewGens(shards, g); }
    forall g ensures g in new_ ==> g !in d.tables.Keys { FreshGens(d.tables, shards, g); }
    forall g ensures g in d'.tables.Keys <==> g in d.tables.Keys || g in new_ { AddedKeys(d.tables, shards, g); }
    forall m: nat, g | m < MAX_LEVEL
      ensures MovedTo(d.levels, d'.levels, d.tables.Keys, up, low, new_, l, below, m, g)
    {
      RoundHas(d.tables, d.levels, l, target, shards, m, g);
      if HasGen(d.levels[m], g) { KnownGens(d.tables, d.levels, m, g); }
    }
    assert d'.tables.Keys == d.tables.Keys + new_;
    LevelsApply(d.levels, d'.levels, d.tables.Keys, l, below, up, low, new_);
  }

  lemma FreshGens(tables: Tables, shards: seq<Shard>, g: int)
    requires FreshShards(shards, tables)
    ensures (exists i :: 0 <= i < |shards| && shards[i].gen == g) ==> g !in tables
  {
  }

  /** Level `m` loses `up` if it is `l` and `low` if it is the one below, and gains `new_` if it is `at`. */
  ghost predicate MovedTo(levels: seq<Level>, levels': seq<Level>, known: set<int>, up: seq<int>, low: seq<int>,
                          new_: set<int>, l: nat, at: nat, m: nat, g: int)
    requires m < |levels| == |levels'|
  {
    && (HasGen(levels[m], g) ==> g in known)
    && (HasGen(levels'[m], g) <==>
        || (HasGen(levels[m], g) && !(m == l && g in up) && !(m == l + 1 && g in low))
        || (m == at && g in new_))
  }

  ghost predicate AllMoved(levels: seq<Level>, levels': seq<Level>, known: set<int>, up: seq<int>, low: seq<int>,
                           new_: set<int>, l: nat, at: nat)
    requires |levels| == |levels'|
  {
    forall m: nat, g :: m < |levels| ==> MovedTo(levels, levels', known, up, low, new_, l, at, m, g)
  }

  /** The same on gens alone. */
  lemma LevelsApply(levels: seq<Level>, levels': seq<Level>, known: set<int>, l: nat, at: nat, up: seq<int>,
                    low: seq<int>, new_: set<int>)
    requires |levels| == |levels'| == MAX_LEVEL && l + 1 < MAX_LEVEL && at < MAX_LEVEL
    requires OneLevelEach(levels) && new_ !! known && AllMoved(levels, levels', known, up, low, new_, l, at)
    requires (forall g :: g in up ==> HasGen(levels[l], g)) && (forall g :: g in low ==> HasGen(levels[l + 1], g))
    ensures OneLevelEach(levels') && C.SetOf(up + low) <= GensIn(levels)
    ensures GensIn(levels') == GensIn(levels) - C.SetOf(up + low) + new_
  {
    hide HasGen, GensIn;
    forall g
      ensures g in GensIn(levels') <==> (g in GensIn(levels) && g !in up + low) || g in new_
      ensures g in up + low ==> g in GensIn(levels)
    {
      GensInIs(levels, g);
      GensInIs(levels', g);
      assert forall m: nat :: m < MAX_LEVEL ==> MovedTo(levels, levels', known, up, low, new_, l, at, m, g);
      if g in GensIn(levels) && g !in up + low {
        var m :| 0 <= m < |levels| && HasGen(levels[m], g);
        assert MovedTo(levels, levels', known, up, low, new_, l, at, m, g);
      }
      assert MovedTo(levels, levels', known, up, low, new_, l, at, at, g);
      if m :| 0 <= m < |levels'| && HasGen(levels'[m], g) {
        assert MovedTo(levels, levels', known, up, low, new_, l, at, m, g);
      }
    }
    forall a, b, g | 0 <= a < b < MAX_LEVEL && HasGen(levels'[a], g) ensures !HasGen(levels'[b], g) {
      assert MovedTo(levels, levels', known, up, low, new_, l, at, a, g);
      assert MovedTo(levels, levels', known, up, low, new_, l, at, b, g);
      assert HasGen(levels[b], g) ==> !HasGen(levels[a], g);
    }
  }

  // ---- the two machines together ----

  /** `disks`: the disk each version was made of. */
  datatype State = State(disks: map<nat, D.Disk>, sys: C.System)

  datatype Step =
    | Compact(edit: D.Step)
    | Cleaning(action: C.Step)

  /** A flush or round makes a new version and announces what its edits deleted; captures, releases and
      deliveries do not touch the levels. */
  ghost predicate Next(s: State, s': State, step: Step) {
    match step
    case Compact(c) =>
      var v := s.sys.current;
      && v in s.disks && v + 1 in s'.disks && s'.disks == s.disks[v + 1 := s'.disks[v + 1]]
      && Loggable(s.disks[v], c) && D.Next(s.disks[v], s'.disks[v + 1], c)
      && C.Next(s.sys, s'.sys, C.Apply(Deleted(s.disks[v], c), Added(c)))
    case Cleaning(c) => !c.Apply? && C.Next(s.sys, s'.sys, c) && s'.disks == s.disks
  }

  ghost predicate Init(s: State) {
    C.Init(s.sys) && s.sys.born == {} && 1 in s.disks && D.Init(s.disks[1])
  }

  ghost predicate Run(run: seq<State>, steps: seq<Step>) {
    && |run| == |steps| + 1 && Init(run[0])
    && forall i {:trigger steps[i]} :: 0 <= i < |steps| ==> Next(run[i], run[i + 1], steps[i])
  }

  /** The cleaner's sets are the gens of the versions' levels. */
  ghost predicate Inv(s: State) {
    && C.Inv(s.sys) && s.sys.current in s.sys.versions
    && (forall v :: v in s.sys.versions ==> v in s.disks && s.sys.versions[v].levels == GensIn(s.disks[v].levels))
    && (var d := s.disks[s.sys.current];
        Numbered(d.tables, d.levels) && OneLevelEach(d.levels) && s.sys.born == d.tables.Keys)
  }

  lemma StepIsApply(d: D.Disk, d': D.Disk, step: D.Step)
    requires Numbered(d.tables, d.levels) && OneLevelEach(d.levels) && D.Next(d, d', step)
    ensures Loggable(d, step) && IsApply(d, d', Deleted(d, step), Added(step))
    ensures Numbered(d'.tables, d'.levels) && OneLevelEach(d'.levels)
  {
    hide Numbered, OneLevelEach, D.Next, IsApply, Loggable;
    StepsLog(d, d', step);
    D.NumberedStep(d, d', step);
    match step
    case Flush(gen, rows) => FlushIsApply(d, d', gen, rows);
    case Round(l, target, shards) => RoundIsApply(d, d', l, target, shards);
  }

  /** While the store is open every flush and every round the code can make is an apply step of the
      cleaner's protocol. */
  lemma CompactEnabled(s: State, d': D.Disk, c: D.Step) returns (s': State)
    requires Inv(s) && s.sys.open && D.Next(s.disks[s.sys.current], d', c)
    ensures Next(s, s', Compact(c)) && s.sys.current + 1 in s'.disks && s'.disks[s.sys.current + 1] == d'
  {
    hide Numbered, OneLevelEach, D.Next, Loggable, GensIn, C.Inv, C.SetOf, NoRepeats, Deleted, Added;
    var v, d := s.sys.current, s.disks[s.sys.current];
    StepIsApply(d, d', c);
    var del, new_ := Deleted(d, c), Added(c);
    OpenRefs(s.sys);
    s' := State(s.disks[v + 1 := d'], C.Dropped(C.Applied(s.sys, del, new_), v));
  }

  lemma OpenRefs(s: C.System)
    requires C.Inv(s) && s.open
    ensures s.current in s.versions && s.versions[s.current].refs > 0
  {
  }

  /** What a step does to the versions' tables. */
  lemma LevelsStep(s: C.System, s': C.System, c: C.Step)
    requires C.Next(s, s', c)
    ensures !c.Apply? ==> s'.current == s.current && s'.born == s.born && s'.versions.Keys == s.versions.Keys
    ensures c.Apply? ==>
              && s'.current == s.current + 1 && s'.born == s.born + c.new_
              && s'.versions.Keys == s.versions.Keys + {s.current + 1}
              && s.current in s.versions
              && s'.versions[s'.current].levels == s.versions[s.current].levels - C.SetOf(c.del) + c.new_
    ensures forall v :: v in s.versions && (v <= s.current || !c.Apply?) ==>
              v in s'.versions && s'.versions[v].levels == s.versions[v].levels
  {
    hide C.SetOf, C.Deliver, C.CleanAll, NoRepeats;
  }

  lemma VersionsBelow(s: C.System)
    requires C.Inv(s)
    ensures forall v :: v in s.versions ==> v <= s.current
  {
  }

  lemma NextInv(s: State, s': State, step: Step)
    requires Inv(s) && Next(s, s', step)
    ensures Inv(s')
  {
    hide C.Inv, C.Next, D.Next, Numbered, OneLevelEach, GensIn, C.SetOf, Loggable;
    VersionsBelow(s.sys);
    match step
    case Compact(c) =>
      var v := s.sys.current;
      var apply := C.Apply(Deleted(s.disks[v], c), Added(c));
      StepIsApply(s.disks[v], s'.disks[v + 1], c);
      C.NextInv(s.sys, s'.sys, apply);
      LevelsStep(s.sys, s'.sys, apply);
    case Cleaning(c) =>
      C.NextInv(s.sys, s'.sys, c);
      LevelsStep(s.sys, s'.sys, c);
  }

  lemma InitInv(s: State)
    requires Init(s)
    ensures Inv(s)
  {
    C.InitInv(s.sys) by { hide C.Inv; }
    hide C.Inv;
    assert GensIn(s.disks[1].levels) == {};
  }

  lemma {:induction false} RunInv(run: seq<State>, steps: seq<Step>, i: nat)
    requires Run(run, steps) && i < |run|
    ensures Inv(run[i])
  {
    hide Inv, Init, Next;
    if i == 0 {
      InitInv(run[0]);
    } else {
      RunInv(run, steps, i - 1);
      NextInv(run[i - 1], run[i], steps[i - 1]);
    }
  }

  lemma HeldNotDeleted(s: C.System, v: nat, g: int)
    requires C.Inv(s) && v in s.versions && s.versions[v].refs > 0 && g in s.versions[v].levels
    ensures g !in s.files.deleted
  {
  }

  /** In every run of flushes, rounds, captures, releases and deliveries no table of a version that the
      store or a reader holds has been deleted. */
  lemma HeldTablesAreThere(run: seq<State>, steps: seq<Step>, i: nat, v: nat, l: nat, j: nat)
    requires Run(run, steps) && i < |run| && v in run[i].sys.versions && run[i].sys.versions[v].refs > 0
    ensures v in run[i].disks
    ensures var levels := run[i].disks[v].levels;
            l < |levels| && j < |levels[l]| ==> levels[l][j].gen !in run[i].sys.files.deleted
  {
    hide C.Inv, Numbered, OneLevelEach, Next, Init;
    RunInv(run, steps, i);
    var levels: seq<Level> := run[i].disks[v].levels;
    if l < |levels| && j < |levels[l]| {
      assert levels[l][j].gen in GensIn(levels);
      HeldNotDeleted(run[i].sys, v, levels[l][j].gen);
    }
  }
}
