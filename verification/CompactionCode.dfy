/** A compaction round with the shards the code really cuts. Merged rows without a single byte are
    dropped by the sharding, and then the round loses a key. */
module CompactionCode {
  import opened Keys
  import opened Rows
  import opened Levels
  import opened Sharding
  import opened Compaction
  import opened CompactionRound
  import opened InsertionPoint

  // ---- rows without bytes ----

  lemma {:induction false} NoBytes(rows: seq<KeyValue>, i: nat)
    requires TotalBytes(rows) == 0 && i < |rows|
    ensures RowBytes(rows[i]) == 0
  {
    if i < |rows| - 1 {
      NoBytes(rows[..|rows| - 1], i);
    }
  }

  /** Sorted rows without bytes are one row of the empty key. */
  lemma BytelessRows(rows: seq<KeyValue>)
    requires Sorted(rows) && rows != [] && TotalBytes(rows) == 0
    ensures |rows| == 1 && rows[0].key == [] && (rows[0].data == None || rows[0].data == Some([]))
  {
    assert |rows| > 1 ==> Lt(rows[0].key, rows[1].key);
    forall i | 0 <= i < |rows| ensures RowBytes(rows[i]) == 0 { NoBytes(rows, i); }
  }

  /** A round can be planned: the level is not the last and has tables in the range. */
  ghost predicate Plannable(tables: Tables, levels: seq<Level>, l: nat, target: Scope) {
    WellFormed(tables, levels) && l + 1 < MAX_LEVEL && Chosen(levels[l], target) != []
  }

  predicate Byteless(plan: Plan) {
    TotalBytes(plan.rows) == 0
  }

  /** What a byteless round leaves: both levels without their chosen tables. */
  function BytelessLevels(tables: Tables, levels: seq<Level>, l: nat, target: Scope): (r: seq<Level>)
    requires |levels| == MAX_LEVEL && l + 1 < MAX_LEVEL && Chosen(levels[l], target) != []
    ensures |r| == MAX_LEVEL
  {
    levels[l := LeftBehind(levels[l], target)]
          [l + 1 := LeftBehind(levels[l + 1], PlanOf(tables, levels, l, target).fused)]
  }

  lemma NothingInserted(level: Level, fused: Scope)
    ensures NextLevel(level, fused, []) == LeftBehind(level, fused)
  {
    hide Meet, LeftBehind, InsertIndex;
    FirstMeetBounds(level, fused);
    var i := InsertIndex(level, fused);
    LeftBehindSplit(level, i, fused);
    var a, b := LeftBehind(level[..i], fused), LeftBehind(level[i..], fused);
    assert a + [] == a;
  }

  lemma BytelessKeepsLevels(tables: Tables, levels: seq<Level>, l: nat, target: Scope)
    requires Plannable(tables, levels, l, target)
    ensures WellFormed(tables, BytelessLevels(tables, levels, l, target))
  {
    hide Meet, Chosen, LeftBehind, MergedRows, Fusion, ScopeOk;
    var fused := PlanOf(tables, levels, l, target).fused;
    ChosenOk(tables, levels[l], target);
    ChosenOk(tables, levels[l + 1], fused);
    SublistSorted(levels[l + 1], fused);
    SublistGensDistinct(levels[l + 1], fused);
    if l == 0 {
      SublistGensAscend(levels[0], target);
    } else {
      SublistSorted(levels[l], target);
      SublistGensDistinct(levels[l], target);
    }
    ReplaceTwo(tables, levels, l, LeftBehind(levels[l], target), LeftBehind(levels[l + 1], fused));
  }

  // ---- the empty key ----

  lemma EmptyIsLeast(k: Key)
    ensures Le([], k) && (Le(k, []) ==> k == [])
  {
    if k != [] {
      PrefixIsLess([], k);
      assert [] + k == k;
    }
  }

  /** A range that begins with the empty key meets every target that the range of just the empty key
      meets. */
  lemma MeetsEmpty(s: Scope, u: Scope, target: Scope)
    requires s.start == [] && u.start == [] && u.end == [] && Meet(u, target)
    ensures Meet(s, target)
  {
    EmptyIsLeast(target.start);
    EmptyIsLeast(target.end);
    EmptyIsLeast(s.end);
  }

  lemma HoldsEmpty(tables: Tables, s: Scope)
    requires ScopeOk(tables, s) && QueryScope(tables, s, []).Some?
    ensures s.start == []
  {
    ScopeProper(tables, s);
    EmptyIsLeast(s.start);
  }

  /** Every chosen upper table is the empty key alone. */
  lemma BytelessTable(tables: Tables, levels: seq<Level>, l: nat, target: Scope, s: Scope)
    requires Plannable(tables, levels, l, target) && Byteless(PlanOf(tables, levels, l, target))
    requires s in Chosen(levels[l], target)
    ensures ScopeOk(tables, s) && s.start == [] && s.end == []
  {
    hide Meet, Chosen, MergedRows, Fusion, Scan;
    var plan := PlanOf(tables, levels, l, target);
    ChosenOk(tables, levels[l], target);
    ScopeProper(tables, s);
    BytelessKey(tables, levels, l, target, s, s.start);
    BytelessKey(tables, levels, l, target, s, s.end);
  }

  lemma BytelessKey(tables: Tables, levels: seq<Level>, l: nat, target: Scope, s: Scope, k: Key)
    requires Plannable(tables, levels, l, target) && Byteless(PlanOf(tables, levels, l, target))
    requires s in Chosen(levels[l], target) && ScopeOk(tables, s) && Holds(tables[s.gen], k)
    ensures k == []
  {
    hide Meet, Chosen, MergedRows, Fusion;
    var plan := PlanOf(tables, levels, l, target);
    PlanRows(tables, levels, l, target, k);
    BytelessRows(plan.rows) by { PlanNotEmpty(tables, levels, l, target); }
    ScopeProper(tables, s);
    ScanNone(tables, plan.upper, k);
  }

  /** No table that stays behind in either level holds the empty key. */
  lemma BytelessRest(tables: Tables, levels: seq<Level>, l: nat, target: Scope)
    requires Plannable(tables, levels, l, target) && Byteless(PlanOf(tables, levels, l, target))
    ensures var fused := PlanOf(tables, levels, l, target).fused;
            && Scan(tables, LeftBehind(levels[l], target), []).None?
            && Scan(tables, LeftBehind(levels[l + 1], fused), []).None?
  {
    hide Meet, Chosen, LeftBehind, MergedRows, Fusion, Scan, QueryScope, ScopeOk;
    var plan := PlanOf(tables, levels, l, target);
    var u := plan.upper[0];
    assert u in plan.upper;
    BytelessTable(tables, levels, l, target, u);
    ChosenMembers(levels[l], target, u);
    forall s | s in LeftBehind(levels[l], target) ensures QueryScope(tables, s, []).None? {
      ChosenMembers(levels[l], target, s);
      if QueryScope(tables, s, []).Some? {
        HoldsEmpty(tables, s);
        MeetsEmpty(s, u, target);
      }
    }
    ScanNone(tables, LeftBehind(levels[l], target), []);
    forall s | s in LeftBehind(levels[l + 1], plan.fused) ensures QueryScope(tables, s, []).None? {
      ChosenMembers(levels[l + 1], plan.fused, s);
      if QueryScope(tables, s, []).Some? {
        HoldsEmpty(tables, s);
        FusedMeetsEmpty(plan.upper, u, s);
      }
    }
    ScanNone(tables, LeftBehind(levels[l + 1], plan.fused), []);
  }

  lemma FusedMeetsEmpty(scopes: Level, u: Scope, s: Scope)
    requires u in scopes && u.start == [] && s.start == []
    ensures Meet(s, Fusion(scopes))
  {
    EmptyIsLeast(Fusion(scopes).start);
    EmptyIsLeast(s.end);
  }

  // ---- answers of a byteless round ----

  /** The first answer from level `i` down. */
  function ChainFrom<T>(a: seq<Option<T>>, i: nat): Option<T>
    requires i <= |a|
    decreases |a| - i
  {
    if i == |a| then None else OrElse(a[i], ChainFrom(a, i + 1))
  }

  /** With the answers of two levels gone, the chain keeps its answer exactly if a level above had
      one, or the levels below have the same. */
  lemma FallThrough<T>(a: seq<Option<T>>, b: seq<Option<T>>, l: nat)
    requires |a| == |b| == 4 && l < 3 && (forall i :: 0 <= i < 4 && i != l && i != l + 1 ==> a[i] == b[i])
    requires a[l].Some? && b[l].None? && b[l + 1].None?
    ensures Chain(b) == Chain(a) <==> (exists i :: 0 <= i < l && a[i].Some?) || ChainFrom(a, l + 2) == a[l]
  {
    assert ChainFrom(a, 4) == None && ChainFrom(a, 3) == a[3] && ChainFrom(a, 2) == OrElse(a[2], a[3]);
  }

  /** When a byteless round keeps the answer for a key: the key is not the empty one, or a level above
      holds it, or the levels below the two give it the value that the round drops. */
  ghost predicate BytelessHarmless(tables: Tables, levels: seq<Level>, l: nat, target: Scope, k: Key)
    requires Plannable(tables, levels, l, target)
  {
    || k != []
    || (exists i :: 0 <= i < l && Scan(tables, levels[i], k).Some?)
    || ChainFrom(Scans(tables, levels, k), l + 2) == Find(PlanOf(tables, levels, l, target).rows, k)
  }

  lemma BytelessScans(tables: Tables, levels: seq<Level>, l: nat, target: Scope, k: Key)
    requires Plannable(tables, levels, l, target) && Byteless(PlanOf(tables, levels, l, target))
    ensures var plan, a := PlanOf(tables, levels, l, target), Scans(tables, levels, k);
            var b := Scans(tables, BytelessLevels(tables, levels, l, target), k);
            && (forall i :: 0 <= i < 4 && i != l && i != l + 1 ==> a[i] == b[i])
            && (k != [] ==> a[l] == b[l] && a[l + 1] == b[l + 1])
            && (k == [] ==> a[l] == Find(plan.rows, k) && a[l].Some? && b[l].None? && b[l + 1].None?)
  {
    hide Meet, Chosen, LeftBehind, MergedRows, Fusion, Scan, ScopeOk, Find;
    var plan := PlanOf(tables, levels, l, target);
    ScanPartition(tables, levels[l], target, k);
    ScanPartition(tables, levels[l + 1], plan.fused, k);
    PlanRows(tables, levels, l, target, k);
    if k == [] {
      BytelessRest(tables, levels, l, target);
      UpperHoldsEmpty(tables, levels, l, target);
    } else {
      BytelessMisses(tables, levels, l, target, k);
    }
  }

  lemma UpperHoldsEmpty(tables: Tables, levels: seq<Level>, l: nat, target: Scope)
    requires Plannable(tables, levels, l, target) && Byteless(PlanOf(tables, levels, l, target))
    ensures Scan(tables, PlanOf(tables, levels, l, target).upper, []).Some?
  {
    hide Meet, Chosen, MergedRows, Fusion, Scan;
    var upper := PlanOf(tables, levels, l, target).upper;
    var u := upper[0];
    assert u in upper;
    BytelessTable(tables, levels, l, target, u);
    ScopeProper(tables, u);
    assert Holds(tables[u.gen], u.start);
    ScanNone(tables, upper, []);
  }

  lemma BytelessMisses(tables: Tables, levels: seq<Level>, l: nat, target: Scope, k: Key)
    requires Plannable(tables, levels, l, target) && Byteless(PlanOf(tables, levels, l, target)) && k != []
    ensures Find(PlanOf(tables, levels, l, target).rows, k).None?
  {
    hide Chosen, MergedRows, Fusion;
    PlanNotEmpty(tables, levels, l, target);
    PlanRows(tables, levels, l, target, k);
    BytelessRows(PlanOf(tables, levels, l, target).rows);
  }

  /** A round over merged rows without a byte keeps an answer exactly if it is harmless for the key. */
  lemma BytelessPreservesQuery(tables: Tables, levels: seq<Level>, l: nat, target: Scope, k: Key)
    requires Plannable(tables, levels, l, target) && Byteless(PlanOf(tables, levels, l, target))
    ensures Query(tables, BytelessLevels(tables, levels, l, target), k) == Query(tables, levels, k) <==>
            BytelessHarmless(tables, levels, l, target, k)
  {
    hide Meet, Chosen, LeftBehind, MergedRows, Fusion, Scan, ScopesOk, LevelSorted, Query, Find, PlanOf,
      BytelessLevels, Chain, ChainFrom;
    var levels' := BytelessLevels(tables, levels, l, target);
    BytelessKeepsLevels(tables, levels, l, target);
    QueryIsChain(tables, levels, k);
    QueryIsChain(tables, levels', k);
    BytelessScans(tables, levels, l, target, k);
    var a, b := Scans(tables, levels, k), Scans(tables, levels', k);
    if k != [] {
      assert a == b;
    } else {
      FallThrough(a, b, l);
      assert forall i :: 0 <= i < l ==> a[i] == Scan(tables, levels[i], k);
      if i :| 0 <= i < l && Scan(tables, levels[i], k).Some? { assert a[i].Some?; }
    }
  }

  // ---- the round of the code ----

  /** The shards are what the code cuts: the merged rows, or nothing if these have no bytes. */
  ghost predicate Cut(tables: Tables, levels: seq<Level>, l: nat, target: Scope, shards: seq<Shard>) {
    && |levels| == MAX_LEVEL && l + 1 < MAX_LEVEL && Chosen(levels[l], target) != []
    && var plan := PlanOf(tables, levels, l, target);
       if Byteless(plan) then shards == [] else ShardsOf(shards, plan.rows, tables)
  }

  /** Plans a round on any levels and cuts its rows. */
  method PlanRound(tables: Tables, levels: seq<Level>, l: nat, target: Scope, fileSize: nat, gen0: int)
    returns (plan: Plan, shards: seq<Shard>)
    requires |levels| == MAX_LEVEL && l + 1 < MAX_LEVEL && Chosen(levels[l], target) != []
    requires fileSize > 0 && forall g :: g in tables ==> g < gen0
    ensures plan == PlanOf(tables, levels, l, target) && Cut(tables, levels, l, target, shards)
    ensures forall s :: s in shards ==> Bounded(s.rows, fileSize)
  {
    hide Chosen, MergedRows, Fusion;
    plan := PlanOf(tables, levels, l, target);
    shards := DataSharding(plan.rows, fileSize, gen0);
    forall i | 0 <= i < |shards| ensures shards[i].rows != [] && shards[i].gen !in tables {
      assert shards[i] in shards;
    }
    assert shards != [] ==> shards[0] in shards;
    if TotalBytes(plan.rows) == 0 {
      PartsCover(0, fileSize, PartCount(plan.rows, fileSize));
    }
  }

  lemma CutShards(tables: Tables, levels: seq<Level>, l: nat, target: Scope, shards: seq<Shard>)
    requires Cut(tables, levels, l, target, shards)
    ensures |levels| == MAX_LEVEL && l + 1 < MAX_LEVEL && Chosen(levels[l], target) != [] && NonEmptyShards(shards)
    ensures FreshShards(shards, tables) && Sorted(Concat(RowsOf(shards)))
  {
    hide Chosen, Fusion, UniqueByKey, Without, LoadAll, Byteless;
    assert Concat(RowsOf([])) == [];
  }

  /** The levels after the code's round. */
  function CutLevels(tables: Tables, levels: seq<Level>, l: nat, target: Scope, shards: seq<Shard>): (r: seq<Level>)
    requires |levels| == MAX_LEVEL && l + 1 < MAX_LEVEL && Chosen(levels[l], target) != [] && NonEmptyShards(shards)
    ensures |r| == MAX_LEVEL
  {
    levels[l := LeftBehind(levels[l], target)]
          [l + 1 := NextLevel(levels[l + 1], PlanOf(tables, levels, l, target).fused, NewScopes(shards))]
  }

  /** The code's round on any levels whose gens identify their tables leaves such levels. */
  lemma CutKeepsNumbers(tables: Tables, levels: seq<Level>, l: nat, target: Scope, shards: seq<Shard>)
    requires Numbered(tables, levels) && Cut(tables, levels, l, target, shards)
    ensures FreshShards(shards, tables)
    ensures Numbered(AddTables(tables, shards), CutLevels(tables, levels, l, target, shards))
  {
    hide PlanOf, Chosen, LeftBehind, NextLevel, NewScopes, AddTables, Cut, Meet, ScopesOk, Concat, RowsOf, FreshShards,
      DistinctGens, GensAscending, Sorted;
    CutShards(tables, levels, l, target, shards);
    var tables', fused := AddTables(tables, shards), PlanOf(tables, levels, l, target).fused;
    NewNumbers(tables, levels[l + 1], fused, shards);
    forall i | 0 <= i < MAX_LEVEL ensures ScopesOk(tables', levels[i]) { OldTablesKept(tables, shards, levels[i]); }
    ChosenOk(tables', levels[l], target);
    SublistGensDistinct(levels[l], target);
    SublistGensAscend(levels[0], target);
    NumberedTwo(tables', levels, l, LeftBehind(levels[l], target), NextLevel(levels[l + 1], fused, NewScopes(shards)));
  }

  lemma NumberedTwo(tables: Tables, levels: seq<Level>, l: nat, x: Level, y: Level)
    requires |levels| == MAX_LEVEL && l + 1 < MAX_LEVEL && GensAscending(levels[0])
    requires forall i :: 0 <= i < MAX_LEVEL ==> ScopesOk(tables, levels[i]) && DistinctGens(levels[i])
    requires ScopesOk(tables, x) && DistinctGens(x) && (l == 0 ==> GensAscending(x))
    requires ScopesOk(tables, y) && DistinctGens(y)
    ensures Numbered(tables, levels[l := x][l + 1 := y])
  {
    hide ScopesOk, DistinctGens, GensAscending;
  }

  lemma NewNumbers(tables: Tables, level: Level, fused: Scope, shards: seq<Shard>)
    requires ScopesOk(tables, level) && DistinctGens(level) && FreshShards(shards, tables)
    requires Sorted(Concat(RowsOf(shards)))
    ensures var next := NextLevel(level, fused, NewScopes(shards));
            ScopesOk(AddTables(tables, shards), next) && DistinctGens(next)
  {
    hide ScopesOk, NextLevel, AddTables, Concat, RowsOf, NewScopes, DistinctGens;
    var tables' := AddTables(tables, shards);
    AddedTables(tables, shards);
    ShardShape(tables', shards);
    OldTablesKept(tables, shards, level);
    NextLevelScopes(tables', level, fused, NewScopes(shards));
    NextLevelGens(tables, level, fused, shards);
  }

  /** The condition under which the code's round keeps the answer for a key. */
  ghost predicate Harmless(tables: Tables, levels: seq<Level>, l: nat, target: Scope, k: Key)
    requires Plannable(tables, levels, l, target)
  {
    if Byteless(PlanOf(tables, levels, l, target)) then BytelessHarmless(tables, levels, l, target, k)
    else l == 0 ==> OverriddenByEqual(tables, levels[0], target, k)
  }

  /** One round as the code makes it. With bytes, the version is well formed exactly if the insertion
      point was right, and only then does binary search in the next level find what its tables hold.
      Without bytes it is always well formed. A well-formed version keeps the answer for a key exactly
      where the round is harmless. */
  method MajorRound(tables: Tables, levels: seq<Level>, l: nat, target: Scope, fileSize: nat, gen0: int)
    returns (tables': Tables, levels': seq<Level>, done: bool)
    requires WellFormed(tables, levels) && fileSize > 0 && forall g :: g in tables ==> g < gen0
    ensures done <==> l + 1 < MAX_LEVEL && Chosen(levels[l], target) != []
    ensures !done ==> tables' == tables && levels' == levels
    ensures done ==> |levels'| == MAX_LEVEL && RoundOutcome(tables, levels, l, target, tables', levels')
  {
    hide Chosen, MergedRows, Fusion, AllFit, ApplyEdits, RoundOutcome;
    tables', levels', done := tables, levels, false;
    if l + 1 < MAX_LEVEL && Chosen(levels[l], target) != [] {
      var plan, shards := PlanRound(tables, levels, l, target, fileSize, gen0);
      CutShards(tables, levels, l, target, shards);
      CodeRound(tables, levels, l, target, shards);
      tables', levels', done := AddTables(tables, shards), ApplyEdits(levels, RoundEdits(plan, l, shards)), true;
    }
  }

  ghost predicate RoundOutcome(tables: Tables, levels: seq<Level>, l: nat, target: Scope, tables': Tables,
                               levels': seq<Level>)
    requires Plannable(tables, levels, l, target) && |levels'| == MAX_LEVEL
  {
    var plan := PlanOf(tables, levels, l, target);
    && (WellFormed(tables', levels') <==> Byteless(plan) || InsertionPointOk(levels[l + 1], plan.fused))
    && (SearchFinds(tables', levels'[l + 1]) <==> WellFormed(tables', levels'))
    && (WellFormed(tables', levels') ==>
        forall k :: Query(tables', levels', k) == Query(tables, levels, k) <==> Harmless(tables, levels, l, target, k))
  }

  lemma WellFormedSearch(tables: Tables, levels: seq<Level>, i: nat)
    requires WellFormed(tables, levels) && 1 <= i < MAX_LEVEL
    ensures SearchFinds(tables, levels[i])
  {
    forall k ensures QueryLevel(tables, levels[i], k) == Scan(tables, levels[i], k) {
      QueryLevelIsScan(tables, levels[i], k);
    }
  }

  lemma BytelessOutcome(tables: Tables, levels: seq<Level>, l: nat, target: Scope)
    requires Plannable(tables, levels, l, target) && Byteless(PlanOf(tables, levels, l, target))
    ensures RoundOutcome(tables, levels, l, target, tables, BytelessLevels(tables, levels, l, target))
  {
    hide Chosen, PlanOf, Query, InsertionPointOk, OverriddenByEqual, BytelessHarmless, ScopesOk, LevelSorted,
      LeftBehind, Byteless, SearchFinds, BytelessLevels;
    BytelessKeepsLevels(tables, levels, l, target);
    WellFormedSearch(tables, BytelessLevels(tables, levels, l, target), l + 1);
    forall k { BytelessPreservesQuery(tables, levels, l, target, k); }
  }

  lemma BytesOutcome(tables: Tables, levels: seq<Level>, l: nat, target: Scope, shards: seq<Shard>)
    requires CanRound(tables, levels, l, target, shards) && !Byteless(PlanOf(tables, levels, l, target))
    ensures RoundOutcome(tables, levels, l, target, AddTables(tables, shards),
                         RoundLevels(tables, levels, l, target, shards))
  {
    hide Chosen, PlanOf, Query, InsertionPointOk, OverriddenByEqual, BytelessHarmless, ScopesOk, LevelSorted,
      LeftBehind, Byteless, SearchFinds, RoundLevels, AddTables, ShardsOf;
    RoundKeepsLevels(tables, levels, l, target, shards);
    RoundSearchIff(tables, levels, l, target, shards);
    if InsertionPointOk(levels[l + 1], PlanOf(tables, levels, l, target).fused) {
      forall k { RoundPreservesQuery(tables, levels, l, target, shards, k); }
    }
  }

  lemma CutCases(tables: Tables, levels: seq<Level>, l: nat, target: Scope, shards: seq<Shard>)
    requires WellFormed(tables, levels) && Cut(tables, levels, l, target, shards)
    ensures FreshShards(shards, tables) && Plannable(tables, levels, l, target)
    ensures if Byteless(PlanOf(tables, levels, l, target))
            then CutLevels(tables, levels, l, target, shards) == BytelessLevels(tables, levels, l, target) &&
                 AddTables(tables, shards) == tables
            else CanRound(tables, levels, l, target, shards) &&
                 CutLevels(tables, levels, l, target, shards) == RoundLevels(tables, levels, l, target, shards)
  {
    hide Chosen, LeftBehind, NextLevel, MergedRows, Fusion, Byteless, WellFormed;
    CutShards(tables, levels, l, target, shards);
    NothingInserted(levels[l + 1], PlanOf(tables, levels, l, target).fused);
    assert NewScopes([]) == [];
  }

  lemma CodeRound(tables: Tables, levels: seq<Level>, l: nat, target: Scope, shards: seq<Shard>)
    requires WellFormed(tables, levels) && Cut(tables, levels, l, target, shards)
    ensures FreshShards(shards, tables)
    ensures var edits := RoundEdits(PlanOf(tables, levels, l, target), l, shards);
            && AllFit(levels, edits) && ApplyEdits(levels, edits) == CutLevels(tables, levels, l, target, shards)
            && RoundOutcome(tables, levels, l, target, AddTables(tables, shards), ApplyEdits(levels, edits))
  {
    hide Chosen, PlanOf, AllFit, ApplyEdits, RoundOutcome, LeftBehind, NextLevel, Byteless, RoundLevels, BytelessLevels,
      AddTables, Cut, CanRound, WellFormed, NewScopes, GensOf, FreshShards;
    CutCases(tables, levels, l, target, shards);
    WellFormedIsNumbered(tables, levels);
    RoundApplies(tables, levels, l, target, shards);
    if Byteless(PlanOf(tables, levels, l, target)) {
      BytelessOutcome(tables, levels, l, target);
    } else {
      BytesOutcome(tables, levels, l, target, shards);
    }
  }

  // ---- a version whose round loses a key ----

  lemma OnlyRow(rows: seq<KeyValue>, k: Key, d: Option<Value>)
    requires Sorted(rows) && forall q :: Find(rows, q) == if q == k then Some(d) else None
    ensures rows == [KeyValue(k, d)]
  {
    assert Find(rows, k).Some?;
    forall i | 0 <= i < |rows| ensures rows[i] == KeyValue(k, d) {
      FindIndex(rows, i);
    }
    assert |rows| > 1 ==> Lt(rows[0].key, rows[1].key);
  }

  lemma OneTableScan(tables: Tables, s: Scope, k: Key)
    ensures Scan(tables, [s], k) == QueryScope(tables, s, k) && Scan(tables, [], k) == None
  {
    ScanSnoc(tables, [], s, k);
    assert [] + [s] == [s];
  }

  /** Two one-row tables of the empty key, a tombstone at level 1 and a value at level 3. */
  predicate TombstoneOverValue(tables: Tables, young: Scope, old_: Scope, v: Value) {
    && young.gen in tables && tables[young.gen] == [KeyValue([], None)] && young.start == young.end == []
    && old_.gen in tables && tables[old_.gen] == [KeyValue([], Some(v))] && old_.start == old_.end == []
  }

  lemma TombstoneVersion(tables: Tables, young: Scope, old_: Scope, v: Value)
    requires TombstoneOverValue(tables, young, old_, v)
    ensures WellFormed(tables, [[], [young], [], [old_]]) && WellFormed(tables, [[], [], [], [old_]])
    ensures Query(tables, [[], [young], [], [old_]], []) == Some(None)
    ensures Query(tables, [[], [], [], [old_]], []) == Some(Some(v))
  {
    hide Query, Scan;
    OneTableScan(tables, young, []);
    OneTableScan(tables, old_, []);
    QueryIsScan(tables, [[], [young], [], [old_]], []);
    QueryIsScan(tables, [[], [], [], [old_]], []);
  }

  /** The round of the tombstone's level brings the old value back. */
  lemma TombstoneLost(tables: Tables, levels: seq<Level>, target: Scope, young: Scope, old_: Scope, v: Value)
    requires TombstoneOverValue(tables, young, old_, v) && target.start == target.end == []
    requires |levels| == MAX_LEVEL && levels[0] == [] && levels[1] == [young] && levels[2] == [] && levels[3] == [old_]
    ensures Plannable(tables, levels, 1, target) && Byteless(PlanOf(tables, levels, 1, target))
    ensures Query(tables, levels, []) == Some(None)
    ensures Query(tables, BytelessLevels(tables, levels, 1, target), []) == Some(Some(v))
  {
    hide Query, Scan, ScopesOk, MergedRows, Fusion, Meet, Chosen, LeftBehind, QueryScope;
    assert levels == [[], [young], [], [old_]];
    TombstoneVersion(tables, young, old_, v);
    TombstoneChosen(young, target);
    TombstonePlan(tables, levels, target, young);
    assert BytelessLevels(tables, levels, 1, target) == [[], [], [], [old_]];
  }

  lemma TombstoneChosen(young: Scope, target: Scope)
    requires young.start == young.end == target.start == target.end == []
    ensures Chosen([young], target) == [young] && LeftBehind([young], target) == []
    ensures Chosen([], target) == [] && LeftBehind([], target) == []
  {
    ChosenSnoc([young], target);
    assert [young][..0] == [];
  }

  lemma TombstonePlan(tables: Tables, levels: seq<Level>, target: Scope, young: Scope)
    requires WellFormed(tables, levels) && levels[1] == [young] && levels[2] == [] && Chosen([young], target) == [young]
    requires young.gen in tables && tables[young.gen] == [KeyValue([], None)] && young.start == young.end == []
    ensures Byteless(PlanOf(tables, levels, 1, target))
    ensures LeftBehind([], PlanOf(tables, levels, 1, target).fused) == []
  {
    hide MergedRows, Scan;
    var plan := PlanOf(tables, levels, 1, target);
    forall q ensures Find(plan.rows, q) == if q == [] then Some(None) else None {
      PlanRows(tables, levels, 1, target, q);
      OneTableScan(tables, young, q);
      assert Chosen([], plan.fused) == [];
    }
    PlanRows(tables, levels, 1, target, []);
    OnlyRow(plan.rows, [], None);
    assert TotalBytes([KeyValue([], None)]) == TotalBytes([]) + 0 by { assert [KeyValue([], None)][..0] == []; }
  }
}
