/** What a wrong insertion point costs: binary search then misses a key that a table of the level holds. */
module InsertionPoint {
  import opened Keys
  import opened Rows
  import opened Search
  import opened Levels
  import opened Sharding
  import opened Compaction
  import opened CompactionRound

  /** The first `c` tables of a level end below a range, the others start above it. */
  predicate SplitAt(level: Level, fused: Scope, c: int) {
    && 0 <= c <= |level| && (forall i :: 0 <= i < c ==> Lt(level[i].end, fused.start))
    && forall i :: c <= i < |level| ==> Lt(fused.end, level[i].start)
  }

  /** A range that no table of a sorted level meets splits the level. */
  lemma Split(tables: Tables, level: Level, fused: Scope) returns (c: nat)
    requires ScopesOk(tables, level) && LevelSorted(level) && Le(fused.start, fused.end)
    requires forall i :: 0 <= i < |level| ==> !Meet(level[i], fused)
    ensures SplitAt(level, fused, c)
  {
    hide Meet, ScopesOk;
    ScopesOverlap(tables, level, fused);
    c := 0;
    while c < |level| && Lt(level[c].end, fused.start)
      invariant c <= |level| && forall i :: 0 <= i < c ==> Lt(level[i].end, fused.start)
    {
      c := c + 1;
    }
    assert c < |level| ==> Lt(fused.end, level[c].start);
    assert forall i :: c < i < |level| ==> Lt(level[c].end, level[i].start);
  }

  /** Ranges inside another. */
  predicate Within(level: Level, fused: Scope) {
    forall i :: 0 <= i < |level| ==> Le(fused.start, level[i].start) && Le(level[i].end, fused.end)
  }

  predicate Proper(level: Level) {
    forall i :: 0 <= i < |level| ==> Le(level[i].start, level[i].end)
  }

  /** `next` is `n` tables inside a range, then `c` below it, then tables above it. */
  predicate Misplaced(next: Level, n: int, c: int, fused: Scope) {
    && 0 < n && 0 < c && n + c <= |next| && Proper(next)
    && (forall i :: 0 <= i < n ==> Le(fused.start, next[i].start) && Le(next[i].end, fused.end))
    && (forall i :: n <= i < n + c ==> Lt(next[i].end, fused.start))
    && forall i :: n + c <= i < |next| ==> Lt(fused.end, next[i].start)
  }

  /** The start of the first table, or of the first table below the range, is looked for in a table
      that does not have it. */
  lemma StartMissed(tables: Tables, next: Level, n: nat, c: nat, fused: Scope)
    requires Misplaced(next, n, c, fused)
    ensures QueryLevel(tables, next, next[0].start).None? || QueryLevel(tables, next, next[n].start).None?
  {
    hide QueryScope;
    var k, q := next[0].start, next[n].start;
    assert forall i :: n <= i < n + c ==> Lt(next[i].start, k);
    assert forall i :: 0 <= i < n ==> Lt(q, next[i].start);
    var f, g := StartCompare(next, k), StartCompare(next, q);
    OneGoesAstray(f, g, n, n + c, |next|);
    var i, j := MeetIndex(next, k), MeetIndex(next, q);
    assert n <= i < |next| || j < n;
    if n <= i < |next| { OutOfRange(tables, next[i], k); }
    if j < n { OutOfRange(tables, next[j], q); }
  }

  lemma OutOfRange(tables: Tables, s: Scope, k: Key)
    ensures Lt(s.end, k) || Lt(k, s.start) ==> QueryScope(tables, s, k).None?
  {
  }

  lemma StartFound(tables: Tables, level: Level, i: nat)
    requires ScopesOk(tables, level) && i < |level|
    ensures Scan(tables, level, level[i].start).Some?
  {
    var s := level[i];
    assert s in level;
    ScopeProper(tables, s);
    assert Holds(tables[s.gen], s.start);
    ScanNone(tables, level, s.start);
  }

  lemma AllProper(tables: Tables, level: Level)
    requires ScopesOk(tables, level)
    ensures Proper(level)
  {
    forall i | 0 <= i < |level| ensures Le(level[i].start, level[i].end) {
      assert level[i] in level;
      ScopeProper(tables, level[i]);
    }
  }

  /** Then some key has a row in the level that the search does not find. */
  lemma KeyLost(tables: Tables, new_: Level, level: Level, fused: Scope, c: nat)
    requires ScopesOk(tables, new_ + level) && new_ != [] && Within(new_, fused)
    requires 0 < c && SplitAt(level, fused, c)
    ensures !SearchFinds(tables, new_ + level)
  {
    hide QueryLevel, Scan, ScopeOk;
    var next := new_ + level;
    AllProper(tables, next);
    assert next[0] == new_[0] && next[|new_|] == level[0];
    StartMissed(tables, next, |new_|, c, fused);
    StartFound(tables, next, 0);
    StartFound(tables, next, |new_|);
  }

  /** With nothing replaced, the new tables lie in the fused range. */
  lemma NewWithin(new_: Level, rows: seq<KeyValue>, fused: Scope)
    requires (forall s :: s in new_ ==> EndsIn(s, rows)) && KeysWithin(rows, fused, [])
    ensures Within(new_, fused)
  {
    forall i | 0 <= i < |new_| ensures Le(fused.start, new_[i].start) && Le(new_[i].end, fused.end) {
      assert new_[i] in new_;
    }
  }

  lemma WrongPointLoses(tables: Tables, level: Level, fused: Scope, new_: Level, rows: seq<KeyValue>)
    requires ScopesOk(tables, level) && LevelSorted(level)
    requires Le(fused.start, fused.end) && !InsertionPointOk(level, fused)
    requires new_ != [] && ScopesOk(tables, new_) && forall s :: s in new_ ==> EndsIn(s, rows)
    requires KeysWithin(rows, fused, Chosen(level, fused))
    ensures !SearchFinds(tables, NextLevel(level, fused, new_))
  {
    hide Meet, QueryLevel, Scan, ScopeOk, NextLevel, EndsIn, KeysWithin, Chosen;
    var r := TableBelow(tables, level, fused, new_);
    NewWithin(new_, rows, fused);
    var c := Split(tables, level, fused);
    AllProper(tables, level);
    assert c > 0;
    KeyLost(tables, new_, level, fused, c);
  }

  /** After a round with bytes, binary search in the level that received the new tables finds what its
      tables hold, for every key, exactly if the insertion point was right. */
  lemma RoundSearchIff(tables: Tables, levels: seq<Level>, l: nat, target: Scope, shards: seq<Shard>)
    requires CanRound(tables, levels, l, target, shards)
    ensures var tables', next := AddTables(tables, shards), RoundLevels(tables, levels, l, target, shards)[l + 1];
            SearchFinds(tables', next) <==> InsertionPointOk(levels[l + 1], PlanOf(tables, levels, l, target).fused)
  {
    PlanShape(tables, levels, l, target, shards);
    PlanKeysWithin(tables, levels, l, target);
    NewTables(tables, levels, l, target, shards);
    RoundKeepsLevels(tables, levels, l, target, shards);
    hide PlanOf, Chosen, NextLevel, NewScopes, AddTables, RoundLevels, QueryLevel, Scan, Meet, ShardsOf, EndsIn,
      KeysWithin, InsertionPointOk;
    var plan, tables' := PlanOf(tables, levels, l, target), AddTables(tables, shards);
    var next := RoundLevels(tables, levels, l, target, shards)[l + 1];
    if InsertionPointOk(levels[l + 1], plan.fused) {
      forall k { QueryLevelIsScan(tables', next, k); }
    } else {
      OldTablesKept(tables, shards, levels[l + 1]);
      WrongPointLoses(tables', levels[l + 1], plan.fused, NewScopes(shards), plan.rows);
    }
  }
}
