/** What one compaction round does to a version. */
module CompactionRound {
  import opened Keys
  import opened Rows
  import opened Levels
  import opened Sharding
  import opened Compaction

  /** The level that receives the new tables: survivors before and after the insertion point. */
  function NextLevel(level: Level, fused: Scope, new_: Level): Level {
    var i := InsertIndex(level, fused);
    if i <= |level| then LeftBehind(level[..i], fused) + new_ + LeftBehind(level[i..], fused) else []
  }

  lemma {:induction false} FirstMeetBounds(level: Level, target: Scope)
    ensures InsertIndex(level, target) <= |level|
    ensures FirstMeet(level, target).Some? ==>
              FirstMeet(level, target).value < |level| && Meet(level[FirstMeet(level, target).value], target)
    ensures FirstMeet(level, target).Some? ==>
              forall i :: 0 <= i < FirstMeet(level, target).value ==> !Meet(level[i], target)
    ensures FirstMeet(level, target).None? ==> forall i :: 0 <= i < |level| ==> !Meet(level[i], target)
  {
    if level != [] && !Meet(level[0], target) {
      FirstMeetBounds(level[1..], target);
      assert forall i :: 1 <= i < |level| ==> level[i] == level[1..][i - 1];
    }
  }

  lemma {:induction false} LeftBehindAppend(a: Level, b: Level, target: Scope)
    ensures LeftBehind(a + b, target) == LeftBehind(a, target) + LeftBehind(b, target)
  {
    hide Meet;
    if b == [] {
      assert a + b == a;
    } else {
      assert (a + b)[..|a + b| - 1] == a + b[..|b| - 1];
      LeftBehindAppend(a, b[..|b| - 1], target);
    }
  }

  lemma LeftBehindSplit(level: Level, i: nat, target: Scope)
    requires i <= |level|
    ensures LeftBehind(level, target) == LeftBehind(level[..i], target) + LeftBehind(level[i..], target)
  {
    assert level == level[..i] + level[i..];
    LeftBehindAppend(level[..i], level[i..], target);
  }

  lemma NotAmongChosen(level: Level, target: Scope, gen: int)
    requires forall t :: t in level ==> gen != t.gen
    ensures gen !in GensOf(Chosen(level, target))
  {
    hide Meet, Chosen;
    var c := Chosen(level, target);
    forall x | 0 <= x < |c| ensures c[x].gen != gen {
      ChosenMembers(level, target, c[x]);
    }
  }

  /** The next level after its insert and its delete. */
  lemma NextLevelEdits(level: Level, fused: Scope, new_: Level)
    requires DistinctGens(level)
    requires forall s, t :: s in new_ && t in level ==> s.gen != t.gen
    ensures InsertIndex(level, fused) <= |level|
    ensures var i := InsertIndex(level, fused);
            Retain(level[..i] + new_ + level[i..], GensOf(Chosen(level, fused))) == NextLevel(level, fused, new_)
  {
    hide Meet;
    FirstMeetBounds(level, fused);
    var i, gens := InsertIndex(level, fused), GensOf(Chosen(level, fused));
    ChosenGens(level, fused);
    assert forall s :: s in level[..i] || s in level[i..] ==> s in level;
    RetainAppend(level[..i] + new_, level[i..], gens);
    RetainAppend(level[..i], new_, gens);
    RetainIsLeftBehind(level[..i], fused, gens);
    RetainIsLeftBehind(level[i..], fused, gens);
    forall j | 0 <= j < |new_| ensures new_[j].gen !in gens {
      assert new_[j] in new_;
      NotAmongChosen(level, fused, new_[j].gen);
    }
    RetainAll(new_, gens);
  }

  lemma ApplyThree(levels: seq<Level>, a: Edit, b: Edit, c: Edit)
    requires Fits(levels, a) && Fits(ApplyEdit(levels, a), b) && Fits(ApplyEdit(ApplyEdit(levels, a), b), c)
    ensures AllFit(levels, [a, b, c])
    ensures ApplyEdits(levels, [a, b, c]) == ApplyEdit(ApplyEdit(ApplyEdit(levels, a), b), c)
  {
    var one := ApplyEdit(levels, a);
    var two := ApplyEdit(one, b);
    assert [c][1..] == [] && [b, c][1..] == [c] && [a, b, c][1..] == [b, c];
    assert AllFit(ApplyEdit(two, c), []);
    assert AllFit(two, [c]) && ApplyEdits(two, [c]) == ApplyEdit(two, c);
    assert AllFit(one, [b, c]) && ApplyEdits(one, [b, c]) == ApplyEdits(two, [c]);
  }

  /** A round on two levels, seen separately. */
  lemma EditsOnLevels(levels: seq<Level>, l: nat, target: Scope, fused: Scope, new_: Level)
    requires l + 1 < |levels| && DistinctGens(levels[l]) && DistinctGens(levels[l + 1])
    requires GensAscending(new_) && forall s, t :: s in new_ && t in levels[l + 1] ==> s.gen != t.gen
    ensures var a := NewFile(new_, l + 1, InsertIndex(levels[l + 1], fused));
            var b := DeleteFile(GensOf(Chosen(levels[l], target)), l);
            var c := DeleteFile(GensOf(Chosen(levels[l + 1], fused)), l + 1);
            && AllFit(levels, [a, b, c])
            && ApplyEdits(levels, [a, b, c]) ==
               levels[l := LeftBehind(levels[l], target)][l + 1 := NextLevel(levels[l + 1], fused, new_)]
  {
    hide Meet, Chosen, LeftBehind, NextLevel, GensOf, InsertIndex, Retain, SortByGen, DistinctGens, GensAscending,
      AllFit, ApplyEdits;
    var a := NewFile(new_, l + 1, InsertIndex(levels[l + 1], fused));
    var b := DeleteFile(GensOf(Chosen(levels[l], target)), l);
    var c := DeleteFile(GensOf(Chosen(levels[l + 1], fused)), l + 1);
    var i, next, rest := a.index, NextLevel(levels[l + 1], fused, new_), LeftBehind(levels[l], target);
    NextLevelEdits(levels[l + 1], fused, new_);
    var one := levels[l + 1 := levels[l + 1][..i] + new_ + levels[l + 1][i..]];
    assert Fits(levels, a) && ApplyEdit(levels, a) == one by { SortByGenSorted(new_); }
    var two := one[l := rest];
    assert ApplyEdit(one, b) == two by {
      ChosenGens(levels[l], target);
      RetainIsLeftBehind(levels[l], target, b.gens);
    }
    assert ApplyEdit(two, c) == two[l + 1 := next];
    ApplyThree(levels, a, b, c);
    assert two[l + 1 := next] == levels[l := rest][l + 1 := next];
  }

  /** The three edits of a round, applied, on any levels whose gens identify their tables. */
  lemma RoundApplies(tables: Tables, levels: seq<Level>, l: nat, target: Scope, shards: seq<Shard>)
    requires Numbered(tables, levels) && l + 1 < MAX_LEVEL && Chosen(levels[l], target) != []
    requires FreshShards(shards, tables)
    ensures var plan := PlanOf(tables, levels, l, target);
            && AllFit(levels, RoundEdits(plan, l, shards))
            && ApplyEdits(levels, RoundEdits(plan, l, shards)) ==
               levels[l := LeftBehind(levels[l], target)]
                     [l + 1 := NextLevel(levels[l + 1], plan.fused, NewScopes(shards))]
  {
    hide MergedRows, Meet, Fusion, Chosen, LeftBehind, NextLevel, NewScopes, AllFit, ApplyEdits, InsertIndex, GensOf,
      ScopesOk, DistinctGens;
    var plan := PlanOf(tables, levels, l, target);
    FreshScopes(tables, levels[l + 1], shards);
    EditsOnLevels(levels, l, target, plan.fused, NewScopes(shards));
  }

  lemma AscendingIsDistinct(level: Level)
    ensures GensAscending(level) ==> DistinctGens(level)
  {
  }

  lemma FreshScopes(tables: Tables, level: Level, shards: seq<Shard>)
    requires ScopesOk(tables, level) && FreshShards(shards, tables)
    ensures forall s, t :: s in NewScopes(shards) && t in level ==> s.gen != t.gen
    ensures GensAscending(NewScopes(shards))
  {
  }

  // ---- order of the next level ----

  /** Every merged key lies in the fused range or in a replaced table's range. */
  ghost predicate KeysWithin(rows: seq<KeyValue>, fused: Scope, lower: Level) {
    forall e :: e in rows ==> MeetByKey(fused, e.key) || exists s :: s in lower && MeetByKey(s, e.key)
  }

  lemma ScopesOverlap(tables: Tables, level: Level, fused: Scope)
    requires ScopesOk(tables, level) && Le(fused.start, fused.end)
    ensures forall i :: 0 <= i < |level| ==>
              && Le(level[i].start, level[i].end)
              && (Meet(level[i], fused) <==> Le(level[i].start, fused.end) && Le(fused.start, level[i].end))
  {
    forall i | 0 <= i < |level|
      ensures Le(level[i].start, level[i].end)
      ensures Meet(level[i], fused) <==> Le(level[i].start, fused.end) && Le(fused.start, level[i].end)
    {
      assert level[i] in level;
      ScopeProper(tables, level[i]);
      MeetIsOverlap(level[i], fused);
    }
  }

  /** Surviving tables before the insertion point lie below the fused range, the others above. */
  lemma SurvivorSide(tables: Tables, level: Level, fused: Scope, r: nat)
    requires ScopesOk(tables, level) && LevelSorted(level) && Le(fused.start, fused.end)
    requires InsertionPointOk(level, fused) && r < |level| && !Meet(level[r], fused)
    ensures r < InsertIndex(level, fused) ==> Lt(level[r].end, fused.start)
    ensures r >= InsertIndex(level, fused) ==> Lt(fused.end, level[r].start)
  {
    FirstMeetBounds(level, fused);
    ScopesOverlap(tables, level, fused);
    var f := FirstMeet(level, fused);
    if f.Some? {
      assert r < f.value ==> Lt(level[r].end, level[f.value].start);
      assert r > f.value ==> Lt(level[f.value].end, level[r].start);
    }
  }

  /** A table that survives below the insertion point ends before, one above it starts after
      anything in the fused range or in a replaced table. */
  lemma SurvivorsAround(tables: Tables, level: Level, fused: Scope, r: nat, k: Key)
    requires ScopesOk(tables, level) && LevelSorted(level) && Le(fused.start, fused.end)
    requires InsertionPointOk(level, fused) && r < |level| && !Meet(level[r], fused)
    requires MeetByKey(fused, k) || exists s :: s in Chosen(level, fused) && MeetByKey(s, k)
    ensures r < InsertIndex(level, fused) ==> Lt(level[r].end, k)
    ensures r >= InsertIndex(level, fused) ==> Lt(k, level[r].start)
  {
    SurvivorSide(tables, level, fused, r);
    if !MeetByKey(fused, k) {
      var s :| s in Chosen(level, fused) && MeetByKey(s, k);
      ChosenMembers(level, fused, s);
      var c :| 0 <= c < |level| && level[c] == s;
      ScopesOverlap(tables, level, fused);
      if r < c {
        assert Lt(level[r].end, level[c].start);
      } else {
        assert Lt(level[c].end, level[r].start);
      }
    }
  }

  lemma SurvivorIndex(level: Level, lo: nat, hi: nat, target: Scope, s: Scope)
    requires lo <= hi <= |level| && s in LeftBehind(level[lo..hi], target)
    ensures exists r :: lo <= r < hi && level[r] == s && !Meet(level[r], target)
  {
    ChosenMembers(level[lo..hi], target, s);
    var i :| 0 <= i < hi - lo && level[lo..hi][i] == s;
    assert level[lo + i] == s;
  }

  lemma JoinSorted(a: Level, b: Level)
    requires LevelSorted(a) && LevelSorted(b) && forall x, y :: x in a && y in b ==> Lt(x.end, y.start)
    ensures LevelSorted(a + b)
  {
  }

  /** The round keeps the next level sorted and disjoint if its insertion point is right. */
  lemma NextLevelSorted(tables: Tables, level: Level, fused: Scope, new_: Level, rows: seq<KeyValue>)
    requires ScopesOk(tables, level) && LevelSorted(level) && Le(fused.start, fused.end)
    requires LevelSorted(new_) && (forall s :: s in new_ ==> EndsIn(s, rows))
    requires KeysWithin(rows, fused, Chosen(level, fused)) && InsertionPointOk(level, fused)
    ensures LevelSorted(NextLevel(level, fused, new_))
  {
    hide Meet, LeftBehind, ScopeOk, Chosen;
    FirstMeetBounds(level, fused);
    var i := InsertIndex(level, fused);
    var before, after := LeftBehind(level[..i], fused), LeftBehind(level[i..], fused);
    SublistSorted(level[..i], fused);
    SublistSorted(level[i..], fused);
    forall x, y | x in before && y in new_ ensures Lt(x.end, y.start) {
      assert level[..i] == level[0..i];
      SurvivorIndex(level, 0, i, fused, x);
      var r :| 0 <= r < i && level[r] == x && !Meet(level[r], fused);
      var e :| e in rows && e.key == y.start;
      SurvivorsAround(tables, level, fused, r, e.key);
    }
    JoinSorted(before, new_);
    forall x, y | x in before + new_ && y in after ensures Lt(x.end, y.start) {
      assert level[i..] == level[i..|level|];
      SurvivorIndex(level, i, |level|, fused, y);
      var r :| i <= r < |level| && level[r] == y && !Meet(level[r], fused);
      if x in new_ {
        assert EndsIn(x, rows);
        var e :| e in rows && e.key == x.end;
        SurvivorsAround(tables, level, fused, r, e.key);
      } else {
        assert level[..i] == level[0..i];
        SurvivorIndex(level, 0, i, fused, x);
        var q :| 0 <= q < i && level[q] == x && !Meet(level[q], fused);
        assert Lt(level[q].end, level[r].start);
      }
    }
    JoinSorted(before + new_, after);
  }

  /** With a wrong insertion point nothing is replaced and some table lies below the range. */
  lemma TableBelow(tables: Tables, level: Level, fused: Scope, new_: Level) returns (r: nat)
    requires ScopesOk(tables, level) && Le(fused.start, fused.end) && !InsertionPointOk(level, fused)
    ensures r < |level| && Lt(level[r].end, fused.start)
    ensures Chosen(level, fused) == [] && NextLevel(level, fused, new_) == new_ + level
  {
    hide Meet, Chosen, LeftBehind, FirstMeet;
    FirstMeetBounds(level, fused);
    ScopesOverlap(tables, level, fused);
    NoneChosen(level, fused);
    NoneChosen([], fused);
    assert InsertIndex(level, fused) == 0 && level[..0] == [] && level[0..] == level;
    assert [] + new_ == new_;
    r :| 0 <= r < |level| && !Lt(fused.end, level[r].start);
    assert !Meet(level[r], fused);
  }

  /** And only then: otherwise the new tables land in front of a table below them. */
  lemma NextLevelUnsorted(tables: Tables, level: Level, fused: Scope, new_: Level, rows: seq<KeyValue>)
    requires ScopesOk(tables, level) && Le(fused.start, fused.end)
    requires new_ != [] && EndsIn(new_[0], rows) && Le(new_[0].start, new_[0].end)
    requires KeysWithin(rows, fused, Chosen(level, fused)) && !InsertionPointOk(level, fused)
    ensures !LevelSorted(NextLevel(level, fused, new_))
  {
    var r := TableBelow(tables, level, fused, new_);
    var next := new_ + level;
    assert next[|new_| + r] == level[r] && next[0] == new_[0];
    var e :| e in rows && e.key == new_[0].start;
    assert MeetByKey(fused, e.key);
    ScopeProper(tables, level[r]);
    assert !Lt(next[0].end, next[|new_| + r].start);
  }

  lemma {:induction false} NoneChosen(level: Level, target: Scope)
    requires forall i :: 0 <= i < |level| ==> !Meet(level[i], target)
    ensures Chosen(level, target) == [] && LeftBehind(level, target) == level
  {
    hide Meet;
    if level != [] {
      NoneChosen(level[..|level| - 1], target);
      assert level == level[..|level| - 1] + [level[|level| - 1]];
    }
  }

  // ---- answers ----

  lemma ChosenSnoc(level: Level, target: Scope)
    requires level != []
    ensures var init, last := level[..|level| - 1], level[|level| - 1];
            var c, r := Chosen(init, target), LeftBehind(init, target);
            && Chosen(level, target) == (if Meet(last, target) then c + [last] else c)
            && LeftBehind(level, target) == (if Meet(last, target) then r else r + [last])
  {
  }

  lemma ScanSnoc(tables: Tables, init: Level, last: Scope, k: Key)
    ensures Scan(tables, init + [last], k) == OrElse(QueryScope(tables, last, k), Scan(tables, init, k))
  {
  }

  lemma {:induction false} ScanPartition(tables: Tables, level: Level, target: Scope, k: Key)
    ensures var c, r := Scan(tables, Chosen(level, target), k), Scan(tables, LeftBehind(level, target), k);
            && (c.None? ==> Scan(tables, level, k) == r)
            && (r.None? ==> Scan(tables, level, k) == c)
            && (Scan(tables, level, k).None? ==> c.None? && r.None?)
  {
    hide Meet;
    if level != [] {
      var init, last := level[..|level| - 1], level[|level| - 1];
      ScanPartition(tables, init, target, k);
      ChosenSnoc(level, target);
      ScanSnoc(tables, Chosen(init, target), last, k);
      ScanSnoc(tables, LeftBehind(init, target), last, k);
    }
  }

  /** In a sorted level at most one table answers. */
  lemma OneAnswers(tables: Tables, level: Level, k: Key, s: Scope, t: Scope)
    requires ScopesOk(tables, level) && LevelSorted(level) && s in level && t in level
    requires QueryScope(tables, s, k).Some? && QueryScope(tables, t, k).Some?
    ensures s == t
  {
  }

  /** So two lists of its tables with no table in common cannot both answer. */
  lemma DisjointExclude(tables: Tables, level: Level, a: Level, b: Level, k: Key)
    requires ScopesOk(tables, level) && LevelSorted(level)
    requires (forall s :: s in a ==> s in level && s !in b) && (forall s :: s in b ==> s in level)
    ensures Scan(tables, a, k).None? || Scan(tables, b, k).None?
  {
    ScanNone(tables, a, k);
    ScanNone(tables, b, k);
    forall s, t | s in a && t in b ensures QueryScope(tables, s, k).None? || QueryScope(tables, t, k).None? {
      if QueryScope(tables, s, k).Some? && QueryScope(tables, t, k).Some? {
        OneAnswers(tables, level, k, s, t);
      }
    }
  }

  /** The chosen and the surviving tables of a sorted level never answer for the same key. */
  lemma SortedPartition(tables: Tables, level: Level, target: Scope, k: Key)
    requires ScopesOk(tables, level) && LevelSorted(level)
    ensures Scan(tables, Chosen(level, target), k).None? || Scan(tables, LeftBehind(level, target), k).None?
    ensures Scan(tables, level, k) ==
            OrElse(Scan(tables, Chosen(level, target), k), Scan(tables, LeftBehind(level, target), k))
  {
    ScanPartition(tables, level, target, k);
    forall s ensures s in Chosen(level, target) <==> s in level && Meet(s, target)
             ensures s in LeftBehind(level, target) <==> s in level && !Meet(s, target) {
      ChosenMembers(level, target, s);
    }
    DisjointExclude(tables, level, Chosen(level, target), LeftBehind(level, target), k);
  }

  // ---- one round ----

  ghost predicate CanRound(tables: Tables, levels: seq<Level>, l: nat, target: Scope, shards: seq<Shard>) {
    && WellFormed(tables, levels) && l + 1 < MAX_LEVEL && Chosen(levels[l], target) != []
    && ShardsOf(shards, PlanOf(tables, levels, l, target).rows, tables)
  }

  /** The version that the round's edits produce. */
  function RoundLevels(tables: Tables, levels: seq<Level>, l: nat, target: Scope, shards: seq<Shard>): (r: seq<Level>)
    requires CanRound(tables, levels, l, target, shards)
    ensures |r| == MAX_LEVEL
  {
    var plan := PlanOf(tables, levels, l, target);
    levels[l := LeftBehind(levels[l], target)][l + 1 := NextLevel(levels[l + 1], plan.fused, NewScopes(shards))]
  }

  /** Gen order answers like level order, whether the level is ordered by gen or sorted by key. */
  lemma UpperScan(tables: Tables, level: Level, target: Scope, k: Key)
    requires ScopesOk(tables, level) && (GensAscending(level) || LevelSorted(level))
    ensures Scan(tables, SortByGen(Chosen(level, target)), k) == Scan(tables, Chosen(level, target), k)
  {
    var c := Chosen(level, target);
    if GensAscending(level) {
      SublistGensAscend(level, target);
      SortByGenSorted(c);
    } else {
      forall s ensures (s in SortByGen(c) <==> s in c) && (s in c ==> s in level) {
        SortByGenMembers(c, s);
        ChosenMembers(level, target, s);
      }
      ScanNone(tables, c, k);
      ScanNone(tables, SortByGen(c), k);
      if s :| s in c && QueryScope(tables, s, k).Some? {
        forall t | t in c && QueryScope(tables, t, k).Some? ensures t == s { OneAnswers(tables, level, k, s, t); }
        ScanOnly(tables, c, k, s);
        ScanOnly(tables, SortByGen(c), k, s);
      }
    }
  }

  lemma ChosenOk(tables: Tables, level: Level, target: Scope)
    requires ScopesOk(tables, level)
    ensures ScopesOk(tables, Chosen(level, target)) && ScopesOk(tables, LeftBehind(level, target))
  {
  }

  /** What a plan is made of. */
  lemma PlanShape(tables: Tables, levels: seq<Level>, l: nat, target: Scope, shards: seq<Shard>)
    requires CanRound(tables, levels, l, target, shards)
    ensures |levels| == MAX_LEVEL && l + 1 < MAX_LEVEL && Chosen(levels[l], target) != [] && NonEmptyShards(shards)
    ensures var plan := PlanOf(tables, levels, l, target);
            && plan.upper == Chosen(levels[l], target) && plan.lower == Chosen(levels[l + 1], plan.fused)
            && plan.index == InsertIndex(levels[l + 1], plan.fused) <= |levels[l + 1]|
    ensures RoundLevels(tables, levels, l, target, shards)[l] == LeftBehind(levels[l], target)
    ensures RoundLevels(tables, levels, l, target, shards)[l + 1] ==
            NextLevel(levels[l + 1], PlanOf(tables, levels, l, target).fused, NewScopes(shards))
  {
    hide MergedRows, Meet, NextLevel, LeftBehind, Fusion;
    FirstMeetBounds(levels[l + 1], PlanOf(tables, levels, l, target).fused);
  }

  /** What the plan's rows are: for every key, the chosen upper tables over the chosen lower ones. */
  lemma PlanRows(tables: Tables, levels: seq<Level>, l: nat, target: Scope, k: Key)
    requires WellFormed(tables, levels) && l + 1 < MAX_LEVEL && Chosen(levels[l], target) != []
    ensures var plan := PlanOf(tables, levels, l, target);
            Sorted(plan.rows) &&
            Find(plan.rows, k) == OrElse(Scan(tables, plan.upper, k), Scan(tables, plan.lower, k))
  {
    hide Chosen, Scan, Meet, Fusion, Find, UniqueByKey, Without;
    var plan := PlanOf(tables, levels, l, target);
    ChosenOk(tables, levels[l], target);
    ChosenOk(tables, levels[l + 1], plan.fused);
    MergedFind(tables, plan.upper, plan.lower, k);
    UpperScan(tables, levels[l], target, k);
  }

  lemma FusedProper(tables: Tables, scopes: Level)
    requires scopes != [] && ScopesOk(tables, scopes)
    ensures Le(Fusion(scopes).start, Fusion(scopes).end)
    ensures forall s, k :: s in scopes && MeetByKey(s, k) ==> MeetByKey(Fusion(scopes), k)
  {
  }

  lemma PlanKeyWithin(tables: Tables, levels: seq<Level>, l: nat, target: Scope, k: Key)
    requires WellFormed(tables, levels) && l + 1 < MAX_LEVEL && Chosen(levels[l], target) != []
    requires Holds(PlanOf(tables, levels, l, target).rows, k)
    ensures var plan := PlanOf(tables, levels, l, target);
            MeetByKey(plan.fused, k) || exists s :: s in plan.lower && MeetByKey(s, k)
  {
    var plan := PlanOf(tables, levels, l, target);
    ChosenOk(tables, levels[l], target);
    ChosenOk(tables, levels[l + 1], plan.fused);
    FusedProper(tables, plan.upper);
    PlanRows(tables, levels, l, target, k);
    ScanNone(tables, plan.upper, k);
    ScanNone(tables, plan.lower, k);
  }

  lemma PlanNotEmpty(tables: Tables, levels: seq<Level>, l: nat, target: Scope)
    requires WellFormed(tables, levels) && l + 1 < MAX_LEVEL && Chosen(levels[l], target) != []
    ensures PlanOf(tables, levels, l, target).rows != []
  {
    var plan := PlanOf(tables, levels, l, target);
    ChosenOk(tables, levels[l], target);
    var s := plan.upper[0];
    assert s in plan.upper;
    assert Holds(tables[s.gen], s.start);
    PlanRows(tables, levels, l, target, s.start);
    ScopeProper(tables, s);
    ScanNone(tables, plan.upper, s.start);
  }

  lemma PlanKeysWithin(tables: Tables, levels: seq<Level>, l: nat, target: Scope)
    requires WellFormed(tables, levels) && l + 1 < MAX_LEVEL && Chosen(levels[l], target) != []
    ensures var plan := PlanOf(tables, levels, l, target);
            KeysWithin(plan.rows, plan.fused, plan.lower) && Le(plan.fused.start, plan.fused.end) && plan.rows != []
  {
    var plan := PlanOf(tables, levels, l, target);
    ChosenOk(tables, levels[l], target);
    FusedProper(tables, plan.upper);
    PlanNotEmpty(tables, levels, l, target);
    forall e | e in plan.rows
      ensures MeetByKey(plan.fused, e.key) || exists s :: s in plan.lower && MeetByKey(s, e.key)
    {
      PlanKeyWithin(tables, levels, l, target, e.key);
    }
  }

  lemma OldTablesKept(tables: Tables, shards: seq<Shard>, level: Level)
    requires ScopesOk(tables, level) && FreshShards(shards, tables)
    ensures ScopesOk(AddTables(tables, shards), level)
  {
  }

  lemma OldAnswersKept(tables: Tables, shards: seq<Shard>, level: Level, k: Key)
    requires ScopesOk(tables, level) && FreshShards(shards, tables)
    ensures Scan(AddTables(tables, shards), level, k) == Scan(tables, level, k)
  {
    AddedTables(tables, shards);
    ScanFrame(tables, AddTables(tables, shards), level, k);
  }

  /** The new tables as a level of the version after the round. */
  lemma NewTables(tables: Tables, levels: seq<Level>, l: nat, target: Scope, shards: seq<Shard>)
    requires CanRound(tables, levels, l, target, shards)
    ensures var plan, tables' := PlanOf(tables, levels, l, target), AddTables(tables, shards);
            var new_ := NewScopes(shards);
            && new_ != [] && ScopesOk(tables', new_) && LevelSorted(new_)
            && (forall s :: s in new_ ==> EndsIn(s, plan.rows))
            && (forall k :: Scan(tables', new_, k) == Find(plan.rows, k))
  {
    var plan, tables' := PlanOf(tables, levels, l, target), AddTables(tables, shards);
    PlanRows(tables, levels, l, target, []);
    PlanKeysWithin(tables, levels, l, target);
    AddedTables(tables, shards);
    assert shards != [] by { assert RowsOf([]) == []; }
    ShardShape(tables', shards);
    forall k ensures Scan(tables', NewScopes(shards), k) == Find(plan.rows, k) {
      ShardScan(tables', shards, k);
    }
  }

  lemma NextLevelParts(level: Level, fused: Scope, new_: Level, s: Scope)
    ensures s in NextLevel(level, fused, new_) <==> s in new_ || s in LeftBehind(level, fused)
  {
    FirstMeetBounds(level, fused);
    LeftBehindSplit(level, InsertIndex(level, fused), fused);
  }

  lemma NextLevelGens(tables: Tables, level: Level, fused: Scope, shards: seq<Shard>)
    requires ScopesOk(tables, level) && DistinctGens(level) && FreshShards(shards, tables)
    ensures DistinctGens(NextLevel(level, fused, NewScopes(shards)))
  {
    FirstMeetBounds(level, fused);
    var i, new_ := InsertIndex(level, fused), NewScopes(shards);
    LeftBehindSplit(level, i, fused);
    SublistGensDistinct(level, fused);
    FreshScopes(tables, level, shards);
    var a, b := LeftBehind(level[..i], fused), LeftBehind(level[i..], fused);
    forall s | s in a || s in b ensures s in level {
      assert s in a + b;
      ChosenMembers(level, fused, s);
    }
    InterleaveDistinct(a, new_, b);
  }

  lemma InterleaveDistinct(a: Level, n: Level, b: Level)
    requires DistinctGens(a + b) && DistinctGens(n)
    requires forall s, t :: s in n && (t in a || t in b) ==> s.gen != t.gen
    ensures DistinctGens(a + n + b)
  {
    var s, ab := a + n + b, a + b;
    assert forall i :: 0 <= i < |a| ==> ab[i] == a[i];
    assert forall i :: 0 <= i < |b| ==> ab[|a| + i] == b[i];
    forall i, j | 0 <= i < j < |s| ensures s[i].gen != s[j].gen {
      if i < |a| && j >= |a| + |n| {
        assert ab[i].gen != ab[j - |n|].gen;
      } else if i >= |a| + |n| {
        assert ab[i - |n|].gen != ab[j - |n|].gen;
      } else if i < |a| && j < |a| {
        assert ab[i].gen != ab[j].gen;
      } else if i < |a| {
        assert s[i] in a && s[j] in n;
      } else if j >= |a| + |n| {
        assert s[i] in n && s[j] in b;
      }
    }
  }

  /** The version after a round is well-formed exactly when the insertion point was right. */
  lemma RoundKeepsLevels(tables: Tables, levels: seq<Level>, l: nat, target: Scope, shards: seq<Shard>)
    requires CanRound(tables, levels, l, target, shards)
    ensures WellFormed(AddTables(tables, shards), RoundLevels(tables, levels, l, target, shards)) <==>
            InsertionPointOk(levels[l + 1], PlanOf(tables, levels, l, target).fused)
  {
    var plan, tables' := PlanOf(tables, levels, l, target), AddTables(tables, shards);
    var new_, level := NewScopes(shards), levels[l + 1];
    var levels' := RoundLevels(tables, levels, l, target, shards);
    var next := NextLevel(level, plan.fused, new_);
    assert levels'[l + 1] == next;
    NewTables(tables, levels, l, target, shards);
    PlanKeysWithin(tables, levels, l, target);
    if InsertionPointOk(level, plan.fused) {
      NextLevelSorted(tables, level, plan.fused, new_, plan.rows);
      RoundRest(tables, levels, l, target, shards);
    } else {
      assert new_[0] in new_;
      ScopeProper(tables', new_[0]);
      NextLevelUnsorted(tables, level, plan.fused, new_, plan.rows);
    }
  }

  lemma NextLevelScopes(tables: Tables, level: Level, fused: Scope, new_: Level)
    requires ScopesOk(tables, level) && ScopesOk(tables, new_)
    ensures ScopesOk(tables, NextLevel(level, fused, new_))
  {
    ChosenOk(tables, level, fused);
    forall s | s in NextLevel(level, fused, new_) ensures ScopeOk(tables, s) {
      NextLevelParts(level, fused, new_, s);
    }
  }

  lemma RoundScopes(tables: Tables, levels: seq<Level>, l: nat, target: Scope, shards: seq<Shard>)
    requires CanRound(tables, levels, l, target, shards)
    ensures ScopesOk(AddTables(tables, shards), LeftBehind(levels[l], target))
    ensures ScopesOk(AddTables(tables, shards),
                     NextLevel(levels[l + 1], PlanOf(tables, levels, l, target).fused, NewScopes(shards)))
  {
    var tables' := AddTables(tables, shards);
    OldTablesKept(tables, shards, levels[l]);
    ChosenOk(tables', levels[l], target);
    OldTablesKept(tables, shards, levels[l + 1]);
    NewTables(tables, levels, l, target, shards);
    NextLevelScopes(tables', levels[l + 1], PlanOf(tables, levels, l, target).fused, NewScopes(shards));
  }

  lemma ReplaceTwo(tables: Tables, levels: seq<Level>, l: nat, x: Level, y: Level)
    requires |levels| == MAX_LEVEL && l + 1 < MAX_LEVEL && GensAscending(levels[0])
    requires forall i :: 0 <= i < MAX_LEVEL ==> ScopesOk(tables, levels[i])
    requires forall i :: 1 <= i < MAX_LEVEL ==> LevelSorted(levels[i]) && DistinctGens(levels[i])
    requires ScopesOk(tables, x) && (if l == 0 then GensAscending(x) else LevelSorted(x) && DistinctGens(x))
    requires ScopesOk(tables, y) && LevelSorted(y) && DistinctGens(y)
    ensures WellFormed(tables, levels[l := x][l + 1 := y])
  {
  }

  lemma RoundRest(tables: Tables, levels: seq<Level>, l: nat, target: Scope, shards: seq<Shard>)
    requires CanRound(tables, levels, l, target, shards)
    requires LevelSorted(NextLevel(levels[l + 1], PlanOf(tables, levels, l, target).fused, NewScopes(shards)))
    ensures WellFormed(AddTables(tables, shards), RoundLevels(tables, levels, l, target, shards))
  {
    var next := NextLevel(levels[l + 1], PlanOf(tables, levels, l, target).fused, NewScopes(shards));
    RoundScopes(tables, levels, l, target, shards);
    forall i | 0 <= i < MAX_LEVEL ensures ScopesOk(AddTables(tables, shards), levels[i]) {
      OldTablesKept(tables, shards, levels[i]);
    }
    NextLevelGens(tables, levels[l + 1], PlanOf(tables, levels, l, target).fused, shards);
    if l == 0 {
      SublistGensAscend(levels[0], target);
    } else {
      SublistSorted(levels[l], target);
      SublistGensDistinct(levels[l], target);
    }
    ReplaceTwo(AddTables(tables, shards), levels, l, LeftBehind(levels[l], target), next);
  }

  /** Scanning the level that received the new tables. */
  lemma NextLevelScan(tables: Tables, level: Level, fused: Scope, new_: Level, k: Key)
    requires var next := NextLevel(level, fused, new_); ScopesOk(tables, next) && LevelSorted(next)
    requires forall s, t :: s in new_ && t in level ==> s.gen != t.gen
    ensures Scan(tables, NextLevel(level, fused, new_), k) ==
            OrElse(Scan(tables, new_, k), Scan(tables, LeftBehind(level, fused), k))
  {
    FirstMeetBounds(level, fused);
    var i, next := InsertIndex(level, fused), NextLevel(level, fused, new_);
    var a, b := LeftBehind(level[..i], fused), LeftBehind(level[i..], fused);
    LeftBehindSplit(level, i, fused);
    ScanAppend(tables, a, b, k);
    ScanAppend(tables, a + new_, b, k);
    ScanAppend(tables, a, new_, k);
    forall s | s in a || s in b ensures s in level && s in next {
      assert s in a + b;
      ChosenMembers(level, fused, s);
      NextLevelParts(level, fused, new_, s);
    }
    forall s | s in new_ ensures s in next { NextLevelParts(level, fused, new_, s); }
    DisjointExclude(tables, next, new_, b, k);
    DisjointExclude(tables, next, new_, a, k);
  }

  /** What the next level answers after the round. */
  lemma NextLevelAfter(tables: Tables, levels: seq<Level>, l: nat, target: Scope, shards: seq<Shard>, k: Key)
    requires CanRound(tables, levels, l, target, shards)
    requires InsertionPointOk(levels[l + 1], PlanOf(tables, levels, l, target).fused)
    ensures var plan := PlanOf(tables, levels, l, target);
            Scan(AddTables(tables, shards), NextLevel(levels[l + 1], plan.fused, NewScopes(shards)), k) ==
            OrElse(OrElse(Scan(tables, plan.upper, k), Scan(tables, plan.lower, k)),
                   Scan(tables, LeftBehind(levels[l + 1], plan.fused), k))
  {
    hide PlanOf, Chosen, LeftBehind, Scan, AddTables, NextLevel, InsertionPointOk, NewScopes, Concat, RowsOf, Meet,
      LevelSorted, ScopeOk, Find;
    var plan := PlanOf(tables, levels, l, target);
    RoundKeepsLevels(tables, levels, l, target, shards);
    var next := RoundLevels(tables, levels, l, target, shards)[l + 1];
    assert next == NextLevel(levels[l + 1], plan.fused, NewScopes(shards));
    NewTables(tables, levels, l, target, shards);
    PlanRows(tables, levels, l, target, k);
    ChosenOk(tables, levels[l + 1], plan.fused);
    OldAnswersKept(tables, shards, LeftBehind(levels[l + 1], plan.fused), k);
    FreshScopes(tables, levels[l + 1], shards);
    NextLevelScan(AddTables(tables, shards), levels[l + 1], plan.fused, NewScopes(shards), k);
  }

  /** A key of level 0 held by a chosen and by a left-behind table is answered by the latter. */
  predicate LeftBehindWins(tables: Tables, level: Level, target: Scope, k: Key) {
    var c, r := Scan(tables, Chosen(level, target), k), Scan(tables, LeftBehind(level, target), k);
    c.Some? && r.Some? ==> Scan(tables, level, k) == r
  }

  lemma OtherLevels(tables: Tables, levels: seq<Level>, l: nat, target: Scope, shards: seq<Shard>, i: nat, k: Key)
    requires CanRound(tables, levels, l, target, shards) && i < MAX_LEVEL && i != l && i != l + 1
    ensures Scan(AddTables(tables, shards), RoundLevels(tables, levels, l, target, shards)[i], k) ==
            Scan(tables, levels[i], k)
  {
    OldAnswersKept(tables, shards, levels[i], k);
  }

  function Chain<T>(a: seq<Option<T>>): Option<T>
    requires |a| == 4
  {
    OrElse(a[0], OrElse(a[1], OrElse(a[2], a[3])))
  }

  function Scans(tables: Tables, levels: seq<Level>, k: Key): seq<Option<Option<Value>>>
    requires |levels| == MAX_LEVEL
  {
    seq(MAX_LEVEL, i requires 0 <= i < MAX_LEVEL => Scan(tables, levels[i], k))
  }

  /** Moving the answers `c` of level `l` in front of `cl` one level down. */
  lemma MovedDown<T>(l: nat, a: seq<Option<T>>, b: seq<Option<T>>, c: Option<T>, r: Option<T>, cl: Option<T>,
                     rl: Option<T>)
    requires |a| == |b| == 4 && l < 3 && (forall i :: 0 <= i < 4 && i != l && i != l + 1 ==> a[i] == b[i])
    requires a[l + 1] == OrElse(cl, rl) && b[l] == r && b[l + 1] == OrElse(OrElse(c, cl), rl)
    requires (c.None? ==> a[l] == r) && (r.None? ==> a[l] == c) && (a[l].None? ==> c.None? && r.None?)
    requires l > 0 ==> c.None? || r.None?
    ensures Chain(b) == Chain(a) <==> (l == 0 && c.Some? && r.Some? ==> a[0] == r)
  {
  }

  lemma QueryIsChain(tables: Tables, levels: seq<Level>, k: Key)
    requires WellFormed(tables, levels)
    ensures Query(tables, levels, k) == Chain(Scans(tables, levels, k))
  {
    QueryIsScan(tables, levels, k);
  }

  lemma ScansElsewhere(tables: Tables, levels: seq<Level>, l: nat, target: Scope, shards: seq<Shard>, k: Key)
    requires CanRound(tables, levels, l, target, shards)
    ensures var a, b := Scans(tables, levels, k),
            Scans(AddTables(tables, shards), RoundLevels(tables, levels, l, target, shards), k);
            forall i :: 0 <= i < 4 && i != l && i != l + 1 ==> a[i] == b[i]
  {
    var a, b := Scans(tables, levels, k),
      Scans(AddTables(tables, shards), RoundLevels(tables, levels, l, target, shards), k);
    forall i | 0 <= i < 4 && i != l && i != l + 1 ensures a[i] == b[i] {
      OtherLevels(tables, levels, l, target, shards, i, k);
    }
  }

  lemma ScansMoved(tables: Tables, levels: seq<Level>, l: nat, target: Scope, shards: seq<Shard>, k: Key)
    requires CanRound(tables, levels, l, target, shards)
    requires InsertionPointOk(levels[l + 1], PlanOf(tables, levels, l, target).fused)
    ensures var a, b := Scans(tables, levels, k),
            Scans(AddTables(tables, shards), RoundLevels(tables, levels, l, target, shards), k);
            Chain(b) == Chain(a) <==> (l == 0 ==> LeftBehindWins(tables, levels[0], target, k))
  {
    PlanShape(tables, levels, l, target, shards);
    hide PlanOf, Chosen, LeftBehind, Scan, AddTables, NextLevel, Chain, InsertionPointOk, RoundLevels, NewScopes,
      ShardsOf;
    var plan, rest := PlanOf(tables, levels, l, target), LeftBehind(levels[l], target);
    var tables', levels' := AddTables(tables, shards), RoundLevels(tables, levels, l, target, shards);
    var a, b := Scans(tables, levels, k), Scans(tables', levels', k);
    var c, r := Scan(tables, plan.upper, k), Scan(tables, rest, k);
    var cl, rl := Scan(tables, plan.lower, k), Scan(tables, LeftBehind(levels[l + 1], plan.fused), k);
    ScansElsewhere(tables, levels, l, target, shards, k);
    assert a[l + 1] == OrElse(cl, rl) by { SortedPartition(tables, levels[l + 1], plan.fused, k); }
    assert b[l + 1] == OrElse(OrElse(c, cl), rl) by { NextLevelAfter(tables, levels, l, target, shards, k); }
    assert b[l] == r by {
      assert levels'[l] == rest;
      ChosenOk(tables, levels[l], target);
      OldAnswersKept(tables, shards, rest, k);
    }
    ScanPartition(tables, levels[l], target, k);
    assert l > 0 ==> c.None? || r.None? by {
      if l > 0 { SortedPartition(tables, levels[l], target, k); }
    }
    MovedDown(l, a, b, c, r, cl, rl);
  }

  /** Compaction preserves meaning: below level 0 a round changes no answer. At level 0 it keeps the
      answer for a key exactly if a chosen table that is the newest holder of the key has the value of
      the newest left-behind table that also holds it. */
  lemma RoundPreservesQuery(tables: Tables, levels: seq<Level>, l: nat, target: Scope, shards: seq<Shard>, k: Key)
    requires CanRound(tables, levels, l, target, shards)
    requires InsertionPointOk(levels[l + 1], PlanOf(tables, levels, l, target).fused)
    ensures Query(AddTables(tables, shards), RoundLevels(tables, levels, l, target, shards), k) ==
            Query(tables, levels, k)
            <==> (l == 0 ==> OverriddenByEqual(tables, levels[0], target, k))
  {
    hide PlanOf, InsertionPointOk, RoundLevels, AddTables, ScopesOk, LevelSorted, Query, Chain, Scans, LeftBehindWins,
      OverriddenByEqual, Chosen;
    RoundKeepsLevels(tables, levels, l, target, shards);
    QueryIsChain(tables, levels, k);
    QueryIsChain(AddTables(tables, shards), RoundLevels(tables, levels, l, target, shards), k);
    ScansMoved(tables, levels, l, target, shards, k);
    LeftBehindWinsIff(tables, levels[0], target, k);
  }

  // ---- level 0, structurally ----

  /** The newest table that holds the key. */
  ghost predicate NewestHolder(tables: Tables, level: Level, k: Key, j: int) {
    && 0 <= j < |level| && QueryScope(tables, level[j], k).Some?
    && forall i :: j < i < |level| ==> QueryScope(tables, level[i], k).None?
  }

  /** The newest left-behind table that holds the key. */
  ghost predicate NewestLeft(tables: Tables, level: Level, target: Scope, k: Key, i: int) {
    && 0 <= i < |level| && !Meet(level[i], target) && QueryScope(tables, level[i], k).Some?
    && forall x :: i < x < |level| && !Meet(level[x], target) ==> QueryScope(tables, level[x], k).None?
  }

  /** Where a chosen table is the newest holder of a key that a left-behind table also holds, the
      newest left-behind value is the same. */
  ghost predicate OverriddenByEqual(tables: Tables, level: Level, target: Scope, k: Key) {
    forall i, j :: NewestHolder(tables, level, k, j) && Meet(level[j], target) &&
      NewestLeft(tables, level, target, k, i)
      ==> QueryScope(tables, level[i], k) == QueryScope(tables, level[j], k)
  }

  lemma {:induction false} ScanIsNewest(tables: Tables, level: Level, k: Key)
    ensures forall j :: NewestHolder(tables, level, k, j) ==> Scan(tables, level, k) == QueryScope(tables, level[j], k)
    ensures Scan(tables, level, k).Some? ==> exists j :: NewestHolder(tables, level, k, j)
  {
    hide QueryScope;
    if level != [] {
      var n, init := |level| - 1, level[..|level| - 1];
      ScanIsNewest(tables, init, k);
      forall j | NewestHolder(tables, level, k, j) ensures Scan(tables, level, k) == QueryScope(tables, level[j], k) {
        if j < n {
          assert NewestHolder(tables, init, k, j);
        }
      }
      if QueryScope(tables, level[n], k).Some? {
        assert NewestHolder(tables, level, k, n);
      } else if Scan(tables, init, k).Some? {
        var j :| NewestHolder(tables, init, k, j);
        assert NewestHolder(tables, level, k, j);
      }
    }
  }

  /** The newest left-behind holder is the last table, or that of the tables before it. */
  lemma NewestLeftSnoc(tables: Tables, level: Level, target: Scope, k: Key, i: int)
    requires level != []
    ensures var n := |level| - 1;
            var last := !Meet(level[n], target) && QueryScope(tables, level[n], k).Some?;
            NewestLeft(tables, level, target, k, i) <==>
            if last then i == n else NewestLeft(tables, level[..n], target, k, i)
  {
    hide QueryScope, Meet;
    var n := |level| - 1;
    assert forall x :: 0 <= x < n ==> level[..n][x] == level[x];
  }

  lemma {:induction false} LeftIsNewest(tables: Tables, level: Level, target: Scope, k: Key)
    ensures forall i :: NewestLeft(tables, level, target, k, i) ==>
              Scan(tables, LeftBehind(level, target), k) == QueryScope(tables, level[i], k)
    ensures Scan(tables, LeftBehind(level, target), k).Some? ==> exists i :: NewestLeft(tables, level, target, k, i)
  {
    hide QueryScope, Meet, Scan, LeftBehind;
    if level == [] {
      ScanNone(tables, LeftBehind(level, target), k);
      forall s ensures s !in LeftBehind(level, target) { ChosenMembers(level, target, s); }
    } else {
      var n, init := |level| - 1, level[..|level| - 1];
      LeftIsNewest(tables, init, target, k);
      ChosenSnoc(level, target);
      ScanSnoc(tables, LeftBehind(init, target), level[n], k);
      NewestLeftSnoc(tables, level, target, k, n);
      forall i | NewestLeft(tables, level, target, k, i)
        ensures Scan(tables, LeftBehind(level, target), k) == QueryScope(tables, level[i], k)
      {
        NewestLeftSnoc(tables, level, target, k, i);
      }
      if Scan(tables, LeftBehind(init, target), k).Some? {
        var i :| NewestLeft(tables, init, target, k, i);
        NewestLeftSnoc(tables, level, target, k, i);
      }
    }
  }

  /** The exact condition at level 0, on the tables themselves. */
  lemma LeftBehindWinsIff(tables: Tables, level: Level, target: Scope, k: Key)
    ensures LeftBehindWins(tables, level, target, k) <==> OverriddenByEqual(tables, level, target, k)
  {
    hide QueryScope, Meet, Scan, LeftBehind, Chosen;
    ScanIsNewest(tables, level, k);
    LeftIsNewest(tables, level, target, k);
    var c, r := Scan(tables, Chosen(level, target), k), Scan(tables, LeftBehind(level, target), k);
    if OverriddenByEqual(tables, level, target, k) && c.Some? && r.Some? {
      ScanPartition(tables, level, target, k);
      var j :| NewestHolder(tables, level, k, j);
      var i :| NewestLeft(tables, level, target, k, i);
      assert !Meet(level[j], target) ==> i == j;
    }
    forall i, j | NewestHolder(tables, level, k, j) && Meet(level[j], target) && NewestLeft(tables, level, target, k, i)
      ensures c.Some? && r == QueryScope(tables, level[i], k)
    {
      ChosenAnswers(tables, level, target, k, j);
    }
  }

  lemma ChosenAnswers(tables: Tables, level: Level, target: Scope, k: Key, j: nat)
    requires j < |level| && Meet(level[j], target) && QueryScope(tables, level[j], k).Some?
    ensures Scan(tables, Chosen(level, target), k).Some?
  {
    hide QueryScope, Meet, Scan, Chosen;
    ChosenMembers(level, target, level[j]);
    ScanNone(tables, Chosen(level, target), k);
  }

  /** No left-behind table of level 0 shares a key with a chosen table newer than it. */
  predicate OlderShareNoKey(tables: Tables, level: Level, target: Scope) {
    forall i, j :: 0 <= i < j < |level| && !Meet(level[i], target) && Meet(level[j], target)
      ==> forall e :: e in Load(tables, level[i]) ==> !Holds(Load(tables, level[j]), e.key)
  }

  lemma OlderMisses(tables: Tables, level: Level, target: Scope, k: Key, i: nat, j: nat)
    requires ScopesOk(tables, level) && OlderShareNoKey(tables, level, target)
    requires i < j < |level| && !Meet(level[i], target) && Meet(level[j], target)
    requires QueryScope(tables, level[j], k).Some?
    ensures QueryScope(tables, level[i], k).None?
  {
    hide Meet;
    assert level[i] in level && level[j] in level;
    ScopeProper(tables, level[i]);
    ScopeProper(tables, level[j]);
    assert forall e :: e in Load(tables, level[i]) ==> !Holds(Load(tables, level[j]), e.key);
  }

  /** Then the round preserves every answer. */
  lemma OlderShareNoKeyWins(tables: Tables, level: Level, target: Scope, k: Key)
    requires ScopesOk(tables, level) && OlderShareNoKey(tables, level, target)
    ensures OverriddenByEqual(tables, level, target, k)
  {
    hide Meet, QueryScope, ScopesOk, OlderShareNoKey;
    forall i, j | NewestHolder(tables, level, k, j) && Meet(level[j], target) && NewestLeft(tables, level, target, k, i)
      ensures QueryScope(tables, level[i], k) == QueryScope(tables, level[j], k)
    {
      if i < j { OlderMisses(tables, level, target, k, i, j); }
    }
  }
}
