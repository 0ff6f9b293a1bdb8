/** One major-compaction round: choosing tables, merging their rows, and the resulting edits. */
module Compaction {
  import opened Keys
  import opened Rows
  import opened Levels
  import opened Sharding

  // ---- edits ----

  /** File edits of a version; their statistics are the business of `Statistics`. */
  datatype Edit =
    | DeleteFile(gens: seq<int>, level: nat)
    | NewFile(scopes: seq<Scope>, level: nat, index: nat)

  function Retain(level: Level, gens: seq<int>): Level {
    if level == [] then []
    else
      var last := level[|level| - 1];
      Retain(level[..|level| - 1], gens) + if last.gen in gens then [] else [last]
  }

  function InsertByGen(scopes: seq<Scope>, x: Scope): seq<Scope> {
    if scopes == [] || scopes[|scopes| - 1].gen <= x.gen then scopes + [x]
    else InsertByGen(scopes[..|scopes| - 1], x) + [scopes[|scopes| - 1]]
  }

  function SortByGen(scopes: seq<Scope>): seq<Scope> {
    if scopes == [] then []
    else InsertByGen(SortByGen(scopes[..|scopes| - 1]), scopes[|scopes| - 1])
  }

  /** A level exists, and an insertion point is inside it. */
  predicate Fits(levels: seq<Level>, e: Edit) {
    && e.level < |levels|
    && (e.NewFile? && e.level > 0 ==> e.index <= |levels[e.level]|)
  }

  function ApplyEdit(levels: seq<Level>, e: Edit): seq<Level>
    requires Fits(levels, e)
  {
    var level := levels[e.level];
    match e
    case DeleteFile(gens, l) => levels[l := Retain(level, gens)]
    case NewFile(scopes, l, index) =>
      if l == 0 then levels[l := level + SortByGen(scopes)]
      else levels[l := level[..index] + SortByGen(scopes) + level[index..]]
  }

  // ---- choosing and merging ----

  /** `tables_by_scopes`: the tables of a level that meet a range. */
  function Chosen(level: Level, target: Scope): Level {
    if level == [] then []
    else
      var last := level[|level| - 1];
      Chosen(level[..|level| - 1], target) + if Meet(last, target) then [last] else []
  }

  function LeftBehind(level: Level, target: Scope): Level {
    if level == [] then []
    else
      var last := level[|level| - 1];
      LeftBehind(level[..|level| - 1], target) + if Meet(last, target) then [] else [last]
  }

  /** Its third result: the first meeting index, or 0 if there is none. */
  function FirstMeet(level: Level, target: Scope): Option<nat> {
    if level == [] then None
    else if Meet(level[0], target) then Some(0)
    else
      var r := FirstMeet(level[1..], target);
      if r.None? then None else Some(r.value + 1)
  }

  function InsertIndex(level: Level, target: Scope): nat {
    var f := FirstMeet(level, target);
    if f.None? then 0 else f.value
  }

  function GensOf(scopes: seq<Scope>): seq<int> {
    seq(|scopes|, i requires 0 <= i < |scopes| => scopes[i].gen)
  }

  function Load(tables: Tables, s: Scope): seq<KeyValue> {
    if s.gen in tables then tables[s.gen] else []
  }

  function LoadAll(tables: Tables, scopes: seq<Scope>): seq<KeyValue> {
    if scopes == [] then []
    else LoadAll(tables, scopes[..|scopes| - 1]) + Load(tables, scopes[|scopes| - 1])
  }

  /** Rows whose key is not among `upper`. */
  function Without(rows: seq<KeyValue>, upper: seq<KeyValue>): seq<KeyValue> {
    if rows == [] then []
    else
      var last := rows[|rows| - 1];
      Without(rows[..|rows| - 1], upper) + if Holds(upper, last.key) then [] else [last]
  }

  function SortByKey(rows: seq<KeyValue>): (r: seq<KeyValue>)
    ensures Sorted(r)
  {
    if rows == [] then []
    else
      var init, last := SortByKey(rows[..|rows| - 1]), rows[|rows| - 1];
      UpsertSorted(init, last.key, last.data);
      Upsert(init, last.key, last.data)
  }

  /** Upper tables in gen order over lower ones; the newest row of every key, sorted. */
  function MergedRows(tables: Tables, upper: seq<Scope>, lower: seq<Scope>): seq<KeyValue> {
    var l := LoadAll(tables, SortByGen(upper));
    var ll := Without(LoadAll(tables, lower), l);
    SortByKey(UniqueByKey(Reverse(ll + l)))
  }

  // ---- the round ----

  /** Everything a round derives from the current version. */
  datatype Plan = Plan(upper: Level, lower: Level, fused: Scope, index: nat, rows: seq<KeyValue>)

  function PlanOf(tables: Tables, levels: seq<Level>, l: nat, target: Scope): Plan
    requires |levels| == MAX_LEVEL && l + 1 < MAX_LEVEL && Chosen(levels[l], target) != []
  {
    var upper := Chosen(levels[l], target);
    var fused := Fusion(upper);
    var lower := Chosen(levels[l + 1], fused);
    Plan(upper, lower, fused, InsertIndex(levels[l + 1], fused), MergedRows(tables, upper, lower))
  }

  function ShardScope(s: Shard): Scope
    requires s.rows != []
  {
    Scope(s.rows[0].key, s.rows[|s.rows| - 1].key, s.gen)
  }

  predicate NonEmptyShards(shards: seq<Shard>) {
    forall i :: 0 <= i < |shards| ==> shards[i].rows != []
  }

  function NewScopes(shards: seq<Shard>): seq<Scope>
    requires NonEmptyShards(shards)
  {
    seq(|shards|, i requires 0 <= i < |shards| => ShardScope(shards[i]))
  }

  function AddTables(tables: Tables, shards: seq<Shard>): Tables {
    if shards == [] then tables
    else AddTables(tables, shards[..|shards| - 1])[shards[|shards| - 1].gen := shards[|shards| - 1].rows]
  }

  /** What sharding promises about the merged rows: nothing lost, in order, under fresh gens. */
  ghost predicate ShardsOf(shards: seq<Shard>, rows: seq<KeyValue>, tables: Tables) {
    Concat(RowsOf(shards)) == rows && FreshShards(shards, tables)
  }

  /** Shards with rows under ascending gens that no table has. */
  ghost predicate FreshShards(shards: seq<Shard>, tables: Tables) {
    && NonEmptyShards(shards) && GensAscend(shards)
    && forall i :: 0 <= i < |shards| ==> shards[i].gen !in tables
  }

  /** The edits in the order `major_compaction` appends them. */
  function RoundEdits(plan: Plan, l: nat, shards: seq<Shard>): seq<Edit>
    requires NonEmptyShards(shards)
  {
    [NewFile(NewScopes(shards), l + 1, plan.index), DeleteFile(GensOf(plan.upper), l),
     DeleteFile(GensOf(plan.lower), l + 1)]
  }

  predicate AllFit(levels: seq<Level>, edits: seq<Edit>)
    decreases edits
  {
    edits == [] || (Fits(levels, edits[0]) && AllFit(ApplyEdit(levels, edits[0]), edits[1..]))
  }

  function ApplyEdits(levels: seq<Level>, edits: seq<Edit>): seq<Level>
    requires AllFit(levels, edits)
    decreases edits
  {
    if edits == [] then levels else ApplyEdits(ApplyEdit(levels, edits[0]), edits[1..])
  }

  /** Where the round puts the new tables is right: next to a table they replace, or in front
      of a level that lies wholly above them. */
  predicate InsertionPointOk(level: Level, fused: Scope) {
    || (exists i :: 0 <= i < |level| && Meet(level[i], fused))
    || (forall i :: 0 <= i < |level| ==> Lt(fused.end, level[i].start))
  }

  // ---- list facts ----

  lemma {:induction false} ChosenMembers(level: Level, target: Scope, s: Scope)
    ensures s in Chosen(level, target) <==> s in level && Meet(s, target)
    ensures s in LeftBehind(level, target) <==> s in level && !Meet(s, target)
  {
    hide Meet;
    if level != [] {
      var init, last := level[..|level| - 1], level[|level| - 1];
      assert level == init + [last];
      ChosenMembers(init, target, s);
    }
  }

  lemma {:induction false} RetainAppend(a: Level, b: Level, gens: seq<int>)
    ensures Retain(a + b, gens) == Retain(a, gens) + Retain(b, gens)
  {
    if b == [] {
      assert a + b == a;
    } else {
      assert (a + b)[..|a + b| - 1] == a + b[..|b| - 1];
      RetainAppend(a, b[..|b| - 1], gens);
    }
  }

  /** Deleting exactly the meeting tables' gens leaves exactly the others. */
  lemma {:induction false} RetainIsLeftBehind(level: Level, target: Scope, gens: seq<int>)
    requires forall s :: s in level ==> (s.gen in gens <==> Meet(s, target))
    ensures Retain(level, gens) == LeftBehind(level, target)
  {
    hide Meet;
    if level != [] {
      assert level[|level| - 1] in level;
      RetainIsLeftBehind(level[..|level| - 1], target, gens);
    }
  }

  lemma {:induction false} RetainAll(level: Level, gens: seq<int>)
    requires forall i :: 0 <= i < |level| ==> level[i].gen !in gens
    ensures Retain(level, gens) == level
  {
    if level != [] {
      var init, last := level[..|level| - 1], level[|level| - 1];
      RetainAll(init, gens);
      assert level == init + [last];
    }
  }

  lemma ChosenGens(level: Level, target: Scope)
    requires DistinctGens(level)
    ensures forall s :: s in level ==> (s.gen in GensOf(Chosen(level, target)) <==> Meet(s, target))
  {
    var c := Chosen(level, target);
    forall s | s in level ensures s.gen in GensOf(c) <==> Meet(s, target) {
      ChosenMembers(level, target, s);
      if Meet(s, target) {
        var i :| 0 <= i < |c| && c[i] == s;
        assert GensOf(c)[i] == s.gen;
      }
      if s.gen in GensOf(c) {
        var i :| 0 <= i < |c| && c[i].gen == s.gen;
        assert c[i] in c;
        ChosenMembers(level, target, c[i]);
        var x :| 0 <= x < |level| && level[x] == c[i];
        var y :| 0 <= y < |level| && level[y] == s;
        assert x == y;
      }
    }
  }

  lemma {:induction false} InsertByGenMembers(scopes: seq<Scope>, x: Scope, s: Scope)
    ensures s in InsertByGen(scopes, x) <==> s in scopes || s == x
  {
    if scopes != [] && scopes[|scopes| - 1].gen > x.gen {
      assert scopes == scopes[..|scopes| - 1] + [scopes[|scopes| - 1]];
      InsertByGenMembers(scopes[..|scopes| - 1], x, s);
    }
  }

  lemma {:induction false} SortByGenMembers(scopes: seq<Scope>, s: Scope)
    ensures s in SortByGen(scopes) <==> s in scopes
  {
    if scopes != [] {
      assert scopes == scopes[..|scopes| - 1] + [scopes[|scopes| - 1]];
      SortByGenMembers(scopes[..|scopes| - 1], s);
      InsertByGenMembers(SortByGen(scopes[..|scopes| - 1]), scopes[|scopes| - 1], s);
    }
  }

  lemma InsertAtEnd(scopes: seq<Scope>, x: Scope)
    requires scopes == [] || scopes[|scopes| - 1].gen <= x.gen
    ensures InsertByGen(scopes, x) == scopes + [x]
  {
  }

  lemma {:induction false} SortByGenSorted(scopes: seq<Scope>)
    requires GensAscending(scopes)
    ensures SortByGen(scopes) == scopes
  {
    hide InsertByGen;
    if scopes != [] {
      var init, last := scopes[..|scopes| - 1], scopes[|scopes| - 1];
      SortByGenSorted(init);
      InsertAtEnd(init, last);
      assert scopes == init + [last];
    }
  }

  predicate GensInOrder(scopes: seq<Scope>) {
    forall i, j :: 0 <= i < j < |scopes| ==> scopes[i].gen <= scopes[j].gen
  }

  lemma {:induction false} InsertByGenOrder(scopes: seq<Scope>, x: Scope)
    requires GensInOrder(scopes)
    ensures GensInOrder(InsertByGen(scopes, x)) && multiset(InsertByGen(scopes, x)) == multiset(scopes) + multiset{x}
  {
    if scopes != [] && scopes[|scopes| - 1].gen > x.gen {
      var init, last := scopes[..|scopes| - 1], scopes[|scopes| - 1];
      assert scopes == init + [last];
      InsertByGenOrder(init, x);
      var r := InsertByGen(init, x);
      forall i | 0 <= i < |r| ensures r[i].gen <= last.gen {
        assert r[i] in r;
        InsertByGenMembers(init, x, r[i]);
      }
    }
  }

  /** Sorting by gen: the same scopes, gens ascending. */
  lemma {:induction false} SortByGenIsSort(scopes: seq<Scope>)
    ensures GensInOrder(SortByGen(scopes)) && multiset(SortByGen(scopes)) == multiset(scopes)
  {
    if scopes != [] {
      var init, last := scopes[..|scopes| - 1], scopes[|scopes| - 1];
      assert scopes == init + [last];
      SortByGenIsSort(init);
      InsertByGenOrder(SortByGen(init), last);
    }
  }

  lemma {:induction false} SublistGensAscend(level: Level, target: Scope)
    requires GensAscending(level)
    ensures GensAscending(Chosen(level, target)) && GensAscending(LeftBehind(level, target))
  {
    hide Meet;
    if level != [] {
      var init, last := level[..|level| - 1], level[|level| - 1];
      SublistGensAscend(init, target);
      forall s | s in Chosen(init, target) || s in LeftBehind(init, target) ensures s.gen < last.gen {
        ChosenMembers(init, target, s);
        var i :| 0 <= i < |init| && init[i] == s;
        assert level[i].gen < level[|level| - 1].gen;
      }
    }
  }

  lemma {:induction false} SublistGensDistinct(level: Level, target: Scope)
    requires DistinctGens(level)
    ensures DistinctGens(LeftBehind(level, target))
  {
    hide Meet;
    if level != [] {
      var init, last := level[..|level| - 1], level[|level| - 1];
      SublistGensDistinct(init, target);
      forall s | s in LeftBehind(init, target) ensures s.gen != last.gen {
        ChosenMembers(init, target, s);
        var i :| 0 <= i < |init| && init[i] == s;
        assert level[i].gen != level[|level| - 1].gen;
      }
    }
  }

  lemma {:induction false} SublistSorted(level: Level, target: Scope)
    requires LevelSorted(level)
    ensures LevelSorted(LeftBehind(level, target))
  {
    if level != [] {
      var init, last := level[..|level| - 1], level[|level| - 1];
      SublistSorted(init, target);
      forall s | s in LeftBehind(init, target) ensures Lt(s.end, last.start) {
        ChosenMembers(init, target, s);
        var i :| 0 <= i < |init| && init[i] == s;
        assert Lt(level[i].end, level[|level| - 1].start);
      }
    }
  }

  // ---- the merge is a layered lookup ----

  lemma {:induction false} SortByKeyFind(rows: seq<KeyValue>, k: Key)
    requires DistinctKeys(rows)
    ensures Find(SortByKey(rows), k) == Find(rows, k)
  {
    if rows != [] {
      var init, last := rows[..|rows| - 1], rows[|rows| - 1];
      assert rows == init + [last];
      SortByKeyFind(init, k);
      UpsertFind(SortByKey(init), last.key, last.data, k);
      FindAppend(init, [last], k);
    }
  }

  lemma {:induction false} ReverseAppend<T>(a: seq<T>, b: seq<T>)
    ensures Reverse(a + b) == Reverse(b) + Reverse(a)
  {
  }

  /** Reading loaded tables backwards answers like the newest-first scan. */
  lemma {:induction false} LoadAllFind(tables: Tables, scopes: seq<Scope>, k: Key)
    requires ScopesOk(tables, scopes)
    ensures Find(Reverse(LoadAll(tables, scopes)), k) == Scan(tables, scopes, k)
  {
    if scopes != [] {
      var init, last := scopes[..|scopes| - 1], scopes[|scopes| - 1];
      assert last in scopes;
      assert forall s :: s in init ==> s in scopes;
      LoadAllFind(tables, init, k);
      ReverseAppend(LoadAll(tables, init), Load(tables, last));
      FindAppend(Reverse(Load(tables, last)), Reverse(LoadAll(tables, init)), k);
      ScopeProper(tables, last);
      SortedIsDistinct(tables[last.gen]);
      ReverseKeepsFind(tables[last.gen], k);
    }
  }

  lemma SortedIsDistinct(rows: seq<KeyValue>)
    requires Sorted(rows)
    ensures DistinctKeys(rows)
  {
  }

  lemma {:induction false} WithoutFind(rows: seq<KeyValue>, upper: seq<KeyValue>, k: Key)
    ensures Find(Reverse(Without(rows, upper)), k) == if Holds(upper, k) then None else Find(Reverse(rows), k)
  {
    if rows != [] {
      var init, last := rows[..|rows| - 1], rows[|rows| - 1];
      assert rows == init + [last];
      WithoutFind(init, upper, k);
      ReverseAppend(Without(init, upper), [last]);
      ReverseAppend(init, [last]);
      assert Reverse([last]) == [last];
      assert Reverse(rows) == [last] + Reverse(init);
      FindAppend([last], Reverse(init), k);
      FindAppend([last], Reverse(Without(init, upper)), k);
      if Holds(upper, last.key) {
        assert Without(rows, upper) == Without(init, upper);
      }
    }
  }

  lemma HoldsReverse(rows: seq<KeyValue>, k: Key)
    ensures Holds(Reverse(rows), k) <==> Holds(rows, k)
  {
    var r := Reverse(rows);
    if i :| 0 <= i < |rows| && rows[i].key == k { assert r[|rows| - 1 - i].key == k; }
    if i :| 0 <= i < |r| && r[i].key == k { assert rows[|rows| - 1 - i].key == k; }
  }

  /** Merging is layered lookup: the newest chosen upper table, else the lower tables. */
  lemma MergedFind(tables: Tables, upper: seq<Scope>, lower: seq<Scope>, k: Key)
    requires ScopesOk(tables, upper) && ScopesOk(tables, lower)
    ensures Find(MergedRows(tables, upper, lower), k) ==
            OrElse(Scan(tables, SortByGen(upper), k), Scan(tables, lower, k))
  {
    var sorted := SortByGen(upper);
    forall s | s in sorted ensures ScopeOk(tables, s) { SortByGenMembers(upper, s); }
    var l := LoadAll(tables, sorted);
    var ll := Without(LoadAll(tables, lower), l);
    UniqueIsDistinct(Reverse(ll + l));
    SortByKeyFind(UniqueByKey(Reverse(ll + l)), k);
    UniqueKeepsFind(Reverse(ll + l), k);
    ReverseAppend(ll, l);
    FindAppend(Reverse(l), Reverse(ll), k);
    LoadAllFind(tables, sorted, k);
    LoadAllFind(tables, lower, k);
    WithoutFind(LoadAll(tables, lower), l, k);
    HoldsReverse(l, k);
  }

  // ---- the new tables ----

  lemma SortedParts(a: seq<KeyValue>, b: seq<KeyValue>)
    requires Sorted(a + b)
    ensures Sorted(a) && Sorted(b)
    ensures forall x, y :: x in a && y in b ==> Lt(x.key, y.key)
  {
    var s := a + b;
    assert forall i :: 0 <= i < |a| ==> s[i] == a[i];
    assert forall i :: 0 <= i < |b| ==> s[|a| + i] == b[i];
    forall i, j | 0 <= i < j < |b| ensures Lt(b[i].key, b[j].key) {
      assert Lt(s[|a| + i].key, s[|a| + j].key);
    }
    forall x, y | x in a && y in b ensures Lt(x.key, y.key) {
      var i :| 0 <= i < |a| && a[i] == x;
      var j :| 0 <= j < |b| && b[j] == y;
      assert Lt(s[i].key, s[|a| + j].key);
    }
  }

  lemma {:induction false} AddedTables(tables: Tables, shards: seq<Shard>)
    requires GensAscend(shards)
    ensures forall i :: 0 <= i < |shards| ==>
              shards[i].gen in AddTables(tables, shards) && AddTables(tables, shards)[shards[i].gen] == shards[i].rows
    ensures forall g :: g in tables && (forall i :: 0 <= i < |shards| ==> shards[i].gen != g) ==>
              g in AddTables(tables, shards) && AddTables(tables, shards)[g] == tables[g]
  {
    if shards != [] {
      AddedTables(tables, shards[..|shards| - 1]);
    }
  }

  ghost predicate Stored(tables: Tables, shards: seq<Shard>) {
    forall i :: 0 <= i < |shards| ==> shards[i].gen in tables && tables[shards[i].gen] == shards[i].rows
  }

  lemma ShardsSnoc(shards: seq<Shard>)
    requires shards != [] && NonEmptyShards(shards)
    ensures var init, last := shards[..|shards| - 1], shards[|shards| - 1];
            && NewScopes(shards) == NewScopes(init) + [ShardScope(last)]
            && Concat(RowsOf(shards)) == Concat(RowsOf(init)) + last.rows
  {
    var init, last := shards[..|shards| - 1], shards[|shards| - 1];
    assert RowsOf(shards) == RowsOf(init) + [last.rows];
    ConcatSnoc(RowsOf(init), last.rows);
  }

  /** Tables cut from sorted rows answer like the rows. */
  lemma {:induction false} ShardScan(tables: Tables, shards: seq<Shard>, k: Key)
    requires NonEmptyShards(shards) && Sorted(Concat(RowsOf(shards))) && Stored(tables, shards)
    ensures Scan(tables, NewScopes(shards), k) == Find(Concat(RowsOf(shards)), k)
  {
    if shards != [] {
      var init, last := shards[..|shards| - 1], shards[|shards| - 1];
      ShardsSnoc(shards);
      var before := Concat(RowsOf(init));
      SortedParts(before, last.rows);
      ShardScan(tables, init, k);
      assert ScopeOk(tables, ShardScope(last));
      ScopeProper(tables, ShardScope(last));
      FindAppend(before, last.rows, k);
      assert forall d, d' :: !(KeyValue(k, d) in before && KeyValue(k, d') in last.rows);
    }
  }

  /** They form a sorted level whose ranges end in keys of the rows. */
  lemma {:induction false} ShardShape(tables: Tables, shards: seq<Shard>)
    requires NonEmptyShards(shards) && Sorted(Concat(RowsOf(shards))) && Stored(tables, shards)
    ensures ScopesOk(tables, NewScopes(shards)) && LevelSorted(NewScopes(shards))
    ensures forall s :: s in NewScopes(shards) ==> EndsIn(s, Concat(RowsOf(shards)))
  {
    if shards != [] {
      var init, last := shards[..|shards| - 1], shards[|shards| - 1];
      ShardsSnoc(shards);
      var before := Concat(RowsOf(init));
      SortedParts(before, last.rows);
      ShardShape(tables, init);
      assert last.rows[0] in last.rows && last.rows[|last.rows| - 1] in last.rows;
      assert EndsIn(ShardScope(last), before + last.rows);
      forall s | s in NewScopes(init) ensures Lt(s.end, ShardScope(last).start) && EndsIn(s, before + last.rows) {
        assert EndsIn(s, before);
        var e :| e in before && e.key == s.end;
        assert Lt(e.key, last.rows[0].key);
      }
    }
  }

  ghost predicate EndsIn(s: Scope, rows: seq<KeyValue>) {
    (exists e :: e in rows && e.key == s.start) && (exists e :: e in rows && e.key == s.end)
  }

  // ---- rows of a sorted level ----

  lemma TableRows(tables: Tables, s: Scope, e: KeyValue)
    requires ScopeOk(tables, s) && e in Load(tables, s)
    ensures MeetByKey(s, e.key)
  {
  }

  /** The rows of a sorted level, table after table, are one sorted list. */
  lemma {:induction false} LevelRowsSorted(tables: Tables, level: Level)
    requires ScopesOk(tables, level) && LevelSorted(level)
    ensures Sorted(LoadAll(tables, level))
    ensures forall e :: e in LoadAll(tables, level) ==> exists s :: s in level && MeetByKey(s, e.key)
  {
    if level != [] {
      var init, last := level[..|level| - 1], level[|level| - 1];
      assert last in level && forall s :: s in init ==> s in level;
      LevelRowsSorted(tables, init);
      var a, b := LoadAll(tables, init), Load(tables, last);
      forall e | e in b ensures MeetByKey(last, e.key) { TableRows(tables, last, e); }
      forall x, y | x in a && y in b ensures Lt(x.key, y.key) {
        var s :| s in init && MeetByKey(s, x.key);
        var i :| 0 <= i < |init| && init[i] == s;
        assert Lt(level[i].end, level[|level| - 1].start);
      }
      JoinRows(a, b);
    }
  }

  lemma JoinRows(a: seq<KeyValue>, b: seq<KeyValue>)
    requires Sorted(a) && Sorted(b) && forall x, y :: x in a && y in b ==> Lt(x.key, y.key)
    ensures Sorted(a + b)
  {
  }
}
