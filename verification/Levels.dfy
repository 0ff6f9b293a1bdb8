/** A version's levels of tables and the lookup through them. */
module Levels {
  import opened Keys
  import opened Rows
  import opened Search

  const MAX_LEVEL: nat := 4

  /** Key range and gen of one table. */
  datatype Scope = Scope(start: Key, end: Key, gen: int)

  type Level = seq<Scope>

  /** The table loader: rows of a table by gen. */
  type Tables = map<int, seq<KeyValue>>

  // ---- scopes ----

  predicate Meet(a: Scope, t: Scope) {
    || (Le(a.start, t.start) && Le(t.start, a.end))
    || (Le(a.start, t.end) && Le(t.end, a.end))
    || (Le(a.start, t.start) && Le(t.end, a.end))
    || (Le(t.start, a.start) && Le(a.end, t.end))
  }

  predicate MeetByKey(s: Scope, k: Key) {
    Le(s.start, k) && Le(k, s.end)
  }

  /** The four-way test is interval overlap. */
  lemma MeetIsOverlap(a: Scope, t: Scope)
    requires Le(a.start, a.end) && Le(t.start, t.end)
    ensures Meet(a, t) <==> exists k :: MeetByKey(a, k) && MeetByKey(t, k)
    ensures Meet(a, t) <==> Le(a.start, t.end) && Le(t.start, a.end)
  {
    if Meet(a, t) {
      var k := if Le(a.start, t.start) then t.start else a.start;
      assert MeetByKey(a, k) && MeetByKey(t, k);
    }
  }

  /** `fusion`: smallest start and largest end. */
  function Fusion(scopes: seq<Scope>): (r: Scope)
    requires scopes != []
    ensures forall s :: s in scopes ==> Le(r.start, s.start) && Le(s.end, r.end)
    ensures exists s :: s in scopes && s.start == r.start
    ensures exists s :: s in scopes && s.end == r.end
  {
    var last := scopes[|scopes| - 1];
    assert last in scopes;
    if |scopes| == 1 then Scope(last.start, last.end, 0)
    else
      var f := Fusion(scopes[..|scopes| - 1]);
      Scope(if Lt(last.start, f.start) then last.start else f.start,
            if Lt(f.end, last.end) then last.end else f.end, 0)
  }

  // ---- lookup ----

  function QueryScope(tables: Tables, s: Scope, k: Key): Option<Option<Value>> {
    if MeetByKey(s, k) && s.gen in tables then Find(tables[s.gen], k) else None
  }

  /** Level 0: every table, the last one first. */
  function Scan(tables: Tables, level: Level, k: Key): Option<Option<Value>> {
    if level == [] then None
    else OrElse(QueryScope(tables, level[|level| - 1], k), Scan(tables, level[..|level| - 1], k))
  }

  function StartCompare(level: Level, k: Key): nat -> Ordering {
    (i: nat) => if i < |level| then Compare(level[i].start, k) else Greater
  }

  /** `query_meet_index`: the last table starting at or before the key. */
  function MeetIndex(level: Level, k: Key): nat {
    match BinarySearch(StartCompare(level, k), |level|)
    case Ok(i) => i
    case Err(i) => if i == 0 then 0 else i - 1
  }

  /** Level 1 and below: the one table that binary search picks. */
  function QueryLevel(tables: Tables, level: Level, k: Key): Option<Option<Value>> {
    var i := MeetIndex(level, k);
    if i < |level| then QueryScope(tables, level[i], k) else None
  }

  function QueryFrom(tables: Tables, levels: seq<Level>, i: nat, k: Key): Option<Option<Value>>
    requires i <= |levels|
    decreases |levels| - i
  {
    if i == |levels| then None
    else OrElse(QueryLevel(tables, levels[i], k), QueryFrom(tables, levels, i + 1, k))
  }

  function Query(tables: Tables, levels: seq<Level>, k: Key): Option<Option<Value>>
    requires |levels| == MAX_LEVEL
  {
    OrElse(Scan(tables, levels[0], k), QueryFrom(tables, levels, 1, k))
  }

  /** `Version::query` with its loops over level 0 and the levels below. */
  method QueryVersion(tables: Tables, levels: seq<Level>, k: Key) returns (r: Option<Option<Value>>)
    requires |levels| == MAX_LEVEL
    ensures r == Query(tables, levels, k)
  {
    var i := |levels[0]|;
    assert levels[0][..i] == levels[0];
    while i > 0
      invariant 0 <= i <= |levels[0]| && Scan(tables, levels[0], k) == Scan(tables, levels[0][..i], k)
    {
      i := i - 1;
      assert levels[0][..i + 1][..i] == levels[0][..i];
      r := QueryScope(tables, levels[0][i], k);
      if r.Some? {
        return;
      }
    }
    var level := 1;
    while level < MAX_LEVEL
      invariant 1 <= level <= MAX_LEVEL
      invariant QueryFrom(tables, levels, 1, k) == QueryFrom(tables, levels, level, k)
    {
      var offset := MeetIndex(levels[level], k);
      if offset < |levels[level]| {
        r := QueryScope(tables, levels[level][offset], k);
        if r.Some? {
          return;
        }
      }
      level := level + 1;
    }
    return None;
  }

  // ---- well-formed versions ----

  predicate ScopeOk(tables: Tables, s: Scope) {
    && s.gen in tables && tables[s.gen] != [] && Sorted(tables[s.gen])
    && s.start == tables[s.gen][0].key && s.end == tables[s.gen][|tables[s.gen]| - 1].key
  }

  ghost predicate ScopesOk(tables: Tables, level: Level) {
    forall s :: s in level ==> ScopeOk(tables, s)
  }

  /** Strictly ascending and pairwise disjoint key ranges. */
  predicate LevelSorted(level: Level) {
    forall i, j :: 0 <= i < j < |level| ==> Lt(level[i].end, level[j].start)
  }

  predicate GensAscending(level: Level) {
    forall i, j :: 0 <= i < j < |level| ==> level[i].gen < level[j].gen
  }

  predicate DistinctGens(level: Level) {
    forall i, j :: 0 <= i < j < |level| ==> level[i].gen != level[j].gen
  }

  ghost predicate WellFormed(tables: Tables, levels: seq<Level>) {
    && |levels| == MAX_LEVEL
    && (forall i :: 0 <= i < MAX_LEVEL ==> ScopesOk(tables, levels[i]))
    && GensAscending(levels[0])
    && (forall i :: 1 <= i < MAX_LEVEL ==> LevelSorted(levels[i]) && DistinctGens(levels[i]))
  }

  /** What every run of edits keeps, in order or not: scopes name their tables, gens identify them. */
  ghost predicate Numbered(tables: Tables, levels: seq<Level>) {
    && |levels| == MAX_LEVEL && GensAscending(levels[0])
    && forall i :: 0 <= i < MAX_LEVEL ==> ScopesOk(tables, levels[i]) && DistinctGens(levels[i])
  }

  lemma WellFormedIsNumbered(tables: Tables, levels: seq<Level>)
    ensures WellFormed(tables, levels) <==>
              Numbered(tables, levels) && forall i :: 1 <= i < MAX_LEVEL ==> LevelSorted(levels[i])
  {
  }

  /** Binary search in a level finds whatever its tables hold. */
  ghost predicate SearchFinds(tables: Tables, level: Level) {
    forall k :: QueryLevel(tables, level, k) == Scan(tables, level, k)
  }

  lemma ScopeProper(tables: Tables, s: Scope)
    requires ScopeOk(tables, s)
    ensures Le(s.start, s.end)
    ensures forall k :: QueryScope(tables, s, k) == Find(tables[s.gen], k)
    ensures forall k :: QueryScope(tables, s, k).Some? ==> MeetByKey(s, k)
  {
  }

  /** In a sorted level the table picked by binary search is the only one whose range has the key. */
  lemma OnlyTableForKey(tables: Tables, level: Level, k: Key, i: nat)
    requires ScopesOk(tables, level) && LevelSorted(level) && i < |level| && MeetByKey(level[i], k)
    ensures MeetIndex(level, k) == i
  {
    RanksDiffer();
    forall j | 0 <= j < |level| ensures Le(level[j].start, level[j].end) {
      assert level[j] in level;
      ScopeProper(tables, level[j]);
    }
    var cmp := StartCompare(level, k);
    forall a, b | 0 <= a < b < |level| && cmp(a) != Less ensures cmp(b) == Greater {
      assert Lt(level[a].end, level[b].start);
    }
    SearchCorrect(cmp, |level|);
    var r := BinarySearch(cmp, |level|);
    assert cmp(i) != Greater;
    var m := MeetIndex(level, k);
    assert r.Err? ==> i < r.index && cmp(r.index - 1) == Less;
    assert m < |level| && cmp(m) != Greater;
  }

  lemma {:induction false} ScanNone(tables: Tables, level: Level, k: Key)
    ensures Scan(tables, level, k).None? <==> forall s :: s in level ==> QueryScope(tables, s, k).None?
  {
    if level != [] {
      var init, last := level[..|level| - 1], level[|level| - 1];
      assert level == init + [last];
      ScanNone(tables, init, k);
    }
  }

  /** If only one table answers, the order of the scan is irrelevant. */
  lemma {:induction false} ScanOnly(tables: Tables, level: Level, k: Key, s: Scope)
    requires s in level && forall t :: t in level && QueryScope(tables, t, k).Some? ==> t == s
    ensures Scan(tables, level, k) == QueryScope(tables, s, k)
  {
    var init, last := level[..|level| - 1], level[|level| - 1];
    assert level == init + [last];
    if QueryScope(tables, last, k).None? {
      if s in init {
        ScanOnly(tables, init, k, s);
      } else {
        ScanNone(tables, init, k);
      }
    }
  }

  /** A sorted level answers as if every table were tried. */
  lemma QueryLevelIsScan(tables: Tables, level: Level, k: Key)
    requires ScopesOk(tables, level) && LevelSorted(level)
    ensures QueryLevel(tables, level, k) == Scan(tables, level, k)
  {
    var m := MeetIndex(level, k);
    forall s | s in level && QueryScope(tables, s, k).Some? ensures m < |level| && s == level[m] {
      var i :| 0 <= i < |level| && level[i] == s;
      ScopeProper(tables, s);
      OnlyTableForKey(tables, level, k, i);
    }
    if m < |level| {
      ScanOnly(tables, level, k, level[m]);
    } else {
      ScanNone(tables, level, k);
    }
  }

  /** A well-formed version answers as a scan of all tables, upper levels first. */
  lemma QueryIsScan(tables: Tables, levels: seq<Level>, k: Key)
    requires WellFormed(tables, levels)
    ensures Query(tables, levels, k) ==
            OrElse(Scan(tables, levels[0], k), OrElse(Scan(tables, levels[1], k),
              OrElse(Scan(tables, levels[2], k), Scan(tables, levels[3], k))))
  {
    QueryLevelIsScan(tables, levels[1], k);
    QueryLevelIsScan(tables, levels[2], k);
    QueryLevelIsScan(tables, levels[3], k);
    assert QueryFrom(tables, levels, 4, k) == None;
    assert QueryFrom(tables, levels, 3, k) == OrElse(Scan(tables, levels[3], k), None);
    assert QueryFrom(tables, levels, 2, k) == OrElse(Scan(tables, levels[2], k), QueryFrom(tables, levels, 3, k));
  }

  lemma {:induction false} ScanAppend(tables: Tables, a: Level, b: Level, k: Key)
    ensures Scan(tables, a + b, k) == OrElse(Scan(tables, b, k), Scan(tables, a, k))
  {
    if b == [] {
      assert a + b == a;
    } else {
      assert (a + b)[..|a + b| - 1] == a + b[..|b| - 1];
      ScanAppend(tables, a, b[..|b| - 1], k);
    }
  }

  /** New tables under fresh gens change no old answer. */
  lemma {:induction false} ScanFrame(tables: Tables, tables': Tables, level: Level, k: Key)
    requires forall s :: s in level ==> s.gen in tables && s.gen in tables' && tables'[s.gen] == tables[s.gen]
    ensures Scan(tables', level, k) == Scan(tables, level, k)
  {
    if level != [] {
      assert level[|level| - 1] in level;
      ScanFrame(tables, tables', level[..|level| - 1], k);
    }
  }
}
