/** Version statistics, edit batches and replay of the edit log. */
module Statistics {
  import opened Keys
  import opened Rows
  import opened Levels
  import opened Compaction

  datatype TableMeta = TableMeta(size: nat, len: nat)

  datatype EditType = Add(meta: TableMeta) | Del(meta: TableMeta)

  /** An edit as it is logged, with the statistics of the tables it adds or removes. */
  datatype LoggedEdit = LoggedEdit(edit: Edit, meta: TableMeta)

  function TypeOf(e: LoggedEdit): EditType {
    if e.edit.DeleteFile? then Del(e.meta) else Add(e.meta)
  }

  function Types(log: seq<LoggedEdit>): seq<EditType> {
    seq(|log|, i requires 0 <= i < |log| => TypeOf(log[i]))
  }

  function EditsOf(log: seq<LoggedEdit>): seq<Edit> {
    seq(|log|, i requires 0 <= i < |log| => log[i].edit)
  }

  // ---- sums ----

  function Sum<T>(s: seq<T>, w: T -> nat): nat {
    if s == [] then 0 else Sum(s[..|s| - 1], w) + w(s[|s| - 1])
  }

  lemma {:induction false} SumAppend<T>(a: seq<T>, b: seq<T>, w: T -> nat)
    ensures Sum(a + b, w) == Sum(a, w) + Sum(b, w)
  {
    if b == [] {
      assert a + b == a;
    } else {
      assert (a + b)[..|a + b| - 1] == a + b[..|b| - 1];
      SumAppend(a, b[..|b| - 1], w);
    }
  }

  lemma {:induction false} SumZero<T>(s: seq<T>, w: T -> nat)
    requires forall i :: 0 <= i < |s| ==> w(s[i]) == 0
    ensures Sum(s, w) == 0
  {
    if s != [] {
      SumZero(s[..|s| - 1], w);
    }
  }

  /** What the additions, or the removals, of one list amount to in one counter. */
  function Added(c: TableMeta -> nat): EditType -> nat {
    (t: EditType) => if t.Add? then c(t.meta) else 0
  }

  function Removed(c: TableMeta -> nat): EditType -> nat {
    (t: EditType) => if t.Del? then c(t.meta) else 0
  }

  const Size: TableMeta -> nat := (m: TableMeta) => m.size
  const Len: TableMeta -> nat := (m: TableMeta) => m.len

  // ---- statistical_process ----

  /** The stable sort by edit type: additions first. */
  function SortTypes(ts: seq<EditType>): seq<EditType> {
    Only(ts, true) + Only(ts, false)
  }

  function Only(ts: seq<EditType>, add: bool): (r: seq<EditType>)
    ensures forall i :: 0 <= i < |r| ==> r[i].Add? == add
  {
    if ts == [] then []
    else
      var last := ts[|ts| - 1];
      Only(ts[..|ts| - 1], add) + if last.Add? == add then [last] else []
  }

  lemma {:induction false} OnlySum(ts: seq<EditType>, c: TableMeta -> nat)
    ensures Sum(Only(ts, true), Added(c)) == Sum(ts, Added(c)) &&
            Sum(Only(ts, false), Removed(c)) == Sum(ts, Removed(c))
  {
    if ts != [] {
      var last := ts[|ts| - 1];
      OnlySum(ts[..|ts| - 1], c);
      SumAppend(Only(ts[..|ts| - 1], true), if last.Add? then [last] else [], Added(c));
      SumAppend(Only(ts[..|ts| - 1], false), if last.Add? then [] else [last], Removed(c));
    }
  }

  /** Sorting moves every addition to the front and changes neither total. */
  lemma SortTypesSum(ts: seq<EditType>, c: TableMeta -> nat)
    ensures Sum(SortTypes(ts), Added(c)) == Sum(ts, Added(c))
    ensures Sum(SortTypes(ts), Removed(c)) == Sum(ts, Removed(c))
  {
    OnlySum(ts, c);
    SumAppend(Only(ts, true), Only(ts, false), Added(c));
    SumAppend(Only(ts, true), Only(ts, false), Removed(c));
    SumZero(Only(ts, false), Added(c));
    SumZero(Only(ts, true), Removed(c));
  }

  lemma SumStep(ts: seq<EditType>, i: nat, w: EditType -> nat)
    requires i < |ts|
    ensures Sum(ts[..i + 1], w) == Sum(ts[..i], w) + w(ts[i])
  {
    assert ts[..i + 1][..i] == ts[..i];
  }

  lemma SumPrefix(ts: seq<EditType>, i: nat, w: EditType -> nat)
    requires i <= |ts|
    ensures Sum(ts[..i], w) <= Sum(ts, w)
  {
    hide Sum;
    assert ts == ts[..i] + ts[i..];
    SumAppend(ts[..i], ts[i..], w);
  }

  lemma PrefixSums(ts: seq<EditType>, i: nat, c: TableMeta -> nat)
    requires i < |ts|
    ensures Sum(ts[..i + 1], Added(c)) == Sum(ts[..i], Added(c)) + Added(c)(ts[i])
    ensures Sum(ts[..i + 1], Removed(c)) == Sum(ts[..i], Removed(c)) + Removed(c)(ts[i])
    ensures Sum(ts[..i + 1], Removed(c)) <= Sum(ts, Removed(c))
  {
    hide Sum;
    SumStep(ts, i, Added(c));
    SumStep(ts, i, Removed(c));
    SumPrefix(ts, i + 1, Removed(c));
  }

  lemma AddsAreDone(ts: seq<EditType>, i: nat, c: TableMeta -> nat)
    requires i < |SortTypes(ts)| && SortTypes(ts)[i].Del?
    ensures Sum(SortTypes(ts)[..i], Added(c)) == Sum(SortTypes(ts), Added(c))
  {
    var s := SortTypes(ts);
    assert i >= |Only(ts, true)|;
    forall j | 0 <= j < |s[i..]| ensures Added(c)(s[i..][j]) == 0 {
      assert s[i..][j] == Only(ts, false)[i + j - |Only(ts, true)|];
    }
    SumZero(s[i..], Added(c));
    assert s == s[..i] + s[i..];
    SumAppend(s[..i], s[i..], Added(c));
  }

  /** No counter goes below zero on the way exactly when the totals do not. */
  predicate Enough(m: TableMeta, ts: seq<EditType>) {
    && Sum(ts, Removed(Size)) <= m.size + Sum(ts, Added(Size))
    && Sum(ts, Removed(Len)) <= m.len + Sum(ts, Added(Len))
  }

  function Processed(m: TableMeta, ts: seq<EditType>): TableMeta
    requires Enough(m, ts)
  {
    TableMeta(m.size + Sum(ts, Added(Size)) - Sum(ts, Removed(Size)),
              m.len + Sum(ts, Added(Len)) - Sum(ts, Removed(Len)))
  }

  class VersionMeta {
    var size: nat
    var len: nat

    constructor (size: nat, len: nat)
      ensures this.size == size && this.len == len
    {
      this.size, this.len := size, len;
    }

    /** Subtracting below zero, on which the source panics, is `false`. */
    method StatisticalProcess(ts: seq<EditType>) returns (ok: bool)
      modifies this
      ensures ok <==> Enough(TableMeta(old(size), old(len)), ts)
      ensures ok ==> TableMeta(size, len) == Processed(TableMeta(old(size), old(len)), ts)
    {
      SortTypesSum(ts, Size);
      SortTypesSum(ts, Len);
      var sorted, i := SortTypes(ts), 0;
      while i < |sorted|
        invariant i <= |sorted|
        invariant size == old(size) + Sum(sorted[..i], Added(Size)) - Sum(sorted[..i], Removed(Size))
        invariant len == old(len) + Sum(sorted[..i], Added(Len)) - Sum(sorted[..i], Removed(Len))
      {
        PrefixSums(sorted, i, Size);
        PrefixSums(sorted, i, Len);
        match sorted[i] {
          case Add(meta) =>
            size, len := size + meta.size, len + meta.len;
          case Del(meta) =>
            AddsAreDone(ts, i, Size);
            AddsAreDone(ts, i, Len);
            if meta.size > size || meta.len > len {
              return false;
            }
            size, len := size - meta.size, len - meta.len;
        }
        i := i + 1;
      }
      assert sorted[..i] == sorted;
      return true;
    }
  }

  // ---- what the levels hold ----

  /** The recorded statistics of every table, by gen. */
  type Metas = int -> TableMeta

  function OfGen(metas: Metas, c: TableMeta -> nat): int -> nat {
    (g: int) => c(metas(g))
  }

  function OfScope(w: int -> nat): Scope -> nat {
    (s: Scope) => w(s.gen)
  }

  function SumLevels(levels: seq<Level>, w: int -> nat): nat {
    if levels == [] then 0 else SumLevels(levels[..|levels| - 1], w) + Sum(levels[|levels| - 1], OfScope(w))
  }

  function MetaOfLevels(levels: seq<Level>, metas: Metas): TableMeta {
    TableMeta(SumLevels(levels, OfGen(metas, Size)), SumLevels(levels, OfGen(metas, Len)))
  }

  function MetaOfScopes(scopes: seq<Scope>, metas: Metas): TableMeta {
    TableMeta(Sum(scopes, OfScope(OfGen(metas, Size))), Sum(scopes, OfScope(OfGen(metas, Len))))
  }

  function MetaOfGens(gens: seq<int>, metas: Metas): TableMeta {
    TableMeta(Sum(gens, OfGen(metas, Size)), Sum(gens, OfGen(metas, Len)))
  }

  lemma {:induction false} SumLevelsUpdate(levels: seq<Level>, l: nat, level: Level, w: int -> nat)
    requires l < |levels|
    ensures SumLevels(levels[l := level], w) + Sum(levels[l], OfScope(w)) ==
            SumLevels(levels, w) + Sum(level, OfScope(w))
  {
    var n := |levels| - 1;
    if l < n {
      SumLevelsUpdate(levels[..n], l, level, w);
      assert levels[l := level][..n] == levels[..n][l := level];
    } else {
      assert levels[l := level][..n] == levels[..n];
    }
  }

  lemma {:induction false} SumSortByGen(scopes: seq<Scope>, w: Scope -> nat)
    ensures Sum(SortByGen(scopes), w) == Sum(scopes, w)
  {
    if scopes != [] {
      SumSortByGen(scopes[..|scopes| - 1], w);
      SumInsertByGen(SortByGen(scopes[..|scopes| - 1]), scopes[|scopes| - 1], w);
    }
  }

  lemma {:induction false} SumInsertByGen(scopes: seq<Scope>, x: Scope, w: Scope -> nat)
    ensures Sum(InsertByGen(scopes, x), w) == Sum(scopes, w) + w(x)
  {
    if scopes == [] || scopes[|scopes| - 1].gen <= x.gen {
      SumAppend(scopes, [x], w);
    } else {
      var init, last := scopes[..|scopes| - 1], scopes[|scopes| - 1];
      SumInsertByGen(init, x, w);
      SumAppend(InsertByGen(init, x), [last], w);
    }
  }

  // ---- removing the tables of a list of gens ----

  /** Weighs the tables of one gen. */
  function Of(g: int, x: nat): int -> nat {
    (h: int) => if h == g then x else 0
  }

  /** Weighs the tables whose gen is listed. */
  function Listed(gens: seq<int>, w: int -> nat): int -> nat {
    (g: int) => if g in gens then w(g) else 0
  }

  function Count(level: Level, g: int): nat {
    Sum(level, OfScope(Of(g, 1)))
  }

  /** No gen twice in one level. */
  ghost predicate OnceEach(level: Level) {
    forall g :: Count(level, g) <= 1
  }

  predicate HasGen(level: Level, g: int) {
    exists i :: 0 <= i < |level| && level[i].gen == g
  }

  /** No gen in both lists. */
  predicate NoneShared(a: Level, b: Level) {
    forall i, j :: 0 <= i < |a| && 0 <= j < |b| ==> a[i].gen != b[j].gen
  }

  lemma {:induction false} CountIsMembership(level: Level, g: int)
    ensures Count(level, g) > 0 <==> HasGen(level, g)
  {
    if level != [] {
      var init := level[..|level| - 1];
      CountIsMembership(init, g);
      if i :| 0 <= i < |init| && init[i].gen == g {
        assert level[i].gen == g;
      }
      if i :| 0 <= i < |level| && level[i].gen == g && i < |init| {
        assert init[i].gen == g;
      }
    }
  }

  lemma {:induction false} SumOfOne(level: Level, g: int, x: nat)
    requires Count(level, g) <= 1
    ensures Sum(level, OfScope(Of(g, x))) == if Count(level, g) == 1 then x else 0
  {
    if level != [] {
      SumOfOne(level[..|level| - 1], g, x);
    }
  }

  lemma {:induction false} SumSplit(level: Level, a: int -> nat, b: int -> nat, c: int -> nat)
    requires forall g :: a(g) == b(g) + c(g)
    ensures Sum(level, OfScope(a)) == Sum(level, OfScope(b)) + Sum(level, OfScope(c))
  {
    if level != [] {
      SumSplit(level[..|level| - 1], a, b, c);
    }
  }

  /** What `retain` drops is what is listed. */
  lemma {:induction false} RetainSum(level: Level, gens: seq<int>, w: int -> nat)
    ensures Sum(level, OfScope(w)) == Sum(Retain(level, gens), OfScope(w)) + Sum(level, OfScope(Listed(gens, w)))
  {
    if level != [] {
      var init, last := level[..|level| - 1], level[|level| - 1];
      RetainSum(init, gens, w);
      SumAppend(Retain(init, gens), if last.gen in gens then [] else [last], OfScope(w));
      assert last.gen !in gens ==> Sum([last], OfScope(w)) == w(last.gen);
    }
  }

  /** Gens listed once and present once weigh what they weigh in the level. */
  lemma {:induction false} ListedSum(level: Level, gens: seq<int>, w: int -> nat)
    requires NoRepeats(gens) && forall i :: 0 <= i < |gens| ==> Count(level, gens[i]) == 1
    ensures Sum(level, OfScope(Listed(gens, w))) == Sum(gens, w)
  {
    if gens == [] {
      SumZero(level, OfScope(Listed(gens, w)));
    } else {
      var init, g := gens[..|gens| - 1], gens[|gens| - 1];
      ListedSum(level, init, w);
      assert g !in init && gens == init + [g];
      SumSplit(level, Listed(gens, w), Listed(init, w), Of(g, w(g)));
      SumOfOne(level, g, w(g));
    }
  }

  // ---- honest logs ----

  /** The edit removes tables that are there, each once, or adds tables that are not; its
      statistics are those recorded for the tables. */
  ghost predicate Honest(levels: seq<Level>, e: LoggedEdit, metas: Metas) {
    && Fits(levels, e.edit)
    && match e.edit
       case DeleteFile(gens, l) =>
         && NoRepeats(gens) && (forall g :: g in gens ==> HasGen(levels[l], g))
         && e.meta == MetaOfGens(gens, metas)
       case NewFile(scopes, l, _) =>
         && OnceEach(scopes) && NoneShared(scopes, levels[l])
         && e.meta == MetaOfScopes(scopes, metas)
  }

  ghost predicate AllOnce(levels: seq<Level>) {
    forall l :: 0 <= l < |levels| ==> OnceEach(levels[l])
  }

  lemma NewFileSum(levels: seq<Level>, e: Edit, w: int -> nat)
    requires Fits(levels, e) && e.NewFile?
    ensures Sum(ApplyEdit(levels, e)[e.level], OfScope(w)) ==
            Sum(levels[e.level], OfScope(w)) + Sum(e.scopes, OfScope(w))
    ensures SumLevels(ApplyEdit(levels, e), w) == SumLevels(levels, w) + Sum(e.scopes, OfScope(w))
  {
    var level, new_ := levels[e.level], SortByGen(e.scopes);
    SumSortByGen(e.scopes, OfScope(w));
    if e.level == 0 {
      SumAppend(level, new_, OfScope(w));
    } else {
      var a, b := level[..e.index], level[e.index..];
      assert level == a + b;
      SumAppend(a, b, OfScope(w));
      SumAppend(a + new_, b, OfScope(w));
      SumAppend(a, new_, OfScope(w));
    }
    SumLevelsUpdate(levels, e.level, ApplyEdit(levels, e)[e.level], w);
  }

  lemma DeleteFileSum(levels: seq<Level>, e: Edit, w: int -> nat)
    requires Fits(levels, e) && e.DeleteFile? && NoRepeats(e.gens)
    requires forall i :: 0 <= i < |e.gens| ==> Count(levels[e.level], e.gens[i]) == 1
    ensures SumLevels(ApplyEdit(levels, e), w) + Sum(e.gens, w) == SumLevels(levels, w)
  {
    RetainSum(levels[e.level], e.gens, w);
    ListedSum(levels[e.level], e.gens, w);
    SumLevelsUpdate(levels, e.level, Retain(levels[e.level], e.gens), w);
  }

  /** Honest edits keep gens unique. */
  lemma EditKeepsOnce(levels: seq<Level>, e: LoggedEdit, metas: Metas)
    requires AllOnce(levels) && Honest(levels, e, metas)
    ensures AllOnce(ApplyEdit(levels, e.edit))
  {
    var l := e.edit.level;
    forall g ensures Count(ApplyEdit(levels, e.edit)[l], g) <= 1 {
      assert Count(levels[l], g) <= 1;
      if e.edit.DeleteFile? {
        RetainSum(levels[l], e.edit.gens, Of(g, 1));
      } else {
        NewFileSum(levels, e.edit, Of(g, 1));
        CountIsMembership(e.edit.scopes, g);
        CountIsMembership(levels[l], g);
      }
    }
  }

  lemma DeletedOnce(levels: seq<Level>, e: LoggedEdit, metas: Metas)
    requires AllOnce(levels) && Honest(levels, e, metas) && e.edit.DeleteFile?
    ensures forall i :: 0 <= i < |e.edit.gens| ==> Count(levels[e.edit.level], e.edit.gens[i]) == 1
  {
    forall i | 0 <= i < |e.edit.gens| ensures Count(levels[e.edit.level], e.edit.gens[i]) == 1 {
      assert e.edit.gens[i] in e.edit.gens;
      CountIsMembership(levels[e.edit.level], e.edit.gens[i]);
      assert Count(levels[e.edit.level], e.edit.gens[i]) <= 1;
    }
  }

  /** An honest edit changes the sums by exactly its statistics. */
  lemma EditStatistics(levels: seq<Level>, e: LoggedEdit, metas: Metas)
    requires AllOnce(levels) && Honest(levels, e, metas)
    ensures var m, m' := MetaOfLevels(levels, metas), MetaOfLevels(ApplyEdit(levels, e.edit), metas);
            match TypeOf(e)
            case Add(t) => m' == TableMeta(m.size + t.size, m.len + t.len)
            case Del(t) => m == TableMeta(m'.size + t.size, m'.len + t.len)
  {
    hide AllOnce, OnceEach, Sum, SumLevels, ApplyEdit;
    if e.edit.DeleteFile? {
      DeletedOnce(levels, e, metas);
      DeleteFileSum(levels, e.edit, OfGen(metas, Size));
      DeleteFileSum(levels, e.edit, OfGen(metas, Len));
    } else {
      NewFileSum(levels, e.edit, OfGen(metas, Size));
      NewFileSum(levels, e.edit, OfGen(metas, Len));
    }
  }

  ghost predicate HonestLog(levels: seq<Level>, log: seq<LoggedEdit>, metas: Metas)
    decreases log
  {
    log == [] || (Honest(levels, log[0], metas) && HonestLog(ApplyEdit(levels, log[0].edit), log[1..], metas))
  }

  lemma LogHead(log: seq<LoggedEdit>)
    requires log != []
    ensures EditsOf(log)[0] == log[0].edit && EditsOf(log)[1..] == EditsOf(log[1..])
    ensures Types(log) == [TypeOf(log[0])] + Types(log[1..])
  {
  }

  lemma {:induction false} LogFits(levels: seq<Level>, log: seq<LoggedEdit>, metas: Metas)
    requires HonestLog(levels, log, metas)
    ensures AllFit(levels, EditsOf(log))
    decreases log
  {
    if log != [] {
      LogHead(log);
      LogFits(ApplyEdit(levels, log[0].edit), log[1..], metas);
    }
  }

  lemma SumCons(log: seq<LoggedEdit>, c: TableMeta -> nat)
    requires log != []
    ensures Sum(Types(log), Added(c)) == Added(c)(TypeOf(log[0])) + Sum(Types(log[1..]), Added(c))
    ensures Sum(Types(log), Removed(c)) == Removed(c)(TypeOf(log[0])) + Sum(Types(log[1..]), Removed(c))
  {
    LogHead(log);
    var t := [TypeOf(log[0])];
    SumAppend(t, Types(log[1..]), Added(c));
    SumAppend(t, Types(log[1..]), Removed(c));
    assert t[..0] == [];
  }

  /** Over an honest log no counter runs below zero, and the counters end as the sums over the
      tables of all levels. */
  lemma {:induction false} LogStatistics(levels: seq<Level>, log: seq<LoggedEdit>, metas: Metas)
    requires AllOnce(levels) && HonestLog(levels, log, metas)
    ensures AllFit(levels, EditsOf(log)) && AllOnce(ApplyEdits(levels, EditsOf(log)))
    ensures Enough(MetaOfLevels(levels, metas), Types(log))
    ensures Processed(MetaOfLevels(levels, metas), Types(log)) == MetaOfLevels(ApplyEdits(levels, EditsOf(log)), metas)
    decreases log
  {
    hide AllOnce, MetaOfLevels, ApplyEdit;
    if log != [] {
      var next := ApplyEdit(levels, log[0].edit);
      LogFits(levels, log, metas);
      LogHead(log);
      EditKeepsOnce(levels, log[0], metas);
      EditStatistics(levels, log[0], metas);
      LogStatistics(next, log[1..], metas);
      SumCons(log, Size);
      SumCons(log, Len);
    }
  }

  lemma {:induction false} HonestLogSplit(levels: seq<Level>, a: seq<LoggedEdit>, b: seq<LoggedEdit>, metas: Metas)
    requires HonestLog(levels, a, metas) && HonestLog(ApplyLog(levels, a, metas), b, metas)
    ensures HonestLog(levels, a + b, metas) &&
            ApplyLog(levels, a + b, metas) == ApplyLog(ApplyLog(levels, a, metas), b, metas)
    decreases a
  {
    hide ApplyEdit, MetaOfGens, MetaOfScopes, OnceEach, NoneShared, NoRepeats, HasGen;
    if a == [] {
      assert a + b == b;
    } else {
      var next := ApplyEdit(levels, a[0].edit);
      LogHead(a);
      LogHead(a + b);
      assert (a + b)[1..] == a[1..] + b;
      LogFits(levels, a, metas);
      HonestLogSplit(next, a[1..], b, metas);
      LogFits(levels, a + b, metas);
    }
  }

  function ApplyLog(levels: seq<Level>, log: seq<LoggedEdit>, ghost metas: Metas): seq<Level>
    requires HonestLog(levels, log, metas)
  {
    LogFits(levels, log, metas);
    ApplyEdits(levels, EditsOf(log))
  }

  /** One `apply` of two batches gives the levels and the counters of two applies. */
  lemma ReplayInOneApply(levels: seq<Level>, a: seq<LoggedEdit>, b: seq<LoggedEdit>, metas: Metas)
    requires AllOnce(levels) && HonestLog(levels, a, metas) && HonestLog(ApplyLog(levels, a, metas), b, metas)
    ensures HonestLog(levels, a + b, metas) &&
            ApplyLog(levels, a + b, metas) == ApplyLog(ApplyLog(levels, a, metas), b, metas)
    ensures var m := MetaOfLevels(levels, metas);
            && Enough(m, Types(a)) && Enough(Processed(m, Types(a)), Types(b)) && Enough(m, Types(a + b))
            && Processed(m, Types(a + b)) == Processed(Processed(m, Types(a)), Types(b))
  {
    hide AllOnce, MetaOfLevels, Enough, Processed, HonestLog;
    LogStatistics(levels, a, metas);
    LogStatistics(ApplyLog(levels, a, metas), b, metas);
    HonestLogSplit(levels, a, b, metas);
    LogStatistics(levels, a + b, metas);
  }

  /** Processing a list in its own order; `None` if a counter would run below zero. */
  function InOrder(m: TableMeta, ts: seq<EditType>): Option<TableMeta>
    decreases ts
  {
    if ts == [] then Some(m)
    else
      match ts[0]
      case Add(t) => InOrder(TableMeta(m.size + t.size, m.len + t.len), ts[1..])
      case Del(t) =>
        if t.size > m.size || t.len > m.len then None
        else InOrder(TableMeta(m.size - t.size, m.len - t.len), ts[1..])
  }

  lemma SumHead(ts: seq<EditType>, w: EditType -> nat)
    requires ts != []
    ensures Sum(ts, w) == w(ts[0]) + Sum(ts[1..], w)
  {
    assert ts == [ts[0]] + ts[1..] && [ts[0]][..0] == [];
    SumAppend([ts[0]], ts[1..], w);
  }

  /** Any order that succeeds ends where the totals say. */
  lemma {:induction false} InOrderTotals(m: TableMeta, ts: seq<EditType>)
    requires InOrder(m, ts).Some?
    ensures Enough(m, ts) && InOrder(m, ts) == Some(Processed(m, ts))
    decreases ts
  {
    hide Sum;
    if ts == [] {
      SumEmpty();
    } else {
      SumHead(ts, Added(Size));
      SumHead(ts, Removed(Size));
      SumHead(ts, Added(Len));
      SumHead(ts, Removed(Len));
      match ts[0]
      case Add(t) => InOrderTotals(TableMeta(m.size + t.size, m.len + t.len), ts[1..]);
      case Del(t) => InOrderTotals(TableMeta(m.size - t.size, m.len - t.len), ts[1..]);
    }
  }

  lemma SumEmpty()
    ensures forall w: EditType -> nat :: Sum([], w) == 0
  {
  }

  lemma {:induction false} InOrderAppend(m: TableMeta, a: seq<EditType>, b: seq<EditType>)
    requires InOrder(m, a).Some?
    ensures InOrder(m, a + b) == InOrder(InOrder(m, a).value, b)
    decreases a
  {
    if a == [] {
      assert a + b == b;
    } else {
      assert (a + b)[1..] == a[1..] + b;
      match a[0]
      case Add(t) => InOrderAppend(TableMeta(m.size + t.size, m.len + t.len), a[1..], b);
      case Del(t) => InOrderAppend(TableMeta(m.size - t.size, m.len - t.len), a[1..], b);
    }
  }

  lemma {:induction false} AddsSucceed(m: TableMeta, ts: seq<EditType>)
    requires forall i :: 0 <= i < |ts| ==> ts[i].Add?
    ensures InOrder(m, ts).Some?
    decreases ts
  {
    if ts != [] {
      AddsSucceed(TableMeta(m.size + ts[0].meta.size, m.len + ts[0].meta.len), ts[1..]);
    }
  }

  lemma {:induction false} RemovalsSucceed(m: TableMeta, ts: seq<EditType>)
    requires forall i :: 0 <= i < |ts| ==> ts[i].Del?
    requires Sum(ts, Removed(Size)) <= m.size && Sum(ts, Removed(Len)) <= m.len
    ensures InOrder(m, ts).Some?
    decreases ts
  {
    hide Sum;
    if ts != [] {
      SumHead(ts, Removed(Size));
      SumHead(ts, Removed(Len));
      RemovalsSucceed(TableMeta(m.size - ts[0].meta.size, m.len - ts[0].meta.len), ts[1..]);
    }
  }

  /** Sorted, the list succeeds exactly if the totals allow it, and so whenever any order does. */
  lemma SortedSucceeds(m: TableMeta, ts: seq<EditType>)
    ensures InOrder(m, SortTypes(ts)).Some? <==> Enough(m, ts)
    ensures InOrder(m, ts).Some? ==> InOrder(m, SortTypes(ts)) == InOrder(m, ts)
  {
    hide Sum, InOrder, Only;
    SortTypesSum(ts, Size);
    SortTypesSum(ts, Len);
    if Enough(m, ts) {
      var a, b := Only(ts, true), Only(ts, false);
      AddsSucceed(m, a);
      InOrderAppend(m, a, b);
      InOrderTotals(m, a);
      OnlySum(ts, Size);
      OnlySum(ts, Len);
      SumZero(a, Removed(Size));
      SumZero(a, Removed(Len));
      RemovalsSucceed(InOrder(m, a).value, b);
    }
    if InOrder(m, SortTypes(ts)).Some? { InOrderTotals(m, SortTypes(ts)); }
    if InOrder(m, ts).Some? { InOrderTotals(m, ts); }
  }

  /** The log's own order may fail where the sorted one does not: a removal logged before the addition
      that covers it runs below zero. */
  lemma SortingMatters(x: TableMeta, y: TableMeta)
    requires 0 < x.size <= y.size && x.len <= y.len
    ensures InOrder(TableMeta(0, 0), [Del(x), Add(y)]) == None
    ensures SortTypes([Del(x), Add(y)]) == [Add(y), Del(x)]
    ensures InOrder(TableMeta(0, 0), SortTypes([Del(x), Add(y)])) == Some(TableMeta(y.size - x.size, y.len - x.len))
  {
    var ts := [Del(x), Add(y)];
    assert ts[..1] == [Del(x)] && ts[..1][..0] == [];
    assert Only(ts[..1], true) == [] && Only(ts[..1], false) == [Del(x)];
    assert [Add(y), Del(x)][1..] == [Del(x)] && [Del(x)][1..] == [];
    assert InOrder(y, [Del(x)]) == InOrder(TableMeta(y.size - x.size, y.len - x.len), []);
    assert InOrder(TableMeta(0, 0), [Add(y), Del(x)]) == InOrder(y, [Del(x)]);
  }

  // ---- versions ----

  /** Pushing sorted scopes one by one at the end. */
  method PushAll(level: Level, scopes: seq<Scope>) returns (r: Level)
    ensures r == level + scopes
  {
    r := level;
    for i := 0 to |scopes|
      invariant r == level + scopes[..i]
    {
      r := r + [scopes[i]];
    }
  }

  /** Inserting scopes at one index, the last one first. */
  method InsertAll(level: Level, index: nat, scopes: seq<Scope>) returns (r: Level)
    requires index <= |level|
    ensures r == level[..index] + scopes + level[index..]
  {
    r := level;
    for i := |scopes| downto 0
      invariant r == level[..index] + scopes[i..] + level[index..]
    {
      r := r[..index] + [scopes[i]] + r[index..];
    }
  }

  function DeletedGens(log: seq<LoggedEdit>): seq<int> {
    if log == [] then []
    else
      var last := log[|log| - 1].edit;
      DeletedGens(log[..|log| - 1]) + if last.DeleteFile? then last.gens else []
  }

  lemma DeletedGensStep(log: seq<LoggedEdit>, i: nat)
    requires i < |log|
    ensures DeletedGens(log[..i + 1]) ==
            DeletedGens(log[..i]) + if log[i].edit.DeleteFile? then log[i].edit.gens else []
  {
    assert log[..i + 1][..i] == log[..i];
  }

  lemma LogParts(log: seq<LoggedEdit>)
    ensures |Types(log)| == |log| && forall i :: 0 <= i < |log| ==> Types(log)[i] == TypeOf(log[i])
    ensures DeletedGens(log[..0]) == []
  {
  }

  lemma DeletedGensLast(log: seq<LoggedEdit>, n: nat)
    requires |log| == n + 1
    ensures DeletedGens(log) == DeletedGens(log[..n]) + if log[n].edit.DeleteFile? then log[n].edit.gens else []
  {
  }

  lemma {:induction false} DeletedGensHead(log: seq<LoggedEdit>)
    requires log != []
    ensures DeletedGens(log) == (if log[0].edit.DeleteFile? then log[0].edit.gens else []) + DeletedGens(log[1..])
  {
    if |log| == 1 {
      assert log[..0] == [] && log[1..] == [];
    } else {
      hide DeletedGens;
      var n, init, tail := |log| - 1, log[..|log| - 1], log[1..];
      DeletedGensHead(init);
      assert init[1..] == tail[..n - 1];
      DeletedGensLast(log, n);
      DeletedGensLast(tail, n - 1);
      assert init[0] == log[0] && tail[n - 1] == log[n];
    }
  }

  /** Some edit of the log takes a gen out of a level that has it. */
  ghost predicate RemovedBy(levels: seq<Level>, log: seq<LoggedEdit>, g: int)
    requires AllFit(levels, EditsOf(log))
    decreases log
  {
    log != [] &&
    (LogHead(log);
     var next := ApplyEdit(levels, log[0].edit);
     (exists l :: 0 <= l < |levels| && HasGen(levels[l], g) && !HasGen(next[l], g)) || RemovedBy(next, log[1..], g))
  }

  lemma {:induction false} RetainGens(level: Level, gens: seq<int>, g: int)
    ensures HasGen(Retain(level, gens), g) <==> HasGen(level, g) && g !in gens
  {
    if level != [] {
      var init, last := level[..|level| - 1], level[|level| - 1];
      RetainGens(init, gens, g);
      HasGenSnoc(init, last, g);
      HasGenSnoc(Retain(init, gens), last, g);
      assert level == init + [last] && Retain(init, gens) + [] == Retain(init, gens);
    }
  }

  lemma HasGenSnoc(init: Level, last: Scope, g: int)
    ensures HasGen(init + [last], g) <==> HasGen(init, g) || last.gen == g
  {
    var level := init + [last];
    if i :| 0 <= i < |init| && init[i].gen == g { assert level[i].gen == g; }
    assert level[|init|].gen == last.gen;
  }

  /** An edit takes out of a level exactly the gens it lists for deletion. */
  lemma EditRemoves(levels: seq<Level>, e: LoggedEdit, metas: Metas, g: int)
    requires Honest(levels, e, metas)
    ensures (exists l :: 0 <= l < |levels| && HasGen(levels[l], g) && !HasGen(ApplyEdit(levels, e.edit)[l], g)) <==>
            e.edit.DeleteFile? && g in e.edit.gens
  {
    var next, l := ApplyEdit(levels, e.edit), e.edit.level;
    match e.edit
    case DeleteFile(gens, _) => RetainGens(levels[l], gens, g);
    case NewFile(scopes, _, index) =>
      var level: Level, level': Level := levels[l], next[l];
      if i :| 0 <= i < |level| && level[i].gen == g {
        assert level'[if l == 0 || i < index then i else i + |SortByGen(scopes)|] == level[i];
      }
  }

  /** The gens a version announces as superseded are exactly those that some edit of its batch took out
      of a level. */
  lemma {:induction false} TagIsRemoved(levels: seq<Level>, log: seq<LoggedEdit>, metas: Metas, g: int)
    requires HonestLog(levels, log, metas)
    ensures AllFit(levels, EditsOf(log))
    ensures g in DeletedGens(log) <==> RemovedBy(levels, log, g)
    decreases log
  {
    hide Honest, ApplyEdit, HasGen, DeletedGens;
    LogFits(levels, log, metas);
    if log == [] {
      LogParts(log);
    } else {
      DeletedGensHead(log);
      LogHead(log);
      EditRemoves(levels, log[0], metas, g);
      TagIsRemoved(ApplyEdit(levels, log[0].edit), log[1..], metas, g);
    }
  }

  datatype CleanTag = AddTag(version: nat, gens: seq<int>)

  class Version {
    var versionNum: nat
    var levels: seq<Level>
    const meta: VersionMeta

    ghost function Meta(): TableMeta
      reads this, meta
    {
      TableMeta(meta.size, meta.len)
    }

    constructor (versionNum: nat, levels: seq<Level>, size: nat, len: nat)
      ensures fresh(meta) && this.versionNum == versionNum && this.levels == levels && Meta() == TableMeta(size, len)
    {
      this.versionNum, this.levels := versionNum, levels;
      meta := new VersionMeta(size, len);
    }

    method ApplyOne(e: Edit)
      requires Fits(levels, e)
      modifies this`levels
      ensures levels == ApplyEdit(old(levels), e)
    {
      match e {
        case DeleteFile(gens, l) =>
          levels := levels[l := Retain(levels[l], gens)];
        case NewFile(scopes, l, index) =>
          var level;
          if l == 0 {
            level := PushAll(levels[l], SortByGen(scopes));
          } else {
            level := InsertAll(levels[l], index, SortByGen(scopes));
          }
          levels := levels[l := level];
      }
    }

    /** `apply`: edits the levels, then the statistics, and announces the superseded gens. */
    method Apply(log: seq<LoggedEdit>) returns (ok: bool, tag: CleanTag)
      requires AllFit(levels, EditsOf(log))
      modifies this, meta
      ensures levels == ApplyEdits(old(levels), EditsOf(log))
      ensures ok <==> Enough(old(Meta()), Types(log))
      ensures ok ==> Meta() == Processed(old(Meta()), Types(log)) && versionNum == old(versionNum) + 1
      ensures tag == AddTag(old(versionNum) + 1, DeletedGens(log))
    {
      hide ApplyEdit, Enough, Processed, Sum, DeletedGens, Types, Fits;
      ghost var edits := EditsOf(log);
      LogParts(log);
      var gens, types, i := [], [], 0;
      assert edits[0..] == edits;
      while i < |log|
        invariant i <= |log| && types == Types(log)[..i] && gens == DeletedGens(log[..i])
        invariant AllFit(levels, edits[i..]) && ApplyEdits(levels, edits[i..]) == ApplyEdits(old(levels), edits)
        invariant Meta() == old(Meta()) && versionNum == old(versionNum)
      {
        assert edits[i..][0] == log[i].edit && edits[i..][1..] == edits[i + 1..];
        DeletedGensStep(log, i);
        types := types + [TypeOf(log[i])];
        ApplyOne(log[i].edit);
        gens := gens + if log[i].edit.DeleteFile? then log[i].edit.gens else [];
        i := i + 1;
      }
      assert log[..i] == log && types == Types(log) && edits[i..] == [];
      ok := meta.StatisticalProcess(types);
      tag := AddTag(versionNum + 1, gens);
      if ok {
        versionNum := versionNum + 1;
      }
    }
  }

  const EmptyLevels: seq<Level> := [[], [], [], []]

  lemma EmptyLevelsFacts(metas: Metas)
    ensures AllOnce(EmptyLevels) && MetaOfLevels(EmptyLevels, metas) == TableMeta(0, 0)
  {
    SumLevelsEmpty(EmptyLevels, OfGen(metas, Size));
    SumLevelsEmpty(EmptyLevels, OfGen(metas, Len));
  }

  lemma {:induction false} SumLevelsEmpty(levels: seq<Level>, w: int -> nat)
    requires forall i :: 0 <= i < |levels| ==> levels[i] == []
    ensures SumLevels(levels, w) == 0
  {
    if levels != [] {
      SumLevelsEmpty(levels[..|levels| - 1], w);
    }
  }

  /** `load_from_log`: the whole log in one `apply`. */
  method LoadFromLog(log: seq<LoggedEdit>, ghost metas: Metas) returns (v: Version, ok: bool)
    requires HonestLog(EmptyLevels, log, metas)
    ensures ok && fresh(v) && fresh(v.meta) && v.versionNum == 1
    ensures v.levels == ApplyLog(EmptyLevels, log, metas) && v.Meta() == MetaOfLevels(v.levels, metas)
  {
    EmptyLevelsFacts(metas);
    LogStatistics(EmptyLevels, log, metas);
    v := new Version(0, EmptyLevels, 0, 0);
    var tag;
    ok, tag := v.Apply(log);
  }

  function Flatten(batches: seq<seq<LoggedEdit>>): seq<LoggedEdit> {
    if batches == [] then [] else Flatten(batches[..|batches| - 1]) + batches[|batches| - 1]
  }

  class VersionStatus {
    var version: Version
    var log: seq<seq<LoggedEdit>>
    var tags: seq<CleanTag>

    /** The installed version is what its log replays to, with exact statistics. */
    ghost predicate Valid(metas: Metas)
      reads this, version, version.meta
    {
      && HonestLog(EmptyLevels, Flatten(log), metas) && version.levels == ApplyLog(EmptyLevels, Flatten(log), metas)
      && AllOnce(version.levels) && version.Meta() == MetaOfLevels(version.levels, metas)
    }

    constructor (ghost metas: Metas)
      ensures Valid(metas) && log == [] && fresh(version) && fresh(version.meta)
    {
      EmptyLevelsFacts(metas);
      var v, _ := LoadFromLog([], metas);
      version, log, tags := v, [], [];
    }

    /** `log_and_apply`: clones the version, logs the batch, applies it to the clone and installs
        it. Versions captured earlier do not change. */
    method LogAndApply(batch: seq<LoggedEdit>, ghost metas: Metas) returns (ok: bool)
      requires Valid(metas) && HonestLog(version.levels, batch, metas)
      modifies this
      ensures ok && Valid(metas) && fresh(version) && fresh(version.meta)
      ensures log == old(log) + [batch] && version.levels == ApplyLog(old(version.levels), batch, metas)
      ensures version.versionNum == old(version.versionNum) + 1
      ensures tags == old(tags) + [AddTag(version.versionNum, DeletedGens(batch))]
    {
      LogStatistics(version.levels, batch, metas);
      HonestLogSplit(EmptyLevels, Flatten(log), batch, metas);
      var clone := new Version(version.versionNum, version.levels, version.meta.size, version.meta.len);
      assert (log + [batch])[..|log|] == log;
      log := log + [batch];
      var tag;
      ok, tag := clone.Apply(batch);
      tags, version := tags + [tag], clone;
    }

    /** Replaying the whole log in one `apply` rebuilds the levels and counters that the batches
        gave one by one. */
    method Reload(ghost metas: Metas) returns (v: Version)
      requires Valid(metas)
      ensures v.levels == version.levels && v.Meta() == version.Meta()
    {
      var ok;
      v, ok := LoadFromLog(Flatten(log), metas);
    }
  }
}
