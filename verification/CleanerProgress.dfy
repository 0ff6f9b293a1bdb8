/** When the cleaner deletes: a superseded file goes as soon as every version that may use it is cleaned,
    and not before. */
module CleanerProgress {
  import opened Keys
  import Rows
  import opened Cleaner

  // ---- who holds a file ----

  /** The last version up to `v` whose clean tag has not been delivered, or 0. */
  function Holder(cleaned: set<nat>, v: nat): nat {
    if v == 0 || v !in cleaned then v else Holder(cleaned, v - 1)
  }

  ghost predicate AllCleaned(cleaned: set<nat>, v: nat) {
    forall u :: 1 <= u <= v ==> u in cleaned
  }

  lemma {:induction false} HolderIs(cleaned: set<nat>, v: nat)
    ensures var h := Holder(cleaned, v);
            && h <= v && (h > 0 ==> h !in cleaned) && (forall u :: h < u <= v ==> u in cleaned)
            && (h == 0 <==> AllCleaned(cleaned, v))
  {
    if v > 0 && v in cleaned {
      HolderIs(cleaned, v - 1);
    }
  }

  /** Cleaning a version moves what it holds to the one before it. */
  lemma {:induction false} HolderAfter(cleaned: set<nat>, c: nat, v: nat)
    requires c >= 1
    ensures Holder(cleaned + {c}, v) ==
            if Holder(cleaned, v) == c then Holder(cleaned, c - 1) else Holder(cleaned, v)
    decreases v
  {
    HolderIs(cleaned, v);
    if v > 0 {
      HolderIs(cleaned, v - 1);
      HolderAfter(cleaned, c, v - 1);
    }
  }

  /** A file announced by version `v` is with the holder of `v`, or deleted if there is none. */
  ghost predicate Located(f: Files, cleaned: set<nat>, v: nat, g: Gen) {
    var h := Holder(cleaned, v);
    if h == 0 then g in f.deleted
    else exists i :: 0 <= i < |f.pending| && f.pending[i].version == h && g in f.pending[i].gens
  }

  lemma AddLocated(f: Files, cleaned: set<nat>, p: Pending, v: nat, g: Gen)
    requires Located(f, cleaned, v, g) || (g in p.gens && p.version == v && v > 0 && v !in cleaned)
    ensures Located(f.(pending := f.pending + [p]), cleaned, v, g)
  {
    var q, h := f.pending + [p], Holder(cleaned, v);
    if h > 0 && Located(f, cleaned, v, g) {
      var i :| 0 <= i < |f.pending| && f.pending[i].version == h && g in f.pending[i].gens;
      assert q[i] == f.pending[i];
    } else {
      assert q[|f.pending|] == p;
    }
  }

  /** The entry before a version's entry is that version's predecessor among the uncleaned ones. */
  lemma EntryBefore(p: seq<Pending>, d: nat, cleaned: set<nat>, i: nat)
    requires PendingOk(p, d, cleaned) && i < |p|
    ensures p[i].version >= 1
    ensures Holder(cleaned, p[i].version - 1) == if i == 0 then 0 else p[i - 1].version
  {
    var c := p[i].version;
    var h := Holder(cleaned, c - 1);
    HolderIs(cleaned, c - 1);
    if h > 0 {
      assert IsPending(p, h);
      var j :| 0 <= j < |p| && p[j].version == h;
      assert j < i;
    }
    if i > 0 {
      assert p[i - 1].version < c;
    }
  }

  /** What cleaning does to the entries: the one of the version goes, its files to the entry before. */
  lemma CleanEntries(f: Files, v: nat, i: nat)
    requires IndexOf(f.pending, v) == Some(i)
    ensures i < |f.pending|
    ensures var p, g := f.pending, CleanVersion(f, v);
            && |g.pending| == |p| - 1 && (forall x :: x in f.deleted ==> x in g.deleted)
            && (i == 0 ==> forall x :: x in p[0].gens ==> x in g.deleted)
            && (i > 0 ==> g.pending[i - 1] == Pending(p[i - 1].version, p[i - 1].gens + p[i].gens))
            && (forall j :: 0 <= j < i - 1 ==> g.pending[j] == p[j])
            && (forall j :: i < j < |p| ==> g.pending[j - 1] == p[j])
  {
  }

  /** Where the files of an entry are after a cleaning. */
  lemma EntryMoves(f: Files, c: nat, i: nat, x: nat, g: Gen) returns (y: nat)
    requires IndexOf(f.pending, c) == Some(i) && x < |f.pending| && g in f.pending[x].gens && (x > 0 || i > 0)
    ensures var f' := CleanVersion(f, c);
            y < |f'.pending| && g in f'.pending[y].gens &&
            f'.pending[y].version == f.pending[if x == i then i - 1 else x].version
  {
    hide CleanVersion;
    CleanEntries(f, c, i);
    var p, p' := f.pending, CleanVersion(f, c).pending;
    if x > i {
      y := x - 1;
      assert p'[y] == p[x];
    } else if x == i || x == i - 1 {
      y := i - 1;
      assert g in p[i - 1].gens || g in p[i].gens;
      assert g in p'[y].gens;
    } else {
      y := x;
      assert p'[y] == p[x];
    }
  }

  lemma CleanLocated(f: Files, d: nat, cleaned: set<nat>, c: nat, v: nat, g: Gen)
    requires PendingOk(f.pending, d, cleaned) && IsPending(f.pending, c) && Located(f, cleaned, v, g)
    ensures Located(CleanVersion(f, c), cleaned + {c}, v, g)
  {
    hide CleanVersion, Holder;
    var i, p := IndexOf(f.pending, c).value, f.pending;
    CleanEntries(f, c, i);
    EntryBefore(p, d, cleaned, i);
    HolderAfter(cleaned, c, v);
    var h := Holder(cleaned, v);
    if h > 0 {
      var x :| 0 <= x < |p| && p[x].version == h && g in p[x].gens;
      assert h == c <==> x == i;
      if x > 0 || i > 0 {
        var y := EntryMoves(f, c, i, x, g);
      }
    }
  }

  // ---- announcements ----

  /** The gens each version announced, version 1 first. */
  ghost function Announced(run: seq<System>, steps: seq<Step>, i: nat): seq<seq<Gen>>
    requires i < |run| == |steps| + 1
  {
    if i == 0 then [run[0].sent]
    else Announced(run, steps, i - 1) + if steps[i - 1].Apply? then [steps[i - 1].del] else []
  }

  /** The queue carries what was announced. */
  ghost predicate QueueSays(queue: seq<Tag>, ann: seq<seq<Gen>>) {
    forall j :: 0 <= j < |queue| && queue[j].Add? ==>
      1 <= queue[j].version <= |ann| && queue[j].gens == ann[queue[j].version - 1]
  }

  ghost predicate AllLocated(s: System, ann: seq<seq<Gen>>) {
    forall u, g :: 0 <= u < s.delivered && u < |ann| && g in ann[u] ==> Located(s.files, s.cleaned, u + 1, g)
  }

  ghost predicate AnnouncedOk(s: System, ann: seq<seq<Gen>>) {
    |ann| == s.current && s.delivered <= s.current && QueueSays(s.queue, ann) && AllLocated(s, ann)
  }

  lemma InvParts(s: System)
    requires Inv(s)
    ensures VersionsOk(s) && AddsOk(s.queue, s.delivered, s.current) && CleansOk(s.queue, Due(s))
    ensures PendingOk(s.files.pending, s.delivered, s.cleaned) && s.delivered <= s.current
    ensures Conserved(s) && Rows.NoRepeats(s.sent)
  {
  }

  lemma AddStep(s: System, s': System, ann: seq<seq<Gen>>)
    requires Inv(s) && AnnouncedOk(s, ann) && s.queue != [] && s.queue[0].Add? && s' == Delivered(s)
    ensures AnnouncedOk(s', ann)
  {
    hide Inv, Located, AddsOk, CleansOk, PendingOk, VersionsOk, Conserved, Due;
    InvParts(s);
    DeliverAddQueue(s, s');
    var p, d := Pending(s.queue[0].version, s.queue[0].gens), s.delivered;
    assert d + 1 !in s.cleaned by { CleanedBelow(s.files.pending, d, s.cleaned); }
    forall u, g | 0 <= u < d + 1 && u < |ann| && g in ann[u] ensures Located(s'.files, s'.cleaned, u + 1, g) {
      AddLocated(s.files, s.cleaned, p, u + 1, g);
    }
    AddsBelow(s'.queue, s'.delivered, s'.current);
  }

  lemma CleanedBelow(pending: seq<Pending>, d: nat, cleaned: set<nat>)
    requires PendingOk(pending, d, cleaned)
    ensures forall v :: v in cleaned ==> 1 <= v <= d
  {
  }

  lemma AddsBelow(queue: seq<Tag>, d: nat, c: nat)
    requires AddsOk(queue, d, c)
    ensures d <= c
  {
  }

  lemma CleanDue(s: System)
    requires Inv(s) && s.queue != [] && s.queue[0].Clean?
    ensures IsPending(s.files.pending, s.queue[0].version)
  {
    var v := s.queue[0].version;
    assert v in Due(s);
    PopClean(s.queue, s.delivered, s.current, Due(s));
  }

  lemma CleanStep(s: System, s': System, ann: seq<seq<Gen>>)
    requires Inv(s) && AnnouncedOk(s, ann) && s.queue != [] && s.queue[0].Clean? && s' == Delivered(s)
    ensures AnnouncedOk(s', ann)
  {
    hide Inv, Located, AddsOk, CleansOk, PendingOk, VersionsOk, Conserved, CleanVersion, IsPending;
    InvParts(s);
    CleanDue(s);
    forall u, g | 0 <= u < s.delivered && u < |ann| && g in ann[u] ensures Located(s'.files, s'.cleaned, u + 1, g) {
      CleanLocated(s.files, s.delivered, s.cleaned, s.queue[0].version, u + 1, g);
    }
  }

  lemma AnnouncedStep(s: System, s': System, step: Step, ann: seq<seq<Gen>>)
    requires Inv(s) && AnnouncedOk(s, ann) && Next(s, s', step)
    ensures AnnouncedOk(s', ann + if step.Apply? then [step.del] else [])
  {
    hide Inv, Located, SetOf;
    match step
    case DeliverTag =>
      assert ann + [] == ann;
      if s.queue[0].Add? { AddStep(s, s', ann); } else { CleanStep(s, s', ann); }
    case CloseChannel =>
      assert ann + [] == ann;
      NothingLeft(s);
    case _ =>
  }

  lemma {:induction false} AnnouncedInv(run: seq<System>, steps: seq<Step>, i: nat)
    requires Run(run, steps) && i < |run|
    ensures AnnouncedOk(run[i], Announced(run, steps, i))
  {
    hide Inv, Next;
    if i > 0 {
      hide AnnouncedOk, Init;
      AnnouncedInv(run, steps, i - 1);
      RunInv(run, steps, i - 1);
      AnnouncedStep(run[i - 1], run[i], steps[i - 1], Announced(run, steps, i - 1));
    }
  }

  // ---- main results ----

  lemma {:induction false} PendingMember(p: seq<Pending>, g: Gen)
    ensures g in PendingGens(p) <==> exists i :: 0 <= i < |p| && g in p[i].gens
  {
    if p != [] {
      PendingMember(p[1..], g);
      assert forall i :: 1 <= i < |p| ==> p[i] == p[1..][i - 1];
      if g in PendingGens(p[1..]) {
        var i :| 0 <= i < |p[1..]| && g in p[1..][i].gens;
        assert g in p[i + 1].gens;
      }
    }
  }

  /** No file is both pending and deleted. */
  lemma NotBoth(s: System, g: Gen)
    requires Inv(s)
    ensures !(g in s.files.deleted && g in PendingGens(s.files.pending))
  {
    hide Inv, VersionsOk, AddsOk, CleansOk, PendingOk, PendingGens, QueuedGens;
    InvParts(s);
    assert Rows.NoRepeats(s.received) by {
      forall i, j | 0 <= i < j < |s.received| ensures s.received[i] != s.received[j] {
        assert s.sent[i] == s.received[i] && s.sent[j] == s.received[j];
      }
    }
    DistinctCounts(s.received, g);
    var d, p := multiset(s.files.deleted), multiset(PendingGens(s.files.pending));
    assert (d + p)[g] == d[g] + p[g];
  }

  /** In every state of every run: a file announced by the delivered add of version `v` is deleted exactly
      if the clean tags of all versions up to `v` have been delivered, and pending otherwise. */
  lemma DeletedIff(run: seq<System>, steps: seq<Step>, i: nat, v: nat, g: Gen)
    requires Run(run, steps) && i < |run| && 1 <= v <= run[i].delivered
    ensures v <= |Announced(run, steps, i)|
    ensures g in Announced(run, steps, i)[v - 1] ==>
              && (g in run[i].files.deleted <==> AllCleaned(run[i].cleaned, v))
              && (g in PendingGens(run[i].files.pending) <==> !AllCleaned(run[i].cleaned, v))
  {
    hide Inv, Init, Next, PendingGens, Holder, Announced, AllCleaned;
    var s, ann := run[i], Announced(run, steps, i);
    RunInv(run, steps, i);
    AnnouncedInv(run, steps, i);
    if g in ann[v - 1] {
      assert Located(s.files, s.cleaned, (v - 1) + 1, g);
      HolderIs(s.cleaned, v);
      NotBoth(s, g);
      PendingMember(s.files.pending, g);
    }
  }

  lemma DrainedCleaned(s: System, v: nat)
    requires Inv(s) && s.queue == [] && 1 <= v <= s.current
    ensures s.delivered == s.current && v in s.versions && (v in s.cleaned <==> s.versions[v].refs == 0)
  {
    assert !HasAdd(s.queue, s.current);
    assert Due(s) == {} by { assert forall u :: u in Due(s) ==> Clean(u) in s.queue; }
    assert v in s.versions;
    assert s.versions[v].refs == 0 && v !in s.cleaned ==> v in Due(s);
  }

  /** With the channel drained, so at any time in a running store: a superseded file is gone exactly if
      nobody holds the version that superseded it or an older one. */
  lemma DeletedWhenUnused(run: seq<System>, steps: seq<Step>, i: nat, v: nat, g: Gen)
    requires Run(run, steps) && i < |run| && run[i].queue == [] && 1 <= v <= run[i].current
    ensures v <= |Announced(run, steps, i)| && forall u :: 1 <= u <= v ==> u in run[i].versions
    ensures g in Announced(run, steps, i)[v - 1] ==>
              (g in run[i].files.deleted <==> forall u :: 1 <= u <= v ==> run[i].versions[u].refs == 0)
  {
    hide Inv, Init, Next, Announced;
    RunInv(run, steps, i);
    forall u | 1 <= u <= v
      ensures u in run[i].versions && (u in run[i].cleaned <==> run[i].versions[u].refs == 0)
    {
      DrainedCleaned(run[i], u);
    }
    DrainedCleaned(run[i], v);
    DeletedIff(run, steps, i, v, g);
  }

  // ---- references ----

  /** Readers that took version `v` and have not given it back, among the first `i` steps. */
  ghost function Readers(run: seq<System>, steps: seq<Step>, i: nat, v: nat): int
    requires i < |run| == |steps| + 1
  {
    if i == 0 then 0
    else
      Readers(run, steps, i - 1, v) +
      if steps[i - 1].Capture? && run[i - 1].current == v then 1
      else if steps[i - 1] == Release(v) then -1
      else 0
  }

  /** In every run the count of a version is its readers, and the store while the version is current. */
  lemma {:induction false} RefsAreReaders(run: seq<System>, steps: seq<Step>, i: nat, v: nat)
    requires Run(run, steps) && i < |run| && v in run[i].versions
    ensures Readers(run, steps, i, v) == ReaderRefs(run[i], v)
    ensures Readers(run, steps, i, v) >= 0
  {
    hide Inv;
    if i > 0 {
      var s, s', step := run[i - 1], run[i], steps[i - 1];
      RunInv(run, steps, i - 1);
      RefsStep(s, s', step, v);
      if v in s.versions {
        RefsAreReaders(run, steps, i - 1, v);
      } else {
        NotYetRead(run, steps, i - 1, v);
      }
    }
  }

  /** What a step does to a version's readers. */
  lemma RefsStep(s: System, s': System, step: Step, v: nat)
    requires Inv(s) && Next(s, s', step) && v in s'.versions
    ensures v in s.versions ==>
              ReaderRefs(s', v) == ReaderRefs(s, v) +
              if step.Capture? && s.current == v then 1 else if step == Release(v) then -1 else 0
    ensures v !in s.versions ==> step.Apply? && ReaderRefs(s', v) == 0
    ensures ReaderRefs(s', v) >= 0
  {
    hide AddsOk, CleansOk, PendingOk, FilesOk, Conserved, SetOf, Deliver, CleanAll;
  }

  lemma {:induction false} NotYetRead(run: seq<System>, steps: seq<Step>, i: nat, v: nat)
    requires Run(run, steps) && i < |run| && v !in run[i].versions
    ensures Readers(run, steps, i, v) == 0
  {
    hide Inv;
    if i > 0 {
      RunInv(run, steps, i - 1);
      VersionsStay(run[i - 1], run[i], steps[i - 1]);
      NotYetRead(run, steps, i - 1, v);
    }
  }

  lemma VersionsStay(s: System, s': System, step: Step)
    requires Next(s, s', step)
    ensures s.current in s.versions && forall v :: v in s.versions ==> v in s'.versions
  {
    hide SetOf, Deliver, CleanAll;
  }
}
