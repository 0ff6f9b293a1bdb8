/** The file cleaner: versions announce superseded tables when they are created and send a
    clean tag when their last reference goes; one FIFO channel carries both to the cleaner. */
module Cleaner {
  import opened Keys
  import Rows

  type Gen = int

  datatype Tag = Clean(version: nat) | Add(version: nat, gens: seq<Gen>)

  datatype Pending = Pending(version: nat, gens: seq<Gen>)

  /** `deleted` lists the files removed so far. */
  datatype Files = Files(pending: seq<Pending>, deleted: seq<Gen>)

  // ---- the cleaner itself ----

  function IndexOf(pending: seq<Pending>, v: nat): (r: Option<nat>)
    ensures r.Some? <==> exists i :: 0 <= i < |pending| && pending[i].version == v
    ensures r.Some? ==> r.value < |pending| && pending[r.value].version == v
                        && forall i :: 0 <= i < r.value ==> pending[i].version != v
  {
    if pending == [] then None
    else if pending[0].version == v then Some(0)
    else
      var rest := IndexOf(pending[1..], v);
      assert forall i :: 1 <= i < |pending| ==> pending[i] == pending[1..][i - 1];
      if rest.None? then None else Some(rest.value + 1)
  }

  /** Delete the entry's files if it is the oldest, else hand them to the entry before it. */
  function CleanVersion(f: Files, v: nat): Files {
    var at := IndexOf(f.pending, v);
    if at.None? then f
    else
      var i := at.value;
      var gens := f.pending[i].gens;
      if i == 0 then Files(f.pending[1..], f.deleted + gens)
      else
        var prev := f.pending[i - 1];
        Files(f.pending[..i - 1] + [Pending(prev.version, prev.gens + gens)] + f.pending[i + 1..], f.deleted)
  }

  function Deliver(f: Files, tag: Tag): Files {
    match tag
    case Clean(v) => CleanVersion(f, v)
    case Add(v, gens) => f.(pending := f.pending + [Pending(v, gens)])
  }

  function DeliverAll(f: Files, tags: seq<Tag>): Files {
    if tags == [] then f else Deliver(DeliverAll(f, tags[..|tags| - 1]), tags[|tags| - 1])
  }

  function CleanAll(f: Files, versions: seq<nat>): Files
    decreases versions
  {
    if versions == [] then f else CleanAll(CleanVersion(f, versions[0]), versions[1..])
  }

  function VersionsOf(pending: seq<Pending>): seq<nat> {
    seq(|pending|, i requires 0 <= i < |pending| => pending[i].version)
  }

  /** What `listen` does with the tags of a channel that is then closed. */
  function Listened(f: Files, tags: seq<Tag>): Files {
    var g := DeliverAll(f, tags);
    CleanAll(g, VersionsOf(g.pending))
  }

  class Cleaner {
    var delGens: seq<Pending>
    var deleted: seq<Gen>

    constructor ()
      ensures State() == Files([], [])
    {
      delGens, deleted := [], [];
    }

    ghost function State(): Files
      reads this
    {
      Files(delGens, deleted)
    }

    method FindIndex(v: nat) returns (r: Option<nat>)
      ensures r == IndexOf(delGens, v)
    {
      var i := 0;
      while i < |delGens|
        invariant i <= |delGens|
        invariant forall j :: 0 <= j < i ==> delGens[j].version != v
      {
        if delGens[i].version == v {
          return Some(i);
        }
        i := i + 1;
      }
      return None;
    }

    method CleanVer(v: nat)
      modifies this
      ensures State() == CleanVersion(old(State()), v)
    {
      var at := FindIndex(v);
      if at.Some? {
        var i := at.value;
        var gens := delGens[i].gens;
        delGens := delGens[..i] + delGens[i + 1..];
        if i == 0 {
          deleted := deleted + gens;
        } else {
          var prev := delGens[i - 1];
          delGens := delGens[i - 1 := Pending(prev.version, prev.gens + gens)];
          assert delGens == old(delGens)[..i - 1] + [Pending(prev.version, prev.gens + gens)] + old(delGens)[i + 1..];
        }
      }
    }

    /** Receives every tag in order; when the channel is closed, cleans what is still pending. */
    method Listen(tags: seq<Tag>)
      modifies this
      ensures State() == Listened(old(State()), tags)
    {
      var n := 0;
      while n < |tags|
        invariant n <= |tags| && State() == DeliverAll(old(State()), tags[..n])
      {
        assert tags[..n + 1][..n] == tags[..n];
        match tags[n] {
          case Clean(v) => CleanVer(v);
          case Add(v, gens) => delGens := delGens + [Pending(v, gens)];
        }
        n := n + 1;
      }
      assert tags[..n] == tags;
      var all := VersionsOf(delGens);
      ghost var g := State();
      n := 0;
      while n < |all|
        invariant n <= |all| && CleanAll(g, all) == CleanAll(State(), all[n..])
      {
        CleanVer(all[n]);
        n := n + 1;
      }
    }
  }

  // ---- the protocol ----

  /** A version's table set and the number of references to it. */
  datatype VersionRef = VersionRef(levels: set<Gen>, refs: nat)

  /** Versions are numbered from 1. `open`: the store still holds the current version.
      The last four fields are history: gens ever used, gens announced as superseded,
      how many adds were delivered, and which clean tags were. */
  datatype System = System(
    current: nat, versions: map<nat, VersionRef>, open: bool, queue: seq<Tag>, files: Files,
    born: set<Gen>, sent: seq<Gen>, delivered: nat, received: seq<Gen>, cleaned: set<nat>)

  datatype Step =
    | Apply(del: seq<Gen>, new_: set<Gen>)
    | Capture
    | Release(v: nat)
    | Shutdown
    | DeliverTag
    | CloseChannel

  function SetOf(s: seq<Gen>): set<Gen> {
    set g | g in s
  }

  /** Dropping one reference; the last one sends the clean tag. */
  function Dropped(s: System, v: nat): System
    requires v in s.versions && s.versions[v].refs > 0
  {
    var r := s.versions[v];
    s.(versions := s.versions[v := r.(refs := r.refs - 1)],
       queue := if r.refs == 1 then s.queue + [Clean(v)] else s.queue)
  }

  function Applied(s: System, del: seq<Gen>, new_: set<Gen>): System
    requires s.current in s.versions
  {
    s.(current := s.current + 1,
       versions := s.versions[s.current + 1 := VersionRef(s.versions[s.current].levels - SetOf(del) + new_, 1)],
       queue := s.queue + [Add(s.current + 1, del)],
       born := s.born + new_, sent := s.sent + del)
  }

  function Delivered(s: System): System
    requires s.queue != []
  {
    var next := s.(queue := s.queue[1..], files := Deliver(s.files, s.queue[0]));
    match s.queue[0]
    case Add(_, gens) => next.(delivered := s.delivered + 1, received := s.received + gens)
    case Clean(v) => next.(cleaned := s.cleaned + {v})
  }

  /** References that readers, not the store, hold. */
  function ReaderRefs(s: System, v: nat): int
    requires v in s.versions
  {
    s.versions[v].refs - if s.open && v == s.current then 1 else 0
  }

  ghost predicate Next(s: System, s': System, step: Step) {
    s.current in s.versions &&
    match step
    case Apply(del, new_) =>
      // fresh gens come in; tables of the current version, each listed once, go out
      s.open && new_ !! s.born && SetOf(del) <= s.versions[s.current].levels && Rows.NoRepeats(del) &&
      s.versions[s.current].refs > 0 &&
      s' == Dropped(Applied(s, del, new_), s.current)
    case Capture =>
      s.open && s' ==
        s.(versions := s.versions[s.current := s.versions[s.current].(refs := s.versions[s.current].refs + 1)])
    case Release(v) =>
      v in s.versions && ReaderRefs(s, v) > 0 && s' == Dropped(s, v)
    case Shutdown =>
      s.open && s.versions[s.current].refs > 0 && s' == Dropped(s, s.current).(open := false)
    case DeliverTag =>
      s.queue != [] && s' == Delivered(s)
    case CloseChannel =>
      AllDropped(s) && s.queue == [] && s' == s.(files := CleanAll(s.files, VersionsOf(s.files.pending)))
  }

  ghost predicate AllDropped(s: System) {
    !s.open && forall v :: v in s.versions ==> s.versions[v].refs == 0
  }

  /** Loading the version log creates version 1 and announces what the replay deleted. */
  ghost predicate Init(s: System) {
    && s.current == 1 && s.open && s.files == Files([], []) && s.delivered == 0
    && s.cleaned == {} && s.received == []
    && Rows.NoRepeats(s.sent) && s.queue == [Add(1, s.sent)]
    && 1 in s.versions && s.versions.Keys == {1} && s.versions[1].refs == 1
    && s.versions[1].levels !! SetOf(s.sent) && s.born == s.versions[1].levels + SetOf(s.sent)
  }

  ghost predicate Run(run: seq<System>, steps: seq<Step>) {
    && |run| == |steps| + 1 && Init(run[0])
    && forall i {:trigger steps[i]} :: 0 <= i < |steps| ==> Next(run[i], run[i + 1], steps[i])
  }

  // ---- the invariant ----

  ghost predicate VersionsOk(s: System) {
    && 1 <= s.current && (forall v :: v in s.versions <==> 1 <= v <= s.current)
    && (forall v :: v in s.versions ==> s.versions[v].levels <= s.born)
    && (s.open ==> s.versions[s.current].refs > 0)
    && (forall g :: g in s.sent ==> g in s.born && g !in s.versions[s.current].levels)
    && Rows.NoRepeats(s.sent)
  }

  ghost predicate HasAdd(queue: seq<Tag>, v: nat) {
    exists i :: 0 <= i < |queue| && queue[i].Add? && queue[i].version == v
  }

  /** The channel holds the adds of the versions not yet delivered, in order. */
  ghost predicate AddsOk(queue: seq<Tag>, delivered: nat, current: nat) {
    && delivered <= current
    && (forall i :: 0 <= i < |queue| && queue[i].Add? ==> delivered < queue[i].version <= current)
    && (forall v :: delivered < v <= current ==> HasAdd(queue, v))
    && (forall i, j :: 0 <= i < j < |queue| && queue[i].Add? && queue[j].Add? ==> queue[i].version < queue[j].version)
  }

  /** It holds one clean tag for each version that is dropped and not cleaned, behind its add. */
  ghost predicate CleansOk(queue: seq<Tag>, due: set<nat>) {
    && (forall i :: 0 <= i < |queue| && queue[i].Clean? ==> queue[i].version in due)
    && (forall v :: v in due ==> Clean(v) in queue)
    && (forall i, j :: 0 <= i < j < |queue| && queue[i].Clean? ==> queue[i].version != queue[j].version)
  }

  /** Dropped versions whose clean tag has not been delivered. */
  ghost function Due(s: System): set<nat> {
    set v | v in s.versions && s.versions[v].refs == 0 && v !in s.cleaned
  }

  /** Pending entries are the delivered and not cleaned versions, oldest first. */
  ghost predicate PendingOk(pending: seq<Pending>, delivered: nat, cleaned: set<nat>) {
    && (forall v :: v in cleaned ==> 1 <= v <= delivered)
    && (forall i, j :: 0 <= i < j < |pending| ==> pending[i].version < pending[j].version)
    && (forall i :: 0 <= i < |pending| ==> 1 <= pending[i].version <= delivered && pending[i].version !in cleaned)
    && (forall v :: 1 <= v <= delivered && v !in cleaned ==> IsPending(pending, v))
  }

  ghost predicate IsPending(pending: seq<Pending>, v: nat) {
    exists i :: 0 <= i < |pending| && pending[i].version == v
  }

  /** No version after `bound` that is not yet cleaned uses the file. */
  ghost predicate UsedUpTo(s: System, g: Gen, bound: int) {
    forall n :: n in s.versions && n !in s.cleaned && g in s.versions[n].levels ==> n <= bound
  }

  ghost predicate Retired(s: System, gens: seq<Gen>, bound: int) {
    forall g :: g in gens ==> g in s.sent && UsedUpTo(s, g, bound)
  }

  /** An entry's files are used at most up to its version; deleted files not at all. */
  ghost predicate FilesOk(s: System) {
    && (forall p :: p in s.files.pending ==> Retired(s, p.gens, p.version))
    && Retired(s, s.files.deleted, 0)
    && (forall a :: a in s.queue && a.Add? ==> Retired(s, a.gens, a.version - 1))
  }

  function PendingGens(pending: seq<Pending>): seq<Gen> {
    if pending == [] then [] else pending[0].gens + PendingGens(pending[1..])
  }

  function QueuedGens(queue: seq<Tag>): seq<Gen> {
    if queue == [] then []
    else (if queue[0].Add? then queue[0].gens else []) + QueuedGens(queue[1..])
  }

  /** Nothing announced is lost or duplicated on its way through the cleaner. */
  ghost predicate Conserved(s: System) {
    && multiset(s.files.deleted) + multiset(PendingGens(s.files.pending)) == multiset(s.received)
    && s.received + QueuedGens(s.queue) == s.sent
  }

  ghost predicate Inv(s: System) {
    && VersionsOk(s) && AddsOk(s.queue, s.delivered, s.current) && CleansOk(s.queue, Due(s))
    && PendingOk(s.files.pending, s.delivered, s.cleaned) && FilesOk(s) && Conserved(s)
    && (forall v :: v in s.cleaned ==> v in s.versions && s.versions[v].refs == 0)
  }

  lemma {:induction false} PendingGensAppend(a: seq<Pending>, b: seq<Pending>)
    ensures PendingGens(a + b) == PendingGens(a) + PendingGens(b)
  {
    if a == [] {
      assert a + b == b;
    } else {
      assert (a + b)[1..] == a[1..] + b;
      PendingGensAppend(a[1..], b);
    }
  }

  lemma PendingGensOne(p: Pending)
    ensures PendingGens([p]) == p.gens
  {
  }

  lemma {:induction false} QueuedGensAppend(a: seq<Tag>, b: seq<Tag>)
    ensures QueuedGens(a + b) == QueuedGens(a) + QueuedGens(b)
  {
    if a == [] {
      assert a + b == b;
    } else {
      assert (a + b)[1..] == a[1..] + b;
      QueuedGensAppend(a[1..], b);
    }
  }

  lemma QueuedGensOne(t: Tag)
    ensures QueuedGens([t]) == if t.Add? then t.gens else []
  {
  }

  lemma JoinConserves(a: seq<Pending>, prev: Pending, cur: Pending, c: seq<Pending>)
    ensures multiset(PendingGens(a + [Pending(prev.version, prev.gens + cur.gens)] + c))
         == multiset(PendingGens(a + [prev] + [cur] + c))
  {
    var joined := Pending(prev.version, prev.gens + cur.gens);
    PendingGensAppend(a + [joined], c);
    PendingGensAppend(a, [joined]);
    PendingGensAppend(a + [prev] + [cur], c);
    PendingGensAppend(a + [prev], [cur]);
    PendingGensAppend(a, [prev]);
    PendingGensOne(joined);
    PendingGensOne(prev);
    PendingGensOne(cur);
    assert PendingGens(a) + (prev.gens + cur.gens) == PendingGens(a) + prev.gens + cur.gens;
  }

  lemma PendingGensHead(p: seq<Pending>)
    requires p != []
    ensures PendingGens(p) == p[0].gens + PendingGens(p[1..])
  {
  }

  /** Cleaning one version moves files, it neither drops nor repeats one. */
  lemma CleanConserves(f: Files, v: nat)
    ensures var g := CleanVersion(f, v);
            multiset(g.deleted) + multiset(PendingGens(g.pending))
            == multiset(f.deleted) + multiset(PendingGens(f.pending))
  {
    hide PendingGens;
    var at := IndexOf(f.pending, v);
    if at.Some? {
      var i := at.value;
      if i > 0 {
        JoinConserves(f.pending[..i - 1], f.pending[i - 1], f.pending[i], f.pending[i + 1..]);
        assert f.pending == f.pending[..i - 1] + [f.pending[i - 1]] + [f.pending[i]] + f.pending[i + 1..];
      } else {
        PendingGensHead(f.pending);
        assert f.pending[..0] + f.pending[1..] == f.pending[1..];
      }
    }
  }

  /** The sweep at the end deletes everything still pending, oldest first. */
  lemma {:induction false} SweepDeletesAll(f: Files)
    ensures CleanAll(f, VersionsOf(f.pending)) == Files([], f.deleted + PendingGens(f.pending))
    decreases |f.pending|
  {
    if f.pending != [] {
      var next := CleanVersion(f, f.pending[0].version);
      assert next == Files(f.pending[1..], f.deleted + f.pending[0].gens);
      assert VersionsOf(f.pending)[0] == f.pending[0].version;
      assert VersionsOf(f.pending)[1..] == VersionsOf(next.pending);
      SweepDeletesAll(next);
    } else {
      assert VersionsOf(f.pending) == [] && f.deleted + [] == f.deleted;
    }
  }

  /** A channel closed at any time leaves no file behind: everything announced has been deleted, once. */
  lemma {:induction false} ListenedConserves(f: Files, tags: seq<Tag>)
    ensures Listened(f, tags).pending == []
    ensures multiset(Listened(f, tags).deleted) ==
            multiset(f.deleted) + multiset(PendingGens(f.pending)) + multiset(QueuedGens(tags))
  {
    hide CleanAll, DeliverAll, PendingGens, QueuedGens;
    var g := DeliverAll(f, tags);
    SweepDeletesAll(g);
    DeliveredConserves(f, tags);
  }

  lemma {:induction false} DeliveredConserves(f: Files, tags: seq<Tag>)
    ensures var g := DeliverAll(f, tags);
            multiset(g.deleted) + multiset(PendingGens(g.pending)) ==
            multiset(f.deleted) + multiset(PendingGens(f.pending)) + multiset(QueuedGens(tags))
  {
    hide PendingGens, QueuedGens, CleanVersion;
    if tags == [] {
      NothingQueued();
    } else {
      var init, last := tags[..|tags| - 1], tags[|tags| - 1];
      var g := DeliverAll(f, init);
      DeliveredConserves(f, init);
      assert tags == init + [last];
      QueuedGensAppend(init, [last]);
      QueuedGensOne(last);
      match last
      case Clean(v) => CleanConserves(g, v);
      case Add(v, gens) =>
        PendingGensAppend(g.pending, [Pending(v, gens)]);
        PendingGensOne(Pending(v, gens));
        assert multiset(PendingGens(g.pending) + gens) == multiset(PendingGens(g.pending)) + multiset(gens);
        assert multiset(QueuedGens(init) + gens) == multiset(QueuedGens(init)) + multiset(gens);
        AddToBoth(multiset(g.deleted), multiset(PendingGens(g.pending)),
                  multiset(f.deleted) + multiset(PendingGens(f.pending)), multiset(QueuedGens(init)), multiset(gens));
    }
  }

  lemma AddToBoth(a: multiset<Gen>, b: multiset<Gen>, c: multiset<Gen>, d: multiset<Gen>, e: multiset<Gen>)
    requires a + b == c + d
    ensures a + (b + e) == c + (d + e)
  {
    assert a + (b + e) == a + b + e && c + (d + e) == c + d + e;
  }

  lemma NothingQueued()
    ensures QueuedGens([]) == []
  {
  }

  // ---- queue surgery ----

  lemma PushAdd(q: seq<Tag>, d: nat, c: nat, due: set<nat>, gens: seq<Gen>)
    requires AddsOk(q, d, c) && CleansOk(q, due) && c + 1 !in due
    ensures AddsOk(q + [Add(c + 1, gens)], d, c + 1) && CleansOk(q + [Add(c + 1, gens)], due)
  {
    var q' := q + [Add(c + 1, gens)];
    assert q'[|q|].Add?;
    forall v | d < v <= c + 1 ensures HasAdd(q', v) {
      if v <= c {
        assert HasAdd(q, v);
        var i :| 0 <= i < |q| && q[i].Add? && q[i].version == v;
        assert q'[i].version == v;
      }
    }
  }

  lemma PushClean(q: seq<Tag>, d: nat, c: nat, due: set<nat>, v: nat)
    requires AddsOk(q, d, c) && CleansOk(q, due) && v !in due
    ensures AddsOk(q + [Clean(v)], d, c) && CleansOk(q + [Clean(v)], due + {v})
  {
    var q' := q + [Clean(v)];
    assert q'[|q|] == Clean(v);
    forall w | d < w <= c ensures HasAdd(q', w) {
      assert HasAdd(q, w);
      var i :| 0 <= i < |q| && q[i].Add? && q[i].version == w;
      assert q'[i].version == w;
    }
  }

  /** A tag behind the first one is still there after the first one is taken. */
  lemma StillQueued(q: seq<Tag>, t: Tag)
    requires q != [] && t in q && t != q[0]
    ensures t in q[1..]
  {
    var i :| 0 <= i < |q| && q[i] == t;
    assert q[1..][i - 1] == t;
  }

  lemma StillAdded(q: seq<Tag>, v: nat)
    requires q != [] && HasAdd(q, v) && !(q[0].Add? && q[0].version == v)
    ensures HasAdd(q[1..], v)
  {
    var i :| 0 <= i < |q| && q[i].Add? && q[i].version == v;
    assert q[1..][i - 1].version == v;
  }

  lemma PopAdd(q: seq<Tag>, d: nat, c: nat, due: set<nat>)
    requires AddsOk(q, d, c) && CleansOk(q, due) && q != [] && q[0].Add?
    ensures q[0].version == d + 1 && AddsOk(q[1..], d + 1, c) && CleansOk(q[1..], due)
  {
    assert q[0].version == d + 1 by {
      assert HasAdd(q, d + 1);
      var n :| 0 <= n < |q| && q[n].Add? && q[n].version == d + 1;
    }
    hide HasAdd;
    forall v | d + 1 < v <= c ensures HasAdd(q[1..], v) {
      StillAdded(q, v);
    }
    forall v | v in due ensures Clean(v) in q[1..] {
      StillQueued(q, Clean(v));
    }
  }

  lemma PopClean(q: seq<Tag>, d: nat, c: nat, due: set<nat>)
    requires AddsOk(q, d, c) && CleansOk(q, due) && q != [] && q[0].Clean? && q[0].version <= c
    ensures q[0].version <= d && AddsOk(q[1..], d, c) && CleansOk(q[1..], due - {q[0].version})
  {
    assert !HasAdd(q, q[0].version);
    hide HasAdd;
    forall v | d < v <= c ensures HasAdd(q[1..], v) {
      StillAdded(q, v);
    }
    forall v | v in due && v != q[0].version ensures Clean(v) in q[1..] {
      StillQueued(q, Clean(v));
    }
  }

  // ---- pending surgery ----

  lemma AddPending(p: seq<Pending>, d: nat, cleaned: set<nat>, gens: seq<Gen>)
    requires PendingOk(p, d, cleaned)
    ensures PendingOk(p + [Pending(d + 1, gens)], d + 1, cleaned)
  {
    var q := p + [Pending(d + 1, gens)];
    assert q[|p|].version == d + 1;
    forall v | 1 <= v <= d + 1 && v !in cleaned ensures IsPending(q, v) {
      if v <= d {
        assert IsPending(p, v);
        var i :| 0 <= i < |p| && p[i].version == v;
        assert q[i].version == v;
      }
    }
  }

  lemma CleanShape(f: Files, v: nat)
    requires IsPending(f.pending, v)
    ensures var p, q, i := f.pending, CleanVersion(f, v).pending, IndexOf(f.pending, v).value;
            && |q| == |p| - 1
            && (forall j :: 0 <= j < |q| && j < i ==> q[j].version == p[j].version)
            && (forall j :: 0 <= j < |q| && i <= j ==> q[j].version == p[j + 1].version)
  {
  }

  lemma CleanPending(f: Files, d: nat, cleaned: set<nat>, v: nat)
    requires PendingOk(f.pending, d, cleaned) && IsPending(f.pending, v)
    ensures PendingOk(CleanVersion(f, v).pending, d, cleaned + {v})
  {
    var p, q, i := f.pending, CleanVersion(f, v).pending, IndexOf(f.pending, v).value;
    CleanShape(f, v);
    RemoveOk(p, q, i, d, cleaned);
  }

  /** `q` is `p` without its entry `i`, as far as versions go. */
  ghost predicate Removed(p: seq<Pending>, q: seq<Pending>, i: nat) {
    && i < |p| && |q| == |p| - 1
    && forall j {:trigger q[j]} :: 0 <= j < |q| ==> q[j].version == p[if j < i then j else j + 1].version
  }

  lemma RemoveOrder(p: seq<Pending>, q: seq<Pending>, i: nat, d: nat, cleaned: set<nat>)
    requires PendingOk(p, d, cleaned) && Removed(p, q, i)
    ensures forall a, b :: 0 <= a < b < |q| ==> q[a].version < q[b].version
    ensures forall a :: 0 <= a < |q| ==> q[a].version != p[i].version
  {
  }

  lemma RemoveHolds(p: seq<Pending>, q: seq<Pending>, i: nat, n: nat)
    requires Removed(p, q, i) && IsPending(p, n) && n != p[i].version
    ensures IsPending(q, n)
  {
    var j :| 0 <= j < |p| && p[j].version == n;
    assert q[if j < i then j else j - 1].version == n;
  }

  lemma RemoveOk(p: seq<Pending>, q: seq<Pending>, i: nat, d: nat, cleaned: set<nat>)
    requires PendingOk(p, d, cleaned) && Removed(p, q, i)
    ensures PendingOk(q, d, cleaned + {p[i].version})
  {
    hide IsPending;
    RemoveOrder(p, q, i, d, cleaned);
    forall a | 0 <= a < |q| ensures 1 <= q[a].version <= d && q[a].version !in cleaned {
      assert p[if a < i then a else a + 1].version == q[a].version;
    }
    forall n | 1 <= n <= d && n !in cleaned + {p[i].version} ensures IsPending(q, n) {
      RemoveHolds(p, q, i, n);
    }
  }

  /** A file of a cleaned version is used at most up to the entry before it. */
  lemma UsedUpToPrevious(s: System, v: nat, i: nat, g: Gen)
    requires PendingOk(s.files.pending, s.delivered, s.cleaned)
    requires forall n :: n in s.versions ==> n >= 1
    requires i < |s.files.pending| && s.files.pending[i].version == v && UsedUpTo(s, g, v)
    ensures UsedUpTo(s.(cleaned := s.cleaned + {v}), g, if i == 0 then 0 else s.files.pending[i - 1].version)
  {
  }

  lemma CleanFilesOk(s: System, v: nat)
    requires PendingOk(s.files.pending, s.delivered, s.cleaned) && FilesOk(s)
    requires (forall n :: n in s.versions ==> n >= 1) && IsPending(s.files.pending, v)
    ensures FilesOk(s.(files := CleanVersion(s.files, v), cleaned := s.cleaned + {v}))
  {
    var p, i := s.files.pending, IndexOf(s.files.pending, v).value;
    var s' := s.(files := CleanVersion(s.files, v), cleaned := s.cleaned + {v});
    var bound := if i == 0 then 0 else p[i - 1].version;
    forall g, b | UsedUpTo(s, g, b) ensures UsedUpTo(s', g, b) {
    }
    assert Retired(s', p[i].gens, bound) by {
      assert p[i] in p;
      forall g | g in p[i].gens ensures g in s'.sent && UsedUpTo(s', g, bound) {
        UsedUpToPrevious(s, v, i, g);
        assert UsedUpTo(s.(cleaned := s.cleaned + {v}), g, bound);
      }
    }
    forall e | e in s'.files.pending ensures Retired(s', e.gens, e.version) {
      if i > 0 && e !in p {
        assert p[i - 1] in p;
        assert e == Pending(p[i - 1].version, p[i - 1].gens + p[i].gens);
      }
    }
  }

  // ---- every step keeps the invariant ----

  lemma InitInv(s: System)
    requires Init(s)
    ensures Inv(s)
  {
    assert s.queue[0].Add?;
    QueuedGensOne(s.queue[0]);
    assert s.received + QueuedGens(s.queue) == s.sent;
    assert HasAdd(s.queue, 1);
    assert Due(s) == {};
    assert forall g :: g in s.sent ==> g in SetOf(s.sent);
  }

  lemma AppliedVersions(s: System, del: seq<Gen>, new_: set<Gen>)
    requires VersionsOk(s)
    requires new_ !! s.born && SetOf(del) <= s.versions[s.current].levels && Rows.NoRepeats(del)
    ensures VersionsOk(Applied(s, del, new_))
  {
    var s' := Applied(s, del, new_);
    assert forall g :: g in del ==> g in SetOf(del);
    forall i, j | 0 <= i < j < |s'.sent| ensures s'.sent[i] != s'.sent[j] {
      assert i < |s.sent| ==> s.sent[i] in s.sent;
      assert j >= |s.sent| ==> s'.sent[j] in del;
    }
  }

  lemma AppliedFiles(s: System, del: seq<Gen>, new_: set<Gen>)
    requires VersionsOk(s) && FilesOk(s)
    requires new_ !! s.born && SetOf(del) <= s.versions[s.current].levels
    ensures FilesOk(Applied(s, del, new_))
  {
  }

  lemma AppliedDue(s: System, del: seq<Gen>, new_: set<Gen>)
    requires VersionsOk(s)
    ensures s.current + 1 !in Due(s) && Due(Applied(s, del, new_)) == Due(s)
  {
  }

  lemma AppliedConserves(s: System, del: seq<Gen>, new_: set<Gen>)
    requires s.current in s.versions && Conserved(s)
    ensures Conserved(Applied(s, del, new_))
  {
    hide QueuedGens, PendingGens, SetOf;
    QueuedGensAppend(s.queue, [Add(s.current + 1, del)]);
    QueuedGensOne(Add(s.current + 1, del));
    assert s.received + (QueuedGens(s.queue) + del) == (s.received + QueuedGens(s.queue)) + del;
  }

  lemma AppliedQueue(s: System, del: seq<Gen>, new_: set<Gen>)
    requires VersionsOk(s) && AddsOk(s.queue, s.delivered, s.current) && CleansOk(s.queue, Due(s))
    ensures var s' := Applied(s, del, new_);
            AddsOk(s'.queue, s'.delivered, s'.current) && CleansOk(s'.queue, Due(s'))
  {
    AppliedDue(s, del, new_);
    hide AddsOk, CleansOk, Due, SetOf, Rows.NoRepeats;
    PushAdd(s.queue, s.delivered, s.current, Due(s), del);
  }

  lemma AppliedInv(s: System, del: seq<Gen>, new_: set<Gen>)
    requires Inv(s)
    requires new_ !! s.born && SetOf(del) <= s.versions[s.current].levels && Rows.NoRepeats(del)
    ensures Inv(Applied(s, del, new_))
  {
    var s' := Applied(s, del, new_);
    AppliedVersions(s, del, new_);
    AppliedFiles(s, del, new_);
    AppliedQueue(s, del, new_);
    AppliedConserves(s, del, new_);
  }

  lemma SameLevelsFiles(s: System, s': System)
    requires FilesOk(s) && s'.sent == s.sent && s'.cleaned == s.cleaned && s'.files == s.files
    requires s'.versions.Keys == s.versions.Keys
    requires forall v :: v in s.versions ==> s'.versions[v].levels == s.versions[v].levels
    requires forall a :: a in s'.queue && a.Add? ==> a in s.queue
    ensures FilesOk(s')
  {
  }

  lemma DroppedInv(s: System, v: nat)
    requires Inv(s) && v in s.versions && s.versions[v].refs > 0
    requires s.open && v == s.current ==> s.versions[v].refs > 1
    ensures Inv(Dropped(s, v))
  {
    hide FilesOk, PendingOk, AddsOk, CleansOk, QueuedGens, PendingGens;
    var s' := Dropped(s, v);
    assert s'.versions.Keys == s.versions.Keys;
    SameLevelsFiles(s, s');
    if s.versions[v].refs == 1 {
      PushClean(s.queue, s.delivered, s.current, Due(s), v);
      assert Due(s') == Due(s) + {v};
      QueuedGensAppend(s.queue, [Clean(v)]);
      QueuedGensOne(Clean(v));
      assert QueuedGens(s'.queue) == QueuedGens(s.queue);
    } else {
      assert Due(s') == Due(s);
    }
  }

  lemma CaptureInv(s: System, s': System)
    requires Inv(s) && Next(s, s', Capture)
    ensures Inv(s')
  {
    assert s'.versions.Keys == s.versions.Keys;
    SameLevelsFiles(s, s');
    assert Due(s') == Due(s);
  }

  lemma ShutdownInv(s: System)
    requires Inv(s) && s.open
    ensures Inv(Dropped(s, s.current).(open := false))
  {
    var closed := s.(open := false);
    SameLevelsFiles(s, closed);
    assert Due(closed) == Due(s);
    assert Inv(closed);
    DroppedInv(closed, s.current);
    assert Dropped(closed, s.current) == Dropped(s, s.current).(open := false);
  }

  lemma DeliverAddConserves(s: System, s': System)
    requires Conserved(s) && s.queue != [] && s.queue[0].Add? && s' == Delivered(s)
    ensures Conserved(s')
  {
    var gens, p, rest := s.queue[0].gens, s.files.pending, QueuedGens(s.queue[1..]);
    var entry := Pending(s.queue[0].version, gens);
    assert PendingGens(s'.files.pending) == PendingGens(p) + gens by {
      PendingGensAppend(p, [entry]);
      PendingGensOne(entry);
    }
    assert s.received + (gens + rest) == (s.received + gens) + rest;
    assert QueuedGens(s.queue) == gens + rest;
  }

  lemma DeliverAddFiles(s: System, s': System)
    requires FilesOk(s) && s.queue != [] && s.queue[0].Add? && s' == Delivered(s)
    ensures FilesOk(s')
  {
  }

  lemma DeliverAddQueue(s: System, s': System)
    requires AddsOk(s.queue, s.delivered, s.current) && CleansOk(s.queue, Due(s))
    requires s.queue != [] && s.queue[0].Add? && s' == Delivered(s)
    ensures AddsOk(s'.queue, s'.delivered, s'.current) && CleansOk(s'.queue, Due(s'))
    ensures s.queue[0].version == s.delivered + 1
  {
    PopAdd(s.queue, s.delivered, s.current, Due(s));
    assert Due(s') == Due(s);
  }

  lemma DeliverAddPending(s: System, s': System)
    requires PendingOk(s.files.pending, s.delivered, s.cleaned)
    requires s.queue != [] && s.queue[0].Add? && s.queue[0].version == s.delivered + 1 && s' == Delivered(s)
    ensures PendingOk(s'.files.pending, s'.delivered, s'.cleaned)
  {
    AddPending(s.files.pending, s.delivered, s.cleaned, s.queue[0].gens);
  }

  lemma DeliverAddInv(s: System, s': System)
    requires Inv(s) && s.queue != [] && s.queue[0].Add? && s' == Delivered(s)
    ensures Inv(s')
  {
    DeliverAddQueue(s, s');
    DeliverAddPending(s, s');
    DeliverAddFiles(s, s');
    DeliverAddConserves(s, s');
  }

  lemma QueuedClean(q: seq<Tag>)
    requires q != [] && q[0].Clean?
    ensures QueuedGens(q) == QueuedGens(q[1..])
  {
  }

  lemma DeliverCleanFiles(s: System, s': System, v: nat)
    requires FilesOk(s) && Conserved(s) && s.queue != [] && s.queue[0] == Clean(v) && s' == Delivered(s)
    requires PendingOk(s.files.pending, s.delivered, s.cleaned)
    requires (forall n :: n in s.versions ==> n >= 1) && IsPending(s.files.pending, v)
    ensures FilesOk(s') && Conserved(s')
  {
    hide FilesOk, PendingOk, IsPending, QueuedGens, PendingGens, CleanVersion;
    CleanFilesOk(s, v);
    SameLevelsFiles(s.(files := CleanVersion(s.files, v), cleaned := s.cleaned + {v}), s');
    CleanConserves(s.files, v);
    QueuedClean(s.queue);
  }

  lemma DeliverCleanInv(s: System, s': System)
    requires Inv(s) && s.queue != [] && s.queue[0].Clean? && s' == Delivered(s)
    ensures Inv(s')
  {
    hide FilesOk, Conserved, CleanVersion, IsPending, QueuedGens, PendingGens;
    var v := s.queue[0].version;
    assert v in Due(s);
    PopClean(s.queue, s.delivered, s.current, Due(s));
    assert Due(s') == Due(s) - {v};
    assert IsPending(s.files.pending, v);
    CleanPending(s.files, s.delivered, s.cleaned, v);
    DeliverCleanFiles(s, s', v);
  }

  /** Once everything is dropped and delivered, nothing is pending: the final sweep is empty. */
  lemma NothingLeft(s: System)
    requires Inv(s) && AllDropped(s) && s.queue == []
    ensures s.files.pending == [] && s.received == s.sent
  {
    assert !HasAdd(s.queue, s.current);
    assert forall v :: v in Due(s) ==> Clean(v) in s.queue;
    assert Due(s) == {};
    assert forall i :: 0 <= i < |s.files.pending| ==> s.files.pending[i].version in Due(s);
    assert QueuedGens(s.queue) == [];
  }

  lemma NextInv(s: System, s': System, step: Step)
    requires Inv(s) && Next(s, s', step)
    ensures Inv(s')
  {
    match step
    case Apply(del, new_) =>
      AppliedInv(s, del, new_);
      DroppedInv(Applied(s, del, new_), s.current);
    case Capture => CaptureInv(s, s');
    case Release(v) => DroppedInv(s, v);
    case Shutdown => ShutdownInv(s);
    case DeliverTag =>
      if s.queue[0].Add? { DeliverAddInv(s, s'); } else { DeliverCleanInv(s, s'); }
    case CloseChannel =>
      NothingLeft(s);
      assert VersionsOf(s.files.pending) == [];
  }

  lemma {:induction false} RunInv(run: seq<System>, steps: seq<Step>, i: nat)
    requires Run(run, steps) && i < |run|
    ensures Inv(run[i])
  {
    if i == 0 {
      InitInv(run[0]);
    } else {
      RunInv(run, steps, i - 1);
      NextInv(run[i - 1], run[i], steps[i - 1]);
    }
  }

  // ---- main results ----

  /** No deleted file belongs to a version somebody can still read. */
  lemma CleanerSafety(run: seq<System>, steps: seq<Step>, i: nat, g: Gen, v: nat)
    requires Run(run, steps) && i < |run|
    requires g in run[i].files.deleted && v in run[i].versions && run[i].versions[v].refs > 0
    ensures g !in run[i].versions[v].levels
  {
    RunInv(run, steps, i);
  }

  /** Pending plus deleted files are always exactly those of the delivered adds. */
  lemma CleanerConservation(run: seq<System>, steps: seq<Step>, i: nat)
    requires Run(run, steps) && i < |run|
    ensures multiset(run[i].files.deleted) + multiset(PendingGens(run[i].files.pending)) == multiset(run[i].received)
    ensures run[i].received <= run[i].sent
  {
    RunInv(run, steps, i);
  }

  lemma {:induction false} DistinctCounts(s: seq<Gen>, g: Gen)
    requires Rows.NoRepeats(s)
    ensures multiset(s)[g] == if g in s then 1 else 0
  {
    if s != [] {
      var init, last := s[..|s| - 1], s[|s| - 1];
      assert s == init + [last];
      DistinctCounts(init, g);
    }
  }

  /** After every version is dropped and the channel is drained, each superseded file has
      been deleted exactly once and nothing else has. */
  lemma CleanerCompleteness(run: seq<System>, steps: seq<Step>, i: nat)
    requires Run(run, steps) && i < |run| && AllDropped(run[i]) && run[i].queue == []
    ensures run[i].files.pending == []
    ensures multiset(run[i].files.deleted) == multiset(run[i].sent)
    ensures forall g :: g in run[i].sent ==> multiset(run[i].files.deleted)[g] == 1
  {
    RunInv(run, steps, i);
    NothingLeft(run[i]);
    forall g | g in run[i].sent ensures multiset(run[i].files.deleted)[g] == 1 {
      DistinctCounts(run[i].sent, g);
    }
  }
}
