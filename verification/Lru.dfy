/** The block cache: a doubly linked list and a hash map that refine a recency-ordered list. */
module Lru {
  import opened Keys

  // ---- the specification: an association list, most recent first ----

  datatype Cached<K, V> = Cached(key: K, value: V)

  datatype Op<K, V> =
    | Put(key: K, value: V)
    | Get(key: K)
    | Remove(key: K)
    | GetOrInsert(key: K, loaded: Option<V>)

  function IndexOf<K(==), V>(list: seq<Cached<K, V>>, k: K): (i: int)
    ensures -1 <= i < |list|
  {
    if list == [] then -1
    else if list[0].key == k then 0
    else
      var i := IndexOf(list[1..], k);
      if i < 0 then -1 else i + 1
  }

  /** The first entry of the key, if there is one. */
  lemma {:induction false} IndexOfFirst<K, V>(list: seq<Cached<K, V>>, k: K)
    ensures var i := IndexOf(list, k);
            && (i >= 0 ==> list[i].key == k)
            && forall j :: 0 <= j < (if i >= 0 then i else |list|) ==> list[j].key != k
  {
    if list != [] {
      IndexOfFirst(list[1..], k);
    }
  }

  function Lookup<K(==), V>(list: seq<Cached<K, V>>, k: K): Option<V> {
    var i := IndexOf(list, k);
    if i < 0 then None else Some(list[i].value)
  }

  function Cut<T>(s: seq<T>, i: nat): (r: seq<T>)
    requires i < |s|
    ensures |r| == |s| - 1
  {
    s[..i] + s[i + 1..]
  }

  function Without<K(==), V>(list: seq<Cached<K, V>>, k: K): seq<Cached<K, V>> {
    var i := IndexOf(list, k);
    if i < 0 then list else Cut(list, i)
  }

  /** Makes room for one entry. */
  function Evict<T>(list: seq<T>, cap: nat): seq<T> {
    if list != [] && |list| >= cap then list[..|list| - 1] else list
  }

  function Insert<K(==), V>(list: seq<Cached<K, V>>, k: K, v: V, cap: nat): seq<Cached<K, V>> {
    [Cached(k, v)] + Evict(Without(list, k), cap)
  }

  function Touch<K(==), V>(list: seq<Cached<K, V>>, k: K): seq<Cached<K, V>> {
    var i := IndexOf(list, k);
    if i < 0 then list else [list[i]] + Cut(list, i)
  }

  function Step<K(==), V>(list: seq<Cached<K, V>>, op: Op<K, V>, cap: nat): seq<Cached<K, V>> {
    match op
    case Put(k, v) => Insert(list, k, v, cap)
    case Get(k) => Touch(list, k)
    case Remove(k) => Without(list, k)
    case GetOrInsert(k, loaded) =>
      if IndexOf(list, k) >= 0 then Touch(list, k)
      else if loaded.None? then list
      else Insert(list, k, loaded.value, cap)
  }

  // ---- laws of the specification ----

  ghost predicate KeysOnce<K, V>(list: seq<Cached<K, V>>) {
    forall i, j :: 0 <= i < j < |list| ==> list[i].key != list[j].key
  }

  function Run<K(==), V>(list: seq<Cached<K, V>>, ops: seq<Op<K, V>>, cap: nat): seq<Cached<K, V>>
    decreases ops
  {
    if ops == [] then list else Run(Step(list, ops[0], cap), ops[1..], cap)
  }

  ghost function Touched<K, V>(ops: seq<Op<K, V>>): set<K> {
    set i | 0 <= i < |ops| :: ops[i].key
  }

  lemma CutKeys<K, V>(list: seq<Cached<K, V>>, i: nat)
    requires KeysOnce(list) && i < |list|
    ensures KeysOnce(Cut(list, i)) && forall j :: 0 <= j < |list| - 1 ==> Cut(list, i)[j].key != list[i].key
  {
  }

  /** Keys stay unique and the size within the capacity. */
  lemma StepKeeps<K, V>(list: seq<Cached<K, V>>, op: Op<K, V>, cap: nat)
    requires KeysOnce(list) && 1 <= cap && |list| <= cap
    ensures KeysOnce(Step(list, op, cap)) && |Step(list, op, cap)| <= cap
  {
    IndexOfFirst(list, op.key);
    var i := IndexOf(list, op.key);
    if i >= 0 {
      CutKeys(list, i);
    }
  }

  lemma {:induction false} RunKeeps<K, V>(list: seq<Cached<K, V>>, ops: seq<Op<K, V>>, cap: nat)
    requires KeysOnce(list) && 1 <= cap && |list| <= cap
    ensures KeysOnce(Run(list, ops, cap)) && |Run(list, ops, cap)| <= cap
    decreases ops
  {
    if ops != [] {
      StepKeeps(list, ops[0], cap);
      RunKeeps(Step(list, ops[0], cap), ops[1..], cap);
    }
  }

  /** `k` is cached with `v`, behind keys of `recent` only. */
  ghost predicate Behind<K, V>(list: seq<Cached<K, V>>, k: K, v: V, recent: set<K>, i: nat) {
    i < |list| && list[i] == Cached(k, v) && forall j :: 0 <= j < i ==> list[j].key in recent
  }

  lemma {:induction false} PrefixCard<K, V>(list: seq<Cached<K, V>>, i: nat, s: set<K>)
    requires KeysOnce(list) && i <= |list| && forall j :: 0 <= j < i ==> list[j].key in s
    ensures i <= |s|
  {
    if i > 0 {
      PrefixCard(list, i - 1, s - {list[i - 1].key});
    }
  }

  lemma CutBehind<K, V>(list: seq<Cached<K, V>>, k: K, v: V, recent: set<K>, i: nat, c: nat) returns (i': nat)
    requires KeysOnce(list) && Behind(list, k, v, recent, i) && c < |list| && list[c].key != k
    ensures Behind(Cut(list, c), k, v, recent, i')
  {
    i' := if i < c then i else i - 1;
    var cut := Cut(list, c);
    assert cut[i'] == list[i];
    forall j | 0 <= j < i' ensures cut[j].key in recent {
      assert cut[j] == list[if j < c then j else j + 1];
    }
  }

  /** A new key in front pushes `k` back by one, and out only past `cap` recent keys. */
  lemma PushBehind<K, V>(list: seq<Cached<K, V>>, k: K, v: V, recent: set<K>, i: nat, q: K, w: V, cap: nat)
    requires KeysOnce(list) && Behind(list, k, v, recent, i) && q != k && k !in recent
    requires |list| <= cap && |recent + {q}| < cap && forall j :: 0 <= j < |list| ==> list[j].key != q
    ensures Behind([Cached(q, w)] + Evict(list, cap), k, v, recent + {q}, i + 1)
  {
    PrefixCard(list, i, recent + {q} - {q});
    var r := [Cached(q, w)] + Evict(list, cap);
    assert |recent + {q} - {q}| == |recent + {q}| - 1;
    assert r[i + 1] == list[i];
  }

  lemma WithoutBehind<K, V>(list: seq<Cached<K, V>>, k: K, v: V, recent: set<K>, i: nat, q: K) returns (i': nat)
    requires KeysOnce(list) && Behind(list, k, v, recent, i) && q != k
    ensures Behind(Without(list, q), k, v, recent, i') && KeysOnce(Without(list, q)) && |Without(list, q)| <= |list|
    ensures forall j :: 0 <= j < |Without(list, q)| ==> Without(list, q)[j].key != q
  {
    var c := IndexOf(list, q);
    IndexOfFirst(list, q);
    i' := i;
    if c >= 0 {
      i' := CutBehind(list, k, v, recent, i, c);
      CutKeys(list, c);
    }
  }

  lemma TouchIsInsert<K, V>(list: seq<Cached<K, V>>, q: K, cap: nat)
    requires |list| <= cap && IndexOf(list, q) >= 0
    ensures Touch(list, q) == Insert(list, q, list[IndexOf(list, q)].value, cap)
  {
    IndexOfFirst(list, q);
  }

  lemma InsertBehind<K, V>(list: seq<Cached<K, V>>, k: K, v: V, recent: set<K>, i: nat, q: K, w: V, cap: nat)
    returns (i': nat)
    requires KeysOnce(list) && |list| <= cap && Behind(list, k, v, recent, i) && q != k && k !in recent &&
             |recent + {q}| < cap
    ensures Behind(Insert(list, q, w, cap), k, v, recent + {q}, i')
  {
    hide Without, Evict, Behind, KeysOnce;
    var m := WithoutBehind(list, k, v, recent, i, q);
    PushBehind(Without(list, q), k, v, recent, m, q, w, cap);
    i' := m + 1;
  }

  lemma BehindMore<K, V>(list: seq<Cached<K, V>>, k: K, v: V, recent: set<K>, i: nat, q: K)
    requires Behind(list, k, v, recent, i)
    ensures Behind(list, k, v, recent + {q}, i)
  {
  }

  lemma StepBehind<K, V>(list: seq<Cached<K, V>>, k: K, v: V, recent: set<K>, i: nat, op: Op<K, V>, cap: nat)
    returns (i': nat)
    requires KeysOnce(list) && 1 <= cap && |list| <= cap && Behind(list, k, v, recent, i)
    requires op.key != k && k !in recent && |recent + {op.key}| < cap
    ensures Behind(Step(list, op, cap), k, v, recent + {op.key}, i')
  {
    hide Without, Insert, Behind, KeysOnce, IndexOf;
    var q, c := op.key, IndexOf(list, op.key);
    if c >= 0 && (op.Get? || op.GetOrInsert?) {
      TouchIsInsert(list, q, cap);
      i' := InsertBehind(list, k, v, recent, i, q, list[c].value, cap);
    } else if op.Put? || (op.GetOrInsert? && op.loaded.Some?) {
      i' := InsertBehind(list, k, v, recent, i, q, if op.Put? then op.value else op.loaded.value, cap);
    } else if op.Remove? {
      i' := WithoutBehind(list, k, v, recent, i, q);
      BehindMore(Without(list, q), k, v, recent, i', q);
    } else {
      i' := i;
      BehindMore(list, k, v, recent, i, q);
    }
  }

  lemma LookupAt<K, V>(list: seq<Cached<K, V>>, k: K, i: nat)
    requires KeysOnce(list) && i < |list| && list[i].key == k
    ensures IndexOf(list, k) == i && Lookup(list, k) == Some(list[i].value)
  {
    IndexOfFirst(list, k);
    var j := IndexOf(list, k);
    assert j >= 0 && list[j].key == list[i].key;
  }

  lemma LookupNone<K, V>(list: seq<Cached<K, V>>, k: K)
    ensures Lookup(list, k).None? <==> forall i :: 0 <= i < |list| ==> list[i].key != k
  {
    IndexOfFirst(list, k);
  }

  /** The operation uses its key with this value: it stores it or finds it. */
  ghost predicate Uses<K, V>(list: seq<Cached<K, V>>, op: Op<K, V>, v: V) {
    match op
    case Put(_, w) => w == v
    case Get(k) => Lookup(list, k) == Some(v)
    case Remove(_) => false
    case GetOrInsert(k, loaded) => Lookup(list, k) == Some(v) || (Lookup(list, k).None? && loaded == Some(v))
  }

  /** A used entry is the most recent one. */
  lemma UsedIsFront<K, V>(list: seq<Cached<K, V>>, op: Op<K, V>, v: V, cap: nat)
    requires Uses(list, op, v)
    ensures Step(list, op, cap) != [] && Step(list, op, cap)[0] == Cached(op.key, v)
  {
    IndexOfFirst(list, op.key);
  }

  /** Least recently used: after a key is stored or read, every run that touches fewer than `cap` other
      keys and not this one keeps it with its value. */
  lemma KeptAfterUse<K, V>(list: seq<Cached<K, V>>, op: Op<K, V>, v: V, ops: seq<Op<K, V>>, cap: nat)
    requires KeysOnce(list) && 1 <= cap && |list| <= cap && Uses(list, op, v)
    requires op.key !in Touched(ops) && |Touched(ops)| < cap
    ensures Lookup(Run(Step(list, op, cap), ops, cap), op.key) == Some(v)
  {
    hide Step, Run, Lookup, Uses, Touched;
    UsedIsFront(list, op, v, cap);
    StepKeeps(list, op, cap);
    var next := Step(list, op, cap);
    assert Behind(next, op.key, v, {}, 0);
    assert {} + Touched(ops) == Touched(ops);
    KeptWhileRecent(next, op.key, v, {}, 0, ops, cap);
  }

  /** The operation stores a key that is not cached. */
  ghost predicate Stores<K, V>(list: seq<Cached<K, V>>, op: Op<K, V>) {
    Lookup(list, op.key).None? && (op.Put? || (op.GetOrInsert? && op.loaded.Some?))
  }

  lemma LookupMember<K, V>(list: seq<Cached<K, V>>, k: K, v: V)
    requires KeysOnce(list)
    ensures Lookup(list, k) == Some(v) <==> Cached(k, v) in list
  {
    IndexOfFirst(list, k);
    if Cached(k, v) in list {
      var i :| 0 <= i < |list| && list[i] == Cached(k, v);
      LookupAt(list, k, i);
    }
  }

  lemma WithoutMembers<K, V>(list: seq<Cached<K, V>>, k: K, e: Cached<K, V>)
    requires KeysOnce(list)
    ensures e in Without(list, k) <==> e in list && e.key != k
  {
    hide Cut;
    IndexOfFirst(list, k);
    var i := IndexOf(list, k);
    if i >= 0 {
      CutKeys(list, i);
      if e in Cut(list, i) {
        var j :| 0 <= j < |Cut(list, i)| && Cut(list, i)[j] == e;
        CutAt(list, i, j);
      }
      if e in list && e.key != k {
        var j :| 0 <= j < |list| && list[j] == e;
        CutAt(list, i, if j < i then j else j - 1);
      }
    }
  }

  lemma EvictMembers<K, V>(list: seq<Cached<K, V>>, cap: nat, e: Cached<K, V>)
    requires KeysOnce(list)
    ensures e in Evict(list, cap) <==> e in list && !(0 < |list| && |list| >= cap && e == list[|list| - 1])
  {
    if list != [] {
      assert list == list[..|list| - 1] + [list[|list| - 1]];
    }
  }

  lemma TouchMembers<K, V>(list: seq<Cached<K, V>>, k: K, e: Cached<K, V>)
    ensures e in Touch(list, k) <==> e in list
  {
    var i := IndexOf(list, k);
    if i >= 0 {
      assert list == list[..i] + [list[i]] + list[i + 1..];
    }
  }

  /** Storing a new key in a full cache drops its last entry. */
  ghost predicate Drops<K, V>(list: seq<Cached<K, V>>, op: Op<K, V>, cap: nat, q: K) {
    0 < cap == |list| && Stores(list, op) && list[cap - 1].key == q
  }

  lemma InsertMembers<K, V>(list: seq<Cached<K, V>>, k: K, v: V, cap: nat, e: Cached<K, V>)
    requires KeysOnce(list) && 1 <= cap && |list| <= cap && e.key != k
    ensures e in Insert(list, k, v, cap) <==>
              e in list && !(Lookup(list, k).None? && |list| == cap && e == list[cap - 1])
  {
    hide Evict, KeysOnce;
    IndexOfFirst(list, k);
    WithoutMembers(list, k, e);
    var rest := Without(list, k);
    assert KeysOnce(rest) by { if IndexOf(list, k) >= 0 { CutKeys(list, IndexOf(list, k)); } }
    EvictMembers(rest, cap, e);
    assert e in [Cached(k, v)] + Evict(rest, cap) <==> e in Evict(rest, cap);
  }

  lemma StepMembers<K, V>(list: seq<Cached<K, V>>, op: Op<K, V>, cap: nat, e: Cached<K, V>)
    requires KeysOnce(list) && 1 <= cap && |list| <= cap && e.key != op.key
    ensures e in Step(list, op, cap) <==> e in list && !(Drops(list, op, cap, e.key) && e == list[cap - 1])
  {
    hide Insert, Touch, Without, KeysOnce;
    match op
    case Put(k, v) => InsertMembers(list, k, v, cap, e);
    case Get(k) => TouchMembers(list, k, e);
    case Remove(k) => WithoutMembers(list, k, e);
    case GetOrInsert(k, loaded) =>
      TouchMembers(list, k, e);
      if loaded.Some? { InsertMembers(list, k, loaded.value, cap, e); }
  }

  /** What an operation does to the other keys: nothing, except that storing a new key in a full cache
      drops the last entry. */
  lemma StepOthers<K, V>(list: seq<Cached<K, V>>, op: Op<K, V>, q: K, cap: nat)
    requires KeysOnce(list) && 1 <= cap && |list| <= cap && q != op.key
    ensures Lookup(Step(list, op, cap), q) == if Drops(list, op, cap, q) then None else Lookup(list, q)
  {
    hide Step, Lookup, Stores;
    StepKeeps(list, op, cap);
    forall v
      ensures Lookup(Step(list, op, cap), q) == Some(v) <==> Lookup(list, q) == Some(v) && !Drops(list, op, cap, q)
    {
      LookupMember(list, q, v);
      LookupMember(Step(list, op, cap), q, v);
      StepMembers(list, op, cap, Cached(q, v));
    }
    assert Lookup(list, q).Some? ==> Lookup(list, q) == Some(Lookup(list, q).value);
    var now := Lookup(Step(list, op, cap), q);
    assert now.Some? ==> now == Some(now.value);
  }

  /** What an operation does to its own key. */
  lemma StepOwn<K, V>(list: seq<Cached<K, V>>, op: Op<K, V>, cap: nat)
    requires KeysOnce(list) && 1 <= cap && |list| <= cap
    ensures Lookup(Step(list, op, cap), op.key) ==
            match op
            case Put(_, v) => Some(v)
            case Get(k) => Lookup(list, k)
            case Remove(_) => None
            case GetOrInsert(k, loaded) => if Lookup(list, k).Some? then Lookup(list, k) else loaded
  {
    StepKeeps(list, op, cap);
    LookupNone(list, op.key);
    LookupNone(Step(list, op, cap), op.key);
    IndexOfFirst(list, op.key);
    if op.Remove? && IndexOf(list, op.key) >= 0 {
      CutKeys(list, IndexOf(list, op.key));
    }
  }

  /** Least recently used: an entry survives every run that touches fewer than `cap` other keys. */
  lemma {:induction false} KeptWhileRecent<K, V>(list: seq<Cached<K, V>>, k: K, v: V, recent: set<K>, i: nat,
                                                 ops: seq<Op<K, V>>, cap: nat)
    requires KeysOnce(list) && 1 <= cap && |list| <= cap && Behind(list, k, v, recent, i)
    requires k !in recent && k !in Touched(ops) && |recent + Touched(ops)| < cap
    ensures Lookup(Run(list, ops, cap), k) == Some(v)
    decreases ops
  {
    if ops == [] {
      IndexOfFirst(list, k);
      var j := IndexOf(list, k);
      assert j >= 0 && list[j].key == list[i].key;
    } else {
      var q, rest := ops[0].key, ops[1..];
      assert q in Touched(ops) && Touched(rest) <= Touched(ops) by {
        forall x | x in Touched(rest) ensures x in Touched(ops) {
          var j :| 0 <= j < |rest| && rest[j].key == x;
          assert ops[j + 1].key == x;
        }
      }
      assert Touched(ops) == {q} + Touched(rest) by {
        forall x | x in Touched(ops) ensures x == q || x in Touched(rest) {
          var j :| 0 <= j < |ops| && ops[j].key == x;
          assert j > 0 ==> rest[j - 1].key == x;
        }
      }
      SmallerSet(recent + {q}, recent + Touched(ops));
      var i' := StepBehind(list, k, v, recent, i, ops[0], cap);
      StepKeeps(list, ops[0], cap);
      assert recent + {q} + Touched(rest) == recent + Touched(ops);
      KeptWhileRecent(Step(list, ops[0], cap), k, v, recent + {q}, i', rest, cap);
    }
  }

  lemma {:induction false} SmallerSet<T>(a: set<T>, b: set<T>)
    requires a <= b
    ensures |a| <= |b|
  {
    if x :| x in a {
      SmallerSet(a - {x}, b - {x});
    }
  }

  // ---- the linked list ----

  class Node<K, V> {
    const key: K
    const value: V
    var prev: Node?<K, V>
    var next: Node?<K, V>

    constructor (key: K, value: V)
      ensures this.key == key && this.value == value
    {
      this.key, this.value, prev, next := key, value, null, null;
    }
  }

  ghost function NodeAt<K, V>(nodes: seq<Node<K, V>>, i: int): Node?<K, V> {
    if 0 <= i < |nodes| then nodes[i] else null
  }

  ghost predicate DistinctNodes<K, V>(nodes: seq<Node<K, V>>) {
    forall i, j :: 0 <= i < j < |nodes| ==> nodes[i] != nodes[j]
  }

  ghost predicate Absent<K, V>(nodes: seq<Node<K, V>>, node: Node<K, V>) {
    forall i :: 0 <= i < |nodes| ==> nodes[i] != node
  }

  ghost function Entries<K, V>(nodes: seq<Node<K, V>>): (r: seq<Cached<K, V>>)
    ensures |r| == |nodes|
  {
    seq(|nodes|, i requires 0 <= i < |nodes| => Cached(nodes[i].key, nodes[i].value))
  }

  /** Map and list hold the same nodes, one per key. */
  ghost predicate Matching<K, V>(nodes: seq<Node<K, V>>, inner: map<K, Node<K, V>>) {
    && |inner| == |nodes|
    && (forall i :: 0 <= i < |nodes| ==> nodes[i].key in inner && inner[nodes[i].key] == nodes[i])
    && (forall k :: k in inner ==> inner[k].key == k && inner[k] in nodes)
  }

  lemma MatchingIndex<K, V>(nodes: seq<Node<K, V>>, inner: map<K, Node<K, V>>, k: K)
    requires Matching(nodes, inner)
    ensures var i := IndexOf(Entries(nodes), k);
            if k in inner then 0 <= i && nodes[i] == inner[k] else i == -1
  {
    IndexOfFirst(Entries(nodes), k);
    var i := IndexOf(Entries(nodes), k);
    if k in inner {
      var j :| 0 <= j < |nodes| && nodes[j] == inner[k];
      assert Entries(nodes)[j].key == k;
      assert inner[nodes[i].key] == nodes[i];
    }
    assert i >= 0 ==> nodes[i].key in inner;
  }

  lemma CutMembers<T>(s: seq<T>, i: nat, x: T)
    requires i < |s| && x in s && x != s[i]
    ensures x in Cut(s, i)
  {
  }

  lemma CutAt<T>(s: seq<T>, i: nat, j: nat)
    requires i < |s| && j < |s| - 1
    ensures Cut(s, i)[j] == s[if j < i then j else j + 1]
  {
  }

  lemma CutEntries<K, V>(nodes: seq<Node<K, V>>, i: nat)
    requires i < |nodes|
    ensures Entries(Cut(nodes, i)) == Cut(Entries(nodes), i)
  {
  }

  lemma CutInner<K, V>(inner: map<K, Node<K, V>>, k: K)
    requires k in inner
    ensures |inner - {k}| == |inner| - 1
  {
    assert inner.Keys == (inner - {k}).Keys + {k};
  }

  lemma MatchingCut<K, V>(nodes: seq<Node<K, V>>, inner: map<K, Node<K, V>>, i: nat)
    requires Matching(nodes, inner) && DistinctNodes(nodes) && i < |nodes|
    ensures Matching(Cut(nodes, i), inner - {nodes[i].key})
    ensures Entries(Cut(nodes, i)) == Cut(Entries(nodes), i)
  {
    hide Cut, Entries;
    var cut, rest := Cut(nodes, i), inner - {nodes[i].key};
    CutEntries(nodes, i);
    CutInner(inner, nodes[i].key);
    forall j | 0 <= j < |cut| ensures cut[j].key in rest && rest[cut[j].key] == cut[j] {
      CutAt(nodes, i, j);
    }
    forall k | k in rest ensures rest[k].key == k && rest[k] in cut {
      CutMembers(nodes, i, inner[k]);
    }
  }

  lemma MatchingCons<K, V>(nodes: seq<Node<K, V>>, inner: map<K, Node<K, V>>, node: Node<K, V>)
    requires Matching(nodes, inner) && node.key !in inner
    ensures Matching([node] + nodes, inner[node.key := node])
    ensures Entries([node] + nodes) == [Cached(node.key, node.value)] + Entries(nodes)
  {
  }

  lemma MatchingMoved<K, V>(nodes: seq<Node<K, V>>, inner: map<K, Node<K, V>>, i: nat)
    requires Matching(nodes, inner) && DistinctNodes(nodes) && i < |nodes|
    ensures Matching([nodes[i]] + Cut(nodes, i), inner)
    ensures Entries([nodes[i]] + Cut(nodes, i)) == [Entries(nodes)[i]] + Cut(Entries(nodes), i)
  {
    MatchingCut(nodes, inner, i);
    MatchingCons(Cut(nodes, i), inner - {nodes[i].key}, nodes[i]);
    assert inner == (inner - {nodes[i].key})[nodes[i].key := nodes[i]];
  }

  class LruCache<K(==), V> {
    var head: Node?<K, V>
    var tail: Node?<K, V>
    var inner: map<K, Node<K, V>>
    const cap: nat
    ghost var nodes: seq<Node<K, V>>
    ghost var repr: set<Node<K, V>>

    /** `head`, `tail`, `prev` and `next` spell out a list. */
    ghost predicate Spells(list: seq<Node<K, V>>)
      reads this`head, this`tail, this`repr, repr
    {
      && (forall i :: 0 <= i < |list| ==> list[i] in repr)
      && DistinctNodes(list) && head == NodeAt(list, 0) && tail == NodeAt(list, |list| - 1)
      && (forall i {:trigger list[i].prev} :: 0 <= i < |list| ==> list[i].prev == NodeAt(list, i - 1))
      && (forall i {:trigger list[i].next} :: 0 <= i < |list| ==> list[i].next == NodeAt(list, i + 1))
    }

    ghost predicate Links()
      reads this`head, this`tail, this`nodes, this`repr, repr
    {
      Spells(nodes)
    }

    /** They lead past node `i`. */
    ghost predicate Bypassed(i: int)
      reads this`head, this`tail, this`nodes, this`repr, repr
    {
      && 0 <= i < |nodes| && (forall j :: 0 <= j < |nodes| ==> nodes[j] in repr) && DistinctNodes(nodes)
      && head == NodeAt(nodes, if i == 0 then 1 else 0)
      && tail == NodeAt(nodes, if i == |nodes| - 1 then i - 1 else |nodes| - 1)
      && (forall j {:trigger nodes[j].prev} :: 0 <= j < |nodes| && j != i ==>
            nodes[j].prev == NodeAt(nodes, if j == i + 1 then i - 1 else j - 1))
      && (forall j {:trigger nodes[j].next} :: 0 <= j < |nodes| && j != i ==>
            nodes[j].next == NodeAt(nodes, if j == i - 1 then i + 1 else j + 1))
    }

    lemma BypassedSpells(i: nat)
      requires Bypassed(i)
      ensures Spells(Cut(nodes, i)) && Absent(Cut(nodes, i), nodes[i])
    {
      var cut := Cut(nodes, i);
      forall j | 0 <= j < |cut| ensures cut[j] == nodes[if j < i then j else j + 1] { CutAt(nodes, i, j); }
    }

    /** The neighbours of a node, or head and tail, are linked to each other. */
    method Bypass(node: Node<K, V>, ghost i: nat)
      requires Links() && i < |nodes| && nodes[i] == node
      modifies this`head, this`tail, repr
      ensures repr == old(repr) && Bypassed(i)
    {
      if node.prev != null {
        node.prev.next := node.next;
      } else {
        head := node.next;
      }
      if node.next != null {
        node.next.prev := node.prev;
      } else {
        tail := node.prev;
      }
    }

    /** `detach`. */
    method Detach(node: Node<K, V>, ghost i: nat)
      requires Links() && i < |nodes| && nodes[i] == node
      modifies this`head, this`tail, this`nodes, repr
      ensures Links() && nodes == Cut(old(nodes), i) && Absent(nodes, node)
      ensures node.prev == null && node.next == null
    {
      Bypass(node, i);
      node.prev, node.next := null, null;
      BypassedSpells(i);
      nodes := Cut(nodes, i);
    }

    /** `attach`: to the front. */
    method Attach(node: Node<K, V>)
      requires Links() && Absent(nodes, node)
      modifies this`head, this`tail, this`nodes, this`repr, repr, node
      ensures Links() && nodes == [node] + old(nodes) && repr == old(repr) + {node}
    {
      if head != null {
        head.prev := node;
        node.next := head;
        node.prev := null;
        head := node;
      } else {
        node.prev, node.next := null, null;
        head, tail := node, node;
      }
      nodes, repr := [node] + nodes, repr + {node};
    }

    /** The list is well formed and the map agrees with it. */
    ghost predicate Core()
      reads this, repr
    {
      Links() && Matching(nodes, inner)
    }

    ghost predicate Valid()
      reads this, repr
    {
      Core() && |nodes| <= cap && cap >= 1
    }

    /** The cache as a recency-ordered list. */
    ghost function List(): seq<Cached<K, V>>
      reads this
    {
      Entries(nodes)
    }

    constructor (cap: nat)
      requires cap >= 1
      ensures Valid() && List() == [] && repr == {} && this.cap == cap
    {
      head, tail, inner, nodes, repr := null, null, map[], [], {};
      this.cap := cap;
    }

    lemma CoreFacts()
      requires Core()
      ensures DistinctNodes(nodes) && tail == NodeAt(nodes, |nodes| - 1) && |inner| == |nodes| == |List()|
      ensures forall i :: 0 <= i < |nodes| ==> nodes[i] in repr
    {
    }

    lemma CoreIndex(key: K)
      requires Core()
      ensures var i := IndexOf(List(), key);
              if key in inner then
                0 <= i && nodes[i] == inner[key] && inner[key] in repr && inner[key].key == key
              else
                i == -1
      ensures key in inner ==> Lookup(List(), key) == Some(inner[key].value)
    {
      MatchingIndex(nodes, inner, key);
    }

    /** Takes the node at one position out of the list and the map. */
    method Unlink(node: Node<K, V>, ghost i: nat)
      requires Core() && i < |nodes| && nodes[i] == node
      modifies this, repr
      ensures Core() && List() == Cut(old(List()), i) && inner == old(inner) - {node.key} && repr == old(repr)
    {
      hide Links, Matching, Cut, Entries, Absent, DistinctNodes, NodeAt;
      CoreFacts();
      MatchingCut(nodes, inner, i);
      Detach(node, i);
      inner := inner - {node.key};
    }

    /** Puts a node of a new key in front. */
    method PushFront(node: Node<K, V>)
      requires Core() && node.key !in inner && node !in repr
      modifies this, repr, node
      ensures Core() && List() == [Cached(node.key, node.value)] + old(List()) && repr == old(repr) + {node}
    {
      hide Links, Matching, Cut, Entries, DistinctNodes, NodeAt;
      CoreFacts();
      MatchingCons(nodes, inner, node);
      Attach(node);
      inner := inner[node.key := node];
    }

    /** `expulsion`: at capacity the least recent entry goes. */
    method Expulsion()
      requires Core()
      modifies this, repr
      ensures Core() && List() == Evict(old(List()), cap) && inner.Keys <= old(inner).Keys && repr == old(repr)
    {
      hide Core, List, DistinctNodes;
      CoreFacts();
      if tail != null && |inner| >= cap {
        Unlink(tail, |nodes| - 1);
      }
    }

    /** Moves a node to the front. */
    method Promote(node: Node<K, V>, ghost i: nat)
      requires Core() && i < |nodes| && nodes[i] == node
      modifies this, repr
      ensures Core() && List() == [old(List())[i]] + Cut(old(List()), i) && inner == old(inner) && repr == old(repr)
    {
      hide Links, Matching, Cut, Entries, Absent, DistinctNodes, NodeAt;
      CoreFacts();
      MatchingMoved(nodes, inner, i);
      Detach(node, i);
      Attach(node);
    }

    method Store(key: K, value: V) returns (replaced: Option<V>)
      requires Valid()
      modifies this, repr
      ensures Valid() && List() == Insert(old(List()), key, value, cap) && fresh(repr - old(repr))
      ensures replaced == Lookup(old(List()), key)
    {
      hide Core, DistinctNodes, NodeAt, IndexOf;
      CoreFacts();
      CoreIndex(key);
      var node := new Node(key, value);
      replaced := None;
      if key in inner {
        var found := inner[key];
        replaced := Some(found.value);
        Unlink(found, IndexOf(List(), key));
      }
      Expulsion();
      PushFront(node);
    }

    /** `put`: returns the value replaced. */
    method Put(key: K, value: V) returns (r: Option<V>)
      requires Valid()
      modifies this, repr
      ensures Valid() && List() == Step(old(List()), Op.Put(key, value), cap) && fresh(repr - old(repr))
      ensures r == Lookup(old(List()), key)
    {
      r := Store(key, value);
    }

    method Get(key: K) returns (r: Option<V>)
      requires Valid()
      modifies this, repr
      ensures Valid() && List() == Step(old(List()), Op.Get(key), cap) && repr == old(repr)
      ensures r == Lookup(old(List()), key)
      ensures r.Some? ==> List() != [] && List()[0] == Cached(key, r.value)
    {
      hide Core, DistinctNodes, NodeAt, IndexOf, List;
      CoreFacts();
      CoreIndex(key);
      ghost var before := List();
      if key in inner {
        var node := inner[key];
        Promote(node, IndexOf(List(), key));
        CoreFacts();
        r := Some(node.value);
        UsedIsFront(before, Op.Get(key), r.value, cap);
      } else {
        r := None;
      }
    }

    method Remove(key: K) returns (r: Option<V>)
      requires Valid()
      modifies this, repr
      ensures Valid() && List() == Step(old(List()), Op.Remove(key), cap) && repr == old(repr)
      ensures r == Lookup(old(List()), key)
    {
      hide Core, DistinctNodes, NodeAt, IndexOf, List;
      CoreFacts();
      CoreIndex(key);
      if key in inner {
        var node := inner[key];
        Unlink(node, IndexOf(List(), key));
        CoreFacts();
        r := Some(node.value);
      } else {
        r := None;
      }
    }

    /** `get_or_insert`: a loader that fails leaves the cache alone. */
    method GetOrInsert(key: K, load: K -> Option<V>) returns (r: Option<V>)
      requires Valid()
      modifies this, repr
      ensures Valid() && List() == Step(old(List()), Op.GetOrInsert(key, load(key)), cap) && fresh(repr - old(repr))
      ensures r == (var hit := Lookup(old(List()), key); if hit.Some? then hit else load(key))
      ensures r.Some? ==> List() != [] && List()[0] == Cached(key, r.value)
    {
      hide Core, DistinctNodes, NodeAt, IndexOf, List, Insert;
      CoreFacts();
      CoreIndex(key);
      ghost var before := List();
      if key in inner {
        var node := inner[key];
        Promote(node, IndexOf(List(), key));
        CoreFacts();
        r := Some(node.value);
      } else {
        r := load(key);
        if r.Some? {
          var _ := Store(key, r.value);
        }
      }
      if r.Some? { UsedIsFront(before, Op.GetOrInsert(key, load(key)), r.value, cap); }
    }
  }

  /** `LruCache::new`: a capacity below 1 is an error. */
  method NewCache<K, V>(cap: nat) returns (r: LruCache?<K, V>)
    ensures r == null <==> cap < 1
    ensures r != null ==> fresh(r) && r.Valid() && r.List() == [] && r.cap == cap
  {
    r := null;
    if cap >= 1 {
      r := new LruCache(cap);
    }
  }

  lemma {:induction false} RunSnoc<K, V>(list: seq<Cached<K, V>>, ops: seq<Op<K, V>>, op: Op<K, V>, cap: nat)
    ensures Run(list, ops + [op], cap) == Step(Run(list, ops, cap), op, cap)
    decreases ops
  {
    if ops != [] {
      assert (ops + [op])[1..] == ops[1..] + [op];
      RunSnoc(Step(list, ops[0], cap), ops[1..], op, cap);
    } else {
      assert [op][1..] == [];
    }
  }

  /** What an operation on the list returns. */
  function Answer<K(==), V>(list: seq<Cached<K, V>>, op: Op<K, V>): Option<V> {
    var hit := Lookup(list, op.key);
    if op.GetOrInsert? && hit.None? then op.loaded else hit
  }

  /** Under every sequence of operations the cache is the recency-ordered list, and every operation
      returns what it returns on that list. */
  method Perform<K, V>(cache: LruCache<K, V>, ops: seq<Op<K, V>>) returns (results: seq<Option<V>>)
    requires cache.Valid()
    modifies cache, cache.repr
    ensures cache.Valid() && cache.List() == Run(old(cache.List()), ops, cache.cap)
    ensures |results| == |ops|
    ensures forall i :: 0 <= i < |ops| ==> results[i] == Answer(Run(old(cache.List()), ops[..i], cache.cap), ops[i])
  {
    hide LruCache.Valid, LruCache.List, Step, Lookup;
    results := [];
    for i := 0 to |ops|
      invariant cache.Valid() && fresh(cache.repr - old(cache.repr)) && |results| == i
      invariant cache.List() == Run(old(cache.List()), ops[..i], cache.cap)
      invariant forall j :: 0 <= j < i ==> results[j] == Answer(Run(old(cache.List()), ops[..j], cache.cap), ops[j])
    {
      assert ops[..i + 1] == ops[..i] + [ops[i]];
      RunSnoc(old(cache.List()), ops[..i], ops[i], cache.cap);
      var r;
      match ops[i] {
        case Put(k, v) => r := cache.Put(k, v);
        case Get(k) => r := cache.Get(k);
        case Remove(k) => r := cache.Remove(k);
        case GetOrInsert(k, loaded) => r := cache.GetOrInsert(k, _ => loaded);
      }
      results := results + [r];
    }
    assert ops[..|ops|] == ops;
  }
}
