/** Prefix-compressed blocks: within each restart group every entry but the first drops the
    prefix that the whole group shares. */
module Block {
  import opened Keys
  import opened Search
  import Arith

  datatype Pair<T> = Pair(key: Key, item: T)

  datatype Entry<T> = Entry(unsharedLen: nat, sharedLen: nat, key: Key, item: T)

  datatype Block<T> = Block(interval: nat, entries: seq<Entry<T>>)

  // ---- the shared prefix of a group ----

  /** All keys agree on their first `l` bytes. */
  predicate IsShared(keys: seq<Key>, l: nat) {
    && (forall i :: 0 <= i < |keys| ==> l <= |keys[i]|)
    && (forall i :: 0 <= i < |keys| ==> keys[i][..l] == keys[0][..l])
  }

  function CommonPrefix(a: Key, b: Key): (n: nat)
    ensures n <= |a| && n <= |b| && a[..n] == b[..n]
    ensures n < |a| && n < |b| ==> a[n] != b[n]
  {
    if a == [] || b == [] || a[0] != b[0] then 0
    else
      var m := CommonPrefix(a[1..], b[1..]);
      assert a[..m + 1] == [a[0]] + a[1..][..m] && b[..m + 1] == [b[0]] + b[1..][..m];
      m + 1
  }

  lemma {:induction false} CommonPrefixIsLongest(a: Key, b: Key, l: nat)
    requires l <= |a| && l <= |b| && a[..l] == b[..l]
    ensures l <= CommonPrefix(a, b)
  {
  }

  function SharedLen(keys: seq<Key>): nat {
    if keys == [] then 0
    else if |keys| == 1 then |keys[0]|
    else
      var n, c := SharedLen(keys[..|keys| - 1]), CommonPrefix(keys[0], keys[|keys| - 1]);
      if n < c then n else c
  }

  lemma PrefixOfPrefix(a: Key, b: Key, n: nat, m: nat)
    requires m <= n <= |a| && n <= |b| && a[..n] == b[..n]
    ensures a[..m] == b[..m]
  {
  }

  /** `SharedLen` is the longest common prefix of the whole group. */
  lemma {:induction false} SharedLenIsLongest(keys: seq<Key>)
    requires keys != []
    ensures IsShared(keys, SharedLen(keys))
    ensures forall l: nat :: IsShared(keys, l) ==> l <= SharedLen(keys)
  {
    if |keys| > 1 {
      var init, last := keys[..|keys| - 1], keys[|keys| - 1];
      SharedLenIsLongest(init);
      var n, c, s := SharedLen(init), CommonPrefix(keys[0], last), SharedLen(keys);
      forall i | 0 <= i < |keys| ensures s <= |keys[i]| && keys[i][..s] == keys[0][..s] {
        if i < |keys| - 1 {
          assert keys[i] == init[i];
          PrefixOfPrefix(keys[i], keys[0], n, s);
        } else {
          PrefixOfPrefix(last, keys[0], c, s);
        }
      }
      forall l: nat | IsShared(keys, l) ensures l <= s {
        assert IsShared(init, l);
        CommonPrefixIsLongest(keys[0], last, l);
      }
    }
  }

  /** `is_common_prefix` for a length within every key. */
  method IsCommonPrefix(keys: seq<Key>, len: nat) returns (r: bool)
    requires keys != [] && forall i :: 0 <= i < |keys| ==> len <= |keys[i]|
    ensures r == IsShared(keys, len)
  {
    var n := 1;
    while n < |keys|
      invariant 1 <= n <= |keys| && forall i :: 0 <= i < n ==> keys[i][..len] == keys[0][..len]
    {
      var i := 0;
      while i < len
        invariant i <= len && keys[n][..i] == keys[0][..i]
      {
        if keys[0][i] != keys[n][i] {
          assert keys[n][..len][i] != keys[0][..len][i];
          return false;
        }
        assert keys[n][..i + 1] == keys[n][..i] + [keys[n][i]];
        assert keys[0][..i + 1] == keys[0][..i] + [keys[0][i]];
        i := i + 1;
      }
      n := n + 1;
    }
    return true;
  }

  lemma SharedIsDownClosed(keys: seq<Key>, l: nat, m: nat)
    requires IsShared(keys, l) && m <= l
    ensures IsShared(keys, m)
  {
  }

  /** `longest_shared_len`: binary search on the length finds the group's longest shared prefix. */
  method LongestSharedLen(keys: seq<Key>) returns (low: nat)
    ensures low == SharedLen(keys)
  {
    if keys == [] {
      return 0;
    }
    var minLen := |keys[0]|;
    var i := 0;
    while i < |keys|
      invariant i <= |keys| && (forall j :: 0 <= j < i ==> minLen <= |keys[j]|)
      invariant exists j :: 0 <= j < |keys| && minLen == |keys[j]|
    {
      if |keys[i]| < minLen {
        minLen := |keys[i]|;
      }
      i := i + 1;
    }
    low := 0;
    var high := minLen;
    while low < high
      invariant low <= high <= minLen && IsShared(keys, low)
      invariant forall l: nat :: IsShared(keys, l) ==> l <= high
    {
      var mid := (high - low + 1) / 2 + low;
      var common := IsCommonPrefix(keys, mid);
      if common {
        low := mid;
      } else {
        forall l: nat | IsShared(keys, l) ensures l <= mid - 1 {
          if mid <= l { SharedIsDownClosed(keys, l, mid); }
        }
        high := mid - 1;
      }
    }
    SharedLenIsLongest(keys);
  }

  // ---- building a block ----

  predicate SortedPairs<T>(kvs: seq<Pair<T>>) {
    forall i, j :: 0 <= i < j < |kvs| ==> Lt(kvs[i].key, kvs[j].key)
  }

  /** First index of the restart group of `i`. */
  function GroupStart(i: nat, interval: nat): (g: nat)
    requires interval > 0
    ensures g <= i && i - g < interval
  {
    i - i % interval
  }

  function PairKeys<T>(kvs: seq<Pair<T>>): seq<Key> {
    seq(|kvs|, i requires 0 <= i < |kvs| => kvs[i].key)
  }

  /** The keys of the restart group of `i`. */
  function Group<T>(kvs: seq<Pair<T>>, i: nat, interval: nat): seq<Key>
    requires interval > 0 && i < |kvs|
  {
    var g := GroupStart(i, interval);
    PairKeys(kvs[g..if g + interval <= |kvs| then g + interval else |kvs|])
  }

  function GroupShared<T>(kvs: seq<Pair<T>>, i: nat, interval: nat): nat
    requires interval > 0 && i < |kvs|
  {
    if i % interval == 0 then 0 else SharedLen(Group(kvs, i, interval))
  }

  lemma SharedFits<T>(kvs: seq<Pair<T>>, i: nat, interval: nat)
    requires interval > 0 && i < |kvs|
    ensures var s, g := GroupShared(kvs, i, interval), GroupStart(i, interval);
            s <= |kvs[i].key| && s <= |kvs[g].key| && kvs[i].key[..s] == kvs[g].key[..s]
  {
    var keys, g := Group(kvs, i, interval), GroupStart(i, interval);
    SharedLenIsLongest(keys);
    assert keys[i - g] == kvs[i].key && keys[0] == kvs[g].key;
  }

  function EntryAt<T>(kvs: seq<Pair<T>>, i: nat, interval: nat): Entry<T>
    requires interval > 0 && i < |kvs|
  {
    SharedFits(kvs, i, interval);
    var s := GroupShared(kvs, i, interval);
    Entry(|kvs[i].key| - s, s, kvs[i].key[s..], kvs[i].item)
  }

  /** `Block::new`. */
  function New<T>(kvs: seq<Pair<T>>, interval: nat): Block<T>
    requires interval > 0
  {
    Block(interval, seq(|kvs|, i requires 0 <= i < |kvs| => EntryAt(kvs, i, interval)))
  }

  /** The key of an entry, put back together from its group's restart entry. */
  function FullKey<T>(b: Block<T>, i: nat): Key
    requires b.interval > 0 && i < |b.entries|
  {
    var e, r := b.entries[i], b.entries[GroupStart(i, b.interval)];
    if i % b.interval == 0 || e.sharedLen > |r.key| then e.key else r.key[..e.sharedLen] + e.key
  }

  lemma RestartIsFull<T>(kvs: seq<Pair<T>>, i: nat, interval: nat)
    requires interval > 0 && i < |kvs|
    ensures var g := GroupStart(i, interval); g % interval == 0 && EntryAt(kvs, g, interval).key == kvs[g].key
  {
    var g := GroupStart(i, interval);
    assert i == interval * (i / interval) + i % interval;
    assert g == interval * (i / interval);
    assert g % interval == 0 by { Arith.MultipleMod(i / interval, interval); }
  }

  /** Compression loses nothing. */
  lemma FullKeyRestores<T>(kvs: seq<Pair<T>>, interval: nat, i: nat)
    requires interval > 0 && i < |kvs|
    ensures FullKey(New(kvs, interval), i) == kvs[i].key
  {
    SharedFits(kvs, i, interval);
    RestartIsFull(kvs, i, interval);
    var s := GroupShared(kvs, i, interval);
    assert kvs[i].key == kvs[i].key[..s] + kvs[i].key[s..];
  }

  /** In a strictly sorted block a non-restart entry never compresses to nothing. */
  lemma SuffixNotEmpty<T>(kvs: seq<Pair<T>>, interval: nat, i: nat)
    requires interval > 0 && i < |kvs| && SortedPairs(kvs) && i % interval != 0
    ensures EntryAt(kvs, i, interval).key != []
  {
    SharedFits(kvs, i, interval);
    var s, g := GroupShared(kvs, i, interval), GroupStart(i, interval);
    var key, restart := kvs[i].key, kvs[g].key;
    assert Lt(restart, key);
    assert |restart| == s ==> restart[..s] == restart;
    if s == |key| {
      assert key == restart[..s] && restart == restart[..s] + restart[s..];
      if |restart| > s {
        PrefixIsLess(key, restart[s..]);
      }
    }
  }

  // ---- searching without decompressing ----

  function Then(a: Ordering, b: Ordering): Ordering {
    if a == Equal then b else a
  }

  function Flip(o: Ordering): Ordering {
    match o
    case Less => Greater
    case Equal => Equal
    case Greater => Less
  }

  /** The comparator of `binary_search`, entry against probe. */
  function EntryCompare<T>(b: Block<T>, probe: Key, i: nat): Ordering
    requires b.interval > 0 && i < |b.entries|
  {
    var e, r := b.entries[i], b.entries[GroupStart(i, b.interval)];
    var sl := if e.sharedLen < |probe| then e.sharedLen else |probe|;
    if e.sharedLen > 0 && sl <= |r.key|
    then Flip(Then(Compare(probe[..sl], r.key[..sl]), Compare(probe[sl..], e.key)))
    else Flip(Compare(probe, e.key))
  }

  lemma CompareFlip(a: Key, b: Key)
    ensures Flip(Compare(a, b)) == Compare(b, a)
  {
    RanksDiffer();
  }

  /** A probe against `prefix + suffix`, looking at prefix and suffix separately. */
  lemma CompareInParts(probe: Key, prefix: Key, suffix: Key)
    requires suffix != []
    ensures var sl := if |prefix| < |probe| then |prefix| else |probe|;
            Then(Compare(probe[..sl], prefix[..sl]), Compare(probe[sl..], suffix)) == Compare(probe, prefix + suffix)
  {
    var sl := if |prefix| < |probe| then |prefix| else |probe|;
    var p, q, rest := probe[..sl], prefix[..sl], prefix[sl..] + suffix;
    assert probe == p + probe[sl..] && prefix + suffix == q + rest;
    if p != q {
      CompareByPrefix(p, q, probe[sl..], rest);
    } else {
      CompareAfterPrefix(p, probe[sl..], rest);
      if |prefix| < |probe| {
        assert rest == suffix;
      } else {
        assert probe[sl..] == [];
        PrefixIsLess([], suffix);
        PrefixIsLess([], rest);
        assert [] + suffix == suffix && [] + rest == rest;
      }
    }
  }

  /** The comparator on compressed entries compares full keys, for every probe. */
  lemma EntryCompareIsFull<T>(kvs: seq<Pair<T>>, interval: nat, probe: Key, i: nat)
    requires interval > 0 && SortedPairs(kvs) && i < |kvs|
    ensures EntryCompare(New(kvs, interval), probe, i) == Compare(kvs[i].key, probe)
  {
    SharedFits(kvs, i, interval);
    RestartIsFull(kvs, i, interval);
    var e, g, s := EntryAt(kvs, i, interval), GroupStart(i, interval), GroupShared(kvs, i, interval);
    CompareFlip(probe, kvs[i].key);
    if s > 0 {
      SuffixNotEmpty(kvs, interval, i);
      var prefix := kvs[g].key[..s];
      assert kvs[i].key == prefix + e.key;
      CompareInParts(probe, prefix, e.key);
      var sl := if s < |probe| then s else |probe|;
      assert prefix[..sl] == kvs[g].key[..sl];
    } else {
      assert e.key == kvs[i].key;
    }
  }

  function EntryOrder<T>(b: Block<T>, probe: Key): nat -> Ordering
    requires b.interval > 0
  {
    (i: nat) => if i < |b.entries| then EntryCompare(b, probe, i) else Greater
  }

  function KeyOrder<T>(kvs: seq<Pair<T>>, probe: Key): nat -> Ordering {
    (i: nat) => if i < |kvs| then Compare(kvs[i].key, probe) else Greater
  }

  /** `Block::binary_search`. */
  function SearchBlock<T>(b: Block<T>, probe: Key): SearchResult
    requires b.interval > 0
  {
    BinarySearch(EntryOrder(b, probe), |b.entries|)
  }

  /** The position of a probe among sorted keys. */
  ghost predicate PositionOf<T>(kvs: seq<Pair<T>>, probe: Key, r: SearchResult) {
    && r.index <= |kvs| && (r.Ok? ==> r.index < |kvs| && kvs[r.index].key == probe)
    && (r.Err? ==> forall i :: 0 <= i < |kvs| ==> kvs[i].key != probe)
    && (forall i :: 0 <= i < r.index ==> Lt(kvs[i].key, probe))
    && (forall i :: r.index <= i < |kvs| ==> Le(probe, kvs[i].key))
  }

  lemma KeySearchCorrect<T>(kvs: seq<Pair<T>>, probe: Key)
    requires SortedPairs(kvs)
    ensures PositionOf(kvs, probe, BinarySearch(KeyOrder(kvs, probe), |kvs|))
  {
    var g := KeyOrder(kvs, probe);
    forall i, j | 0 <= i < j < |kvs| && g(i) != Less ensures g(j) == Greater {
      assert Lt(kvs[i].key, kvs[j].key);
    }
    SearchCorrect(g, |kvs|);
    var r := BinarySearch(g, |kvs|);
    forall i | 0 <= i < |kvs|
      ensures (i < r.index ==> Lt(kvs[i].key, probe)) && (r.index <= i ==> Le(probe, kvs[i].key))
      ensures r.Err? ==> kvs[i].key != probe
    {
      assert i < r.index ==> g(i) == Less;
      assert i >= r.index ==> g(i) != Less;
      assert r.Err? ==> g(i) != Equal;
    }
  }

  /** The compressed search returns what a search over the full keys returns: the index of the
      probe if it is there, otherwise its insertion point. */
  lemma SearchBlockCorrect<T>(kvs: seq<Pair<T>>, interval: nat, probe: Key)
    requires interval > 0 && SortedPairs(kvs)
    ensures SearchBlock(New(kvs, interval), probe) == BinarySearch(KeyOrder(kvs, probe), |kvs|)
    ensures PositionOf(kvs, probe, SearchBlock(New(kvs, interval), probe))
  {
    var f, g := EntryOrder(New(kvs, interval), probe), KeyOrder(kvs, probe);
    forall i | 0 <= i < |kvs| ensures f(i) == g(i) {
      EntryCompareIsFull(kvs, interval, probe, i);
    }
    SearchExtensional(f, g, 0, |kvs|);
    KeySearchCorrect(kvs, probe);
  }

  /** `find_with_upper`: the item at the probe's position, or the last one. */
  function FindWithUpper<T>(b: Block<T>, probe: Key): T
    requires b.interval > 0 && b.entries != []
  {
    var i := SearchBlock(b, probe).index;
    b.entries[if i < |b.entries| then i else |b.entries| - 1].item
  }
}
