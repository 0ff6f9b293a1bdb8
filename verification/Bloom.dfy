/** The table filter: a Bloom filter with two seeded hash functions, and its file format. */
module Bloom {
  import opened Keys
  import Fixed

  const U64: nat := 0x1_0000_0000_0000_0000

  // ---- bits in groups of eight ----

  function Mask(i: nat): bv8
    requires i < 8
  {
    if i == 0 then 1 else if i == 1 then 2 else if i == 2 then 4 else if i == 3 then 8
    else if i == 4 then 16 else if i == 5 then 32 else if i == 6 then 64 else 128
  }

  predicate Bit(groups: seq<bv8>, x: nat)
    requires x < 8 * |groups|
  {
    groups[x / 8] & Mask(x % 8) != 0
  }

  function WithBit(groups: seq<bv8>, x: nat): (r: seq<bv8>)
    requires x < 8 * |groups|
    ensures |r| == |groups|
  {
    groups[x / 8 := groups[x / 8] | Mask(x % 8)]
  }

  lemma BitAfterSet(groups: seq<bv8>, x: nat, y: nat)
    requires x < 8 * |groups| && y < 8 * |groups|
    ensures Bit(WithBit(groups, x), y) <==> x == y || Bit(groups, y)
  {
  }

  lemma ByteRoundTrip(g: bv8)
    ensures (g as int) as bv8 == g
  {
  }

  /** The mask is the shifted one, and testing with it is shifting and taking the last bit. */
  lemma MaskIsShift(g: bv8, i: nat)
    requires i < 8
    ensures (1 as bv8) << i == Mask(i)
    ensures (g >> i) & 1 != 0 <==> g & Mask(i) != 0
  {
  }

  function SetIn(g: bv8, i: nat): (r: bv8)
    requires i < 8
    ensures r == g | Mask(i)
  {
    MaskIsShift(g, i);
    g | ((1 as bv8) << i)
  }

  predicate TestIn(g: bv8, i: nat)
    requires i < 8
    ensures TestIn(g, i) <==> g & Mask(i) != 0
  {
    MaskIsShift(g, i);
    (g >> i) & 1 != 0
  }

  class BitVector {
    const len: nat
    var groups: seq<bv8>

    predicate Valid()
      reads this
    {
      len <= 8 * |groups|
    }

    constructor (len: nat)
      ensures Valid() && this.len == len && groups == seq((len + 7) / 8, _ => 0)
    {
      this.len, groups := len, seq((len + 7) / 8, _ => 0);
    }

    method SetBit(index: nat)
      requires index < 8 * |groups|
      modifies this
      ensures groups == WithBit(old(groups), index)
    {
      hide Mask, SetIn;
      groups := groups[index / 8 := SetIn(groups[index / 8], index % 8)];
    }

    method GetBit(index: nat) returns (r: bool)
      requires index < 8 * |groups|
      ensures r == Bit(groups, index)
    {
      hide Mask, TestIn;
      r := TestIn(groups[index / 8], index % 8);
    }
  }

  // ---- the filter ----

  /** A filter's value: its hash functions are given by a family and two seeds. */
  datatype Filter = Filter(count: nat, seed1: nat, seed2: nat, len: nat, groups: seq<bv8>)

  type Hash = (nat, Key) -> nat

  ghost predicate FilterOk(f: Filter) {
    && 0 < f.len < U64 && f.len <= 8 * |f.groups| && f.count < U64 && f.seed1 < U64 && f.seed2 < U64
  }

  /** `get_index`: the i-th position for two hash values, in wrapping 64-bit arithmetic. */
  function Position(h1: nat, h2: nat, i: nat, len: nat): (x: nat)
    requires len > 0
    ensures x < len
  {
    (h1 + i * h2 % U64) % U64 % len
  }

  /** Double hashing: the first hash value, advanced by the second, in 64 bits. */
  function Walk(h1: nat, h2: nat, i: nat): nat {
    if i == 0 then h1 % U64 else (Walk(h1, h2, i - 1) + h2) % U64
  }

  lemma ModAdd(a: nat, b: nat)
    ensures (a % U64 + b) % U64 == (a + b) % U64
  {
  }

  lemma PositionOf(h1: nat, h2: nat, i: nat, len: nat, p: nat)
    requires len > 0 && p == i * h2
    ensures Position(h1, h2, i, len) == (h1 + p) % U64 % len
  {
    ModAdd(p, h1);
  }

  lemma {:induction false} WalkIs(h1: nat, h2: nat, i: nat, p: nat)
    requires p == i * h2
    ensures Walk(h1, h2, i) == (h1 + p) % U64
  {
    if i > 0 {
      var q := (i - 1) * h2;
      WalkIs(h1, h2, i - 1, q);
      assert p == q + h2;
      ModAdd(h1 + q, h2);
    }
  }

  /** The positions of a key are the stations of that walk. */
  lemma PositionIsWalk(h1: nat, h2: nat, i: nat, len: nat)
    requires len > 0
    ensures Position(h1, h2, i, len) == Walk(h1, h2, i) % len
  {
    hide Position, Walk;
    PositionOf(h1, h2, i, len, i * h2);
    WalkIs(h1, h2, i, i * h2);
  }

  function Index(hash: Hash, f: Filter, k: Key, i: nat): (x: nat)
    requires f.len > 0
    ensures x < f.len
  {
    Position(hash(f.seed1, k), hash(f.seed2, k), i, f.len)
  }

  predicate Contains(hash: Hash, f: Filter, k: Key)
    requires 0 < f.len <= 8 * |f.groups|
  {
    forall i :: 0 <= i < f.count ==> Bit(f.groups, Index(hash, f, k, i))
  }

  /** The positions of a key, and the positions that are set. */
  ghost function Positions(hash: Hash, f: Filter, k: Key): set<nat>
    requires f.len > 0
  {
    set i | 0 <= i < f.count :: Index(hash, f, k, i)
  }

  ghost function Marked(f: Filter): set<nat>
    requires f.len <= 8 * |f.groups|
  {
    set x | 0 <= x < f.len && Bit(f.groups, x)
  }

  lemma ContainsIsSubset(hash: Hash, f: Filter, k: Key)
    requires 0 < f.len <= 8 * |f.groups|
    ensures Contains(hash, f, k) <==> Positions(hash, f, k) <= Marked(f)
  {
    if Positions(hash, f, k) <= Marked(f) {
      forall i | 0 <= i < f.count ensures Bit(f.groups, Index(hash, f, k, i)) {
        assert Index(hash, f, k, i) in Positions(hash, f, k);
      }
    }
  }

  lemma MarkedAfterSet(f: Filter, x: nat)
    requires x < f.len <= 8 * |f.groups|
    ensures Marked(f.(groups := WithBit(f.groups, x))) == Marked(f) + {x}
  {
    hide Bit, WithBit;
    forall y | 0 <= y < f.len ensures Bit(WithBit(f.groups, x), y) <==> x == y || Bit(f.groups, y) {
      BitAfterSet(f.groups, x, y);
    }
  }

  class BloomFilter {
    const hash: Hash
    const count: nat
    const seed1: nat
    const seed2: nat
    const bits: BitVector

    ghost function Value(): Filter
      reads bits
    {
      Filter(count, seed1, seed2, bits.len, bits.groups)
    }

    constructor (hash: Hash, bitsCount: nat, count: nat, seed1: nat, seed2: nat)
      requires 0 < bitsCount < U64 && count < U64 && seed1 < U64 && seed2 < U64
      ensures fresh(bits) && FilterOk(Value()) && Marked(Value()) == {} && this.hash == hash
      ensures this.count == count && this.seed1 == seed1 && this.seed2 == seed2 && bits.len == bitsCount
    {
      this.hash, this.count, this.seed1, this.seed2 := hash, count, seed1, seed2;
      bits := new BitVector(bitsCount);
      new;
      forall x | 0 <= x < bits.len ensures !Bit(bits.groups, x) {
        assert bits.groups[x / 8] == 0;
      }
    }

    /** `insert` marks exactly the key's positions. */
    method Insert(k: Key)
      requires FilterOk(Value())
      modifies bits
      ensures FilterOk(Value()) && Value() == old(Value()).(groups := bits.groups)
      ensures Marked(Value()) == old(Marked(Value())) + Positions(hash, old(Value()), k)
    {
      hide Position, Bit, Marked;
      var h1, h2 := hash(seed1, k), hash(seed2, k);
      ghost var f := Value();
      ghost var done: set<nat> := {};
      for i := 0 to count
        invariant FilterOk(Value()) && Value() == f.(groups := bits.groups)
        invariant done == set j | 0 <= j < i :: Index(hash, f, k, j)
        invariant Marked(Value()) == Marked(f) + done
      {
        var index := Position(h1, h2, i, bits.len);
        assert index == Index(hash, f, k, i);
        MarkedAfterSet(Value(), index);
        bits.SetBit(index);
        done := done + {index};
      }
    }

    /** `contains`. */
    method Check(k: Key) returns (r: bool)
      requires FilterOk(Value())
      ensures r == Contains(hash, Value(), k)
    {
      hide Position, Bit;
      var h1, h2 := hash(seed1, k), hash(seed2, k);
      for i := 0 to count
        invariant forall j :: 0 <= j < i ==> Bit(bits.groups, Index(hash, Value(), k, j))
      {
        var index := Position(h1, h2, i, bits.len);
        assert index == Index(hash, Value(), k, i);
        var b := bits.GetBit(index);
        if !b {
          return false;
        }
      }
      return true;
    }

    /** `to_raw`. */
    method ToRaw() returns (bytes: seq<Byte>)
      ensures bytes == Raw(Value())
    {
      hide Fixed.Encode, GroupBytes;
      ghost var gb := GroupBytes(bits.groups);
      GroupBytesAt(bits.groups);
      bytes := Fixed.Encode(count, 8) + Fixed.Encode(seed1, 8) + Fixed.Encode(seed2, 8) + Fixed.Encode(bits.len, 8);
      ghost var header := bytes;
      for i := 0 to |bits.groups|
        invariant bytes == header + gb[..i]
      {
        assert gb[..i + 1] == gb[..i] + [gb[i]];
        bytes := bytes + [ByteOf(bits.groups[i])];
      }
    }
  }

  // ---- the file format ----

  function ByteOf(g: bv8): Byte {
    g as int
  }

  lemma GroupBytesAt(groups: seq<bv8>)
    ensures forall i :: 0 <= i < |groups| ==> GroupBytes(groups)[i] == ByteOf(groups[i])
  {
  }

  function GroupBytes(groups: seq<bv8>): (r: seq<Byte>)
    ensures |r| == |groups|
  {
    seq(|groups|, i requires 0 <= i < |groups| => ByteOf(groups[i]))
  }

  function GroupsOf(bytes: seq<Byte>): (r: seq<bv8>)
    ensures |r| == |bytes|
  {
    seq(|bytes|, i requires 0 <= i < |bytes| => bytes[i] as bv8)
  }

  function Raw(f: Filter): seq<Byte> {
    Fixed.Encode(f.count, 8) + Fixed.Encode(f.seed1, 8) + Fixed.Encode(f.seed2, 8) + Fixed.Encode(f.len, 8) +
      GroupBytes(f.groups)
  }

  /** `from_raw`: every byte behind the header becomes a group. */
  function FromRaw(bytes: seq<Byte>): Filter
    requires |bytes| >= 32
  {
    Filter(Fixed.Decode(bytes[..8]), Fixed.Decode(bytes[8..16]), Fixed.Decode(bytes[16..24]),
           Fixed.Decode(bytes[24..32]), GroupsOf(bytes[32..]))
  }

  lemma FixedU64(n: nat)
    requires n < U64
    ensures Fixed.Decode(Fixed.Encode(n, 8)) == n
  {
    Fixed.RoundTrip(n, 8);
    assert Fixed.Limit(2) == 0x1_0000 && Fixed.Limit(4) == 0x1_0000_0000;
    assert Fixed.Limit(6) == 0x1_0000_0000_0000 && Fixed.Limit(8) == U64;
  }

  lemma RawParts(f: Filter, tail: seq<Byte>)
    ensures var raw := Raw(f) + tail;
            && |raw| >= 32 && raw[..8] == Fixed.Encode(f.count, 8) && raw[8..16] == Fixed.Encode(f.seed1, 8)
            && raw[16..24] == Fixed.Encode(f.seed2, 8) && raw[24..32] == Fixed.Encode(f.len, 8)
            && raw[32..] == GroupBytes(f.groups) + tail
  {
    var a, b, c, d := Fixed.Encode(f.count, 8), Fixed.Encode(f.seed1, 8), Fixed.Encode(f.seed2, 8),
      Fixed.Encode(f.len, 8);
    FourParts(a, b, c, d, GroupBytes(f.groups), tail);
  }

  lemma FourParts(a: seq<Byte>, b: seq<Byte>, c: seq<Byte>, d: seq<Byte>, e: seq<Byte>, tail: seq<Byte>)
    requires |a| == |b| == |c| == |d| == 8
    ensures var raw := a + b + c + d + e + tail;
            |raw| >= 32 && raw[..8] == a && raw[8..16] == b && raw[16..24] == c && raw[24..32] == d &&
              raw[32..] == e + tail
  {
  }

  /** Reading a written filter gives it back, the trailing bytes as further groups. */
  lemma FromRawOfRaw(f: Filter, tail: seq<Byte>)
    requires FilterOk(f)
    ensures FromRaw(Raw(f) + tail) == f.(groups := f.groups + GroupsOf(tail))
  {
    RawParts(f, tail);
    FixedU64(f.count);
    FixedU64(f.seed1);
    FixedU64(f.seed2);
    FixedU64(f.len);
    var groups := GroupsOf(GroupBytes(f.groups) + tail);
    forall i | 0 <= i < |f.groups| ensures groups[i] == f.groups[i] {
      ByteRoundTrip(f.groups[i]);
    }
    assert groups == f.groups + GroupsOf(tail);
  }

  /** The filter read back, with any bytes behind it, answers like the one written. */
  lemma RawRoundTrip(hash: Hash, f: Filter, tail: seq<Byte>, k: Key)
    requires FilterOk(f)
    ensures var g := FromRaw(Raw(f) + tail);
            FilterOk(g) && Contains(hash, g, k) == Contains(hash, f, k)
  {
    FromRawOfRaw(f, tail);
    var g := FromRaw(Raw(f) + tail);
    forall i | 0 <= i < f.count
      ensures Index(hash, g, k, i) == Index(hash, f, k, i)
      ensures Bit(g.groups, Index(hash, f, k, i)) == Bit(f.groups, Index(hash, f, k, i))
    {
    }
  }

  // ---- runs ----

  ghost function AllPositions(hash: Hash, f: Filter, keys: seq<Key>): set<nat>
    requires f.len > 0
  {
    if keys == [] then {} else AllPositions(hash, f, keys[..|keys| - 1]) + Positions(hash, f, keys[|keys| - 1])
  }

  lemma {:induction false} PositionsIncluded(hash: Hash, f: Filter, keys: seq<Key>, k: Key)
    requires f.len > 0 && k in keys
    ensures Positions(hash, f, k) <= AllPositions(hash, f, keys)
  {
    if k != keys[|keys| - 1] {
      PositionsIncluded(hash, f, keys[..|keys| - 1], k);
    }
  }

  /** After any sequence of inserts the filter answers yes exactly for the keys whose positions
      those of the inserted keys cover, so for every inserted key. */
  method InsertAll(filter: BloomFilter, keys: seq<Key>)
    requires FilterOk(filter.Value()) && Marked(filter.Value()) == {}
    modifies filter.bits
    ensures FilterOk(filter.Value())
    ensures forall k :: Contains(filter.hash, filter.Value(), k) <==>
              Positions(filter.hash, filter.Value(), k) <= AllPositions(filter.hash, filter.Value(), keys)
    ensures forall k :: k in keys ==> Contains(filter.hash, filter.Value(), k)
  {
    ghost var f := filter.Value();
    for i := 0 to |keys|
      invariant FilterOk(filter.Value()) && filter.Value() == f.(groups := filter.bits.groups)
      invariant Marked(filter.Value()) == AllPositions(filter.hash, f, keys[..i])
    {
      assert keys[..i + 1][..i] == keys[..i];
      SamePositions(filter.hash, f, filter.Value(), keys[i]);
      filter.Insert(keys[i]);
    }
    assert keys[..|keys|] == keys;
    NoFalseNegatives(filter.hash, f, filter.Value(), keys);
  }

  lemma SamePositions(hash: Hash, f: Filter, g: Filter, k: Key)
    requires f.len > 0 && g == f.(groups := g.groups)
    ensures Positions(hash, g, k) == Positions(hash, f, k)
  {
    assert forall i: nat :: Index(hash, g, k, i) == Index(hash, f, k, i);
  }

  lemma {:induction false} SameAllPositions(hash: Hash, f: Filter, g: Filter, keys: seq<Key>)
    requires f.len > 0 && g == f.(groups := g.groups)
    ensures AllPositions(hash, g, keys) == AllPositions(hash, f, keys)
  {
    if keys != [] {
      SameAllPositions(hash, f, g, keys[..|keys| - 1]);
      SamePositions(hash, f, g, keys[|keys| - 1]);
    }
  }

  lemma NoFalseNegatives(hash: Hash, f: Filter, g: Filter, keys: seq<Key>)
    requires FilterOk(f) && FilterOk(g) && g == f.(groups := g.groups) && Marked(g) == AllPositions(hash, f, keys)
    ensures forall k :: Contains(hash, g, k) <==> Positions(hash, g, k) <= AllPositions(hash, g, keys)
    ensures forall k :: k in keys ==> Contains(hash, g, k)
  {
    SameAllPositions(hash, f, g, keys);
    forall k ensures Contains(hash, g, k) <==> Positions(hash, g, k) <= AllPositions(hash, g, keys) {
      ContainsIsSubset(hash, g, k);
    }
    forall k | k in keys ensures Contains(hash, g, k) {
      PositionsIncluded(hash, g, keys, k);
    }
  }
}
