/** Byte encodings of block entries. */
module Codec {
  import opened Keys
  import opened Rows
  import opened Block
  import Arith

  type Bytes = seq<Byte>

  datatype Parse<+T> = Fail | Got(value: T, rest: Bytes)

  // ---- varints ----

  function EncodeVarint(n: nat): Bytes {
    if n < 128 then [n] else [n % 128 + 128] + EncodeVarint(n / 128)
  }

  function DecodeVarint(bytes: Bytes): (r: Parse<nat>)
    ensures r.Got? ==> |r.rest| < |bytes|
  {
    if bytes == [] then Fail
    else if bytes[0] < 128 then Got(bytes[0], bytes[1..])
    else
      match DecodeVarint(bytes[1..])
      case Fail => Fail
      case Got(v, rest) => Got(bytes[0] - 128 + 128 * v, rest)
  }

  lemma {:induction false} VarintRoundTrip(n: nat, rest: Bytes)
    ensures DecodeVarint(EncodeVarint(n) + rest) == Got(n, rest)
  {
    var bytes := EncodeVarint(n) + rest;
    if n < 128 {
      assert bytes[1..] == rest;
    } else {
      VarintRoundTrip(n / 128, rest);
      assert bytes[0] == n % 128 + 128 && bytes[1..] == EncodeVarint(n / 128) + rest;
    }
  }

  function Weight(i: nat): (r: nat)
    ensures r > 0
  {
    if i == 0 then 1 else 128 * Weight(i - 1)
  }

  /** Seven bits a byte, the lowest first; the high bit says that more follow, and no byte is wasted. */
  lemma {:induction false} VarintBytes(n: nat, i: nat)
    requires i < |EncodeVarint(n)|
    ensures var bytes := EncodeVarint(n);
            && bytes[i] % 128 == n / Weight(i) % 128 && (bytes[i] >= 128 <==> i < |bytes| - 1)
            && (i == |bytes| - 1 > 0 ==> bytes[i] > 0)
  {
    if i > 0 {
      VarintBytes(n / 128, i - 1);
      Arith.DivDiv(n, 128, Weight(i - 1), Weight(i));
    }
  }

  function AsU32(n: nat): nat {
    n % U32
  }

  /** A buffer of `n` zeros filled by one `read`: a short source leaves zeros. */
  function ReadInto(bytes: Bytes, n: nat): Parse<Bytes> {
    if n <= |bytes| then Got(bytes[..n], bytes[n..]) else Got(bytes + seq(n - |bytes|, _ => 0), [])
  }

  lemma ReadIntoPrefix(a: Bytes, rest: Bytes)
    ensures ReadInto(a + rest, |a|) == Got(a, rest)
  {
  }

  // ---- items ----

  function EncodeValue(v: Option<Value>): Bytes {
    match v
    case None => EncodeVarint(0)
    case Some(bytes) => EncodeVarint(AsU32(|bytes|)) + bytes
  }

  function DecodeValue(bytes: Bytes): Parse<Option<Value>> {
    match DecodeVarint(bytes)
    case Fail => Fail
    case Got(len, rest) =>
      if len > 0 then Got(Some(ReadInto(rest, len).value), ReadInto(rest, len).rest) else Got(None, rest)
  }

  predicate SmallValue(v: Option<Value>) {
    v.Some? ==> |v.value| < U32
  }

  lemma ValueRoundTrip(v: Option<Value>, rest: Bytes)
    requires SmallValue(v)
    ensures DecodeValue(EncodeValue(v) + rest) == Got(Normal(v), rest)
  {
    match v
    case None => VarintRoundTrip(0, rest);
    case Some(bytes) =>
      VarintRoundTrip(|bytes|, bytes + rest);
      assert EncodeValue(v) + rest == EncodeVarint(|bytes|) + (bytes + rest);
      if bytes == [] {
        assert bytes + rest == rest;
      } else {
        ReadIntoPrefix(bytes, rest);
      }
  }

  /** Position of a data block in the file. */
  datatype Index = Index(offset: nat, len: nat)

  function EncodeIndex(i: Index): Bytes {
    EncodeVarint(AsU32(i.offset)) + EncodeVarint(AsU32(i.len))
  }

  function DecodeIndex(bytes: Bytes): Parse<Index> {
    match DecodeVarint(bytes)
    case Fail => Fail
    case Got(offset, rest) =>
      match DecodeVarint(rest)
      case Fail => Fail
      case Got(len, rest') => Got(Index(offset, len), rest')
  }

  lemma IndexRoundTrip(i: Index, rest: Bytes)
    requires i.offset < U32 && i.len < U32
    ensures DecodeIndex(EncodeIndex(i) + rest) == Got(i, rest)
  {
    assert EncodeIndex(i) + rest == EncodeVarint(i.offset) + (EncodeVarint(i.len) + rest);
    VarintRoundTrip(i.offset, EncodeVarint(i.len) + rest);
    VarintRoundTrip(i.len, rest);
  }

  // ---- entries ----

  function EncodeEntry<T>(e: Entry<T>, enc: T -> Bytes): Bytes {
    EncodeVarint(AsU32(e.unsharedLen)) + EncodeVarint(AsU32(e.sharedLen)) + e.key + enc(e.item)
  }

  function DecodeEntry<T>(bytes: Bytes, dec: Bytes -> Parse<T>): Parse<Entry<T>> {
    match DecodeVarint(bytes)
    case Fail => Fail
    case Got(unshared, rest) =>
      match DecodeVarint(rest)
      case Fail => Fail
      case Got(shared, rest') =>
        var key := ReadInto(rest', unshared);
        match dec(key.rest)
        case Fail => Fail
        case Got(item, end) => Got(Entry(unshared, shared, key.value, item), end)
  }

  function EncodeEntries<T>(es: seq<Entry<T>>, enc: T -> Bytes): Bytes {
    if es == [] then [] else EncodeEntry(es[0], enc) + EncodeEntries(es[1..], enc)
  }

  /** `batch_decode`: entries until the bytes run out. */
  function DecodeEntries<T>(bytes: Bytes, dec: Bytes -> Parse<T>): Option<seq<Entry<T>>>
    decreases |bytes|
  {
    if bytes == [] then Some([])
    else
      match DecodeEntry(bytes, dec)
      case Fail => None
      case Got(e, rest) =>
        if |rest| >= |bytes| then None
        else
          match DecodeEntries(rest, dec)
          case None => None
          case Some(es) => Some([e] + es)
  }

  /** An entry whose lengths are its key's and fit in 32 bits. */
  predicate EntryOk<T>(e: Entry<T>) {
    e.unsharedLen == |e.key| && e.unsharedLen < U32 && e.sharedLen < U32
  }

  /** `dec` undoes `enc` on this item, up to `norm`. */
  ghost predicate ItemRoundTrips<T>(x: T, enc: T -> Bytes, dec: Bytes -> Parse<T>, norm: T -> T) {
    forall rest :: dec(enc(x) + rest) == Got(norm(x), rest)
  }

  function NormalEntry<T>(e: Entry<T>, norm: T -> T): Entry<T> {
    e.(item := norm(e.item))
  }

  lemma EntryRoundTrip<T>(e: Entry<T>, enc: T -> Bytes, dec: Bytes -> Parse<T>, norm: T -> T, rest: Bytes)
    requires EntryOk(e) && ItemRoundTrips(e.item, enc, dec, norm)
    ensures DecodeEntry(EncodeEntry(e, enc) + rest, dec) == Got(NormalEntry(e, norm), rest)
  {
    var tail := enc(e.item) + rest;
    assert EncodeEntry(e, enc) + rest ==
           EncodeVarint(e.unsharedLen) + (EncodeVarint(e.sharedLen) + (e.key + tail));
    VarintRoundTrip(e.unsharedLen, EncodeVarint(e.sharedLen) + (e.key + tail));
    VarintRoundTrip(e.sharedLen, e.key + tail);
    ReadIntoPrefix(e.key, tail);
  }

  lemma VarintNotEmpty(n: nat)
    ensures |EncodeVarint(n)| > 0
  {
  }

  /** Decoding a written list of entries gives the list back. */
  lemma {:induction false} EntriesRoundTrip<T>(es: seq<Entry<T>>, enc: T -> Bytes, dec: Bytes -> Parse<T>, norm: T -> T)
    requires forall i :: 0 <= i < |es| ==> EntryOk(es[i]) && ItemRoundTrips(es[i].item, enc, dec, norm)
    ensures DecodeEntries(EncodeEntries(es, enc), dec) ==
            Some(seq(|es|, i requires 0 <= i < |es| => NormalEntry(es[i], norm)))
  {
    if es == [] {
    } else {
      var rest := EncodeEntries(es[1..], enc);
      EntryRoundTrip(es[0], enc, dec, norm, rest);
      EntriesRoundTrip(es[1..], enc, dec, norm);
      VarintNotEmpty(AsU32(es[0].unsharedLen));
      var tail := es[1..];
      assert seq(|es|, i requires 0 <= i < |es| => NormalEntry(es[i], norm)) ==
             [NormalEntry(es[0], norm)] + seq(|tail|, i requires 0 <= i < |tail| => NormalEntry(tail[i], norm));
    }
  }
}
