/** Little-endian integers of a fixed number of bytes. */
module Fixed {
  import opened Keys
  import Arith

  function Encode(n: nat, count: nat): (r: seq<Byte>)
    ensures |r| == count
    decreases count
  {
    if count == 0 then [] else [n % 256] + Encode(n / 256, count - 1)
  }

  function Decode(bytes: seq<Byte>): nat {
    if bytes == [] then 0 else bytes[0] + 256 * Decode(bytes[1..])
  }

  function Limit(count: nat): (r: nat)
    ensures r > 0
  {
    if count == 0 then 1 else 256 * Limit(count - 1)
  }

  /** Decoding gives back what fits and otherwise its low bytes. */
  lemma {:induction false} RoundTrip(n: nat, count: nat)
    ensures Decode(Encode(n, count)) == n % Limit(count)
    decreases count
  {
    if count > 0 {
      RoundTrip(n / 256, count - 1);
      LowByte(n, Limit(count - 1));
      assert Encode(n, count)[1..] == Encode(n / 256, count - 1);
    }
  }

  /** Little endian: byte `i` is the digit of weight 256^i. */
  lemma {:induction false} ByteIsDigit(n: nat, count: nat, i: nat)
    requires i < count
    ensures Encode(n, count)[i] == n / Limit(i) % 256
    decreases count
  {
    if i > 0 {
      ByteIsDigit(n / 256, count - 1, i - 1);
      Arith.DivDiv(n, 256, Limit(i - 1), Limit(i));
    }
  }

  lemma LowByte(n: nat, m: nat)
    requires m > 0
    ensures n % (256 * m) == n % 256 + 256 * ((n / 256) % m)
  {
    var q, r := (n / 256) / m, (n / 256) % m;
    assert n / 256 == m * q + r;
    assert n == 256 * m * q + (n % 256 + 256 * r);
    Arith.DivModUnique(n, 256 * m, q, n % 256 + 256 * r);
  }
}
