/**
 Byte order. A host stores an unsigned integer in memory in its own order; the conversions
 swap bytes on little-endian hosts only, so that what is stored is big-endian everywhere.
 */
module Endian {

  newtype Byte = x: int | 0 <= x < 256

  datatype Host = Little | Big

  /** The number of values of an n-byte integer. */
  function Range(n: nat): (r: int)
    ensures r >= 1
  {
    if n == 0 then 1 else 256 * Range(n - 1)
  }

  /** The n bytes of x, least significant first. */
  function LE(n: nat, x: nat): (r: seq<Byte>)
    ensures |r| == n
  {
    if n == 0 then [] else [(x % 256) as Byte] + LE(n - 1, x / 256)
  }

  /** The n bytes of x, most significant first. */
  function BE(n: nat, x: nat): (r: seq<Byte>)
    ensures |r| == n
  {
    if n == 0 then [] else BE(n - 1, x / 256) + [(x % 256) as Byte]
  }

  function FromLE(b: seq<Byte>): nat {
    if b == [] then 0 else b[0] as nat + 256 * FromLE(b[1..])
  }

  function FromBE(b: seq<Byte>): nat {
    if b == [] then 0 else 256 * FromBE(b[..|b| - 1]) + b[|b| - 1] as nat
  }

  function Reverse(b: seq<Byte>): seq<Byte> {
    if b == [] then [] else Reverse(b[1..]) + [b[0]]
  }

  // ---------------------------------------------------------------- the code of the source

  /** The integer whose bytes are those of x in the opposite order. */
  function Bswap(n: nat, x: nat): nat { FromBE(LE(n, x)) }

  function Hton(host: Host, n: nat, x: nat): nat { if host.Little? then Bswap(n, x) else x }

  function Ntoh(host: Host, n: nat, x: nat): nat { Hton(host, n, x) }

  /** How a host lays an n-byte integer out in memory, and how it reads one. */
  function Store(host: Host, n: nat, x: nat): seq<Byte> { if host.Little? then LE(n, x) else BE(n, x) }

  function Load(host: Host, b: seq<Byte>): nat { if host.Little? then FromLE(b) else FromBE(b) }

  /** Casts between integers and their n-byte unsigned and signed types (two's complement). */
  function Unsigned(n: nat, x: int): nat { x % Range(n) }

  function Signed(n: nat, u: nat): int { if 2 * u < Range(n) then u else u - Range(n) }

  /** The bytes an integer becomes in a buffer, and the integer read from them. */
  function Encode(host: Host, n: nat, x: int): seq<Byte> { Store(host, n, Hton(host, n, Unsigned(n, x))) }

  function Decode(host: Host, b: seq<Byte>): int { Signed(|b|, Ntoh(host, |b|, Load(host, b))) }

  // ---------------------------------------------------------------- digits

  lemma {:induction false} BEInverse(n: nat, x: nat)
    requires x < Range(n)
    ensures FromBE(BE(n, x)) == x
  {
    if n > 0 {
      BEInverse(n - 1, x / 256);
      assert BE(n, x)[..n - 1] == BE(n - 1, x / 256);
    }
  }

  /** The first byte counts most. */
  lemma {:induction false} MostSignificantFirst(a: Byte, b: seq<Byte>)
    ensures FromBE([a] + b) == a as nat * Range(|b|) + FromBE(b)
  {
    var all := [a] + b;
    if b == [] {
      assert all[..0] == [];
    } else {
      var init := b[..|b| - 1];
      MostSignificantFirst(a, init);
      assert all[..|b|] == [a] + init;
      assert 256 * (a as nat * Range(|init|)) == a as nat * (256 * Range(|init|));
    }
  }

  lemma FourBytes(x: nat)
    requires x < 0x1_0000_0000
    ensures var b := BE(4, x);
      b[0] as nat * 0x1_000000 + b[1] as nat * 0x1_0000 + b[2] as nat * 0x100 + b[3] as nat == x
  {
    var b := BE(4, x);
    assert b[3] as nat == x % 256 && b[..3] == BE(3, x / 256);
    assert b[2] as nat == x / 256 % 256 && b[..2] == BE(2, x / 256 / 256);
    assert b[1] as nat == x / 256 / 256 % 256 && b[..1] == BE(1, x / 256 / 256 / 256);
    assert b[0] as nat == x / 256 / 256 / 256 % 256;
  }

  lemma {:induction false} FromBEInverse(b: seq<Byte>)
    ensures FromBE(b) < Range(|b|) && BE(|b|, FromBE(b)) == b
  {
    if b != [] {
      FromBEInverse(b[..|b| - 1]);
      var x, last := FromBE(b[..|b| - 1]), b[|b| - 1];
      assert (256 * x + last as nat) / 256 == x && (256 * x + last as nat) % 256 == last as nat;
      assert b == b[..|b| - 1] + [last];
    }
  }

  lemma {:induction false} FromLEInverse(b: seq<Byte>)
    ensures FromLE(b) < Range(|b|) && LE(|b|, FromLE(b)) == b
  {
    if b != [] {
      FromLEInverse(b[1..]);
      var x := FromLE(b[1..]);
      assert (b[0] as nat + 256 * x) / 256 == x && (b[0] as nat + 256 * x) % 256 == b[0] as nat;
    }
  }

  lemma {:induction false} LEIsReversed(n: nat, x: nat)
    ensures Reverse(LE(n, x)) == BE(n, x)
  {
    if n > 0 {
      LEIsReversed(n - 1, x / 256);
      assert LE(n, x)[1..] == LE(n - 1, x / 256);
    }
  }

  lemma {:induction false} StoreReversed(b: seq<Byte>)
    ensures LE(|b|, FromBE(b)) == Reverse(b)
  {
    if b != [] {
      var front, last := b[..|b| - 1], b[|b| - 1];
      StoreReversed(front);
      var x := FromBE(front);
      assert (256 * x + last as nat) / 256 == x && (256 * x + last as nat) % 256 == last as nat;
      assert b == front + [last];
      ReverseSnoc(front, last);
    }
  }

  lemma {:induction false} ReverseSnoc(b: seq<Byte>, c: Byte)
    ensures Reverse(b + [c]) == [c] + Reverse(b)
  {
    if b != [] {
      ReverseSnoc(b[1..], c);
      assert (b + [c])[1..] == b[1..] + [c];
    }
  }

  // ---------------------------------------------------------------- the conversions

  /** Swapping reverses the bytes in memory, and twice gives the integer back. */
  lemma BswapInvolutive(n: nat, x: nat)
    requires x < Range(n)
    ensures Bswap(n, x) < Range(n) && LE(n, Bswap(n, x)) == Reverse(LE(n, x))
    ensures Bswap(n, Bswap(n, x)) == x
  {
    FromBEInverse(LE(n, x));
    StoreReversed(LE(n, x));
    LEIsReversed(n, x);
    BEInverse(n, x);
  }

  /** Every host stores the converted integer most significant byte first. */
  lemma StoredBigEndian(host: Host, n: nat, x: nat)
    ensures Store(host, n, Hton(host, n, x)) == BE(n, x)
  {
    if host.Little? {
      StoreReversed(LE(n, x));
      LEIsReversed(n, x);
    }
  }

  /** Every host reads most-significant-first bytes as the integer they denote. */
  lemma LoadedBigEndian(host: Host, b: seq<Byte>)
    ensures Ntoh(host, |b|, Load(host, b)) == FromBE(b) < Range(|b|)
  {
    FromBEInverse(b);
    if host.Little? {
      FromLEInverse(b);
    }
  }

  /** The wire form is big-endian two's complement, whatever the host. */
  lemma WireForm(host: Host, n: nat, x: int)
    ensures Encode(host, n, x) == BE(n, x % Range(n))
    ensures FromBE(Encode(host, n, x)) == x % Range(n)
  {
    StoredBigEndian(host, n, Unsigned(n, x));
    BEInverse(n, Unsigned(n, x));
  }

  predicate InSignedRange(n: nat, x: int) { -Range(n) <= 2 * x < Range(n) }

  /** Narrowing is the identity on the signed range. */
  lemma SignedRange(n: nat, x: int)
    requires InSignedRange(n, x)
    ensures Signed(n, Unsigned(n, x)) == x
  {
    ModIs(x, Range(n), if x < 0 then -1 else 0);
  }

  lemma ModIs(x: int, r: int, q: int)
    requires r >= 1 && 0 <= x - q * r < r
    ensures x % r == x - q * r
  {
    var d := x / r - q;
    assert d * r == (x - q * r) - x % r by {
      assert x == r * (x / r) + x % r;
      assert d * r == (x / r) * r - q * r;
    }
    assert -r < d * r < r;
    assert d == 0;
  }

  /**
   What one host writes any host reads back: the signed low n bytes of the value, and so the
   value itself when it is in range.
   */
  lemma RoundTrip(writer: Host, reader: Host, n: nat, x: int)
    ensures |Encode(writer, n, x)| == n
    ensures Decode(reader, Encode(writer, n, x)) == Signed(n, Unsigned(n, x))
    ensures InSignedRange(n, x) ==> Decode(reader, Encode(writer, n, x)) == x
  {
    WireForm(writer, n, x);
    BEInverse(n, Unsigned(n, x));
    LoadedBigEndian(reader, Encode(writer, n, x));
    if InSignedRange(n, x) {
      SignedRange(n, x);
    }
  }

  // ---------------------------------------------------------------- sequences of integers

  datatype Int = Int(width: nat, value: int)

  function EncodeAll(host: Host, ints: seq<Int>): seq<Byte> {
    if ints == [] then [] else Encode(host, ints[0].width, ints[0].value) + EncodeAll(host, ints[1..])
  }

  /** Reads integers of the given widths from the front of the bytes, as far as they reach. */
  function DecodeAll(host: Host, widths: seq<nat>, b: seq<Byte>): seq<int> {
    if widths == [] || |b| < widths[0] then []
    else [Decode(host, b[..widths[0]])] + DecodeAll(host, widths[1..], b[widths[0]..])
  }

  function Widths(ints: seq<Int>): seq<nat> { seq(|ints|, i requires 0 <= i < |ints| => ints[i].width) }

  function Narrowed(ints: seq<Int>): seq<int> {
    seq(|ints|, i requires 0 <= i < |ints| => Signed(ints[i].width, Unsigned(ints[i].width, ints[i].value)))
  }

  /** Any mixed sequence of integers comes back, each narrowed to its width. */
  lemma {:induction false} MixedRoundTrip(writer: Host, reader: Host, ints: seq<Int>)
    ensures DecodeAll(reader, Widths(ints), EncodeAll(writer, ints)) == Narrowed(ints)
  {
    hide Encode, Decode;
    if ints != [] {
      var first, rest := Encode(writer, ints[0].width, ints[0].value), EncodeAll(writer, ints[1..]);
      RoundTrip(writer, reader, ints[0].width, ints[0].value);
      MixedRoundTrip(writer, reader, ints[1..]);
      Split(first, rest);
      Peel(ints);
      hide Signed, Unsigned, Widths, Narrowed;
    }
  }

  lemma Split(first: seq<Byte>, rest: seq<Byte>)
    ensures (first + rest)[..|first|] == first && (first + rest)[|first|..] == rest
  {
  }

  lemma Peel(ints: seq<Int>)
    requires ints != []
    ensures Widths(ints) == [ints[0].width] + Widths(ints[1..]) && Widths(ints)[1..] == Widths(ints[1..])
    ensures Narrowed(ints) == [Signed(ints[0].width, Unsigned(ints[0].width, ints[0].value))] + Narrowed(ints[1..])
  {
  }
}
