/**
 Unsigned integers as field headers hold them (compact-encoding's uint): one
 byte up to 252, else a mark and 2, 4 or 8 bytes, little endian.
 */
module Varint {
  import opened Options

  type Byte = n: int | 0 <= n < 256
  type Bytes = seq<Byte>

  const LIMIT := 0x1_0000_0000_0000_0000

  /** A number, and how many bytes it took. */
  datatype Read = Read(value: nat, size: nat)

  function LittleEndian(n: nat, k: nat): (b: Bytes)
    ensures |b| == k
  {
    if k == 0 then [] else [n % 256] + LittleEndian(n / 256, k - 1)
  }

  function FromLittleEndian(b: Bytes): nat {
    if b == [] then 0 else b[0] + 256 * FromLittleEndian(b[1..])
  }

  function Power256(k: nat): nat {
    if k == 0 then 1 else 256 * Power256(k - 1)
  }

  lemma {:induction false} LittleEndianRoundTrip(n: nat, k: nat)
    requires n < Power256(k)
    ensures FromLittleEndian(LittleEndian(n, k)) == n
  {
    if k > 0 {
      LittleEndianRoundTrip(n / 256, k - 1);
    }
  }

  lemma Powers()
    ensures Power256(2) == 0x1_0000 && Power256(4) == 0x1_0000_0000 && Power256(8) == LIMIT
  {
    assert Power256(3) == 256 * Power256(2) && Power256(5) == 256 * Power256(4);
    assert Power256(6) == 256 * Power256(5) && Power256(7) == 256 * Power256(6);
  }

  function EncodeUint(n: nat): (b: Bytes)
    requires n < LIMIT
    ensures b != []
  {
    if n <= 0xfc then [n]
    else if n <= 0xffff then [0xfd] + LittleEndian(n, 2)
    else if n <= 0xffff_ffff then [0xfe] + LittleEndian(n, 4)
    else [0xff] + LittleEndian(n, 8)
  }

  /** How many bytes follow the first. */
  function Extra(first: Byte): nat {
    if first <= 0xfc then 0 else if first == 0xfd then 2 else if first == 0xfe then 4 else 8
  }

  /** The number at the front of `b`; None: it runs out of bounds. */
  function DecodeUint(b: Bytes): (r: Option<Read>)
    ensures r.Some? ==> 0 < r.value.size <= |b|
  {
    if b == [] || |b| < 1 + Extra(b[0]) then None
    else if Extra(b[0]) == 0 then Some(Read(b[0], 1))
    else Some(Read(FromLittleEndian(b[1..1 + Extra(b[0])]), 1 + Extra(b[0])))
  }

  lemma UintRoundTrip(n: nat, rest: Bytes)
    requires n < LIMIT
    ensures DecodeUint(EncodeUint(n) + rest) == Some(Read(n, |EncodeUint(n)|))
  {
    Powers();
    var k := if n <= 0xfc then 0 else if n <= 0xffff then 2 else if n <= 0xffff_ffff then 4 else 8;
    var b := EncodeUint(n) + rest;
    if k > 0 {
      LittleEndianRoundTrip(n, k);
      assert b[1..1 + k] == LittleEndian(n, k);
    }
  }

  /** What is read depends on the bytes read only. */
  lemma UintIsLocal(b: Bytes, rest: Bytes)
    requires DecodeUint(b).Some?
    ensures DecodeUint(b[..DecodeUint(b).value.size] + rest) == DecodeUint(b)
  {
    var size := DecodeUint(b).value.size;
    var c := b[..size] + rest;
    assert c[0] == b[0];
    assert size > 1 ==> c[1..size] == b[1..size];
  }
}
