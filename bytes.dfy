/**
 * Byte-level primitives behind `struct.unpack('<Q', ...)`, `struct.unpack('<i', ...)`
 * and `binascii.hexlify`: little-endian unsigned values, 32-bit two's complement and
 * lowercase hexadecimal text.
 */
module Bytes {
  import opened Wrappers

  type Byte = b: int | 0 <= b < 256

  const Two31: nat := 0x8000_0000
  const Two32: nat := 0x1_0000_0000

  /** 256^n, the number of distinct values an n-byte field can hold. */
  function Pow256(n: nat): (r: nat)
    ensures r >= 1
    ensures n >= 1 ==> r >= 256
  {
    if n == 0 then 1 else 256 * Pow256(n - 1)
  }

  /** The unsigned value of `s` read little-endian: s[0] is the least significant byte. */
  function LeUnsigned(s: seq<Byte>): (r: nat)
    ensures r < Pow256(|s|)
  {
    if s == [] then 0 else s[0] + 256 * LeUnsigned(s[1..])
  }

  /** The n-byte little-endian encoding of `v`. */
  function LeBytes(v: nat, n: nat): (s: seq<Byte>)
    requires v < Pow256(n)
    ensures |s| == n
  {
    if n == 0 then [] else [v % 256] + LeBytes(v / 256, n - 1)
  }

  /** Encoding then decoding gives back the value. */
  lemma {:induction false} LeUnsignedOfLeBytes(v: nat, n: nat)
    requires v < Pow256(n)
    ensures LeUnsigned(LeBytes(v, n)) == v
  {
    if n > 0 {
      LeUnsignedOfLeBytes(v / 256, n - 1);
      assert LeBytes(v, n)[1..] == LeBytes(v / 256, n - 1);
    }
  }

  /** Decoding then re-encoding at the same width gives back the bytes. */
  lemma {:induction false} LeBytesOfLeUnsigned(s: seq<Byte>)
    ensures LeBytes(LeUnsigned(s), |s|) == s
  {
    if s != [] {
      LeBytesOfLeUnsigned(s[1..]);
      var v := LeUnsigned(s);
      assert v % 256 == s[0] && v / 256 == LeUnsigned(s[1..]);
    }
  }

  /** `struct.unpack('<I', b)`: four bytes, least significant first. */
  function LeUint32(b: seq<Byte>): (r: nat)
    requires |b| == 4
    ensures r < Two32
  {
    b[0] as int + 0x100 * b[1] as int + 0x1_0000 * b[2] as int + 0x100_0000 * b[3] as int
  }

  /** A 6-byte little-endian unsigned field. */
  function LeUint48(b: seq<Byte>): (r: nat)
    requires |b| == 6
    ensures r < 0x1_0000_0000_0000
  {
    b[0] as int + 0x100 * b[1] as int + 0x1_0000 * b[2] as int + 0x100_0000 * b[3] as int
    + 0x1_0000_0000 * b[4] as int + 0x100_0000_0000 * b[5] as int
  }

  /** `struct.unpack('<Q', b)`: eight bytes, least significant first. */
  function LeUint64(b: seq<Byte>): (r: nat)
    requires |b| == 8
    ensures r < 0x1_0000_0000_0000_0000
  {
    b[0] as int + 0x100 * b[1] as int + 0x1_0000 * b[2] as int + 0x100_0000 * b[3] as int
    + 0x1_0000_0000 * b[4] as int + 0x100_0000_0000 * b[5] as int
    + 0x1_0000_0000_0000 * b[6] as int + 0x100_0000_0000_0000 * b[7] as int
  }

  /** Widening a 6-byte field with the two zero bytes `b'\x00\x00'` keeps its value. */
  lemma ZeroPad48(b: seq<Byte>)
    requires |b| == 6
    ensures LeUint64(b + [0, 0]) == LeUint48(b)
    ensures LeUint48(b) < 0x1_0000_0000_0000
  {
    var p := b + [0, 0];
    assert p[6] == 0 && p[7] == 0;
    assert forall i :: 0 <= i < 6 ==> p[i] == b[i];
  }

  /** One step of LeUnsigned on the suffix starting at k. */
  lemma LeUnsignedFrom(b: seq<Byte>, k: nat)
    requires k < |b|
    ensures LeUnsigned(b[k..]) == b[k] + 256 * LeUnsigned(b[k + 1..])
  {
    assert b[k..][1..] == b[k + 1..];
  }

  /** The fixed-width readers agree with the general little-endian value. */
  lemma {:induction false} LeFixedWidths(b: seq<Byte>)
    requires |b| == 4 || |b| == 6 || |b| == 8
    ensures |b| == 4 ==> LeUint32(b) == LeUnsigned(b)
    ensures |b| == 6 ==> LeUint48(b) == LeUnsigned(b)
    ensures |b| == 8 ==> LeUint64(b) == LeUnsigned(b)
  {
    assert b[0..] == b;
    assert b[|b|..] == [];
    LeUnsignedFrom(b, 0);
    LeUnsignedFrom(b, 1);
    LeUnsignedFrom(b, 2);
    LeUnsignedFrom(b, 3);
    if |b| > 4 {
      LeUnsignedFrom(b, 4);
      LeUnsignedFrom(b, 5);
    }
    if |b| > 6 {
      LeUnsignedFrom(b, 6);
      LeUnsignedFrom(b, 7);
    }
  }

  /** The signed 32-bit integer whose two's-complement bit pattern is `u`. */
  function Signed32(u: nat): (r: int)
    requires u < Two32
    ensures -(Two31 as int) <= r < Two31
    ensures r < 0 <==> u >= Two31
  {
    if u < Two31 then u else u - Two32
  }

  /** The two's-complement bit pattern of a signed 32-bit integer. */
  function Unsigned32(x: int): (u: nat)
    requires -(Two31 as int) <= x < Two31
    ensures u < Two32
  {
    if x >= 0 then x else x + Two32
  }

  /** Reading back the bit pattern of a signed 32-bit integer gives the integer. */
  lemma Signed32OfUnsigned32(x: int)
    requires -(Two31 as int) <= x < Two31
    ensures Signed32(Unsigned32(x)) == x
  {
  }

  /** Re-encoding the signed reading of a 32-bit pattern gives the pattern. */
  lemma Unsigned32OfSigned32(u: nat)
    requires u < Two32
    ensures Unsigned32(Signed32(u)) == u
  {
  }

  /** `struct.unpack('<i', b)`: a 4-byte little-endian two's-complement integer. */
  function LeSigned32(b: seq<Byte>): (r: int)
    requires |b| == 4
    ensures -(Two31 as int) <= r < Two31
    ensures r < 0 <==> b[3] >= 0x80
  {
    Signed32(LeUint32(b))
  }

  /** Lowercase hexadecimal digit of a nibble, as `binascii.hexlify` writes it. */
  function HexDigit(d: nat): (c: char)
    requires d < 16
    ensures '0' <= c <= '9' || 'a' <= c <= 'f'
  {
    if d < 10 then (d + 48) as char else (d + 87) as char
  }

  /** The nibble a hexadecimal digit stands for; None for any other character. */
  function HexValue(c: char): (r: Option<nat>)
    ensures r.Some? ==> r.value < 16
  {
    if '0' <= c <= '9' then Some(c as int - 48)
    else if 'a' <= c <= 'f' then Some(c as int - 87)
    else None
  }

  lemma HexValueOfDigit(d: nat)
    requires d < 16
    ensures HexValue(HexDigit(d)) == Some(d)
  {
  }

  /** `binascii.hexlify(s).decode('utf-8')`: two lowercase digits per byte, high nibble first. */
  function Hexlify(s: seq<Byte>): (h: string)
    ensures |h| == 2 * |s|
  {
    if s == [] then "" else [HexDigit(s[0] / 16), HexDigit(s[0] % 16)] + Hexlify(s[1..])
  }

  /** Characters 2i and 2i+1 of the text are the high and low nibble of byte i. */
  lemma {:induction false} HexlifyAt(s: seq<Byte>, i: nat)
    requires i < |s|
    ensures Hexlify(s)[2 * i] == HexDigit(s[i] / 16)
    ensures Hexlify(s)[2 * i + 1] == HexDigit(s[i] % 16)
  {
    if i > 0 {
      HexlifyAt(s[1..], i - 1);
      assert Hexlify(s)[2..] == Hexlify(s[1..]);
    }
  }

  /** Lowercase hex decoding, the inverse of Hexlify: None on odd length or a non-digit. */
  function Unhexlify(h: string): (r: Option<seq<Byte>>)
    ensures r.Some? ==> 2 * |r.value| == |h|
  {
    if h == [] then Some([])
    else if |h| == 1 then None
    else
      match (HexValue(h[0]), HexValue(h[1]), Unhexlify(h[2..]))
      case (Some(hi), Some(lo), Some(rest)) => Some([16 * hi + lo] + rest)
      case _ => None
  }

  /** The serial-number text determines the bytes it was made from. */
  lemma {:induction false} UnhexlifyHexlify(s: seq<Byte>)
    ensures Unhexlify(Hexlify(s)) == Some(s)
  {
    if s != [] {
      var h := Hexlify(s);
      assert h[2..] == Hexlify(s[1..]);
      UnhexlifyHexlify(s[1..]);
      HexValueOfDigit(s[0] / 16);
      HexValueOfDigit(s[0] % 16);
      assert [16 * (s[0] / 16) + s[0] % 16] + s[1..] == s;
    }
  }
}
