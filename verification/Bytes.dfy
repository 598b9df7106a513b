/** Bytes and the fixed-width big-endian integers that every format of the
    broker is made of. */
module Bytes {

  type byte = x: int | 0 <= x < 256
  type bytes = seq<byte>

  const TWO16 := 0x1_0000
  const TWO31 := 0x8000_0000
  const TWO32 := 0x1_0000_0000
  const TWO63 := 0x8000_0000_0000_0000
  const TWO64 := 0x1_0000_0000_0000_0000

  function Pow256(n: nat): (p: nat)
    ensures p > 0
    decreases n + 0
  {
    if n == 0 then 1 else 256 * Pow256(n - 1)
  }

  /** The `width` low-order bytes of `v`, most significant first. */
  function EncodeBE(v: nat, width: nat): (s: bytes)
    ensures |s| == width
    decreases width + 0
  {
    if width == 0 then [] else EncodeBE(v / 256, width - 1) + [v % 256]
  }

  function DecodeBE(s: bytes): (v: nat)
    ensures v < Pow256(|s|)
  {
    if s == [] then 0 else 256 * DecodeBE(s[..|s| - 1]) + s[|s| - 1]
  }

  lemma {:induction false} DecodeEncodeBE(v: nat, width: nat)
    requires v < Pow256(width)
    ensures DecodeBE(EncodeBE(v, width)) == v
    decreases width
  {
    if width > 0 {
      DecodeEncodeBE(v / 256, width - 1);
      assert EncodeBE(v, width)[..width - 1] == EncodeBE(v / 256, width - 1);
    }
  }

  lemma Widths()
    ensures Pow256(2) == TWO16 && Pow256(4) == TWO32 && Pow256(8) == TWO64
  {
    assert Pow256(1) == 256;
    assert Pow256(2) == TWO16;
    assert Pow256(3) == 0x100_0000;
    assert Pow256(4) == TWO32;
    assert Pow256(5) == 0x100_0000_0000;
    assert Pow256(6) == 0x1_0000_0000_0000;
    assert Pow256(7) == 0x100_0000_0000_0000;
  }

  predicate IsInt16(v: int) { -0x8000 <= v < 0x8000 }
  predicate IsInt32(v: int) { -TWO31 <= v < TWO31 }
  predicate IsInt64(v: int) { -TWO63 <= v < TWO63 }

  // Go's integer conversions: keep the low bits, read them as two's complement.
  function ToInt16(v: int): (r: int)
    ensures IsInt16(r) && (IsInt16(v) ==> r == v)
  {
    var u := v % TWO16; if u < 0x8000 then u else u - TWO16
  }

  function ToInt32(v: int): (r: int)
    ensures IsInt32(r) && (IsInt32(v) ==> r == v)
  {
    var u := v % TWO32; if u < TWO31 then u else u - TWO32
  }

  function ToInt64(v: int): (r: int)
    ensures IsInt64(r) && (IsInt64(v) ==> r == v)
  {
    var u := v % TWO64; if u < TWO63 then u else u - TWO64
  }

  function PutUint16(v: int): (s: bytes) ensures |s| == 2 { EncodeBE(v % TWO16, 2) }
  function PutUint32(v: int): (s: bytes) ensures |s| == 4 { EncodeBE(v % TWO32, 4) }
  function PutUint64(v: int): (s: bytes) ensures |s| == 8 { EncodeBE(v % TWO64, 8) }

  function GetInt16(s: bytes): (v: int) requires |s| == 2 { ToInt16(DecodeBE(s)) }
  function GetInt32(s: bytes): (v: int) requires |s| == 4 { ToInt32(DecodeBE(s)) }
  function GetInt64(s: bytes): (v: int) requires |s| == 8 { ToInt64(DecodeBE(s)) }

  /** Writing a value and reading it back truncates it to the width. */
  lemma GetPut16(v: int)
    ensures DecodeBE(PutUint16(v)) == v % TWO16 && GetInt16(PutUint16(v)) == ToInt16(v)
  {
    Widths(); DecodeEncodeBE(v % TWO16, 2);
  }

  lemma GetPut32(v: int)
    ensures DecodeBE(PutUint32(v)) == v % TWO32 && GetInt32(PutUint32(v)) == ToInt32(v)
  {
    Widths(); DecodeEncodeBE(v % TWO32, 4);
  }

  lemma GetPut64(v: int)
    ensures DecodeBE(PutUint64(v)) == v % TWO64 && GetInt64(PutUint64(v)) == ToInt64(v)
  {
    Widths(); DecodeEncodeBE(v % TWO64, 8);
  }
}
