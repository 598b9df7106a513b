/** Zigzag varints: the Kafka encoding, and the two readers of the repository, one over 64-bit
    and one over 32-bit integers (the decoders of the iceberg and sql processors). */
module Varints {
  import opened Bytes
  import opened Wrappers
  import opened Readers
  import opened Bits

  // --------------------------------------------------------------------- encoding

  function ZigZag(v: int): (u: nat)
    ensures IsInt64(v) ==> u < TWO64
  {
    if v >= 0 then 2 * v else -2 * v - 1
  }

  /** Seven bits at a time, least significant first; the high bit says that more follow. */
  function EncodeUnsigned(u: nat): (s: bytes)
    ensures s != []
  {
    if u < 128 then [u] else [128 + u % 128] + EncodeUnsigned(u / 128)
  }

  function EncodeVarint(v: int): (s: bytes)
    ensures s != []
  {
    EncodeUnsigned(ZigZag(v))
  }

  /** The number and the length of the varint at the front, if one ends there at all. */
  function Unsigned(data: bytes): (r: Option<(nat, nat)>)
    ensures r.Some? ==> 0 < r.value.1 <= |data|
  {
    if data == [] then None
    else if data[0] < 128 then Some((data[0], 1))
    else
      match Unsigned(data[1..])
      case None => None
      case Some((u, n)) => Some((data[0] - 128 + 128 * u, n + 1))
  }

  lemma {:induction false} UnsignedInverts(u: nat, tail: bytes)
    ensures Unsigned(EncodeUnsigned(u) + tail) == Some((u, |EncodeUnsigned(u)|))
  {
    if u >= 128 {
      UnsignedInverts(u / 128, tail);
      assert (EncodeUnsigned(u) + tail)[1..] == EncodeUnsigned(u / 128) + tail;
    }
  }

  /** A number takes at most `k` bytes exactly when it has at most `7 * k` bits. */
  lemma {:induction false} EncodedLength(u: nat, k: nat)
    requires k > 0
    ensures |EncodeUnsigned(u)| <= k <==> u < Pow2(7 * k)
  {
    Pow2Seven(7 * (k - 1));
    if u >= 128 && k > 1 {
      EncodedLength(u / 128, k - 1);
    } else if k == 1 {
      assert Pow2(7) == 128 * Pow2(0);
    } else {
      BigEnough(7 * (k - 1));
    }
  }

  lemma BigEnough(n: nat)
    ensures 128 * Pow2(n) >= 128
  {
  }

  lemma Bounds()
    ensures Pow2(28) == 0x1000_0000 && Pow2(35) == 0x8_0000_0000
    ensures Pow2(63) == TWO63 && Pow2(64) == TWO64 && Pow2(70) == 64 * TWO64
  {
    Pow2Seven(0); Pow2Seven(7); Pow2Seven(14); Pow2Seven(21); Pow2Seven(28);
    Pow2Seven(35); Pow2Seven(42); Pow2Seven(49); Pow2Seven(56); Pow2Seven(63);
    assert Pow2(64) == 2 * Pow2(63);
  }

  // -------------------------------------------------------------- the 64-bit reader

  function DecodeZigZag(value: nat): (v: int)
    requires value < TWO64
    ensures IsInt64(v)
  {
    if value % 2 == 0 then ToInt64(value / 2) else ToInt64(-ToInt64(value / 2 + 1))
  }

  /** The bits a 64-bit word keeps. */
  function Low64(u: nat): (r: nat)
    ensures r < TWO64 && (u < TWO64 ==> r == u)
  {
    u % TWO64
  }

  /** The value read and what is left: the number modulo 2^64, at most ten bytes long. */
  function Varint64(data: bytes): (r: Result<(int, bytes)>)
    ensures r.Ok? ==> IsInt64(r.value.0) && |r.value.1| < |data|
  {
    match Unsigned(data)
    case None => Err(Malformed)
    case Some((u, n)) => if n > 10 then Err(Malformed) else Ok((DecodeZigZag(Low64(u)), data[n..]))
  }

  lemma ZigZagInverts(v: int)
    requires IsInt64(v)
    ensures DecodeZigZag(ZigZag(v)) == v
  {
  }

  /** The 64-bit reader inverts the encoding of every 64-bit integer and stops where it ends. */
  lemma Varint64Inverts(v: int, tail: bytes)
    requires IsInt64(v)
    ensures Varint64(EncodeVarint(v) + tail) == Ok((v, tail))
  {
    hide Pow2, DecodeZigZag;
    var u := ZigZag(v);
    UnsignedInverts(u, tail);
    EncodedLength(u, 10);
    Bounds();
    ZigZagInverts(v);
    assert (EncodeUnsigned(u) + tail)[|EncodeUnsigned(u)|..] == tail;
  }

  // -------------------------------------------------------------- the 32-bit reader

  /** An arithmetic shift right, and a complement when the low bit is set. */
  function ZigZagDecode32(value: int): (v: int)
    requires IsInt32(value)
    ensures IsInt32(v)
  {
    if value % 2 == 0 then value / 2 else -(value / 2) - 1
  }

  function Varint32(data: bytes): (r: Result<(int, bytes)>)
    ensures r.Ok? ==> IsInt32(r.value.0) && |r.value.1| < |data|
  {
    match Unsigned(data)
    case None => Err(Malformed)
    case Some((u, n)) => if n > 5 then Err(Malformed) else Ok((ZigZagDecode32(ToInt32(u)), data[n..]))
  }

  /** Within 31 bits the sign bit stays clear and the two decodings agree; beyond, never. */
  lemma ZigZagsAgree(u: nat)
    requires u < TWO64
    ensures ZigZagDecode32(ToInt32(u)) == DecodeZigZag(u) <==> u < TWO31
  {
    if u < TWO31 {
      assert ToInt32(u) == u;
    } else if u < TWO32 {
      assert ToInt32(u) == u - TWO32;
    }
  }

  lemma {:induction false} UnsignedBound(data: bytes)
    ensures Unsigned(data).Some? ==> Unsigned(data).value.0 < Pow2(7 * Unsigned(data).value.1)
  {
    if data != [] && data[0] >= 128 {
      UnsignedBound(data[1..]);
      if Unsigned(data[1..]).Some? { Pow2Seven(7 * Unsigned(data[1..]).value.1); }
    } else {
      Pow2Seven(0);
    }
  }

  /** Where both readers stand on any input at all: they agree exactly when the varint is at most
      five bytes long and its value lies in [-2^30, 2^30). */
  lemma ReadersAgreeExactlyWhen(data: bytes)
    requires Varint64(data).Ok?
    ensures Varint32(data) == Varint64(data)
       <==> Unsigned(data).value.1 <= 5 && -0x4000_0000 <= Varint64(data).value.0 < 0x4000_0000
  {
    hide Pow2, Unsigned, DecodeZigZag, ZigZagDecode32;
    var (u, n) := Unsigned(data).value;
    if n <= 5 {
      UnsignedBound(data);
      Pow2Grows(7 * n, 35);
      Bounds();
      ZigZagsAgree(u);
      ThirtyOneBits(u);
    }
  }

  lemma ThirtyOneBits(u: nat)
    requires u < TWO64
    ensures u < TWO31 <==> -0x4000_0000 <= DecodeZigZag(u) < 0x4000_0000
  {
  }

  /** The 32-bit reader inverts the encoding exactly on [-2^30, 2^30). */
  lemma Varint32InvertsExactlyWhen(v: int, tail: bytes)
    requires IsInt64(v)
    ensures Varint32(EncodeVarint(v) + tail) == Ok((v, tail)) <==> -0x4000_0000 <= v < 0x4000_0000
  {
    hide Pow2, Unsigned, Varint32, Varint64;
    var data := EncodeVarint(v) + tail;
    Varint64Inverts(v, tail);
    UnsignedInverts(ZigZag(v), tail);
    EncodedLength(ZigZag(v), 5);
    Bounds();
    ReadersAgreeExactlyWhen(data);
  }

  // --------------------------------------------------------------------- the loops

  /** The number so far, `k` bytes of it, and the number still to come. */
  function Joined(value: nat, k: nat, rest: Option<(nat, nat)>): Option<(nat, nat)> {
    match rest
    case None => None
    case Some((u, n)) => Some((value + Shifted(u, 7 * k), k + n))
  }

  /** One more byte of a varint that goes on. */
  lemma JoinedStep(value: nat, k: nat, rest: bytes)
    requires rest != [] && rest[0] >= 128 && value < Pow2(7 * k)
    ensures Joined(value, k, Unsigned(rest))
            == Joined(value + Shifted(rest[0] - 128, 7 * k), k + 1, Unsigned(rest[1..]))
    ensures value + Shifted(rest[0] - 128, 7 * k) < Pow2(7 * (k + 1))
  {
    hide Pow2, Shifted;
    ShiftedFits(value, rest[0] - 128, k);
    match Unsigned(rest[1..])
    case None =>
    case Some((u, n)) => ShiftedStep(rest[0] - 128, u, k);
  }

  lemma ShiftedStep(low: nat, u: nat, k: nat)
    ensures Shifted(low + 128 * u, 7 * k) == Shifted(low, 7 * k) + Shifted(u, 7 * (k + 1))
  {
    hide Pow2;
    Pow2Seven(7 * k);
    assert 7 * (k + 1) == 7 * k + 7;
    Distribute(Pow2(7 * k), low, u);
  }

  lemma ShiftedFits(value: nat, low: nat, k: nat)
    requires low < 128 && value < Pow2(7 * k)
    ensures value + Shifted(low, 7 * k) < Pow2(7 * (k + 1))
  {
    hide Pow2;
    Pow2Seven(7 * k);
    assert 7 * (k + 1) == 7 * k + 7;
    Fits(value, Pow2(7 * k), low);
  }

  lemma Distribute(p: nat, low: nat, u: nat)
    ensures p * (low + 128 * u) == p * low + (128 * p) * u
  {
    assert p * (low + 128 * u) == p * low + p * (128 * u);
    assert p * (128 * u) == (128 * p) * u;
  }

  lemma Fits(value: nat, p: nat, low: nat)
    requires low < 128
    ensures value < p ==> value + p * low < 128 * p
  {
    assert p * low <= p * 127;
  }

  /** The other places a loop over the bytes can be in: at the start, at the last byte, at the end
      of the input, past the longest varint. */
  lemma JoinedStart(u: Option<(nat, nat)>)
    ensures Joined(0, 0, u) == u && Pow2(7 * 0) == 1
  {
  }

  lemma JoinedLast(value: nat, k: nat, rest: bytes)
    requires rest != [] && rest[0] < 128
    ensures Joined(value, k, Unsigned(rest)) == Some((value + Shifted(rest[0], 7 * k), k + 1))
  {
  }

  lemma JoinedEnd(value: nat, k: nat)
    ensures Joined(value, k, Unsigned([])).None?
  {
  }

  lemma JoinedLong(value: nat, k: nat, rest: bytes)
    ensures var r := Joined(value, k, Unsigned(rest)); r.Some? ==> r.value.1 > k
  {
  }

  /** The loop's `value |= (b & 0x7f) << shift` in a word of `width` bits. */
  lemma Collects(value: nat, b: byte, k: nat, width: nat)
    requires value < Pow2(7 * k) && 7 * k <= width
    ensures var sum := value + Shifted(b % 128, 7 * k);
            && sum < Pow2(7 * (k + 1))
            && Or(value, Shl(And(b, 0x7f), 7 * k, width)) == sum % Pow2(width)
            && (7 * (k + 1) <= width ==> sum % Pow2(width) == sum)
    ensures And(b, 0x80) == 0 <==> b < 128
  {
    hide Pow2, Shifted, Or, And, Shl;
    var bits := b % 128;
    SevenBits(b);
    OrShl(value, bits, 7 * k, width);
    ShiftedFits(value, bits, k);
    if 7 * (k + 1) <= width {
      Pow2Grows(7 * (k + 1), width);
      ModSmall(value + Shifted(bits, 7 * k), Pow2(width));
    }
  }

  method ReadVarint64(reader: Reader) returns (r: Result<int>)
    requires reader.Valid()
    modifies reader
    ensures reader.Valid()
    ensures match Varint64(old(reader.Rest()))
            case Ok((v, rest)) => r == Ok(v) && reader.Rest() == rest
            case Err(e) => r == Err(e)
  {
    hide Pow2, Shifted, Or, And, Shl, Joined, DecodeZigZag, Low64, Unsigned;
    var value: nat, shift: nat := 0, 0;
    ghost var start, k: nat := reader.Rest(), 0;
    JoinedStart(Unsigned(start));
    Words();
    while true
      invariant reader.Valid() && shift == 7 * k <= 63 && value < Pow2(7 * k)
      invariant k <= |start| && reader.Rest() == start[k..]
      invariant Unsigned(start) == Joined(value, k, Unsigned(reader.Rest()))
      decreases 70 - shift
    {
      ghost var rest, before := reader.Rest(), value;
      var b := reader.ReadByte();
      if b.None? { JoinedEnd(value, k); return Err(Malformed); }
      Collects(value, b.value, k, 64);
      ghost var sum := value + Shifted(b.value % 128, 7 * k);
      value := Or(value, Shl(And(b.value, 0x7f), shift, 64));
      if And(b.value, 0x80) == 0 {
        JoinedLast(before, k, rest);
        LowIs(sum);
        return Ok(DecodeZigZag(value));
      }
      JoinedStep(before, k, rest);
      shift, k := shift + 7, k + 1;
      if shift > 63 { JoinedLong(sum, k, reader.Rest()); return Err(Malformed); }
    }
  }

  method ReadVarint32(reader: Reader) returns (r: Result<int>)
    requires reader.Valid()
    modifies reader
    ensures reader.Valid()
    ensures match Varint32(old(reader.Rest()))
            case Ok((v, rest)) => r == Ok(v) && reader.Rest() == rest
            case Err(e) => r == Err(e)
  {
    hide Pow2, Shifted, Or, And, Shl, Joined, ZigZagDecode32, ToInt32, Unsigned;
    var value: nat, shift: nat := 0, 0;
    ghost var start, k: nat := reader.Rest(), 0;
    JoinedStart(Unsigned(start));
    Words();
    while true
      invariant reader.Valid() && shift == 7 * k <= 28 && value < Pow2(7 * k)
      invariant k <= |start| && reader.Rest() == start[k..]
      invariant Unsigned(start) == Joined(value, k, Unsigned(reader.Rest()))
      decreases 35 - shift
    {
      ghost var rest, before := reader.Rest(), value;
      var b := reader.ReadByte();
      if b.None? { JoinedEnd(value, k); return Err(Malformed); }
      Collects(value, b.value, k, 32);
      ghost var sum := value + Shifted(b.value % 128, 7 * k);
      value := Or(value, Shl(And(b.value, 0x7f), shift, 32));
      if And(b.value, 0x80) == 0 {
        JoinedLast(before, k, rest);
        LowIs32(sum);
        return Ok(ZigZagDecode32(ToInt32(value)));
      }
      JoinedStep(before, k, rest);
      shift, k := shift + 7, k + 1;
      if shift > 28 { JoinedLong(sum, k, reader.Rest()); return Err(Malformed); }
    }
  }

  lemma Words()
    ensures Pow2(64) == TWO64 && Pow2(32) == TWO32
  {
    Bounds();
    assert Pow2(32) == 16 * Pow2(28) by {
      assert Pow2(29) == 2 * Pow2(28);
      assert Pow2(30) == 4 * Pow2(28);
      assert Pow2(31) == 8 * Pow2(28);
    }
  }

  lemma LowIs(u: nat)
    ensures Low64(u) == u % TWO64
  {
  }

  lemma LowIs32(u: nat)
    ensures ToInt32(u % TWO32) == ToInt32(u)
  {
  }
}
