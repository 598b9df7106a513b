/** The wire primitives (Kafka protocol guide, section "Protocol Primitive Types"; tagged fields
    from KIP-482): what each write puts on the wire and what each read takes off it
    (pkg/protocol/encoding.go). */
module Wire {
  import opened Bytes
  import opened Wrappers
  import opened Varints
  import opened Bits

  datatype Tag = Tag(tag: nat, data: bytes)

  datatype Value =
    | Int8Value(i: int)
    | Int16Value(i: int)
    | Int32Value(i: int)
    | Int64Value(i: int)
    | UuidValue(id: bytes)
    | BoolValue(b: bool)
    | StringValue(s: bytes)
    | NullableStringValue(o: Option<bytes>)
    | CompactStringValue(s: bytes)
    | CompactNullableStringValue(o: Option<bytes>)
    | BytesValue(s: bytes)
    | CompactBytesValue(o: Option<bytes>)
    | UVarintValue(n: nat)
    | CompactArrayLenValue(i: int)
    | TagsValue(tags: seq<Tag>)

  datatype Kind = Int8 | Int16 | Int32 | Int64 | Uuid | Bool | Str | NullableStr | CompactStr | CompactNullableStr
                | Bytestr | CompactBytes | UVarint | CompactArrayLen | Tags

  function KindOf(v: Value): Kind {
    match v
    case Int8Value(_) => Int8
    case Int16Value(_) => Int16
    case Int32Value(_) => Int32
    case Int64Value(_) => Int64
    case UuidValue(_) => Uuid
    case BoolValue(_) => Bool
    case StringValue(_) => Str
    case NullableStringValue(_) => NullableStr
    case CompactStringValue(_) => CompactStr
    case CompactNullableStringValue(_) => CompactNullableStr
    case BytesValue(_) => Bytestr
    case CompactBytesValue(_) => CompactBytes
    case UVarintValue(_) => UVarint
    case CompactArrayLenValue(_) => CompactArrayLen
    case TagsValue(_) => Tags
  }

  // ---------------------------------------------------------------------- writing

  const MAX_STRING := 0x7fff

  function EncodeString(s: bytes): bytes {
    PutUint16(|s|) + s
  }

  /** Lengths of compact forms: one more than the length, zero for a null. */
  function EncodeCompactLength(length: int): bytes {
    EncodeUnsigned(if length < 0 then 0 else length + 1)
  }

  function EncodeCompact(o: Option<bytes>): bytes {
    if o.None? then EncodeCompactLength(-1) else EncodeCompactLength(|o.value|) + o.value
  }

  function EncodeTags(tags: seq<Tag>): bytes {
    if tags == [] then []
    else EncodeUnsigned(tags[0].tag) + (EncodeUnsigned(|tags[0].data|) + (tags[0].data + EncodeTags(tags[1..])))
  }

  function Encode(v: Value): bytes {
    match v
    case Int8Value(i) => [i % 256]
    case Int16Value(i) => PutUint16(i)
    case Int32Value(i) => PutUint32(i)
    case Int64Value(i) => PutUint64(i)
    case UuidValue(id) => id
    case BoolValue(b) => [if b then 1 else 0]
    case StringValue(s) => EncodeString(s)
    case NullableStringValue(o) => if o.None? then PutUint16(-1) else EncodeString(o.value)
    case CompactStringValue(s) => EncodeCompact(Some(s))
    case CompactNullableStringValue(o) => EncodeCompact(o)
    case BytesValue(s) => PutUint32(|s|) + s
    case CompactBytesValue(o) => EncodeCompact(o)
    case UVarintValue(n) => EncodeUnsigned(n)
    case CompactArrayLenValue(i) => EncodeCompactLength(i)
    case TagsValue(tags) => EncodeUnsigned(|tags|) + EncodeTags(tags)
  }

  predicate CompactFits(o: Option<bytes>) {
    o.Some? ==> |o.value| < TWO63
  }

  /** What the parameter types and the writer's own checks admit. A null array length is -1. */
  predicate InRange(v: Value) {
    match v
    case Int8Value(i) => -0x80 <= i < 0x80
    case Int16Value(i) => IsInt16(i)
    case Int32Value(i) => IsInt32(i)
    case Int64Value(i) => IsInt64(i)
    case UuidValue(id) => |id| == 16
    case BoolValue(_) => true
    case StringValue(s) => |s| <= MAX_STRING
    case NullableStringValue(o) => o.Some? ==> |o.value| <= MAX_STRING
    case CompactStringValue(s) => |s| < TWO63
    case CompactNullableStringValue(o) => CompactFits(o)
    case BytesValue(s) => |s| < TWO31
    case CompactBytesValue(o) => CompactFits(o)
    case UVarintValue(n) => n < TWO64
    case CompactArrayLenValue(i) => -1 <= i < TWO31
    case TagsValue(tags) =>
      |tags| < TWO64 && forall i :: 0 <= i < |tags| ==> tags[i].tag < TWO64 && |tags[i].data| < TWO63
  }

  // ---------------------------------------------------------------------- reading

  /** The next `n` bytes. A negative count slices backwards, which panics. */
  function Take(n: int, data: bytes): Result<(bytes, bytes)> {
    if |data| < n then Err(Malformed)
    else if n < 0 then Err(Panic)
    else Ok((data[..n], data[n..]))
  }

  function ToInt8(v: int): (r: int)
    ensures -0x80 <= r < 0x80
  {
    var u := v % 256; if u < 0x80 then u else u - 256
  }

  function ReadInt8(data: bytes): Result<(int, bytes)> {
    var b :- Take(1, data);
    Ok((ToInt8(b.0[0]), b.1))
  }

  function ReadInt16(data: bytes): Result<(int, bytes)> {
    var b :- Take(2, data);
    Ok((GetInt16(b.0), b.1))
  }

  function ReadInt32(data: bytes): Result<(int, bytes)> {
    var b :- Take(4, data);
    Ok((GetInt32(b.0), b.1))
  }

  function ReadInt64(data: bytes): Result<(int, bytes)> {
    var b :- Take(8, data);
    Ok((GetInt64(b.0), b.1))
  }

  function ReadBool(data: bytes): Result<(bool, bytes)> {
    var b :- Take(1, data);
    if b.0[0] == 0 then Ok((false, b.1)) else if b.0[0] == 1 then Ok((true, b.1)) else Err(Malformed)
  }

  function ReadString(data: bytes): Result<(bytes, bytes)> {
    var l :- ReadInt16(data);
    if l.0 < 0 then Err(Malformed) else Take(l.0, l.1)
  }

  function ReadNullableString(data: bytes): Result<(Option<bytes>, bytes)> {
    var l :- ReadInt16(data);
    if l.0 == -1 then Ok((None, l.1))
    else if l.0 < 0 then Err(Malformed)
    else
      var b :- Take(l.0, l.1);
      Ok((Some(b.0), b.1))
  }

  function ReadBytes(data: bytes): Result<(bytes, bytes)> {
    var l :- ReadInt32(data);
    if l.0 < 0 then Err(Malformed) else Take(l.0, l.1)
  }

  /** At most ten bytes, the tenth at most 1. */
  function ReadUVarint(data: bytes): (r: Result<(nat, bytes)>) {
    match Unsigned(data)
    case None => Err(Malformed)
    case Some((u, n)) => if n > 10 || (n == 10 && data[9] > 1) then Err(Malformed) else Ok((u, data[n..]))
  }

  /** -1 for a null. A length of 2^63 or more comes out negative, and so as a null, too. */
  function ReadCompactLength(data: bytes): Result<(int, bytes)> {
    var v :- ReadUVarint(data);
    Ok((if v.0 == 0 then -1 else ToInt64(v.0 - 1), v.1))
  }

  function ReadCompactString(data: bytes): Result<(bytes, bytes)> {
    var l :- ReadCompactLength(data);
    if l.0 < 0 then Err(Malformed) else Take(l.0, l.1)
  }

  /** Also how compact bytes are read. */
  function ReadCompactNullable(data: bytes): Result<(Option<bytes>, bytes)> {
    var l :- ReadCompactLength(data);
    if l.0 < 0 then Ok((None, l.1))
    else
      var b :- Take(l.0, l.1);
      Ok((Some(b.0), b.1))
  }

  function ReadCompactArrayLen(data: bytes): Result<(int, bytes)> {
    var v :- ReadUVarint(data);
    Ok((if v.0 == 0 then -1 else ToInt32(v.0 - 1), v.1))
  }

  function ReadTag(data: bytes): Result<(Tag, bytes)> {
    var tag :- ReadUVarint(data);
    var size :- ReadUVarint(tag.1);
    var b :- Take(ToInt64(size.0), size.1);
    Ok((Tag(tag.0, b.0), b.1))
  }

  function ReadTagList(n: nat, data: bytes): Result<(seq<Tag>, bytes)>
    decreases n
  {
    if n == 0 then Ok(([], data))
    else
      var t :- ReadTag(data);
      var more :- ReadTagList(n - 1, t.1);
      Ok(([t.0] + more.0, more.1))
  }

  function ReadTags(data: bytes): Result<(seq<Tag>, bytes)> {
    var n :- ReadUVarint(data);
    ReadTagList(n.0, n.1)
  }

  /** Which read matches which write. */
  function ReadAs(k: Kind, data: bytes): Result<(Value, bytes)> {
    match k
    case Int8 => var r :- ReadInt8(data); Ok((Int8Value(r.0), r.1))
    case Int16 => var r :- ReadInt16(data); Ok((Int16Value(r.0), r.1))
    case Int32 => var r :- ReadInt32(data); Ok((Int32Value(r.0), r.1))
    case Int64 => var r :- ReadInt64(data); Ok((Int64Value(r.0), r.1))
    case Uuid => var r :- Take(16, data); Ok((UuidValue(r.0), r.1))
    case Bool => var r :- ReadBool(data); Ok((BoolValue(r.0), r.1))
    case Str => var r :- ReadString(data); Ok((StringValue(r.0), r.1))
    case NullableStr => var r :- ReadNullableString(data); Ok((NullableStringValue(r.0), r.1))
    case CompactStr => var r :- ReadCompactString(data); Ok((CompactStringValue(r.0), r.1))
    case CompactNullableStr => var r :- ReadCompactNullable(data); Ok((CompactNullableStringValue(r.0), r.1))
    case Bytestr => var r :- ReadBytes(data); Ok((BytesValue(r.0), r.1))
    case CompactBytes => var r :- ReadCompactNullable(data); Ok((CompactBytesValue(r.0), r.1))
    case UVarint => var r :- ReadUVarint(data); Ok((UVarintValue(r.0), r.1))
    case CompactArrayLen => var r :- ReadCompactArrayLen(data); Ok((CompactArrayLenValue(r.0), r.1))
    case Tags => var r :- ReadTags(data); Ok((TagsValue(r.0), r.1))
  }

  // ------------------------------------------------------------------- round trips

  lemma TakeExactly(b: bytes, tail: bytes)
    ensures Take(|b|, b + tail) == Ok((b, tail))
  {
    assert (b + tail)[..|b|] == b && (b + tail)[|b|..] == tail;
  }

  /** A ten-byte varint fits 64 bits exactly when its last byte is at most 1. */
  lemma {:induction false} TenthByte(data: bytes, k: nat)
    requires Unsigned(data).Some? && Unsigned(data).value.1 == k + 1
    ensures data[k] < 128
    ensures Pow2(7 * k) * data[k] <= Unsigned(data).value.0 < Pow2(7 * k) * (data[k] + 1)
    decreases k
  {
    hide Pow2;
    if k == 0 {
      Pow2Zero();
    } else {
      TenthByte(data[1..], k - 1);
      Pow2Seven(7 * (k - 1));
      var p := Pow2(7 * (k - 1));
      var u := Unsigned(data[1..]).value.0;
      Scale(p, data[k], data[0] - 128, u);
    }
  }

  lemma Scale(p: nat, b: nat, low: nat, u: nat)
    requires low < 128 && p * b <= u < p * (b + 1)
    ensures (128 * p) * b <= low + 128 * u < (128 * p) * (b + 1)
  {
    assert (128 * p) * b == 128 * (p * b);
    assert (128 * p) * (b + 1) == 128 * (p * (b + 1));
  }

  lemma UVarintFits(data: bytes)
    ensures ReadUVarint(data).Ok? ==> ReadUVarint(data).value.0 < TWO64
    ensures Unsigned(data).Some? && Unsigned(data).value.0 < TWO64 && Unsigned(data).value.1 <= 10
            ==> ReadUVarint(data).Ok?
  {
    hide Pow2, Unsigned;
    if Unsigned(data).Some? && Unsigned(data).value.1 <= 10 {
      var (u, n) := Unsigned(data).value;
      Bounds();
      UnsignedBound(data);
      if n == 10 {
        TenthByte(data, 9);
        if data[9] >= 2 { assert Pow2(63) * data[9] >= Pow2(63) * 2; }
      } else {
        Pow2Grows(7 * n, 63);
      }
    }
  }

  lemma UVarintInverts(u: nat, tail: bytes)
    requires u < TWO64
    ensures ReadUVarint(EncodeUnsigned(u) + tail) == Ok((u, tail))
  {
    hide Pow2, EncodeUnsigned, Unsigned;
    UnsignedInverts(u, tail);
    EncodedLength(u, 10);
    Bounds();
    UVarintFits(EncodeUnsigned(u) + tail);
    assert (EncodeUnsigned(u) + tail)[|EncodeUnsigned(u)|..] == tail;
  }

  lemma CompactInverts(o: Option<bytes>, tail: bytes)
    requires CompactFits(o)
    ensures ReadCompactNullable(EncodeCompact(o) + tail) == Ok((o, tail))
    ensures o.Some? ==> ReadCompactString(EncodeCompact(o) + tail) == Ok((o.value, tail))
  {
    hide ReadUVarint, EncodeUnsigned;
    if o.None? {
      UVarintInverts(0, tail);
    } else {
      assert EncodeCompact(o) + tail == EncodeUnsigned(|o.value| + 1) + (o.value + tail);
      UVarintInverts(|o.value| + 1, o.value + tail);
      TakeExactly(o.value, tail);
    }
  }

  lemma StringInverts(s: bytes, tail: bytes)
    requires |s| <= MAX_STRING
    ensures ReadInt16(EncodeString(s) + tail) == Ok((|s|, s + tail)) && Take(|s|, s + tail) == Ok((s, tail))
  {
    hide PutUint16, GetInt16;
    assert EncodeString(s) + tail == PutUint16(|s|) + (s + tail);
    TakeExactly(PutUint16(|s|), s + tail);
    GetPut16(|s|);
    TakeExactly(s, tail);
  }

  lemma BytesInvert(s: bytes, tail: bytes)
    requires |s| < TWO31
    ensures ReadBytes((PutUint32(|s|) + s) + tail) == Ok((s, tail))
  {
    hide PutUint32, GetInt32;
    assert (PutUint32(|s|) + s) + tail == PutUint32(|s|) + (s + tail);
    TakeExactly(PutUint32(|s|), s + tail);
    GetPut32(|s|);
    TakeExactly(s, tail);
  }

  lemma {:induction false} TagsInvert(tags: seq<Tag>, tail: bytes)
    requires forall i :: 0 <= i < |tags| ==> tags[i].tag < TWO64 && |tags[i].data| < TWO63
    ensures ReadTagList(|tags|, EncodeTags(tags) + tail) == Ok((tags, tail))
  {
    hide ReadUVarint, EncodeUnsigned;
    if tags == [] {
      assert EncodeTags(tags) + tail == tail;
    } else {
      var t := tags[0];
      var rest := EncodeTags(tags[1..]) + tail;
      var sized := EncodeUnsigned(|t.data|) + (t.data + rest);
      assert EncodeTags(tags) + tail == EncodeUnsigned(t.tag) + sized;
      UVarintInverts(t.tag, sized);
      UVarintInverts(|t.data|, t.data + rest);
      TakeExactly(t.data, rest);
      TagsInvert(tags[1..], tail);
      assert [t] + tags[1..] == tags;
    }
  }

  lemma NumbersInvert(v: Value, tail: bytes)
    requires InRange(v)
    requires v.Int8Value? || v.Int16Value? || v.Int32Value? || v.Int64Value? || v.UuidValue? || v.BoolValue?
    ensures ReadAs(KindOf(v), Encode(v) + tail) == Ok((v, tail))
  {
    hide PutUint16, PutUint32, PutUint64, GetInt16, GetInt32, GetInt64;
    TakeExactly(Encode(v), tail);
    match v
    case Int16Value(i) => GetPut16(i);
    case Int32Value(i) => GetPut32(i);
    case Int64Value(i) => GetPut64(i);
    case _ =>
  }

  /** Every in-range value is read back by the matching read, which stops exactly at what follows. */
  lemma ValueInverts(v: Value, tail: bytes)
    requires InRange(v)
    ensures ReadAs(KindOf(v), Encode(v) + tail) == Ok((v, tail))
  {
    hide PutUint16, PutUint32, GetInt16, GetInt32, EncodeUnsigned, ReadUVarint, EncodeString, EncodeCompact,
         ReadCompactNullable, ReadCompactString, ReadBytes, Take, ReadTagList, EncodeTags;
    match v
    case StringValue(s) => StringInverts(s, tail);
    case NullableStringValue(o) => NullableStringInverts(o, tail);
    case CompactStringValue(s) => CompactInverts(Some(s), tail);
    case CompactNullableStringValue(o) => CompactInverts(o, tail);
    case BytesValue(s) => BytesInvert(s, tail);
    case CompactBytesValue(o) => CompactInverts(o, tail);
    case UVarintValue(n) => UVarintInverts(n, tail);
    case CompactArrayLenValue(i) => UVarintInverts(if i < 0 then 0 else i + 1, tail);
    case TagsValue(tags) =>
      assert Encode(v) + tail == EncodeUnsigned(|tags|) + (EncodeTags(tags) + tail);
      UVarintInverts(|tags|, EncodeTags(tags) + tail);
      TagsInvert(tags, tail);
    case _ => NumbersInvert(v, tail);
  }

  lemma NullableStringInverts(o: Option<bytes>, tail: bytes)
    requires o.Some? ==> |o.value| <= MAX_STRING
    ensures ReadNullableString((if o.None? then PutUint16(-1) else EncodeString(o.value)) + tail) == Ok((o, tail))
  {
    hide PutUint16, GetInt16, EncodeString;
    if o.None? {
      TakeExactly(PutUint16(-1), tail);
      GetPut16(-1);
    } else {
      StringInverts(o.value, tail);
    }
  }

  // --------------------------------------------------------------------- messages

  function EncodeAll(vs: seq<Value>): bytes {
    if vs == [] then [] else Encode(vs[0]) + EncodeAll(vs[1..])
  }

  function ReadAll(ks: seq<Kind>, data: bytes): Result<(seq<Value>, bytes)> {
    if ks == [] then Ok(([], data))
    else
      var v :- ReadAs(ks[0], data);
      var more :- ReadAll(ks[1..], v.1);
      Ok(([v.0] + more.0, more.1))
  }

  function KindsOf(vs: seq<Value>): (ks: seq<Kind>)
    ensures |ks| == |vs| && forall i :: 0 <= i < |vs| ==> ks[i] == KindOf(vs[i])
  {
    seq(|vs|, i requires 0 <= i < |vs| => KindOf(vs[i]))
  }

  /** The primitives are self-delimiting: for any sequence of in-range writes and any tail, the
      matching reads give the values back and stop exactly at the tail. */
  lemma {:induction false} MessageInverts(vs: seq<Value>, tail: bytes)
    requires forall i :: 0 <= i < |vs| ==> InRange(vs[i])
    ensures ReadAll(KindsOf(vs), EncodeAll(vs) + tail) == Ok((vs, tail))
  {
    hide ReadAs, Encode, InRange, KindOf;
    if vs == [] {
      assert EncodeAll(vs) + tail == tail;
    } else {
      assert EncodeAll(vs) + tail == Encode(vs[0]) + (EncodeAll(vs[1..]) + tail);
      ValueInverts(vs[0], EncodeAll(vs[1..]) + tail);
      MessageInverts(vs[1..], tail);
      assert KindsOf(vs)[1..] == KindsOf(vs[1..]);
      assert [vs[0]] + vs[1..] == vs;
    }
  }
}
