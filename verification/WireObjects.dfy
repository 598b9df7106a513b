/** byteReader and byteWriter as objects (pkg/protocol/encoding.go): the reader advances a position,
    the writer appends to a buffer. What one writes, the other reads back and stops (Exchange). */
module WireObjects {
  import opened Bytes
  import opened Wrappers
  import opened Bits
  import opened Varints
  import opened Wire

  // ------------------------------------------------------------------- what a call promises

  /** A read gives what the definition gives, error included, and leaves what it leaves. */
  predicate Gives<T(==)>(spec: Result<(T, bytes)>, r: Result<T>, rest: bytes) {
    if spec.Ok? then r == Ok(spec.value.0) && rest == spec.value.1 else r == Err(spec.error)
  }

  function Mapped<T>(r: Result<T>, f: T -> Value): Result<Value> {
    if r.Ok? then Ok(f(r.value)) else Err(r.error)
  }

  /** If an in-range value of this kind was written at the front, the read returns it and stops
      right behind it, whatever follows. */
  ghost predicate Recovers(k: Kind, start: bytes, r: Result<Value>, rest: bytes) {
    forall v, tail :: KindOf(v) == k && InRange(v) && start == Encode(v) + tail ==> r == Ok(v) && rest == tail
  }

  ghost predicate Reads(k: Kind, start: bytes, r: Result<Value>, rest: bytes) {
    Gives(ReadAs(k, start), r, rest) && Recovers(k, start, r, rest)
  }

  lemma Recovered(k: Kind, start: bytes, r: Result<Value>, rest: bytes)
    requires Gives(ReadAs(k, start), r, rest)
    ensures Reads(k, start, r, rest)
  {
    hide ReadAs, Encode, InRange, KindOf;
    forall v, tail | KindOf(v) == k && InRange(v) && start == Encode(v) + tail ensures r == Ok(v) && rest == tail {
      ValueInverts(v, tail);
    }
  }

  /** The buffer grew by a value, and the matching read takes an in-range one off again, whatever
      is written after it. */
  ghost predicate Writes(v: Value, before: bytes, after: bytes) {
    && after == before + Encode(v)
    && (InRange(v) ==> forall tail: bytes :: ReadAs(KindOf(v), after[|before|..] + tail) == Ok((v, tail)))
  }

  lemma Written(v: Value, before: bytes)
    ensures Writes(v, before, before + Encode(v))
  {
    hide ReadAs, Encode, InRange, KindOf;
    var after := before + Encode(v);
    assert after[|before|..] == Encode(v);
    if InRange(v) {
      forall tail: bytes ensures ReadAs(KindOf(v), Encode(v) + tail) == Ok((v, tail)) {
        ValueInverts(v, tail);
      }
    }
  }

  // ------------------------------------------------------------------------ varints

  /** encoding/binary's Uvarint: the value and its length, or a length that is not positive. */
  method Uvarint(buf: bytes) returns (x: nat, n: int)
    ensures if n > 0 then n <= |buf| && ReadUVarint(buf) == Ok((x, buf[n..])) else ReadUVarint(buf) == Err(Malformed)
  {
    hide Pow2, Shifted, Or, And, Shl, Joined, Unsigned;
    x := 0;
    ghost var sum: nat := 0;
    JoinedStart(Unsigned(buf));
    assert buf[0..] == buf;
    UVarintFits(buf);
    Words();
    for i := 0 to |buf|
      invariant i <= 10 && sum < Pow2(7 * i) && (i <= 9 ==> x == sum)
      invariant Unsigned(buf) == Joined(sum, i, Unsigned(buf[i..]))
    {
      if i == 10 { JoinedLong(sum, i, buf[i..]); return 0, -(i + 1); }
      var b := buf[i];
      Collects(x, b, i, 64);
      SevenBits(b);
      assert buf[i..][1..] == buf[i + 1..];
      sum := x + Shifted(b % 128, 7 * i);
      if b < 0x80 {
        JoinedLast(x, i, buf[i..]);
        if i == 9 && b > 1 { return 0, -(i + 1); }
        ModSmall(sum, TWO64);
        return Or(x, Shl(b, 7 * i, 64)), i + 1;
      }
      JoinedStep(x, i, buf[i..]);
      x := Or(x, Shl(And(b, 0x7f), 7 * i, 64));
    }
    assert buf[|buf|..] == [];
    JoinedEnd(sum, |buf|);
    return 0, 0;
  }

  /** encoding/binary's PutUvarint: seven bits a byte, lowest first, and what Uvarint reads back. */
  method PutUvarint(v: nat) returns (s: bytes)
    ensures s == EncodeUnsigned(v)
  {
    hide Or;
    s := [];
    var x := v;
    while x >= 0x80
      invariant EncodeUnsigned(v) == s + EncodeUnsigned(x)
    {
      HighBitSet(x);
      var b: byte := Or(x % 256, 0x80);
      assert s + ([b] + EncodeUnsigned(x / 128)) == (s + [b]) + EncodeUnsigned(x / 128);
      s, x := s + [b], x / 128;
    }
    s := s + [x];
  }

  class ByteReader {
    const buf: bytes
    var pos: nat

    ghost predicate Valid()
      reads this
    {
      pos <= |buf|
    }

    ghost function Rest(): bytes
      reads this
      requires Valid()
    {
      buf[pos..]
    }

    constructor (b: bytes)
      ensures Valid() && Rest() == b
    {
      buf, pos := b, 0;
    }

    /** A read that fails does not move. The slice panic of a negative count is an error result. */
    method Read(n: int) returns (r: Result<bytes>)
      requires Valid()
      modifies this
      ensures Valid() && Gives(Take(n, old(Rest())), r, Rest())
      ensures r.Err? ==> pos == old(pos)
      ensures r == Err(Panic) <==> n < 0
    {
      if |buf| - pos < n { return Err(Malformed); }
      if n < 0 { return Err(Panic); }
      var start := pos;
      pos := pos + n;
      assert buf[start..][..n] == buf[start..pos];
      return Ok(buf[start..pos]);
    }

    method Int8() returns (r: Result<int>)
      requires Valid()
      modifies this
      ensures Valid() && Reads(Kind.Int8, old(Rest()), Mapped(r, i => Int8Value(i)), Rest())
    {
      ghost var start := Rest();
      var b := Read(1);
      r := if b.Ok? then Ok(ToInt8(b.value[0])) else Err(b.error);
      Recovered(Kind.Int8, start, Mapped(r, i => Int8Value(i)), Rest());
    }

    method Int16() returns (r: Result<int>)
      requires Valid()
      modifies this
      ensures Valid() && Reads(Kind.Int16, old(Rest()), Mapped(r, i => Int16Value(i)), Rest())
    {
      ghost var start := Rest();
      var b := Read(2);
      r := if b.Ok? then Ok(GetInt16(b.value)) else Err(b.error);
      Recovered(Kind.Int16, start, Mapped(r, i => Int16Value(i)), Rest());
    }

    method Int32() returns (r: Result<int>)
      requires Valid()
      modifies this
      ensures Valid() && Reads(Kind.Int32, old(Rest()), Mapped(r, i => Int32Value(i)), Rest())
    {
      ghost var start := Rest();
      var b := Read(4);
      r := if b.Ok? then Ok(GetInt32(b.value)) else Err(b.error);
      Recovered(Kind.Int32, start, Mapped(r, i => Int32Value(i)), Rest());
    }

    method Int64() returns (r: Result<int>)
      requires Valid()
      modifies this
      ensures Valid() && Reads(Kind.Int64, old(Rest()), Mapped(r, i => Int64Value(i)), Rest())
    {
      ghost var start := Rest();
      var b := Read(8);
      r := if b.Ok? then Ok(GetInt64(b.value)) else Err(b.error);
      Recovered(Kind.Int64, start, Mapped(r, i => Int64Value(i)), Rest());
    }

    method Uuid() returns (r: Result<bytes>)
      requires Valid()
      modifies this
      ensures Valid() && Reads(Kind.Uuid, old(Rest()), Mapped(r, s => UuidValue(s)), Rest())
    {
      ghost var start := Rest();
      r := Read(16);
      Recovered(Kind.Uuid, start, Mapped(r, s => UuidValue(s)), Rest());
    }

    method Bool() returns (r: Result<bool>)
      requires Valid()
      modifies this
      ensures Valid() && Reads(Kind.Bool, old(Rest()), Mapped(r, b => BoolValue(b)), Rest())
    {
      ghost var start := Rest();
      var b := Read(1);
      if b.Err? {
        r := Err(b.error);
      } else {
        match b.value[0]
        case 0 => r := Ok(false);
        case 1 => r := Ok(true);
        case _ => r := Err(Malformed);
      }
      Recovered(Kind.Bool, start, Mapped(r, b => BoolValue(b)), Rest());
    }

    method String() returns (r: Result<bytes>)
      requires Valid()
      modifies this
      ensures Valid() && Reads(Kind.Str, old(Rest()), Mapped(r, s => StringValue(s)), Rest())
    {
      hide GetInt16;
      ghost var start := Rest();
      var l := Int16();
      if l.Err? {
        r := Err(l.error);
      } else if l.value < 0 {
        r := Err(Malformed);
      } else {
        var b := Read(l.value);
        r := b;
      }
      Recovered(Kind.Str, start, Mapped(r, s => StringValue(s)), Rest());
    }

    method NullableString() returns (r: Result<Option<bytes>>)
      requires Valid()
      modifies this
      ensures Valid() && Reads(Kind.NullableStr, old(Rest()), Mapped(r, o => NullableStringValue(o)), Rest())
    {
      hide GetInt16;
      ghost var start := Rest();
      var l := Int16();
      if l.Err? {
        r := Err(l.error);
      } else if l.value == -1 {
        r := Ok(None);
      } else if l.value < 0 {
        r := Err(Malformed);
      } else {
        var b := Read(l.value);
        r := if b.Ok? then Ok(Some(b.value)) else Err(b.error);
      }
      Recovered(Kind.NullableStr, start, Mapped(r, o => NullableStringValue(o)), Rest());
    }

    method Bytes() returns (r: Result<bytes>)
      requires Valid()
      modifies this
      ensures Valid() && Reads(Kind.Bytestr, old(Rest()), Mapped(r, s => BytesValue(s)), Rest())
    {
      hide GetInt32;
      ghost var start := Rest();
      var l := Int32();
      if l.Err? {
        r := Err(l.error);
      } else if l.value < 0 {
        r := Err(Malformed);
      } else {
        var b := Read(l.value);
        r := b;
      }
      Recovered(Kind.Bytestr, start, Mapped(r, s => BytesValue(s)), Rest());
    }

    method UVarint() returns (r: Result<nat>)
      requires Valid()
      modifies this
      ensures Valid() && Reads(Kind.UVarint, old(Rest()), Mapped(r, n => UVarintValue(n)), Rest())
    {
      hide Unsigned;
      ghost var start := Rest();
      var v, n := Uvarint(buf[pos..]);
      if n <= 0 {
        r := Err(Malformed);
      } else {
        assert buf[pos..][n..] == buf[pos + n..];
        pos := pos + n;
        r := Ok(v);
      }
      Recovered(Kind.UVarint, start, Mapped(r, n => UVarintValue(n)), Rest());
    }

    method CompactLength() returns (r: Result<int>)
      requires Valid()
      modifies this
      ensures Valid() && Gives(ReadCompactLength(old(Rest())), r, Rest())
    {
      hide ReadUVarint;
      var v := UVarint();
      if v.Err? { return Err(v.error); }
      if v.value == 0 { return Ok(-1); }
      return Ok(ToInt64(v.value - 1));
    }

    method CompactString() returns (r: Result<bytes>)
      requires Valid()
      modifies this
      ensures Valid() && Reads(Kind.CompactStr, old(Rest()), Mapped(r, s => CompactStringValue(s)), Rest())
    {
      hide ReadCompactLength;
      ghost var start := Rest();
      var l := CompactLength();
      if l.Err? {
        r := Err(l.error);
      } else if l.value < 0 {
        r := Err(Malformed);
      } else {
        var b := Read(l.value);
        r := b;
      }
      Recovered(Kind.CompactStr, start, Mapped(r, s => CompactStringValue(s)), Rest());
    }

    method CompactNullableString() returns (r: Result<Option<bytes>>)
      requires Valid()
      modifies this
      ensures Valid() && Reads(Kind.CompactNullableStr, old(Rest()), Mapped(r, o => CompactNullableStringValue(o)),
                               Rest())
    {
      hide ReadCompactLength;
      ghost var start := Rest();
      var l := CompactLength();
      if l.Err? {
        r := Err(l.error);
      } else if l.value < 0 {
        r := Ok(None);
      } else {
        var b := Read(l.value);
        r := if b.Ok? then Ok(Some(b.value)) else Err(b.error);
      }
      Recovered(Kind.CompactNullableStr, start, Mapped(r, o => CompactNullableStringValue(o)), Rest());
    }

    method CompactBytes() returns (r: Result<Option<bytes>>)
      requires Valid()
      modifies this
      ensures Valid() && Reads(Kind.CompactBytes, old(Rest()), Mapped(r, o => CompactBytesValue(o)), Rest())
    {
      hide ReadCompactLength;
      ghost var start := Rest();
      var l := CompactLength();
      if l.Err? {
        r := Err(l.error);
      } else if l.value < 0 {
        r := Ok(None);
      } else {
        var b := Read(l.value);
        r := if b.Ok? then Ok(Some(b.value)) else Err(b.error);
      }
      Recovered(Kind.CompactBytes, start, Mapped(r, o => CompactBytesValue(o)), Rest());
    }

    method CompactArrayLen() returns (r: Result<int>)
      requires Valid()
      modifies this
      ensures Valid() && Reads(Kind.CompactArrayLen, old(Rest()), Mapped(r, i => CompactArrayLenValue(i)), Rest())
    {
      hide ReadUVarint;
      ghost var start := Rest();
      var v := UVarint();
      if v.Err? {
        r := Err(v.error);
      } else if v.value == 0 {
        r := Ok(-1);
      } else {
        r := Ok(ToInt32(v.value - 1));
      }
      Recovered(Kind.CompactArrayLen, start, Mapped(r, i => CompactArrayLenValue(i)), Rest());
    }

    /** Passes over a tag section: exactly the bytes a reader of its tags would consume. */
    method SkipTaggedFields() returns (r: Result<()>)
      requires Valid()
      modifies this
      ensures Valid()
      ensures match ReadTags(old(Rest()))
              case Ok((_, rest)) => r == Ok(()) && Rest() == rest
              case Err(e) => r == Err(e)
    {
      hide ReadUVarint;
      ghost var start := Rest();
      var count := UVarint();
      if count.Err? { return Err(count.error); }
      for i := 0 to count.value
        invariant Valid()
        invariant match ReadTagList(count.value - i, Rest())
                  case Ok((_, rest)) => ReadTags(start).Ok? && ReadTags(start).value.1 == rest
                  case Err(e) => ReadTags(start) == Err(e)
      {
        var tag := UVarint();
        if tag.Err? { return Err(tag.error); }
        var size := UVarint();
        if size.Err? { return Err(size.error); }
        if size.value != 0 {
          var b := Read(ToInt64(size.value));
          if b.Err? { return Err(b.error); }
        }
      }
      return Ok(());
    }

    /** The read for each kind. A tag section is passed over, so it yields nothing. */
    method ReadValue(k: Kind) returns (r: Result<Option<Value>>)
      requires Valid()
      modifies this
      ensures Valid()
      ensures match ReadAs(k, old(Rest()))
              case Ok((v, rest)) => r == Ok(if k.Tags? then None else Some(v)) && Rest() == rest
              case Err(e) => r == Err(e)
    {
      hide ReadAs, Recovers;
      ghost var start := Rest();
      var v: Result<Value>;
      match k {
        case Int8 => var x := this.Int8(); v := Mapped(x, i => Int8Value(i));
        case Int16 => var x := this.Int16(); v := Mapped(x, i => Int16Value(i));
        case Int32 => var x := this.Int32(); v := Mapped(x, i => Int32Value(i));
        case Int64 => var x := this.Int64(); v := Mapped(x, i => Int64Value(i));
        case Uuid => var x := this.Uuid(); v := Mapped(x, s => UuidValue(s));
        case Bool => var x := this.Bool(); v := Mapped(x, b => BoolValue(b));
        case Str => var x := this.String(); v := Mapped(x, s => StringValue(s));
        case NullableStr => var x := this.NullableString(); v := Mapped(x, o => NullableStringValue(o));
        case CompactStr => var x := this.CompactString(); v := Mapped(x, s => CompactStringValue(s));
        case CompactNullableStr =>
          var x := this.CompactNullableString();
          v := Mapped(x, o => CompactNullableStringValue(o));
        case Bytestr => var x := this.Bytes(); v := Mapped(x, s => BytesValue(s));
        case CompactBytes => var x := this.CompactBytes(); v := Mapped(x, o => CompactBytesValue(o));
        case UVarint => var x := this.UVarint(); v := Mapped(x, n => UVarintValue(n));
        case CompactArrayLen => var x := this.CompactArrayLen(); v := Mapped(x, i => CompactArrayLenValue(i));
        case Tags =>
          var skipped := SkipTaggedFields();
          TagsAs(start);
          return if skipped.Ok? then Ok(None) else Err(skipped.error);
      }
      return if v.Ok? then Ok(Some(v.value)) else Err(v.error);
    }
  }

  lemma TagsAs(start: bytes)
    ensures match ReadTags(start)
            case Ok((tags, rest)) => ReadAs(Tags, start) == Ok((TagsValue(tags), rest))
            case Err(e) => ReadAs(Tags, start) == Err(e)
  {
  }

  lemma CountWritten(n: nat, before: bytes, after: bytes)
    requires Writes(UVarintValue(n), before, after)
    ensures after == before + EncodeUnsigned(n)
  {
  }

  lemma TagsFront(s: bytes, tags: seq<Tag>)
    requires tags != []
    ensures s + EncodeTags(tags)
         == (s + (EncodeUnsigned(tags[0].tag) + (EncodeUnsigned(|tags[0].data|) + tags[0].data)))
            + EncodeTags(tags[1..])
  {
    hide EncodeUnsigned;
  }

  class ByteWriter {
    var buf: bytes

    constructor ()
      ensures buf == []
    {
      buf := [];
    }

    /** The raw append all writes are made of. */
    method Write(b: bytes)
      modifies this
      ensures buf == old(buf) + b
    {
      buf := buf + b;
    }

    method Int8(v: int)
      modifies this
      ensures Writes(Int8Value(v), old(buf), buf)
    {
      hide ReadAs, InRange, KindOf;
      Written(Int8Value(v), buf);
      Write([v % 256]);
    }

    method Int16(v: int)
      modifies this
      ensures Writes(Int16Value(v), old(buf), buf)
    {
      hide ReadAs, InRange, KindOf;
      Written(Int16Value(v), buf);
      Write(PutUint16(v));
    }

    method Int32(v: int)
      modifies this
      ensures Writes(Int32Value(v), old(buf), buf)
    {
      hide ReadAs, InRange, KindOf;
      Written(Int32Value(v), buf);
      Write(PutUint32(v));
    }

    method Int64(v: int)
      modifies this
      ensures Writes(Int64Value(v), old(buf), buf)
    {
      hide ReadAs, InRange, KindOf;
      Written(Int64Value(v), buf);
      Write(PutUint64(v));
    }

    method Uuid(id: bytes)
      modifies this
      ensures Writes(UuidValue(id), old(buf), buf)
    {
      hide ReadAs, InRange, KindOf;
      Written(UuidValue(id), buf);
      Write(id);
    }

    method Bool(v: bool)
      modifies this
      ensures Writes(BoolValue(v), old(buf), buf)
    {
      hide ReadAs, InRange, KindOf;
      Written(BoolValue(v), buf);
      if v { Write([1]); } else { Write([0]); }
    }

    /** A string over 32767 bytes panics before anything is written. */
    method String(v: bytes) returns (r: Result<()>)
      modifies this
      ensures r == if |v| <= MAX_STRING then Ok(()) else Err(Panic)
      ensures if r.Ok? then Writes(StringValue(v), old(buf), buf) else buf == old(buf)
    {
      hide PutUint16, ReadAs, InRange, KindOf;
      Written(StringValue(v), buf);
      if v == [] {
        Int16(0);
        assert buf == old(buf) + (PutUint16(0) + v);
        return Ok(());
      }
      if |v| > MAX_STRING { return Err(Panic); }
      Int16(|v|);
      Write(v);
      assert buf == old(buf) + (PutUint16(|v|) + v);
      return Ok(());
    }

    method NullableString(v: Option<bytes>) returns (r: Result<()>)
      modifies this
      ensures r == if v.Some? ==> |v.value| <= MAX_STRING then Ok(()) else Err(Panic)
      ensures if r.Ok? then Writes(NullableStringValue(v), old(buf), buf) else buf == old(buf)
    {
      hide PutUint16, ReadAs, InRange, KindOf;
      Written(NullableStringValue(v), buf);
      if v.None? {
        Int16(-1);
        return Ok(());
      }
      r := String(v.value);
    }

    method UVarint(v: nat)
      modifies this
      ensures Writes(UVarintValue(v), old(buf), buf)
    {
      hide EncodeUnsigned, ReadAs, InRange, KindOf;
      Written(UVarintValue(v), buf);
      var s := PutUvarint(v);
      Write(s);
    }

    method CompactLength(length: int)
      modifies this
      ensures buf == old(buf) + EncodeCompactLength(length)
    {
      hide EncodeUnsigned;
      if length < 0 {
        UVarint(0);
        return;
      }
      UVarint(length + 1);
    }

    method CompactString(v: bytes)
      modifies this
      ensures Writes(CompactStringValue(v), old(buf), buf)
    {
      hide EncodeCompactLength, ReadAs, InRange, KindOf;
      Written(CompactStringValue(v), buf);
      CompactLength(|v|);
      if |v| > 0 { Write(v); }
      assert buf == old(buf) + (EncodeCompactLength(|v|) + v);
    }

    method CompactNullableString(v: Option<bytes>)
      modifies this
      ensures Writes(CompactNullableStringValue(v), old(buf), buf)
    {
      hide EncodeCompactLength, ReadAs, InRange, KindOf;
      Written(CompactNullableStringValue(v), buf);
      if v.None? {
        CompactLength(-1);
        return;
      }
      CompactString(v.value);
    }

    method BytesWithLength(b: bytes)
      modifies this
      ensures Writes(BytesValue(b), old(buf), buf)
    {
      hide PutUint32, ReadAs, InRange, KindOf;
      Written(BytesValue(b), buf);
      Int32(|b|);
      Write(b);
      assert buf == old(buf) + (PutUint32(|b|) + b);
    }

    method CompactBytes(b: Option<bytes>)
      modifies this
      ensures Writes(CompactBytesValue(b), old(buf), buf)
    {
      hide EncodeCompactLength, ReadAs, InRange, KindOf;
      Written(CompactBytesValue(b), buf);
      if b.None? {
        CompactLength(-1);
        return;
      }
      CompactLength(|b.value|);
      if |b.value| > 0 { Write(b.value); }
      assert buf == old(buf) + (EncodeCompactLength(|b.value|) + b.value);
    }

    method CompactArrayLen(length: int)
      modifies this
      ensures Writes(CompactArrayLenValue(length), old(buf), buf)
    {
      hide EncodeCompactLength, ReadAs, InRange, KindOf;
      Written(CompactArrayLenValue(length), buf);
      CompactLength(length);
    }

    /** The count alone: an empty tag section when it is 0, the head of one otherwise. */
    method WriteTaggedFields(count: nat)
      modifies this
      ensures Writes(UVarintValue(count), old(buf), buf)
      ensures count == 0 ==> Writes(TagsValue([]), old(buf), buf)
    {
      hide EncodeUnsigned, ReadAs, InRange, KindOf;
      Written(TagsValue([]), buf);
      UVarint(count);
    }

    method WriteTag(t: Tag)
      modifies this
      ensures buf == old(buf) + (EncodeUnsigned(t.tag) + (EncodeUnsigned(|t.data|) + t.data))
    {
      hide EncodeUnsigned, ReadAs, InRange, KindOf;
      UVarint(t.tag);
      UVarint(|t.data|);
      Write(t.data);
    }

    /** A tag section, built from the primitives as KIP-482 has it. */
    method WriteTags(tags: seq<Tag>)
      modifies this
      ensures Writes(TagsValue(tags), old(buf), buf)
    {
      hide EncodeUnsigned, Writes;
      ghost var before := buf;
      WriteTaggedFields(|tags|);
      CountWritten(|tags|, before, buf);
      for i := 0 to |tags|
        invariant before + (EncodeUnsigned(|tags|) + EncodeTags(tags)) == buf + EncodeTags(tags[i..])
      {
        TagsFront(buf, tags[i..]);
        assert tags[i..][0] == tags[i] && tags[i..][1..] == tags[i + 1..];
        WriteTag(tags[i]);
      }
      assert tags[|tags|..] == [] && EncodeTags([]) == [];
      assert buf == before + Encode(TagsValue(tags));
      Written(TagsValue(tags), before);
    }

    /** The write for each value; only a string that is too long is refused. */
    method WriteValue(v: Value) returns (r: Result<()>)
      modifies this
      ensures InRange(v) ==> r.Ok?
      ensures if r.Ok? then Writes(v, old(buf), buf) else buf == old(buf)
    {
      hide Writes, Encode;
      r := Ok(());
      match v
      case Int8Value(i) => Int8(i);
      case Int16Value(i) => Int16(i);
      case Int32Value(i) => Int32(i);
      case Int64Value(i) => Int64(i);
      case UuidValue(id) => Uuid(id);
      case BoolValue(b) => Bool(b);
      case StringValue(s) => r := String(s);
      case NullableStringValue(o) => r := NullableString(o);
      case CompactStringValue(s) => CompactString(s);
      case CompactNullableStringValue(o) => CompactNullableString(o);
      case BytesValue(s) => BytesWithLength(s);
      case CompactBytesValue(o) => CompactBytes(o);
      case UVarintValue(n) => UVarint(n);
      case CompactArrayLenValue(i) => CompactArrayLen(i);
      case TagsValue(tags) => WriteTags(tags);
    }
  }

  // --------------------------------------------------------------------- the exchange

  /** What the reader of a value sees of it. */
  function Seen(v: Value): Option<Value> {
    if v.TagsValue? then None else Some(v)
  }

  lemma {:induction false} EncodeAllSnoc(vs: seq<Value>, v: Value)
    ensures EncodeAll(vs + [v]) == EncodeAll(vs) + Encode(v)
  {
    hide Encode;
    if vs == [] {
      assert vs + [v] == [v] && [v][1..] == [];
      assert EncodeAll([v]) == Encode(v) + [];
    } else {
      EncodeAllSnoc(vs[1..], v);
      assert (vs + [v])[0] == vs[0] && (vs + [v])[1..] == vs[1..] + [v];
    }
  }

  method WriteAll(writer: ByteWriter, vs: seq<Value>)
    requires forall i :: 0 <= i < |vs| ==> InRange(vs[i])
    modifies writer
    ensures writer.buf == old(writer.buf) + EncodeAll(vs)
  {
    hide InRange, Encode;
    assert vs[..0] == [];
    for i := 0 to |vs|
      invariant writer.buf == old(writer.buf) + EncodeAll(vs[..i])
    {
      EncodeAllSnoc(vs[..i], vs[i]);
      assert vs[..i + 1] == vs[..i] + [vs[i]];
      var r := writer.WriteValue(vs[i]);
    }
    assert vs[..|vs|] == vs;
  }

  /** Any in-range values written one after the other, with any bytes after them, are read back by
      the matching reads, in order, and the reader ends exactly at the bytes that follow. */
  method Exchange(vs: seq<Value>, tail: bytes) returns (seen: seq<Option<Value>>, rest: bytes)
    requires forall i :: 0 <= i < |vs| ==> InRange(vs[i])
    ensures |seen| == |vs| && (forall i :: 0 <= i < |vs| ==> seen[i] == Seen(vs[i])) && rest == tail
  {
    hide InRange, Encode, ReadAs, KindOf;
    var writer := new ByteWriter();
    WriteAll(writer, vs);
    writer.Write(tail);
    var reader := new ByteReader(writer.buf);
    seen := [];
    assert vs[0..] == vs;
    for i := 0 to |vs|
      invariant reader.Valid() && fresh(reader) && reader.Rest() == EncodeAll(vs[i..]) + tail
      invariant |seen| == i && forall j :: 0 <= j < i ==> seen[j] == Seen(vs[j])
    {
      assert vs[i..][0] == vs[i] && vs[i..][1..] == vs[i + 1..];
      assert reader.Rest() == Encode(vs[i]) + (EncodeAll(vs[i + 1..]) + tail);
      ValueInverts(vs[i], EncodeAll(vs[i + 1..]) + tail);
      KindTags(vs[i]);
      var v := reader.ReadValue(KindOf(vs[i]));
      seen := seen + [v.value];
    }
    assert vs[|vs|..] == [] && EncodeAll([]) + tail == tail;
    rest := reader.buf[reader.pos..];
  }

  lemma KindTags(v: Value)
    ensures KindOf(v).Tags? <==> v.TagsValue?
  {
  }
}
