/**
 * The byte formats of java.io.DataOutput and java.io.DataInput that the scalar types use
 * for their binary form: big-endian fixed-width integers, booleans, raw bytes and the
 * "modified UTF-8" of writeUTF / readUTF. Each format is a pair of functions (encode,
 * decode) with a round-trip lemma; DataOutput and DataInput are stream objects whose
 * methods append to, or consume from, a byte sequence as those functions say.
 */
module DataStream {
  import opened Java
  import opened JavaLang

  /** One byte on the wire, read unsigned. A Java byte[] holds the same bit patterns. */
  type Byte = b: int | 0 <= b < 0x100

  type Bytes = seq<Byte>

  /** A decoded value and the bytes that follow it. */
  datatype Parsed<+T> = Parsed(value: T, rest: Bytes)

  function Pow256(n: nat): (p: nat)
    ensures p >= 1
  {
    if n == 0 then 1 else 256 * Pow256(n - 1)
  }

  /** The n lowest bytes of x, most significant first. */
  function BigEndian(x: nat, n: nat): (r: Bytes)
    ensures |r| == n
  {
    if n == 0 then [] else BigEndian(x / 256, n - 1) + [x % 256]
  }

  /** The number a big-endian byte sequence denotes. */
  function Unsigned(bs: Bytes): nat
  {
    if |bs| == 0 then 0 else Unsigned(bs[..|bs| - 1]) * 256 + bs[|bs| - 1]
  }

  lemma {:induction false} UnsignedBigEndian(x: nat, n: nat)
    requires x < Pow256(n)
    ensures Unsigned(BigEndian(x, n)) == x
  {
    if n > 0 {
      var bs := BigEndian(x, n);
      assert bs[..n - 1] == BigEndian(x / 256, n - 1);
      UnsignedBigEndian(x / 256, n - 1);
    }
  }

  lemma UnsignedBound(bs: Bytes)
    ensures Unsigned(bs) < Pow256(|bs|)
  {
    if |bs| > 0 {
      UnsignedBound(bs[..|bs| - 1]);
    }
  }

  // ---------------------------------------------------------------------------
  // Fixed-width values

  /** writeBoolean: one byte, 1 or 0. */
  function EncodeBoolean(b: bool): Bytes { [if b then 1 else 0] }

  /** writeByte: the low 8 bits of v. */
  function EncodeByte(v: int): Bytes { [v % 0x100] }

  /** writeShort: the low 16 bits of v, high byte first. */
  function EncodeShort(v: int): Bytes { BigEndian(v % 0x1_0000, 2) }

  /** writeInt: the 32 bits of v, high byte first. */
  function EncodeInt(v: int): Bytes { BigEndian(v % 0x1_0000_0000, 4) }

  /** writeLong: the 64 bits of v, high byte first. */
  function EncodeLong(v: int): Bytes { BigEndian(v % 0x1_0000_0000_0000_0000, 8) }

  /** Reading n bytes as an unsigned number; EOFException when fewer remain. */
  function DecodeUnsigned(input: Bytes, n: nat): (r: Result<Parsed<nat>>)
    ensures r.Ok? <==> |input| >= n
    ensures r.Err? ==> r.error == EOFException
    ensures r.Ok? ==> r.value.rest == input[n..] && r.value.value < Pow256(n)
  {
    if |input| < n then Err(EOFException)
    else
      UnsignedBound(input[..n]);
      Ok(Parsed(Unsigned(input[..n]), input[n..]))
  }

  /** readBoolean: any non-zero byte is true. */
  function DecodeBoolean(input: Bytes): Result<Parsed<bool>>
  {
    if |input| < 1 then Err(EOFException) else Ok(Parsed(input[0] != 0, input[1..]))
  }

  /** readByte: one byte, signed. */
  function DecodeByte(input: Bytes): Result<Parsed<Int8>>
  {
    var p :- DecodeUnsigned(input, 1);
    Ok(Parsed(Wrap8(p.value), p.rest))
  }

  /** readUnsignedShort. */
  function DecodeUnsignedShort(input: Bytes): Result<Parsed<nat>>
  {
    DecodeUnsigned(input, 2)
  }

  /** readShort: two bytes, signed. */
  function DecodeShort(input: Bytes): Result<Parsed<Int16>>
  {
    var p :- DecodeUnsigned(input, 2);
    Ok(Parsed(Wrap16(p.value), p.rest))
  }

  /** readInt: four bytes, signed. */
  function DecodeInt(input: Bytes): Result<Parsed<Int32>>
  {
    var p :- DecodeUnsigned(input, 4);
    Ok(Parsed(Wrap32(p.value), p.rest))
  }

  /** readLong: eight bytes, signed. */
  function DecodeLong(input: Bytes): Result<Parsed<Int64>>
  {
    var p :- DecodeUnsigned(input, 8);
    Ok(Parsed(Wrap64(p.value), p.rest))
  }

  /** readFully into an array of length n: exactly n bytes or EOFException. */
  function DecodeFully(input: Bytes, n: nat): (r: Result<Parsed<Bytes>>)
    ensures r.Ok? ==> |r.value.value| == n && input == r.value.value + r.value.rest
  {
    if |input| < n then Err(EOFException) else Ok(Parsed(input[..n], input[n..]))
  }

  lemma BooleanRoundTrip(b: bool, rest: Bytes)
    ensures DecodeBoolean(EncodeBoolean(b) + rest) == Ok(Parsed(b, rest))
  {
    assert (EncodeBoolean(b) + rest)[1..] == rest;
  }

  lemma {:induction false} UnsignedRoundTrip(x: nat, n: nat, rest: Bytes)
    requires x < Pow256(n)
    ensures DecodeUnsigned(BigEndian(x, n) + rest, n) == Ok(Parsed(x, rest))
  {
    var input := BigEndian(x, n) + rest;
    assert input[..n] == BigEndian(x, n);
    assert input[n..] == rest;
    UnsignedBigEndian(x, n);
  }

  lemma Pow256Values()
    ensures Pow256(1) == 0x100 && Pow256(2) == 0x1_0000
    ensures Pow256(4) == 0x1_0000_0000 && Pow256(8) == 0x1_0000_0000_0000_0000
  {
    assert Pow256(2) == 0x1_0000;
    assert Pow256(4) == 0x1_0000_0000 by {
      assert Pow256(3) == 0x100_0000;
    }
    assert Pow256(8) == 0x1_0000_0000_0000_0000 by {
      assert Pow256(5) == 0x100_0000_0000;
      assert Pow256(6) == 0x1_0000_0000_0000;
      assert Pow256(7) == 0x100_0000_0000_0000;
    }
  }

  lemma ByteRoundTrip(v: Int8, rest: Bytes)
    ensures DecodeByte(EncodeByte(v) + rest) == Ok(Parsed(v, rest))
  {
    Pow256Values();
    assert EncodeByte(v) == BigEndian(v % 0x100, 1);
    UnsignedRoundTrip(v % 0x100, 1, rest);
    assert Wrap8(v % 0x100) == v;
  }

  lemma ShortRoundTrip(v: Int16, rest: Bytes)
    ensures DecodeShort(EncodeShort(v) + rest) == Ok(Parsed(v, rest))
  {
    Pow256Values();
    UnsignedRoundTrip(v % 0x1_0000, 2, rest);
    assert Wrap16(v % 0x1_0000) == v;
  }

  lemma IntRoundTrip(v: Int32, rest: Bytes)
    ensures DecodeInt(EncodeInt(v) + rest) == Ok(Parsed(v, rest))
  {
    Pow256Values();
    UnsignedRoundTrip(v % 0x1_0000_0000, 4, rest);
    assert Wrap32(v % 0x1_0000_0000) == v;
  }

  lemma LongRoundTrip(v: Int64, rest: Bytes)
    ensures DecodeLong(EncodeLong(v) + rest) == Ok(Parsed(v, rest))
  {
    Pow256Values();
    UnsignedRoundTrip(v % 0x1_0000_0000_0000_0000, 8, rest);
    assert Wrap64(v % 0x1_0000_0000_0000_0000) == v;
  }

  lemma FullyRoundTrip(bs: Bytes, rest: Bytes)
    ensures DecodeFully(bs + rest, |bs|) == Ok(Parsed(bs, rest))
  {
    assert (bs + rest)[..|bs|] == bs;
    assert (bs + rest)[|bs|..] == rest;
  }

  // ---------------------------------------------------------------------------
  // Modified UTF-8 (writeUTF / readUTF)

  /** The bytes writeUTF emits for one char: raw 0 takes two bytes, so none is ever 0x00. */
  function EncodeChar(c: JChar): (r: Bytes)
    ensures 1 <= |r| <= 3
  {
    if 1 <= c <= 0x7F then [c]
    else if c <= 0x7FF then [0xC0 + c / 64, 0x80 + c % 64]
    else [0xE0 + c / 4096, 0x80 + (c / 64) % 64, 0x80 + c % 64]
  }

  /** The body of a writeUTF record: each char encoded in turn. */
  function UtfBody(s: JString): Bytes
  {
    if |s| == 0 then [] else EncodeChar(s[0]) + UtfBody(s[1..])
  }

  /** writeUTF: a two-byte length, then the body; UTFDataFormatException above 65535 bytes. */
  function EncodeUTF(s: JString): (r: Result<Bytes>)
    ensures r.Ok? <==> |UtfBody(s)| <= 0xFFFF
    ensures r.Err? ==> r.error == UTFDataFormatException
  {
    var body := UtfBody(s);
    if |body| > 0xFFFF then Err(UTFDataFormatException) else Ok(BigEndian(|body|, 2) + body)
  }

  /** No char takes more than three bytes. */
  lemma {:induction false} UtfBodyLength(s: JString)
    ensures |UtfBody(s)| <= 3 * |s|
  {
    if |s| > 0 {
      UtfBodyLength(s[1..]);
    }
  }

  predicate IsContinuation(b: Byte) { b / 64 == 2 }

  /**
   * readUTF's decoding of a body of known length: the high nibble of the lead byte selects
   * a one-, two- or three-byte form; a missing or malformed continuation byte, or a lead
   * byte of another form, is a UTFDataFormatException.
   */
  function DecodeUtfBody(b: Bytes): (r: Result<JString>)
    ensures r.Err? ==> r.error == UTFDataFormatException
    decreases |b|
  {
    if |b| == 0 then Ok([])
    else
      var lead := b[0] / 16;
      if lead <= 7 then
        var tail :- DecodeUtfBody(b[1..]);
        Ok([b[0]] + tail)
      else if lead == 12 || lead == 13 then
        if |b| < 2 || !IsContinuation(b[1]) then Err(UTFDataFormatException)
        else
          var tail :- DecodeUtfBody(b[2..]);
          Ok([(b[0] as int % 32) * 64 + b[1] as int % 64] + tail)
      else if lead == 14 then
        if |b| < 3 || !IsContinuation(b[1]) || !IsContinuation(b[2]) then Err(UTFDataFormatException)
        else
          var tail :- DecodeUtfBody(b[3..]);
          Ok([(b[0] as int % 16) * 4096 + (b[1] as int % 64) * 64 + b[2] as int % 64] + tail)
      else Err(UTFDataFormatException)
  }

  /** readUTF: the length, then that many bytes decoded. */
  function DecodeUTF(input: Bytes): Result<Parsed<JString>>
  {
    var len :- DecodeUnsignedShort(input);
    var body :- DecodeFully(len.rest, len.value);
    var s :- DecodeUtfBody(body.value);
    Ok(Parsed(s, body.rest))
  }

  lemma TwoByteForm(c: JChar)
    requires c == 0 || 0x80 <= c <= 0x7FF
    ensures (0xC0 + c / 64) / 16 == 12 || (0xC0 + c / 64) / 16 == 13
    ensures IsContinuation(0x80 + c % 64)
    ensures ((0xC0 + c / 64) % 32) * 64 + (0x80 + c % 64) % 64 == c
  {
  }

  lemma ThreeByteForm(c: JChar)
    requires 0x800 <= c
    ensures (0xE0 + c / 4096) / 16 == 14
    ensures IsContinuation(0x80 + (c / 64) % 64) && IsContinuation(0x80 + c % 64)
    ensures ((0xE0 + c / 4096) % 16) * 4096 + ((0x80 + (c / 64) % 64) % 64) * 64 + (0x80 + c % 64) % 64 == c
  {
    assert c / 4096 == (c / 64) / 64;
  }

  lemma DecodeEncodeChar(c: JChar, rest: Bytes)
    ensures DecodeUtfBody(EncodeChar(c) + rest).Ok? == DecodeUtfBody(rest).Ok?
    ensures DecodeUtfBody(rest).Ok? ==>
      DecodeUtfBody(EncodeChar(c) + rest) == Ok([c] + DecodeUtfBody(rest).value)
  {
    var b := EncodeChar(c) + rest;
    if 1 <= c <= 0x7F {
      assert b[1..] == rest;
    } else if c <= 0x7FF {
      assert b[2..] == rest;
      TwoByteForm(c);
    } else {
      assert b[3..] == rest;
      ThreeByteForm(c);
    }
  }

  lemma {:induction false} UtfBodyRoundTrip(s: JString)
    ensures DecodeUtfBody(UtfBody(s)) == Ok(s)
  {
    if |s| > 0 {
      UtfBodyRoundTrip(s[1..]);
      DecodeEncodeChar(s[0], UtfBody(s[1..]));
      assert [s[0]] + s[1..] == s;
    }
  }

  /** Every string writeUTF accepts comes back unchanged from readUTF. */
  lemma UtfRoundTrip(s: JString, rest: Bytes)
    requires EncodeUTF(s).Ok?
    ensures DecodeUTF(EncodeUTF(s).value + rest) == Ok(Parsed(s, rest))
  {
    var body := UtfBody(s);
    assert EncodeUTF(s).value + rest == BigEndian(|body|, 2) + (body + rest);
    UnsignedRoundTrip(|body|, 2, body + rest);
    FullyRoundTrip(body, rest);
    UtfBodyRoundTrip(s);
  }

  // ---------------------------------------------------------------------------
  // Stream objects

  /** A DataOutput: everything written so far, in order. */
  class DataOutput {
    var written: Bytes

    constructor()
      ensures written == []
    {
      written := [];
    }

    method WriteBoolean(b: bool)
      modifies this
      ensures written == old(written) + EncodeBoolean(b)
    {
      written := written + EncodeBoolean(b);
    }

    method WriteByte(v: int)
      modifies this
      ensures written == old(written) + EncodeByte(v)
    {
      written := written + EncodeByte(v);
    }

    method WriteShort(v: int)
      modifies this
      ensures written == old(written) + EncodeShort(v)
    {
      written := written + EncodeShort(v);
    }

    method WriteInt(v: int)
      modifies this
      ensures written == old(written) + EncodeInt(v)
    {
      written := written + EncodeInt(v);
    }

    method WriteLong(v: int)
      modifies this
      ensures written == old(written) + EncodeLong(v)
    {
      written := written + EncodeLong(v);
    }

    /** write(byte[]): the whole array. */
    method Write(a: array<Byte>)
      modifies this
      ensures written == old(written) + old(a[..])
    {
      written := written + a[..];
    }

    /** writeUTF: nothing is written when the string is too long to encode. */
    method WriteUTF(s: JString) returns (r: Outcome)
      modifies this
      ensures EncodeUTF(s).Ok? ==> r == Pass && written == old(written) + EncodeUTF(s).value
      ensures EncodeUTF(s).Err? ==> r == Fail(UTFDataFormatException) && written == old(written)
    {
      var e := EncodeUTF(s);
      if e.Err? {
        return Fail(UTFDataFormatException);
      }
      written := written + e.value;
      return Pass;
    }
  }

  /**
   * A read that consumes as `decoded` says: on success it returns the decoded value and
   * leaves the rest of the input; on failure it throws the same exception.
   */
  predicate ReadAs<T(==)>(decoded: Result<Parsed<T>>, r: Result<T>, after: Bytes)
  {
    match decoded
    case Ok(p) => r == Ok(p.value) && after == p.rest
    case Err(e) => r == Err(e)
  }

  /** A DataInput: the bytes not yet read. */
  class DataInput {
    var remaining: Bytes

    constructor(input: Bytes)
      ensures remaining == input
    {
      remaining := input;
    }

    method ReadBoolean() returns (r: Result<bool>)
      modifies this
      ensures ReadAs(DecodeBoolean(old(remaining)), r, remaining)
    {
      var p := DecodeBoolean(remaining);
      if p.Err? {
        return Err(p.error);
      }
      remaining := p.value.rest;
      return Ok(p.value.value);
    }

    method ReadInt() returns (r: Result<Int32>)
      modifies this
      ensures ReadAs(DecodeInt(old(remaining)), r, remaining)
    {
      var p := DecodeInt(remaining);
      if p.Err? {
        return Err(p.error);
      }
      remaining := p.value.rest;
      return Ok(p.value.value);
    }

    method ReadShort() returns (r: Result<Int16>)
      modifies this
      ensures ReadAs(DecodeShort(old(remaining)), r, remaining)
    {
      var p := DecodeShort(remaining);
      if p.Err? {
        return Err(p.error);
      }
      remaining := p.value.rest;
      return Ok(p.value.value);
    }

    method ReadByte() returns (r: Result<Int8>)
      modifies this
      ensures ReadAs(DecodeByte(old(remaining)), r, remaining)
    {
      var p := DecodeByte(remaining);
      if p.Err? {
        return Err(p.error);
      }
      remaining := p.value.rest;
      return Ok(p.value.value);
    }

    method ReadLong() returns (r: Result<Int64>)
      modifies this
      ensures ReadAs(DecodeLong(old(remaining)), r, remaining)
    {
      var p := DecodeLong(remaining);
      if p.Err? {
        return Err(p.error);
      }
      remaining := p.value.rest;
      return Ok(p.value.value);
    }

    method ReadUTF() returns (r: Result<JString>)
      modifies this
      ensures ReadAs(DecodeUTF(old(remaining)), r, remaining)
    {
      var p := DecodeUTF(remaining);
      if p.Err? {
        return Err(p.error);
      }
      remaining := p.value.rest;
      return Ok(p.value.value);
    }

    /**
     * readFully: fills the whole array, byte by byte, or fails with EOFException once the
     * input runs out, after copying what was left to the front of the array.
     */
    method ReadFully(a: array<Byte>) returns (r: Outcome)
      modifies this, a
      ensures a.Length <= |old(remaining)| ==>
        r == Pass && a[..] == old(remaining)[..a.Length] && remaining == old(remaining)[a.Length..]
      ensures a.Length > |old(remaining)| ==>
        r == Fail(EOFException) && remaining == [] &&
        a[..|old(remaining)|] == old(remaining) && a[|old(remaining)|..] == old(a[..])[|old(remaining)|..]
    {
      if a.Length > |remaining| {
        var j := 0;
        while j < |remaining|
          invariant 0 <= j <= |remaining| < a.Length && remaining == old(remaining)
          invariant a[..j] == remaining[..j]
          invariant a[j..] == old(a[..])[j..]
        {
          a[j] := remaining[j];
          j := j + 1;
        }
        remaining := [];
        return Fail(EOFException);
      }
      var i := 0;
      while i < a.Length
        invariant 0 <= i <= a.Length
        invariant a.Length <= |remaining| && remaining == old(remaining)
        invariant a[..i] == remaining[..i]
      {
        a[i] := remaining[i];
        i := i + 1;
      }
      remaining := remaining[a.Length..];
      return Pass;
    }
  }
}
