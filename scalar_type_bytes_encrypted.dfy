/**
 * ScalarTypeBytesEncrypted: a byte[] type that encrypts on the way into the database and
 * decrypts on the way out, delegating the JDBC work to a wrapped bytes type. Its binary
 * form is a presence flag, a 4-byte length and the raw (unencrypted) bytes.
 */
module ScalarTypeBytesEncrypted {
  import opened Java
  import opened JavaLang
  import opened DataStream

  /** The contents of a Java byte[], whose length always fits in an int. */
  type ByteArray = b: Bytes | |b| < 0x8000_0000

  /** DataEncryptSupport: an encrypt and a decrypt function whose workings are not modelled. */
  datatype EncryptSupport = EncryptSupport(
    encrypt: Option<ByteArray> -> Option<ByteArray>,
    decrypt: Option<ByteArray> -> Option<ByteArray>)

  /** The wrapped bytes type, seen through the members this type delegates to. */
  datatype BytesBase = BytesBase(
    jdbcType: int,
    dateTimeCapable: bool,
    jdbcNative: bool,
    parse: JString -> Result<Option<ByteArray>>,
    convertFromMillis: Int64 -> Result<Option<ByteArray>>)

  predicate IsMutable() { false }

  predicate IsDirty(v: Option<ByteArray>) { false }

  lemma NeverMutableNorDirty(v: Option<ByteArray>)
    ensures !IsMutable() && !IsDirty(v)
  {
  }

  /** getJdbcType: the base bytes type's code; encryption does not change the column type. */
  function JdbcType(base: BytesBase): (code: int)
    ensures code == base.jdbcType
  {
    base.jdbcType
  }

  /** bind: the base type binds the encrypted value, never the plain one. */
  function BoundValue(support: EncryptSupport, v: Option<ByteArray>): (bound: Option<ByteArray>)
    ensures bound == support.encrypt(v)
  {
    support.encrypt(v)
  }

  /** read: the base type's value, decrypted. */
  function Read(support: EncryptSupport, fromBase: Option<ByteArray>): (v: Option<ByteArray>)
    ensures v == support.decrypt(fromBase)
  {
    support.decrypt(fromBase)
  }

  /** With a decrypt that undoes encrypt, what was bound reads back as it was. */
  lemma BindReadRoundTrip(support: EncryptSupport, v: Option<ByteArray>)
    requires support.decrypt(support.encrypt(v)) == v
    ensures Read(support, BoundValue(support, v)) == v
  {
  }

  /** format and formatValue are never used for this type and throw. */
  function FormatValue(v: ByteArray): (r: Result<JString>)
    ensures r.Err? && r.error == RuntimeException("Not used")
  {
    Err(RuntimeException("Not used"))
  }

  /** parse: delegated to the base bytes type. */
  function Parse(base: BytesBase, s: JString): (r: Result<Option<ByteArray>>)
    ensures r == base.parse(s)
  {
    base.parse(s)
  }

  /** convertFromMillis: delegated to the base bytes type. */
  function ConvertFromMillis(base: BytesBase, millis: Int64): (r: Result<Option<ByteArray>>)
    ensures r == base.convertFromMillis(millis)
  {
    base.convertFromMillis(millis)
  }

  /** The bytes writeData emits: a presence flag, then writeInt of the length, then the bytes. */
  function WriteData(v: Option<ByteArray>): (bs: Bytes)
    ensures v.None? ==> bs == [0]
    ensures v.Some? ==> |bs| == 5 + |v.value| && bs[0] == 1 && bs[5..] == v.value
    ensures v.Some? ==> DecodeInt(bs[1..]).Ok? && DecodeInt(bs[1..]).value.value == |v.value|
  {
    match v
    case None => EncodeBoolean(false)
    case Some(b) =>
      var bs := EncodeBoolean(true) + EncodeInt(|b|) + b;
      assert bs[1..] == EncodeInt(|b|) + b;
      IntRoundTrip(|b|, b);
      bs
  }

  /**
   * What readData consumes and returns: null after a false flag; otherwise a length, a
   * NegativeArraySizeException if it is negative, then exactly that many bytes.
   */
  function ReadData(input: Bytes): (r: Result<Parsed<Option<ByteArray>>>)
    ensures |input| == 0 ==> r == Err(EOFException)
    ensures r.Err? ==> r.error == EOFException || r.error == NegativeArraySizeException
    ensures r.Ok? ==> (r.value.value.None? <==> input[0] == 0)
    ensures r.Ok? && r.value.value.None? ==> r.value.rest == input[1..]
    ensures r.Ok? && r.value.value.Some? ==>
      |input| >= 5 + |r.value.value.value| && input[5..5 + |r.value.value.value|] == r.value.value.value &&
      r.value.rest == input[5 + |r.value.value.value|..]
  {
    var flag :- DecodeBoolean(input);
    if !flag.value then Ok(Parsed(None, flag.rest))
    else
      var len :- DecodeInt(flag.rest);
      if len.value < 0 then Err(NegativeArraySizeException)
      else
        var body :- DecodeFully(len.rest, len.value);
        var bytes: ByteArray := body.value;
        Ok(Parsed(Some(bytes), body.rest))
  }

  lemma DataRoundTrip(v: Option<ByteArray>, rest: Bytes)
    ensures ReadData(WriteData(v) + rest) == Ok(Parsed(v, rest))
  {
    match v
    case None =>
      BooleanRoundTrip(false, rest);
    case Some(b) =>
      assert WriteData(v) + rest == EncodeBoolean(true) + (EncodeInt(|b|) + (b + rest));
      BooleanRoundTrip(true, EncodeInt(|b|) + (b + rest));
      IntRoundTrip(|b|, b + rest);
      FullyRoundTrip(b, rest);
  }

  lemma WriteDataAfter(before: Bytes, b: ByteArray)
    ensures before + WriteData(Some(b)) == before + EncodeBoolean(true) + EncodeInt(|b|) + b
  {
  }

  method WriteDataTo(output: DataOutput, v: Option<array<Byte>>)
    requires v.Some? ==> v.value.Length < 0x8000_0000
    modifies output
    ensures output.written == old(output.written) + WriteData(if v.Some? then Some(v.value[..]) else None)
  {
    match v
    case None =>
      output.WriteBoolean(false);
    case Some(a) =>
      ghost var before := output.written;
      ghost var bytes := a[..];
      output.WriteBoolean(true);
      output.WriteInt(a.Length);
      output.Write(a);
      WriteDataAfter(before, bytes);
  }

  /** readData allocates an array of the length read and fills it with readFully. */
  method ReadDataFrom(input: DataInput) returns (r: Result<Option<array<Byte>>>)
    modifies input
    ensures r.Ok? && r.value.Some? ==> fresh(r.value.value)
    ensures ReadData(old(input.remaining)).Ok? <==> r.Ok?
    ensures ReadData(old(input.remaining)).Err? ==> r == Err(ReadData(old(input.remaining)).error)
    ensures r.Ok? ==>
      var p := ReadData(old(input.remaining)).value;
      input.remaining == p.rest &&
      (r.value.None? <==> p.value.None?) &&
      (r.value.Some? ==> r.value.value[..] == p.value.value)
  {
    var flag := input.ReadBoolean();
    if flag.Err? {
      return Err(flag.error);
    }
    if !flag.value {
      return Ok(None);
    }
    var len := input.ReadInt();
    if len.Err? {
      return Err(len.error);
    }
    if len.value < 0 {
      return Err(NegativeArraySizeException);
    }
    var a := new Byte[len.value];
    var filled := input.ReadFully(a);
    if filled.Fail? {
      return Err(filled.error);
    }
    return Ok(Some(a));
  }
}
