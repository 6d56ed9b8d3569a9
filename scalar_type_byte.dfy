/**
 * ScalarTypeByte: java.lang.Byte stored in a TINYINT column. formatValue gives its decimal
 * text, but parse, convertFromMillis and the JSON read and write only throw.
 */
module ScalarTypeByte {
  import opened Java
  import opened JavaLang
  import opened DataStream
  import opened ScalarCommon

  const JDBC_TYPE: int := TINYINT
  const JDBC_NATIVE: bool := true
  const DATE_TIME_CAPABLE: bool := false

  /** bind: an SQL null of this type's own code for null, otherwise setByte. */
  function Bind(v: Option<Int8>): (call: BindCall<Int8>)
    ensures call.SetNull? <==> v.None?
    ensures call.SetNull? ==> call.sqlType == JDBC_TYPE
    ensures v.Some? ==> call == Set(SetByte, v.value)
  {
    match v
    case None => SetNull(TINYINT)
    case Some(x) => Set(SetByte, x)
  }

  /** The bytes writeData emits: a presence flag, then the value as writeByte does. */
  function WriteData(v: Option<Int8>): (bs: Bytes)
    ensures v.None? ==> bs == [0]
    ensures v.Some? ==> |bs| == 2 && bs[0] == 1
  {
    match v
    case None => EncodeBoolean(false)
    case Some(x) => EncodeBoolean(true) + EncodeByte(x)
  }

  /** What readData consumes and returns: null after a false flag, else readByte. */
  function ReadData(input: Bytes): (r: Result<Parsed<Option<Int8>>>)
    ensures r.Err? <==> |input| == 0 || (input[0] != 0 && |input| < 2)
    ensures r.Err? ==> r.error == EOFException
    ensures r.Ok? ==> (r.value.value.None? <==> input[0] == 0)
    ensures r.Ok? && r.value.value.None? ==> r.value.rest == input[1..]
    ensures r.Ok? && r.value.value.Some? ==> |input| >= 2 && r.value.rest == input[2..]
  {
    var flag :- DecodeBoolean(input);
    if !flag.value then Ok(Parsed(None, flag.rest))
    else
      var x :- DecodeByte(flag.rest);
      Ok(Parsed(Some(x.value), x.rest))
  }

  lemma DataRoundTrip(v: Option<Int8>, rest: Bytes)
    ensures ReadData(WriteData(v) + rest) == Ok(Parsed(v, rest))
  {
    match v
    case None =>
      BooleanRoundTrip(false, rest);
    case Some(x) =>
      assert WriteData(v) + rest == EncodeBoolean(true) + (EncodeByte(x) + rest);
      BooleanRoundTrip(true, EncodeByte(x) + rest);
      ByteRoundTrip(x, rest);
  }

  method WriteDataTo(output: DataOutput, v: Option<Int8>)
    modifies output
    ensures output.written == old(output.written) + WriteData(v)
  {
    match v
    case None =>
      output.WriteBoolean(false);
    case Some(x) =>
      output.WriteBoolean(true);
      output.WriteByte(x);
  }

  method ReadDataFrom(input: DataInput) returns (r: Result<Option<Int8>>)
    modifies input
    ensures ReadAs(ReadData(old(input.remaining)), r, input.remaining)
  {
    var flag := input.ReadBoolean();
    if flag.Err? {
      return Err(flag.error);
    }
    if !flag.value {
      return Ok(None);
    }
    var x := input.ReadByte();
    if x.Err? {
      return Err(x.error);
    }
    return Ok(Some(x.value));
  }

  /** formatValue: Byte.toString, a signed decimal. */
  function FormatValue(v: Int8): (s: JString)
    ensures ParseDecimal(s) == Some(v as int)
  {
    ParseDecimalOfToDecimal(v);
    ToDecimal(v)
  }

  /** parse always throws, so no text comes back as a Byte: it is no inverse of formatValue. */
  function Parse(s: JString): (r: Result<Int8>)
    ensures r.Err? && r.error == TextException("Not supported")
  {
    Err(TextException("Not supported"))
  }

  /** convertFromMillis is not supported. */
  function ConvertFromMillis(millis: Int64): (r: Result<Int8>)
    ensures r.Err? && r.error == TextException("Not Supported")
  {
    Err(TextException("Not Supported"))
  }

  /** jsonWrite: the JSON form is not supported, whatever is written. */
  function JsonWrite(name: string, v: Option<Int8>): (r: Outcome)
    ensures r == Fail(IOException("Not supported"))
  {
    Fail(IOException("Not supported"))
  }

  /** jsonRead: the JSON form is not supported, whatever is read. */
  function JsonRead(token: string): (r: Result<Option<Int8>>)
    ensures r.Err? && r.error == IOException("Not supported")
  {
    Err(IOException("Not supported"))
  }
}
