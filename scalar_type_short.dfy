/** ScalarTypeShort: java.lang.Short stored in a SMALLINT column. */
module ScalarTypeShort {
  import opened Java
  import opened JavaLang
  import opened DataStream
  import opened ScalarCommon

  const JDBC_TYPE: int := SMALLINT
  const JDBC_NATIVE: bool := true
  const DATE_TIME_CAPABLE: bool := false

  /** bind: an SQL null of this type's own code for null, otherwise setShort. */
  function Bind(v: Option<Int16>): (call: BindCall<Int16>)
    ensures call.SetNull? <==> v.None?
    ensures call.SetNull? ==> call.sqlType == JDBC_TYPE
    ensures v.Some? ==> call == Set(SetShort, v.value)
  {
    match v
    case None => SetNull(SMALLINT)
    case Some(x) => Set(SetShort, x)
  }

  /** The bytes writeData emits: a presence flag, then the value as writeShort does. */
  function WriteData(v: Option<Int16>): (bs: Bytes)
    ensures v.None? ==> bs == [0]
    ensures v.Some? ==> |bs| == 3 && bs[0] == 1
  {
    match v
    case None => EncodeBoolean(false)
    case Some(x) => EncodeBoolean(true) + EncodeShort(x)
  }

  /** What readData consumes and returns: null after a false flag, else readShort. */
  function ReadData(input: Bytes): (r: Result<Parsed<Option<Int16>>>)
    ensures r.Err? <==> |input| == 0 || (input[0] != 0 && |input| < 3)
    ensures r.Err? ==> r.error == EOFException
    ensures r.Ok? ==> (r.value.value.None? <==> input[0] == 0)
    ensures r.Ok? && r.value.value.None? ==> r.value.rest == input[1..]
    ensures r.Ok? && r.value.value.Some? ==> |input| >= 3 && r.value.rest == input[3..]
  {
    var flag :- DecodeBoolean(input);
    if !flag.value then Ok(Parsed(None, flag.rest))
    else
      var x :- DecodeShort(flag.rest);
      Ok(Parsed(Some(x.value), x.rest))
  }

  lemma DataRoundTrip(v: Option<Int16>, rest: Bytes)
    ensures ReadData(WriteData(v) + rest) == Ok(Parsed(v, rest))
  {
    match v
    case None =>
      BooleanRoundTrip(false, rest);
    case Some(x) =>
      assert WriteData(v) + rest == EncodeBoolean(true) + (EncodeShort(x) + rest);
      BooleanRoundTrip(true, EncodeShort(x) + rest);
      ShortRoundTrip(x, rest);
  }

  method WriteDataTo(output: DataOutput, v: Option<Int16>)
    modifies output
    ensures output.written == old(output.written) + WriteData(v)
  {
    match v
    case None =>
      output.WriteBoolean(false);
    case Some(x) =>
      output.WriteBoolean(true);
      output.WriteShort(x);
  }

  method ReadDataFrom(input: DataInput) returns (r: Result<Option<Int16>>)
    modifies input
    ensures ReadAs(ReadData(old(input.remaining)), r, input.remaining)
  {
    var flag := input.ReadBoolean();
    if flag.Err? {
      return Err(flag.error);
    }
    if !flag.value {
      return Ok(None);
    }
    var x := input.ReadShort();
    if x.Err? {
      return Err(x.error);
    }
    return Ok(Some(x.value));
  }

  /** formatValue: Short.toString. */
  function FormatValue(v: Int16): (s: JString)
    ensures ParseDecimal(s) == Some(v as int)
  {
    ParseDecimalOfToDecimal(v);
    ToDecimal(v)
  }

  /** parse: Short.valueOf, which throws NumberFormatException on bad or out-of-range text. */
  function Parse(s: JString): (r: Result<Int16>)
    ensures r.Ok? <==> ParseDecimal(s).Some? && -0x8000 <= ParseDecimal(s).value < 0x8000
    ensures r.Ok? ==> r.value as int == ParseDecimal(s).value
    ensures r.Err? ==> r.error == NumberFormatException
  {
    ParseShort(s)
  }

  lemma ParseFormatRoundTrip(v: Int16)
    ensures Parse(FormatValue(v)) == Ok(v)
  {
    ParseDecimalOfToDecimal(v);
  }

  /** convertFromMillis is not supported for shorts. */
  function ConvertFromMillis(millis: Int64): (r: Result<Int16>)
    ensures r.Err? && r.error == TextException("Not Supported")
  {
    Err(TextException("Not Supported"))
  }
}
