/** ScalarTypeInteger: java.lang.Integer stored in an INTEGER column. */
module ScalarTypeInteger {
  import opened Java
  import opened JavaLang
  import opened DataStream
  import opened ScalarCommon

  const JDBC_TYPE: int := INTEGER
  const JDBC_NATIVE: bool := true
  const DATE_TIME_CAPABLE: bool := false

  /** bind: an SQL null of this type's own code for null, otherwise setInt. */
  function Bind(v: Option<Int32>): (call: BindCall<Int32>)
    ensures call.SetNull? <==> v.None?
    ensures call.SetNull? ==> call.sqlType == JDBC_TYPE
    ensures v.Some? ==> call == Set(SetInt, v.value)
  {
    match v
    case None => SetNull(INTEGER)
    case Some(x) => Set(SetInt, x)
  }

  /** The bytes writeData emits: a presence flag, then the value as writeInt does. */
  function WriteData(v: Option<Int32>): (bs: Bytes)
    ensures v.None? ==> bs == [0]
    ensures v.Some? ==> |bs| == 5 && bs[0] == 1
  {
    match v
    case None => EncodeBoolean(false)
    case Some(x) => EncodeBoolean(true) + EncodeInt(x)
  }

  /** What readData consumes and returns: null after a false flag, else readInt. */
  function ReadData(input: Bytes): (r: Result<Parsed<Option<Int32>>>)
    ensures r.Err? <==> |input| == 0 || (input[0] != 0 && |input| < 5)
    ensures r.Err? ==> r.error == EOFException
    ensures r.Ok? ==> (r.value.value.None? <==> input[0] == 0)
    ensures r.Ok? && r.value.value.None? ==> r.value.rest == input[1..]
    ensures r.Ok? && r.value.value.Some? ==> |input| >= 5 && r.value.rest == input[5..]
  {
    var flag :- DecodeBoolean(input);
    if !flag.value then Ok(Parsed(None, flag.rest))
    else
      var x :- DecodeInt(flag.rest);
      Ok(Parsed(Some(x.value), x.rest))
  }

  lemma DataRoundTrip(v: Option<Int32>, rest: Bytes)
    ensures ReadData(WriteData(v) + rest) == Ok(Parsed(v, rest))
  {
    match v
    case None =>
      BooleanRoundTrip(false, rest);
    case Some(x) =>
      assert WriteData(v) + rest == EncodeBoolean(true) + (EncodeInt(x) + rest);
      BooleanRoundTrip(true, EncodeInt(x) + rest);
      IntRoundTrip(x, rest);
  }

  method WriteDataTo(output: DataOutput, v: Option<Int32>)
    modifies output
    ensures output.written == old(output.written) + WriteData(v)
  {
    match v
    case None =>
      output.WriteBoolean(false);
    case Some(x) =>
      output.WriteBoolean(true);
      output.WriteInt(x);
  }

  method ReadDataFrom(input: DataInput) returns (r: Result<Option<Int32>>)
    modifies input
    ensures ReadAs(ReadData(old(input.remaining)), r, input.remaining)
  {
    var flag := input.ReadBoolean();
    if flag.Err? {
      return Err(flag.error);
    }
    if !flag.value {
      return Ok(None);
    }
    var x := input.ReadInt();
    if x.Err? {
      return Err(x.error);
    }
    return Ok(Some(x.value));
  }

  /** formatValue: Integer.toString. */
  function FormatValue(v: Int32): (s: JString)
    ensures ParseDecimal(s) == Some(v as int)
  {
    ParseDecimalOfToDecimal(v);
    ToDecimal(v)
  }

  /** parse: Integer.valueOf, which throws NumberFormatException on bad or out-of-range text. */
  function Parse(s: JString): (r: Result<Int32>)
    ensures r.Ok? <==> ParseDecimal(s).Some? && -0x8000_0000 <= ParseDecimal(s).value < 0x8000_0000
    ensures r.Ok? ==> r.value as int == ParseDecimal(s).value
    ensures r.Err? ==> r.error == NumberFormatException
  {
    ParseInt(s)
  }

  lemma ParseFormatRoundTrip(v: Int32)
    ensures Parse(FormatValue(v)) == Ok(v)
  {
    ParseDecimalOfToDecimal(v);
  }

  /** convertFromMillis is not supported for integers. */
  function ConvertFromMillis(millis: Int64): (r: Result<Int32>)
    ensures r.Err? && r.error == TextException("Not Supported")
  {
    Err(TextException("Not Supported"))
  }
}
