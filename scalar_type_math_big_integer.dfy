/**
 * ScalarTypeMathBigInteger: java.math.BigInteger (any size) stored in a BIGINT column,
 * so binding and the binary form keep only its low 64 bits (BigInteger.longValue).
 */
module ScalarTypeMathBigInteger {
  import opened Java
  import opened JavaLang
  import opened DataStream
  import opened ScalarCommon

  const JDBC_TYPE: int := BIGINT
  const JDBC_NATIVE: bool := false
  const DATE_TIME_CAPABLE: bool := true

  /** Option.map of longValue, for the nullable forms. */
  function LongValue(v: Option<int>): (r: Option<Int64>)
    ensures r.None? <==> v.None?
    ensures v.Some? ==> (r.value - v.value) % 0x1_0000_0000_0000_0000 == 0
    ensures v.Some? && -0x8000_0000_0000_0000 <= v.value < 0x8000_0000_0000_0000 ==> r == Some(v.value)
  {
    match v
    case None => None
    case Some(x) =>
      Wrap64Exact(x);
      Some(Wrap64(x))
  }

  /** bind: SQL null of BIGINT for null, otherwise setLong of the low 64 bits. */
  function Bind(v: Option<int>): (call: BindCall<Int64>)
    ensures call.SetNull? <==> v.None?
    ensures call.SetNull? ==> call.sqlType == JDBC_TYPE
    ensures v.Some? ==> call.setter == SetLong && Some(call.value) == LongValue(v)
  {
    match v
    case None => SetNull(BIGINT)
    case Some(x) => Set(SetLong, Wrap64(x))
  }

  /** read: null stays null; otherwise new BigInteger(String.valueOf(l)), which is l. */
  function Read(l: Option<Int64>): (r: Result<Option<int>>)
    ensures r == Ok(match l case None => None case Some(x) => Some(x as int))
  {
    match l
    case None => Ok(None)
    case Some(x) =>
      ParseDecimalOfToDecimal(x);
      match ParseBigInteger(ToDecimal(x))
      case Ok(b) => Ok(Some(b))
      case Err(e) => Err(e)
  }

  /** The bytes writeData emits: a presence flag, then writeLong(longValue()). */
  function WriteData(v: Option<int>): (bs: Bytes)
    ensures v.None? ==> bs == [0]
    ensures v.Some? ==> |bs| == 9 && bs[0] == 1
  {
    match v
    case None => EncodeBoolean(false)
    case Some(x) => EncodeBoolean(true) + EncodeLong(Wrap64(x))
  }

  /** What readData consumes and returns: null after a false flag, else readLong. */
  function ReadData(input: Bytes): (r: Result<Parsed<Option<int>>>)
    ensures r.Err? <==> |input| == 0 || (input[0] != 0 && |input| < 9)
    ensures r.Err? ==> r.error == EOFException
    ensures r.Ok? ==> (r.value.value.None? <==> input[0] == 0)
    ensures r.Ok? && r.value.value.None? ==> r.value.rest == input[1..]
    ensures r.Ok? && r.value.value.Some? ==> |input| >= 9 && r.value.rest == input[9..]
  {
    var flag :- DecodeBoolean(input);
    if !flag.value then Ok(Parsed(None, flag.rest))
    else
      var x :- DecodeLong(flag.rest);
      Ok(Parsed(Some(x.value), x.rest))
  }

  /** A value comes back as its low 64 bits: unchanged exactly when it fits in a long. */
  lemma DataRoundTrip(v: Option<int>, rest: Bytes)
    ensures ReadData(WriteData(v) + rest) == Ok(Parsed(LongValue(v), rest))
  {
    match v
    case None =>
      BooleanRoundTrip(false, rest);
    case Some(x) =>
      var enc := EncodeLong(Wrap64(x));
      assert WriteData(v) + rest == EncodeBoolean(true) + (enc + rest);
      BooleanRoundTrip(true, enc + rest);
      LongRoundTrip(Wrap64(x), rest);
  }

  method WriteDataTo(output: DataOutput, v: Option<int>)
    modifies output
    ensures output.written == old(output.written) + WriteData(v)
  {
    match v
    case None =>
      output.WriteBoolean(false);
    case Some(x) =>
      output.WriteBoolean(true);
      output.WriteLong(Wrap64(x));
  }

  method ReadDataFrom(input: DataInput) returns (r: Result<Option<int>>)
    modifies input
    ensures ReadAs(ReadData(old(input.remaining)), r, input.remaining)
  {
    var flag := input.ReadBoolean();
    if flag.Err? {
      return Err(flag.error);
    }
    if !flag.value {
      return Ok(None);
    }
    var x := input.ReadLong();
    if x.Err? {
      return Err(x.error);
    }
    return Ok(Some(x.value));
  }

  /** formatValue: BigInteger.toString, decimal. */
  function FormatValue(v: int): (s: JString)
    ensures ParseDecimal(s) == Some(v)
  {
    ParseDecimalOfToDecimal(v);
    ToDecimal(v)
  }

  /** parse: new BigInteger(String), NumberFormatException for text that is not a number. */
  function Parse(s: JString): (r: Result<int>)
    ensures r.Ok? <==> ParseDecimal(s).Some?
    ensures r.Ok? ==> r.value == ParseDecimal(s).value
    ensures r.Err? ==> r.error == NumberFormatException
  {
    ParseBigInteger(s)
  }

  lemma ParseFormatRoundTrip(v: int)
    ensures Parse(FormatValue(v)) == Ok(v)
  {
    ParseDecimalOfToDecimal(v);
  }

  /** convertFromMillis: BigInteger.valueOf, the same number. */
  function ConvertFromMillis(millis: Int64): (r: Result<int>)
    ensures r == Ok(millis as int)
  {
    Ok(millis)
  }
}
