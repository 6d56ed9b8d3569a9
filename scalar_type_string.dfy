/** ScalarTypeString: java.lang.String stored in a VARCHAR column. */
module ScalarTypeString {
  import opened Java
  import opened JavaLang
  import opened DataStream
  import opened ScalarCommon

  const JDBC_TYPE: int := VARCHAR
  const JDBC_NATIVE: bool := true
  const DATE_TIME_CAPABLE: bool := true

  /** bind: an SQL null of this type's own code for null, otherwise setString. */
  function Bind(v: Option<JString>): (call: BindCall<JString>)
    ensures call.SetNull? <==> v.None?
    ensures call.SetNull? ==> call.sqlType == JDBC_TYPE
    ensures v.Some? ==> call == Set(SetString, v.value)
  {
    match v
    case None => SetNull(VARCHAR)
    case Some(x) => Set(SetString, x)
  }

  /**
   * The bytes writeData emits: a presence flag, then writeUTF of the text. writeUTF throws
   * for text whose modified UTF-8 form exceeds 65535 bytes (after the flag was written).
   */
  function WriteData(v: Option<JString>): (r: Result<Bytes>)
    ensures r.Err? <==> v.Some? && EncodeUTF(v.value).Err?
    ensures r.Err? ==> r.error == UTFDataFormatException
    ensures r.Ok? ==> |r.value| > 0 && (r.value[0] == 1 <==> v.Some?)
  {
    match v
    case None => Ok(EncodeBoolean(false))
    case Some(s) =>
      var utf :- EncodeUTF(s);
      Ok(EncodeBoolean(true) + utf)
  }

  /** What readData consumes and returns: null after a false flag, else readUTF. */
  function ReadData(input: Bytes): (r: Result<Parsed<Option<JString>>>)
    ensures |input| == 0 ==> r == Err(EOFException)
    ensures r.Ok? ==> (r.value.value.None? <==> input[0] == 0)
    ensures r.Ok? && r.value.value.None? ==> r.value.rest == input[1..]
    ensures r.Ok? && r.value.value.Some? ==>
      |r.value.rest| + 3 <= |input| && r.value.rest == input[|input| - |r.value.rest|..]
  {
    var flag :- DecodeBoolean(input);
    if !flag.value then Ok(Parsed(None, flag.rest))
    else
      var s :- DecodeUTF(flag.rest);
      Ok(Parsed(Some(s.value), s.rest))
  }

  /** Whatever writeData accepts, readData gives back. */
  lemma DataRoundTrip(v: Option<JString>, rest: Bytes)
    requires WriteData(v).Ok?
    ensures ReadData(WriteData(v).value + rest) == Ok(Parsed(v, rest))
  {
    match v
    case None =>
      BooleanRoundTrip(false, rest);
    case Some(s) =>
      var utf := EncodeUTF(s).value;
      assert WriteData(v).value + rest == EncodeBoolean(true) + (utf + rest);
      BooleanRoundTrip(true, utf + rest);
      UtfRoundTrip(s, rest);
  }

  /** Every string of at most 21845 chars fits writeUTF, so it round-trips. */
  lemma ShortTextFits(s: JString)
    requires |s| <= 21845
    ensures WriteData(Some(s)).Ok?
  {
    UtfBodyLength(s);
  }

  /** A failed writeUTF leaves the presence flag written. */
  method WriteDataTo(output: DataOutput, v: Option<JString>) returns (r: Outcome)
    modifies output
    ensures WriteData(v).Ok? ==> r == Pass && output.written == old(output.written) + WriteData(v).value
    ensures WriteData(v).Err? ==>
      r == Fail(UTFDataFormatException) && output.written == old(output.written) + EncodeBoolean(true)
  {
    match v
    case None =>
      output.WriteBoolean(false);
      return Pass;
    case Some(s) =>
      output.WriteBoolean(true);
      r := output.WriteUTF(s);
  }

  method ReadDataFrom(input: DataInput) returns (r: Result<Option<JString>>)
    modifies input
    ensures ReadAs(ReadData(old(input.remaining)), r, input.remaining)
  {
    var flag := input.ReadBoolean();
    if flag.Err? {
      return Err(flag.error);
    }
    if !flag.value {
      return Ok(None);
    }
    var s := input.ReadUTF();
    if s.Err? {
      return Err(s.error);
    }
    return Ok(Some(s.value));
  }

  /** formatValue is the identity. */
  function FormatValue(v: JString): (s: JString)
    ensures s == v
  {
    v
  }

  /** parse is the identity, so it inverts formatValue both ways. */
  function Parse(s: JString): (r: Result<JString>)
    ensures r == Ok(s)
  {
    Ok(s)
  }

  /** convertFromMillis: String.valueOf(long), the decimal text of the instant. */
  function ConvertFromMillis(millis: Int64): (r: Result<JString>)
    ensures r.Ok? && ParseDecimal(r.value) == Some(millis as int)
  {
    ParseDecimalOfToDecimal(millis);
    Ok(ToDecimal(millis))
  }
}
