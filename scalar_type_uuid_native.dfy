/**
 * ScalarTypeUUIDNative: java.util.UUID bound as a native database UUID object. Its text
 * form, used by formatValue/parse and by the binary form, is the 8-4-4-4-12 hexadecimal
 * form of section 3 of RFC 4122.
 */
module ScalarTypeUUIDNative {
  import opened Java
  import opened JavaLang
  import opened DataStream
  import opened ScalarCommon

  /** A UUID: its 128 bits as the two signed longs java.util.UUID keeps. */
  datatype Uuid = Uuid(mostSigBits: Int64, leastSigBits: Int64)

  const JDBC_TYPE: int := UUID
  const JDBC_NATIVE: bool := false
  const DATE_TIME_CAPABLE: bool := false

  predicate IsMutable() { false }

  predicate IsDirty(v: Option<Uuid>) { true }

  lemma ImmutableButAlwaysDirty(v: Option<Uuid>)
    ensures !IsMutable() && IsDirty(v)
  {
  }

  /** bind: setObject, with null passed through as it is. */
  function Bind(v: Option<Uuid>): (call: BindCall<Option<Uuid>>)
    ensures call.Set? && call.setter == SetObject && call.value == v
  {
    Set(SetObject, v)
  }

  /** convertFromMillis is never expected to be called. */
  function ConvertFromMillis(millis: Int64): (r: Result<Uuid>)
    ensures r.Err? && r.error == RuntimeException("Should never be called")
  {
    Err(RuntimeException("Should never be called"))
  }

  // ---------------------------------------------------------------------------
  // Hexadecimal digits

  const DASH: JChar := 45

  function Pow16(n: nat): (p: nat)
    ensures p >= 1
  {
    if n == 0 then 1 else 16 * Pow16(n - 1)
  }

  /** The lower-case hexadecimal digit for d. */
  function HexChar(d: int): JChar
    requires 0 <= d < 16
  {
    if d < 10 then 48 + d else 87 + d
  }

  predicate IsLowerHex(c: JChar) { 48 <= c <= 57 || 97 <= c <= 102 }

  predicate IsHex(c: JChar) { IsLowerHex(c) || 65 <= c <= 70 }

  function HexDigitValue(c: JChar): (d: nat)
    requires IsHex(c)
    ensures d < 16
  {
    if c <= 57 then c - 48 else if c >= 97 then c - 87 else c - 55
  }

  /** The low n hexadecimal digits of x, most significant first. */
  function HexDigits(x: nat, n: nat): (s: JString)
    ensures |s| == n
    ensures forall i | 0 <= i < n :: IsLowerHex(s[i])
  {
    if n == 0 then [] else HexDigits(x / 16, n - 1) + [HexChar(x % 16)]
  }

  /** The number a string of hexadecimal digits denotes (either case). */
  function HexNumber(s: JString): (x: nat)
    requires forall i | 0 <= i < |s| :: IsHex(s[i])
    ensures x < Pow16(|s|)
  {
    if |s| == 0 then 0 else HexNumber(s[..|s| - 1]) * 16 + HexDigitValue(s[|s| - 1])
  }

  lemma {:induction false} HexNumberOfDigits(x: nat, n: nat)
    requires x < Pow16(n)
    ensures HexNumber(HexDigits(x, n)) == x
  {
    if n > 0 {
      var s := HexDigits(x, n);
      assert s[..n - 1] == HexDigits(x / 16, n - 1);
      HexNumberOfDigits(x / 16, n - 1);
    }
  }

  lemma {:induction false} DigitsOfHexNumber(s: JString)
    requires forall i | 0 <= i < |s| :: IsLowerHex(s[i])
    ensures HexDigits(HexNumber(s), |s|) == s
  {
    if |s| > 0 {
      var init := s[..|s| - 1];
      DigitsOfHexNumber(init);
      var x := HexNumber(s);
      assert x / 16 == HexNumber(init);
      assert s == init + [s[|s| - 1]];
    }
  }

  lemma Pow16Values()
    ensures Pow16(4) == 0x1_0000 && Pow16(8) == 0x1_0000_0000 && Pow16(12) == 0x1_0000_0000_0000
  {
    assert Pow16(4) == 0x1_0000;
    assert Pow16(8) == 0x1_0000_0000;
    assert Pow16(12) == 0x1_0000_0000_0000;
  }

  // ---------------------------------------------------------------------------
  // The text form

  const TWO_16: nat := 0x1_0000
  const TWO_32: nat := 0x1_0000_0000
  const TWO_48: nat := 0x1_0000_0000_0000
  const TWO_64: nat := 0x1_0000_0000_0000_0000

  /** The five groups of a UUID's text form, as numbers: 32, 16, 16, 16 and 48 bits. */
  datatype Groups = Groups(timeLow: nat, timeMid: nat, timeHigh: nat, clockSeq: nat, node: nat)

  predicate GroupsInRange(g: Groups)
  {
    g.timeLow < TWO_32 && g.timeMid < TWO_16 && g.timeHigh < TWO_16 && g.clockSeq < TWO_16 && g.node < TWO_48
  }

  /** Splitting the two longs (read unsigned) into the five groups. */
  function Split(u: Uuid): (g: Groups)
    ensures GroupsInRange(g)
  {
    var m := u.mostSigBits % TWO_64;
    var l := u.leastSigBits % TWO_64;
    Groups(m / TWO_32, (m / TWO_16) % TWO_16, m % TWO_16, l / TWO_48, l % TWO_48)
  }

  /** Joining five groups back into two longs. */
  function Join(g: Groups): Uuid
  {
    Uuid(Wrap64(g.timeLow * TWO_32 + g.timeMid * TWO_16 + g.timeHigh), Wrap64(g.clockSeq * TWO_48 + g.node))
  }

  lemma SplitFields(m: nat)
    requires m < TWO_64
    ensures (m / TWO_32) * TWO_32 + ((m / TWO_16) % TWO_16) * TWO_16 + m % TWO_16 == m
  {
    var a := m / TWO_32;
    var r := m % TWO_32;
    assert m == a * TWO_32 + r;
    assert m / TWO_16 == a * TWO_16 + r / TWO_16;
    assert (m / TWO_16) % TWO_16 == r / TWO_16;
    assert (r / TWO_16) * TWO_16 + m % TWO_16 == r;
  }

  lemma JoinSplit(u: Uuid)
    ensures Join(Split(u)) == u
  {
    var m := u.mostSigBits % TWO_64;
    var l := u.leastSigBits % TWO_64;
    SplitFields(m);
    assert (l / TWO_48) * TWO_48 + l % TWO_48 == l;
    assert Wrap64(m) == u.mostSigBits;
    assert Wrap64(l) == u.leastSigBits;
  }

  lemma SplitJoin(g: Groups)
    requires GroupsInRange(g)
    ensures Split(Join(g)) == g
  {
    var m := g.timeLow * TWO_32 + g.timeMid * TWO_16 + g.timeHigh;
    var l := g.clockSeq * TWO_48 + g.node;
    assert m < TWO_64 && l < TWO_64;
    assert Join(g).mostSigBits % TWO_64 == m;
    assert Join(g).leastSigBits % TWO_64 == l;
    assert m / TWO_32 == g.timeLow;
    assert m / TWO_16 == g.timeLow * TWO_16 + g.timeMid;
    assert m % TWO_16 == g.timeHigh;
  }

  /** The text form of five groups: 8-4-4-4-12 lower-case hex digits separated by dashes. */
  function GroupsText(g: Groups): (s: JString)
    ensures |s| == 36
  {
    HexDigits(g.timeLow, 8) + [DASH] + HexDigits(g.timeMid, 4) + [DASH] +
    HexDigits(g.timeHigh, 4) + [DASH] + HexDigits(g.clockSeq, 4) + [DASH] + HexDigits(g.node, 12)
  }

  /** Text in the form of section 3 of RFC 4122: dashes at 8, 13, 18 and 23, hex digits elsewhere. */
  predicate IsUuidText(s: JString)
  {
    |s| == 36 &&
    forall i | 0 <= i < 36 :: if i in {8, 13, 18, 23} then s[i] == DASH else IsHex(s[i])
  }

  /** The same, with lower-case digits only: the form toString produces. */
  predicate IsLowerUuidText(s: JString)
  {
    IsUuidText(s) && forall i | 0 <= i < 36 && i !in {8, 13, 18, 23} :: IsLowerHex(s[i])
  }

  function TextGroups(s: JString): (g: Groups)
    requires IsUuidText(s)
    ensures GroupsInRange(g)
  {
    Pow16Values();
    Groups(HexNumber(s[0..8]), HexNumber(s[9..13]), HexNumber(s[14..18]), HexNumber(s[19..23]), HexNumber(s[24..36]))
  }

  /** formatValue: UUID.toString. */
  function FormatValue(u: Uuid): (s: JString)
    ensures IsLowerUuidText(s)
  {
    var s := GroupsText(Split(u));
    assert s[8] == DASH && s[13] == DASH && s[18] == DASH && s[23] == DASH;
    s
  }

  /**
   * parse: UUID.fromString on the canonical 8-4-4-4-12 hex form, in either case. The model
   * rejects every other text, including the other dash-separated forms UUID.fromString accepts.
   */
  function Parse(s: JString): (r: Result<Uuid>)
    ensures r.Ok? <==> IsUuidText(s)
    ensures r.Err? ==> r.error == IllegalArgumentException("Invalid UUID string")
  {
    if IsUuidText(s) then Ok(Join(TextGroups(s))) else Err(IllegalArgumentException("Invalid UUID string"))
  }

  lemma {:induction false} TextGroupsOfGroupsText(g: Groups)
    requires GroupsInRange(g)
    ensures IsUuidText(GroupsText(g)) && TextGroups(GroupsText(g)) == g
  {
    var s := GroupsText(g);
    Pow16Values();
    assert s[0..8] == HexDigits(g.timeLow, 8);
    assert s[9..13] == HexDigits(g.timeMid, 4);
    assert s[14..18] == HexDigits(g.timeHigh, 4);
    assert s[19..23] == HexDigits(g.clockSeq, 4);
    assert s[24..36] == HexDigits(g.node, 12);
    HexNumberOfDigits(g.timeLow, 8);
    HexNumberOfDigits(g.timeMid, 4);
    HexNumberOfDigits(g.timeHigh, 4);
    HexNumberOfDigits(g.clockSeq, 4);
    HexNumberOfDigits(g.node, 12);
  }

  /** Every UUID survives formatValue then parse. */
  lemma ParseFormatRoundTrip(u: Uuid)
    ensures Parse(FormatValue(u)) == Ok(u)
  {
    TextGroupsOfGroupsText(Split(u));
    JoinSplit(u);
  }

  /** Lower-case UUID text survives parse then formatValue. */
  lemma {:induction false} FormatParseRoundTrip(s: JString)
    requires IsLowerUuidText(s)
    ensures Parse(s).Ok? && FormatValue(Parse(s).value) == s
  {
    var g := TextGroups(s);
    SplitJoin(g);
    LowerGroup(s, 0, 8);
    LowerGroup(s, 9, 13);
    LowerGroup(s, 14, 18);
    LowerGroup(s, 19, 23);
    LowerGroup(s, 24, 36);
    UuidTextPieces(s);
  }

  /** A group between two dashes of lower-case UUID text is lower-case hex, and is rewritten by its own value. */
  lemma LowerGroup(s: JString, a: nat, b: nat)
    requires IsLowerUuidText(s) && a <= b <= 36
    requires (a, b) in {(0, 8), (9, 13), (14, 18), (19, 23), (24, 36)}
    ensures HexDigits(HexNumber(s[a..b]), b - a) == s[a..b]
  {
    var t := s[a..b];
    forall i | 0 <= i < |t|
      ensures IsLowerHex(t[i])
    {
      assert t[i] == s[a + i];
      assert a + i != 8 && a + i != 13 && a + i != 18 && a + i != 23;
    }
    DigitsOfHexNumber(t);
  }

  lemma UuidTextPieces(s: JString)
    requires IsUuidText(s)
    ensures s == s[0..8] + [DASH] + s[9..13] + [DASH] + s[14..18] + [DASH] + s[19..23] + [DASH] + s[24..36]
  {
    assert s[8] == DASH && s[13] == DASH && s[18] == DASH && s[23] == DASH;
  }

  // ---------------------------------------------------------------------------
  // The binary form

  lemma TextFitsUtf(u: Uuid)
    ensures EncodeUTF(FormatValue(u)).Ok?
  {
    UtfBodyLength(FormatValue(u));
  }

  /** The bytes writeData emits: a presence flag, then writeUTF of the text form. */
  function WriteData(v: Option<Uuid>): (bs: Bytes)
    ensures v.None? <==> bs == [0]
    ensures v.Some? ==> |bs| > 0 && bs[0] == 1
  {
    match v
    case None => EncodeBoolean(false)
    case Some(u) =>
      TextFitsUtf(u);
      EncodeBoolean(true) + EncodeUTF(FormatValue(u)).value
  }

  /** What readData consumes and returns: null after a false flag, else readUTF then parse. */
  function ReadData(input: Bytes): (r: Result<Parsed<Option<Uuid>>>)
    ensures |input| == 0 ==> r == Err(EOFException)
    ensures r.Ok? ==> (r.value.value.None? <==> input[0] == 0)
    ensures r.Ok? && r.value.value.None? ==> r.value.rest == input[1..]
    ensures r.Ok? && r.value.value.Some? ==>
      |r.value.rest| + 3 <= |input| && r.value.rest == input[|input| - |r.value.rest|..]
  {
    var flag :- DecodeBoolean(input);
    if !flag.value then Ok(Parsed(None, flag.rest))
    else
      var text :- DecodeUTF(flag.rest);
      var u :- Parse(text.value);
      Ok(Parsed(Some(u), text.rest))
  }

  lemma DataRoundTrip(v: Option<Uuid>, rest: Bytes)
    ensures ReadData(WriteData(v) + rest) == Ok(Parsed(v, rest))
  {
    match v
    case None =>
      BooleanRoundTrip(false, rest);
    case Some(u) =>
      TextFitsUtf(u);
      var utf := EncodeUTF(FormatValue(u)).value;
      assert WriteData(v) + rest == EncodeBoolean(true) + (utf + rest);
      BooleanRoundTrip(true, utf + rest);
      UtfRoundTrip(FormatValue(u), rest);
      ParseFormatRoundTrip(u);
  }

  method WriteDataTo(output: DataOutput, v: Option<Uuid>)
    modifies output
    ensures output.written == old(output.written) + WriteData(v)
  {
    match v
    case None =>
      output.WriteBoolean(false);
    case Some(u) =>
      var text := FormatValue(u);
      TextFitsUtf(u);
      output.WriteBoolean(true);
      var outcome := output.WriteUTF(text);
  }

  method ReadDataFrom(input: DataInput) returns (r: Result<Option<Uuid>>)
    modifies input
    ensures ReadData(old(input.remaining)).Ok? ==>
      r == Ok(ReadData(old(input.remaining)).value.value) && input.remaining == ReadData(old(input.remaining)).value.rest
    ensures ReadData(old(input.remaining)).Err? ==> r == Err(ReadData(old(input.remaining)).error)
  {
    var flag := input.ReadBoolean();
    if flag.Err? {
      return Err(flag.error);
    }
    if !flag.value {
      return Ok(None);
    }
    var text := input.ReadUTF();
    if text.Err? {
      return Err(text.error);
    }
    var u := Parse(text.value);
    if u.Err? {
      return Err(u.error);
    }
    return Ok(Some(u.value));
  }
}
