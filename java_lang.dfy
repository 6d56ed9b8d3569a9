/**
 * The parts of java.lang the modelled code relies on: fixed-width two's-complement
 * integers, decimal text (Integer.toString / Integer.parseInt and their Short, Long and
 * BigInteger siblings), String.hashCode, String.trim and the "null" that string
 * concatenation produces for a null reference.
 */
module JavaLang {
  import opened Java

  type Int8 = x: int | -0x80 <= x < 0x80
  type Int16 = x: int | -0x8000 <= x < 0x8000
  type Int32 = x: int | -0x8000_0000 <= x < 0x8000_0000
  type Int64 = x: int | -0x8000_0000_0000_0000 <= x < 0x8000_0000_0000_0000

  /** Narrowing to 8 bits, as the cast `(byte) x` does. */
  function Wrap8(x: int): Int8 { (x + 0x80) % 0x100 - 0x80 }

  /** Narrowing to 16 bits, as the cast `(short) x` does. */
  function Wrap16(x: int): Int16 { (x + 0x8000) % 0x1_0000 - 0x8000 }

  /** Narrowing to 32 bits: the result of Java `int` arithmetic that overflows. */
  function Wrap32(x: int): Int32 { (x + 0x8000_0000) % 0x1_0000_0000 - 0x8000_0000 }

  /** Narrowing to 64 bits: `long` arithmetic, and BigInteger.longValue(). */
  function Wrap64(x: int): Int64
  {
    (x + 0x8000_0000_0000_0000) % 0x1_0000_0000_0000_0000 - 0x8000_0000_0000_0000
  }

  lemma Wrap64Exact(x: int)
    ensures (Wrap64(x) == x) <==> (-0x8000_0000_0000_0000 <= x < 0x8000_0000_0000_0000)
    ensures (Wrap64(x) - x) % 0x1_0000_0000_0000_0000 == 0
  {
  }

  /** Wrapping an intermediate result first does not change a 32-bit `h * 31 + x` step. */
  lemma Wrap32Step(a: int, x: int)
    ensures Wrap32(Wrap32(a) * 31 + x) == Wrap32(a * 31 + x)
  {
    var q := (a + 0x8000_0000) / 0x1_0000_0000;
    assert Wrap32(a) == a - 0x1_0000_0000 * q;
    assert Wrap32(a) * 31 + x == a * 31 + x - 0x1_0000_0000 * (31 * q);
    ShiftMod32(a * 31 + x + 0x8000_0000, -(31 * q));
  }

  lemma ShiftMod32(y: int, k: int)
    ensures (y + 0x1_0000_0000 * k) % 0x1_0000_0000 == y % 0x1_0000_0000
  {
  }

  // ---------------------------------------------------------------------------
  // Java strings as UTF-16 code units

  /** A Java `char`: one UTF-16 code unit (surrogates included, unlike Dafny's char). */
  type JChar = c: int | 0 <= c < 0x1_0000

  /** A Java String as its sequence of UTF-16 code units. */
  type JString = seq<JChar>

  const MINUS: JChar := 45
  const PLUS: JChar := 43
  const ZERO: JChar := 48

  predicate IsDigit(c: JChar) { 48 <= c <= 57 }

  predicate AllDigits(s: JString) { forall i | 0 <= i < |s| :: IsDigit(s[i]) }

  function DigitChar(d: int): (c: JChar)
    requires 0 <= d < 10
    ensures IsDigit(c)
  {
    48 + d
  }

  /** The decimal digits of n, most significant first, without leading zeros ("0" for zero). */
  function NatDigits(n: nat): (s: JString)
    ensures |s| > 0 && AllDigits(s)
    ensures |s| > 1 ==> s[0] != ZERO
  {
    if n < 10 then [DigitChar(n)] else NatDigits(n / 10) + [DigitChar(n % 10)]
  }

  /** The value of a string of decimal digits. */
  function DigitsValue(s: JString): nat
    requires AllDigits(s)
  {
    if |s| == 0 then 0 else DigitsValue(s[..|s| - 1]) * 10 + (s[|s| - 1] - 48)
  }

  lemma {:induction false} DigitsValueOfNatDigits(n: nat)
    ensures DigitsValue(NatDigits(n)) == n
  {
    if n >= 10 {
      var s := NatDigits(n);
      assert s[..|s| - 1] == NatDigits(n / 10);
      DigitsValueOfNatDigits(n / 10);
    }
  }

  /**
   * Integer.toString, Long.toString, BigInteger.toString and String.valueOf(long):
   * a '-' for negative values, then the digits of the magnitude.
   */
  function ToDecimal(v: int): JString
  {
    if v < 0 then [MINUS] + NatDigits(-v) else NatDigits(v)
  }

  /**
   * The sign-and-digits grammar of Integer.parseInt, Short.parseShort, Long.parseLong and
   * new BigInteger(String): an optional '+' or '-' followed by at least one ASCII digit.
   * The value is not range-checked here.
   */
  function ParseDecimal(s: JString): Option<int>
  {
    if |s| == 0 then None
    else if s[0] == MINUS || s[0] == PLUS then
      if |s| == 1 || !AllDigits(s[1..]) then None
      else
        var magnitude: int := DigitsValue(s[1..]);
        Some(if s[0] == MINUS then -magnitude else magnitude)
    else if AllDigits(s) then Some(DigitsValue(s))
    else None
  }

  lemma ParseDecimalOfToDecimal(v: int)
    ensures ParseDecimal(ToDecimal(v)) == Some(v)
  {
    if v < 0 {
      assert ToDecimal(v)[1..] == NatDigits(-v);
      DigitsValueOfNatDigits(-v);
    } else {
      DigitsValueOfNatDigits(v);
    }
  }

  /** Integer.parseInt / Integer.valueOf(String). */
  function ParseInt(s: JString): (r: Result<Int32>)
    ensures r.Ok? <==> ParseDecimal(s).Some? && -0x8000_0000 <= ParseDecimal(s).value < 0x8000_0000
    ensures r.Ok? ==> r.value == ParseDecimal(s).value
    ensures r.Err? ==> r.error == NumberFormatException
  {
    match ParseDecimal(s)
    case Some(v) => if -0x8000_0000 <= v < 0x8000_0000 then Ok(v) else Err(NumberFormatException)
    case None => Err(NumberFormatException)
  }

  /** Short.parseShort / Short.valueOf(String). */
  function ParseShort(s: JString): (r: Result<Int16>)
    ensures r.Ok? <==> ParseDecimal(s).Some? && -0x8000 <= ParseDecimal(s).value < 0x8000
    ensures r.Ok? ==> r.value == ParseDecimal(s).value
    ensures r.Err? ==> r.error == NumberFormatException
  {
    match ParseDecimal(s)
    case Some(v) => if -0x8000 <= v < 0x8000 then Ok(v) else Err(NumberFormatException)
    case None => Err(NumberFormatException)
  }

  /** new BigInteger(String): any size. */
  function ParseBigInteger(s: JString): (r: Result<int>)
    ensures r.Ok? <==> ParseDecimal(s).Some?
    ensures r.Ok? ==> r.value == ParseDecimal(s).value
    ensures r.Err? ==> r.error == NumberFormatException
  {
    match ParseDecimal(s)
    case Some(v) => Ok(v)
    case None => Err(NumberFormatException)
  }

  // ---------------------------------------------------------------------------
  // String.hashCode and friends on identifiers

  /**
   * String.hashCode: h = 31 * h + c over the characters, in 32-bit arithmetic. Each Dafny
   * char counts as one UTF-16 unit, which is exact for the ASCII class names hashed here.
   */
  function JavaHashCode(s: string): Int32
  {
    if |s| == 0 then 0 else Wrap32(JavaHashCode(s[..|s| - 1]) * 31 + s[|s| - 1] as int)
  }

  /** What `"" + s` yields in Java: the text of s, or "null" for a null reference. */
  function StringValueOf(s: Option<string>): string
  {
    match s
    case Some(t) => t
    case None => "null"
  }

  /**
   * String.trim: drop every leading and trailing character at or below U+0020. What is
   * left is a slice of the input whose end characters are above U+0020, and only such
   * characters were dropped.
   */
  function Trim(s: string): (r: string)
    ensures |r| <= |s|
    ensures |r| > 0 ==> r[0] > ' ' && r[|r| - 1] > ' '
    ensures exists i, j | 0 <= i <= j <= |s| ::
      r == s[i..j] && (forall m | 0 <= m < i :: s[m] <= ' ') && (forall m | j <= m < |s| :: s[m] <= ' ')
  {
    var i := TrimStartIndex(s, 0);
    var j := TrimEndIndex(s, i, |s|);
    s[i..j]
  }

  /** The index of the first character at or after i that is above U+0020 (|s| if none). */
  function TrimStartIndex(s: string, i: nat): (k: nat)
    requires i <= |s|
    ensures i <= k <= |s|
    ensures k < |s| ==> s[k] > ' '
    ensures forall m | i <= m < k :: s[m] <= ' '
    decreases |s| - i
  {
    if i < |s| && s[i] <= ' ' then TrimStartIndex(s, i + 1) else i
  }

  /** The end of the slice s[lo..j] once the characters at or below U+0020 are dropped from its end. */
  function TrimEndIndex(s: string, lo: nat, j: nat): (k: nat)
    requires lo <= j <= |s|
    ensures lo <= k <= j
    ensures k > lo ==> s[k - 1] > ' '
    ensures forall m | k <= m < j :: s[m] <= ' '
  {
    if j > lo && s[j - 1] <= ' ' then TrimEndIndex(s, lo, j - 1) else j
  }

  /** IsTrimmed: nothing at or below U+0020 at either end. */
  predicate IsTrimmed(s: string)
  {
    |s| > 0 ==> s[0] > ' ' && s[|s| - 1] > ' '
  }

  /** Trimming a string that has nothing to trim leaves it as it is. */
  lemma TrimOfTrimmed(s: string)
    requires IsTrimmed(s)
    ensures Trim(s) == s
  {
  }

  // ---------------------------------------------------------------------------
  // Joining strings with a separator (String.join, StringBuilder loops)

  /** Parts joined by a separator: in order, with one separator between neighbours. */
  function Joined(parts: seq<string>, sep: string): string
  {
    if |parts| == 0 then ""
    else if |parts| == 1 then parts[0]
    else Joined(parts[..|parts| - 1], sep) + sep + parts[|parts| - 1]
  }

  function SumLengths(parts: seq<string>): nat
  {
    if |parts| == 0 then 0 else SumLengths(parts[..|parts| - 1]) + |parts[|parts| - 1]|
  }

  /** n parts make a string of their lengths plus exactly n - 1 separators. */
  lemma {:induction false} JoinedLength(parts: seq<string>, sep: string)
    requires |parts| > 0
    ensures |Joined(parts, sep)| == SumLengths(parts) + (|parts| - 1) * |sep|
  {
    if |parts| > 1 {
      var init := parts[..|parts| - 1];
      JoinedLength(init, sep);
      var k := |init| - 1;
      assert |Joined(parts, sep)| == SumLengths(init) + k * |sep| + |sep| + |parts[|parts| - 1]|;
      assert k * |sep| + |sep| == (k + 1) * |sep|;
    }
  }

  /** Joining two non-empty runs is joining each and putting one separator between them. */
  lemma {:induction false} JoinedAppend(xs: seq<string>, ys: seq<string>, sep: string)
    requires |xs| > 0 && |ys| > 0
    ensures Joined(xs + ys, sep) == Joined(xs, sep) + sep + Joined(ys, sep)
    decreases |ys|
  {
    if |ys| == 1 {
      assert (xs + ys)[..|xs + ys| - 1] == xs;
    } else {
      var init := ys[..|ys| - 1];
      assert (xs + ys)[..|xs + ys| - 1] == xs + init;
      JoinedAppend(xs, init, sep);
    }
  }

  /** The first part comes first, then the separator and the rest. */
  lemma JoinedCons(p: string, ps: seq<string>, sep: string)
    requires |ps| > 0
    ensures Joined([p] + ps, sep) == p + sep + Joined(ps, sep)
  {
    JoinedAppend([p], ps, sep);
  }

  /** No string occurs twice (what a LinkedHashSet of strings keeps). */
  predicate NoDuplicates(s: seq<string>)
  {
    forall i, j | 0 <= i < j < |s| :: s[i] != s[j]
  }

  /** Character.toLowerCase, on the ASCII letters: 'A'..'Z' become 'a'..'z', all else stays. */
  function LowerAscii(c: char): (d: char)
    ensures 'A' <= c <= 'Z' ==> d == (c as int + 32) as char
    ensures !('A' <= c <= 'Z') ==> d == c
  {
    if 'A' <= c <= 'Z' then (c as int + 32) as char else c
  }

  /** String.toLowerCase, on the ASCII letters: each character lower-cased where it stands. */
  function ToLowerAscii(s: string): (r: string)
    ensures |r| == |s|
    ensures forall i | 0 <= i < |s| :: r[i] == LowerAscii(s[i])
  {
    if |s| == 0 then [] else [LowerAscii(s[0])] + ToLowerAscii(s[1..])
  }

  /** String.equalsIgnoreCase, on the ASCII letters: equal once both are lower-cased. */
  predicate EqualsIgnoreCase(a: string, b: string)
  {
    ToLowerAscii(a) == ToLowerAscii(b)
  }
}
