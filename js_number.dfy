/** JavaScript's conversion of text to a number (ToNumber applied to a
    string, section 7.1.4.1.1 of ECMA-262) and the integer conversions a
    Buffer applies to the result, on exact values rather than IEEE doubles.
    The codec meets them where it hands text to Buffer.from and to
    writeUInt32BE. */
module JsNumber {
  import opened SnmpTypes

  /** A JavaScript number: NaN, an infinity, or a finite value. */
  datatype Number = NaN | Infinity(negative: bool) | Finite(r: real)

  // ---------------------------------------------------------------------
  // Decimal digits
  // ---------------------------------------------------------------------

  predicate IsDigit(c: char) { '0' <= c <= '9' }

  predicate AllDigits(s: string) { forall k :: 0 <= k < |s| ==> IsDigit(s[k]) }

  function HexDigit(d: int): char
    requires 0 <= d < 16
  {
    if d < 10 then ('0' as int + d) as char else ('a' as int + d - 10) as char
  }

  /** Buffer.toString('hex'): two lower-case digits per octet. */
  function Hex(bs: seq<byte>): (r: string)
    ensures |r| == 2 * |bs|
  {
    if bs == [] then "" else [HexDigit(bs[0] / 16), HexDigit(bs[0] % 16)] + Hex(bs[1..])
  }

  /** Number-to-string for a non-negative integer. */
  function Decimal(n: nat): (r: string)
    ensures |r| >= 1 && AllDigits(r)
  {
    if n < 10 then [(48 + n) as char] else Decimal(n / 10) + [(48 + n % 10) as char]
  }

  /** String(n) for an integer. */
  function IntText(n: int): (r: string)
    ensures n >= 0 ==> r == Decimal(n)
    ensures n < 0 ==> |r| > 1 && r[0] == '-'
  {
    if n < 0 then "-" + Decimal(-n) else Decimal(n)
  }

  /** The numeric value of a string of digits. */
  function DigitsValue(s: string): nat
    requires AllDigits(s)
  {
    if s == [] then 0
    else
      assert IsDigit(s[|s| - 1]);
      DigitsValue(s[..|s| - 1]) * 10 + (s[|s| - 1] as int - 48)
  }

  /** Reading a printed number gives it back. */
  lemma {:induction false} DecimalValue(n: nat)
    ensures DigitsValue(Decimal(n)) == n
  {
    if n >= 10 {
      DecimalValue(n / 10);
      var d := Decimal(n / 10);
      assert (d + [(48 + n % 10) as char])[..|d|] == d;
    }
  }

  function Pow10(n: nat): (r: nat)
    ensures r >= 1
  {
    if n == 0 then 1 else 10 * Pow10(n - 1)
  }

  // ---------------------------------------------------------------------
  // StringToNumber
  // ---------------------------------------------------------------------

  /** The WhiteSpace and LineTerminator code points the conversion ignores
      around the numeral. */
  predicate IsSpace(c: char)
  {
    var u := c as int;
    || u == 0x09 || u == 0x0A || u == 0x0B || u == 0x0C || u == 0x0D || u == 0x20
    || u == 0xA0 || u == 0x1680 || 0x2000 <= u <= 0x200A || u == 0x2028 || u == 0x2029
    || u == 0x202F || u == 0x205F || u == 0x3000 || u == 0xFEFF
  }

  function TrimStart(s: string): string
  {
    if s != [] && IsSpace(s[0]) then TrimStart(s[1..]) else s
  }

  function TrimEnd(s: string): string
  {
    if s != [] && IsSpace(s[|s| - 1]) then TrimEnd(s[..|s| - 1]) else s
  }

  function Trim(s: string): string
  {
    TrimEnd(TrimStart(s))
  }

  /** The value of a digit in bases up to 36: 0-9, then a-z and A-Z from
      10; 36 for a character that is no digit at all. */
  function DigitOf(c: char): nat
  {
    if '0' <= c <= '9' then c as int - '0' as int
    else if 'a' <= c <= 'z' then c as int - 'a' as int + 10
    else if 'A' <= c <= 'Z' then c as int - 'A' as int + 10
    else 36
  }

  /** The value of a numeral in the given base, None when a character is
      not a digit of that base. */
  function NumeralValue(s: string, base: nat): Option<nat>
  {
    if s == [] then Some(0)
    else
      var init := NumeralValue(s[..|s| - 1], base);
      var d := DigitOf(s[|s| - 1]);
      if init.Some? && d < base then Some(init.value * base + d) else None
  }

  /** The first index holding a or b, or |s|. */
  function IndexOfEither(s: string, a: char, b: char): (k: nat)
    ensures k <= |s| && (k < |s| ==> s[k] == a || s[k] == b)
    ensures forall j :: 0 <= j < k ==> s[j] != a && s[j] != b
  {
    if s == [] || s[0] == a || s[0] == b then 0 else 1 + IndexOfEither(s[1..], a, b)
  }

  /** DecimalDigits, optionally followed by a point and DecimalDigits, or
      a point and DecimalDigits: at least one digit in all. */
  function Mantissa(m: string): Option<real>
  {
    var d := IndexOfEither(m, '.', '.');
    var whole := m[..d];
    var fraction := if d < |m| then m[d + 1..] else [];
    if AllDigits(whole) && AllDigits(fraction) && |whole| + |fraction| > 0 then
      Some(DigitsValue(whole) as real + DigitsValue(fraction) as real / Pow10(|fraction|) as real)
    else None
  }

  /** An ExponentPart after its e or E: an optional sign, then digits. */
  function Exponent(x: string): Option<int>
  {
    var digits := if x != [] && (x[0] == '+' || x[0] == '-') then x[1..] else x;
    if digits != [] && AllDigits(digits) then
      Some(if x[0] == '-' then -(DigitsValue(digits) as int) else DigitsValue(digits))
    else None
  }

  /** 10 to the power e. */
  function Scale(e: int): real
  {
    if e >= 0 then Pow10(e) as real else 1.0 / Pow10(-e) as real
  }

  /** A StrUnsignedDecimalLiteral other than Infinity. */
  function UnsignedDecimal(u: string): Option<real>
  {
    var e := IndexOfEither(u, 'e', 'E');
    var mantissa := Mantissa(u[..e]);
    if mantissa.None? then None
    else if e == |u| then mantissa
    else
      var exponent := Exponent(u[e + 1..]);
      if exponent.None? then None else Some(mantissa.value * Scale(exponent.value))
  }

  /** The base a 0x, 0o or 0b prefix announces, or 0 without one. */
  function PrefixBase(t: string): nat
  {
    if |t| >= 2 && t[0] == '0' then
      if t[1] == 'x' || t[1] == 'X' then 16
      else if t[1] == 'o' || t[1] == 'O' then 8
      else if t[1] == 'b' || t[1] == 'B' then 2
      else 0
    else 0
  }

  /** ToNumber applied to a string: white space around the numeral is
      ignored and empty text is 0; a 0x, 0o or 0b numeral is read in its
      base, without a sign; a decimal literal with an optional sign,
      fraction and exponent, or a signed Infinity, is read as written;
      anything else is NaN. */
  function StringToNumber(s: string): Number
  {
    TrimmedToNumber(Trim(s))
  }

  /** StringToNumber on text without white space around it. */
  function TrimmedToNumber(t: string): Number
  {
    var base := PrefixBase(t);
    if t == [] then Finite(0.0)
    else if base != 0 then
      var v := NumeralValue(t[2..], base);
      if t[2..] != [] && v.Some? then Finite(v.value as real) else NaN
    else
      var u := if t[0] == '+' || t[0] == '-' then t[1..] else t;
      Signed(t[0] == '-', UnsignedToNumber(u))
  }

  /** A StrUnsignedDecimalLiteral: Infinity, or a decimal literal. */
  function UnsignedToNumber(u: string): Number
  {
    if u == "Infinity" then Infinity(false)
    else
      var r := UnsignedDecimal(u);
      if r.None? then NaN else Finite(r.value)
  }

  /** The number under a minus sign, or as it is. */
  function Signed(negative: bool, n: Number): Number
  {
    if !negative then n
    else match n
      case Finite(r) => Finite(-r)
      case Infinity(_) => Infinity(true)
      case NaN => NaN
  }

  // ---------------------------------------------------------------------
  // Integer conversions
  // ---------------------------------------------------------------------

  /** Truncation toward zero. */
  function Truncate(r: real): (i: int)
    ensures r >= 0.0 ==> 0 <= i && i as real <= r < i as real + 1.0
    ensures r < 0.0 ==> i <= 0 && i as real - 1.0 < r <= i as real
  {
    if r >= 0.0 then r.Floor else -((-r).Floor)
  }

  /** ToUint8, as a Uint8Array element stores a number: NaN and the
      infinities give 0, a finite value is truncated toward zero and taken
      modulo 256. */
  function ToUint8(n: Number): (b: byte)
    ensures n.Finite? ==> (b - Truncate(n.r)) % 256 == 0
    ensures !n.Finite? ==> b == 0
  {
    match n
    case Finite(r) => Truncate(r) % 256
    case _ => 0
  }

  // ---------------------------------------------------------------------
  // Properties
  // ---------------------------------------------------------------------

  /** Text that starts and ends with something other than white space
      is its own trimmed text. */
  lemma TrimUnspaced(s: string)
    requires s != [] && !IsSpace(s[0]) && !IsSpace(s[|s| - 1])
    ensures Trim(s) == s
  {
  }

  /** A digit string holds neither an exponent mark nor a point. */
  lemma DigitsHaveNoMarks(s: string)
    requires AllDigits(s)
    ensures IndexOfEither(s, 'e', 'E') == |s| && IndexOfEither(s, '.', '.') == |s|
  {
  }

  /** Digits alone form a decimal literal of their value. */
  lemma UnsignedDigits(s: string)
    requires s != [] && AllDigits(s)
    ensures UnsignedToNumber(s) == Finite(DigitsValue(s) as real)
  {
    DigitsHaveNoMarks(s);
    assert s != "Infinity" by { assert IsDigit(s[0]); }
    assert s[..|s|] == s;
    assert Mantissa(s) == Some(DigitsValue(s) as real) by {
      assert DigitsValue([]) == 0;
    }
  }

  /** Text with nothing but digits reads as their decimal value. */
  lemma DigitStringValue(s: string)
    requires s != [] && AllDigits(s)
    ensures StringToNumber(s) == Finite(DigitsValue(s) as real)
  {
    assert IsDigit(s[0]) && IsDigit(s[|s| - 1]);
    TrimUnspaced(s);
    assert |s| >= 2 ==> IsDigit(s[1]);
    assert PrefixBase(s) == 0;
    UnsignedDigits(s);
  }

  /** StringToNumber inverts number-to-string on the naturals. */
  lemma DecimalReadsBack(n: nat)
    ensures StringToNumber(Decimal(n)) == Finite(n as real)
  {
    DigitStringValue(Decimal(n));
    DecimalValue(n);
  }

  /** White space before the numeral changes nothing. */
  lemma LeadingSpaceIgnored(c: char, s: string)
    requires IsSpace(c)
    ensures StringToNumber([c] + s) == StringToNumber(s)
  {
    assert ([c] + s)[1..] == s;
    assert TrimStart([c] + s) == TrimStart(s);
  }

  /** A minus sign before digits negates their value. */
  lemma NegatedDigits(s: string)
    requires s != [] && AllDigits(s)
    ensures StringToNumber("-" + s) == Finite(-(DigitsValue(s) as real))
  {
    var t := "-" + s;
    assert IsDigit(s[|s| - 1]);
    assert t[|t| - 1] == s[|s| - 1];
    TrimUnspaced(t);
    assert t[1..] == s;
    assert PrefixBase(t) == 0;
    UnsignedDigits(s);
  }

  /** ToUint8 of a natural number is its low octet. */
  lemma NaturalToUint8(n: nat)
    ensures ToUint8(Finite(n as real)) == n % 256
  {
    assert Truncate(n as real) == n;
  }

  /** The decimal text of an octet is stored as that octet. */
  lemma DecimalToUint8(n: nat)
    requires n < 256
    ensures ToUint8(StringToNumber(Decimal(n))) == n
  {
    DecimalReadsBack(n);
    OctetToUint8(StringToNumber(Decimal(n)), n);
  }

  lemma OctetToUint8(x: Number, n: nat)
    requires n < 256 && x == Finite(n as real)
    ensures ToUint8(x) == n
  {
    assert Truncate(n as real) == n;
  }

  /** Buffer.from stores "-1" as 255. */
  lemma MinusOneWraps()
    ensures StringToNumber("-1") == Finite(-1.0) && ToUint8(StringToNumber("-1")) == 255
  {
    NegatedDigits("1");
    assert DigitsValue("1") == 1 by { assert "1"[..0] == []; }
    assert Truncate(-1.0) == -1;
  }

  /** "0x" followed by hex digits is read in base 16. */
  lemma HexDigits(s: string)
    requires s != [] && NumeralValue(s, 16).Some?
    ensures StringToNumber("0x" + s) == Finite(NumeralValue(s, 16).value as real)
  {
    var t := "0x" + s;
    assert DigitOf(s[|s| - 1]) < 16;
    assert t[|t| - 1] == s[|s| - 1];
    TrimUnspaced(t);
    assert PrefixBase(t) == 16;
    assert t[2..] == s;
  }

  /** The hex numeral 0x10 is sixteen. */
  lemma HexNumeral()
    ensures StringToNumber("0x10") == Finite(16.0) && ToUint8(StringToNumber("0x10")) == 16
  {
    assert "10"[..1] == "1" && "1"[..0] == [];
    assert NumeralValue("10", 16) == Some(16);
    assert "0x10" == "0x" + "10";
    HexDigits("10");
    NaturalToUint8(16);
  }

  /** 1e2 is a hundred. */
  lemma ExponentNumeral()
    ensures StringToNumber("1e2") == Finite(100.0) && ToUint8(StringToNumber("1e2")) == 100
  {
    TrimUnspaced("1e2");
    assert PrefixBase("1e2") == 0;
    assert IndexOfEither("1e2", 'e', 'E') == 1;
    assert "1e2"[..1] == "1" && "1e2"[2..] == "2";
    DigitsHaveNoMarks("1");
    assert "1"[..1] == "1" && "1"[..0] == [] && "2"[..0] == [];
    assert Mantissa("1") == Some(1.0);
    assert Exponent("2") == Some(2);
    NaturalToUint8(100);
  }

  /** A plus sign before digits is allowed and ignored. */
  lemma PlusSignIgnored(s: string)
    requires s != [] && AllDigits(s)
    ensures StringToNumber("+" + s) == Finite(DigitsValue(s) as real)
  {
    var t := "+" + s;
    assert IsDigit(s[|s| - 1]);
    assert t[|t| - 1] == s[|s| - 1];
    TrimUnspaced(t);
    assert t[1..] == s;
    assert PrefixBase(t) == 0;
    UnsignedDigits(s);
  }

  /** Leading white space is skipped. */
  lemma SpaceSkipped()
    ensures StringToNumber(" 7") == Finite(7.0) && ToUint8(StringToNumber(" 7")) == 7
  {
    assert " 7" == [' '] + "7";
    LeadingSpaceIgnored(' ', "7");
    DigitStringValue("7");
    assert DigitsValue("7") == 7 by { assert "7"[..0] == []; }
    NaturalToUint8(7);
  }

  /** Text that is no numeral converts to NaN, which a buffer stores as 0. */
  lemma NonNumeralsStoreZero(s: string)
    requires StringToNumber(s) == NaN
    ensures ToUint8(StringToNumber(s)) == 0
  {
  }

  predicate IsLetter(c: char) { 'a' <= c <= 'z' || 'A' <= c <= 'Z' }

  /** Text whose first character past the white space is a letter other
      than the I of Infinity is no numeral: it converts to NaN. */
  lemma LetterStartIsNaN(s: string)
    requires Trim(s) != [] && IsLetter(Trim(s)[0]) && Trim(s)[0] != 'I'
    ensures StringToNumber(s) == NaN
  {
    var t := Trim(s);
    assert PrefixBase(t) == 0;
    assert t != "Infinity";
    var e := IndexOfEither(t, 'e', 'E');
    if e > 0 {
      var m := t[..e];
      assert m[0] == t[0];
      assert IndexOfEither(m, '.', '.') > 0;
      assert !IsDigit(m[..IndexOfEither(m, '.', '.')][0]);
    }
    assert UnsignedDecimal(t) == None;
  }

  /** Empty text is 0; "a" is NaN and is stored as 0. */
  lemma EmptyAndLetterText()
    ensures StringToNumber("") == Finite(0.0) && ToUint8(StringToNumber("")) == 0
    ensures StringToNumber("a") == NaN && ToUint8(StringToNumber("a")) == 0
  {
    assert Trim("") == "";
    NaturalToUint8(0);
    TrimUnspaced("a");
    LetterStartIsNaN("a");
  }
}
