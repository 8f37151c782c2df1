/** The texts around the rounding: hexadecimal wei in, fixed-point ETH out. */
module WeiText {
  import opened Bundles
  import opened WeiRounding

  // ---------- digits ----------

  function DigitValue(c: char): int {
    if '0' <= c <= '9' then c as int - '0' as int
    else if 'a' <= c <= 'f' then c as int - 'a' as int + 10
    else if 'A' <= c <= 'F' then c as int - 'A' as int + 10
    else -1
  }

  function DigitChar(d: nat): (c: char)
    requires d < 16
    ensures DigitValue(c) == d && c != '-' && c != '+' && c != '.'
  {
    "0123456789abcdef"[d]
  }

  /** The number a run of digits denotes; the empty run denotes zero. */
  function Digits(s: string, base: nat): Option<nat> {
    if s == "" then Some(0)
    else
      var d := DigitValue(s[|s| - 1]);
      match Digits(s[..|s| - 1], base)
      case Some(v) => if 0 <= d < base then Some(v * base + d) else None
      case None => None
  }

  function TextOf(n: nat, base: nat): (s: string)
    requires 2 <= base <= 16
    ensures s != "" && forall i :: 0 <= i < |s| ==> s[i] != '-' && s[i] != '+' && s[i] != '.'
  {
    if n < base then [DigitChar(n)] else TextOf(n / base, base) + [DigitChar(n % base)]
  }

  /** Exactly `width` decimal digits of n, the most significant ones dropped. */
  function Padded(n: nat, width: nat): (s: string)
    ensures |s| == width
  {
    if width == 0 then "" else Padded(n / 10, width - 1) + [DigitChar(n % 10)]
  }

  function Pow10(k: nat): nat {
    if k == 0 then 1 else 10 * Pow10(k - 1)
  }

  lemma DigitsSnoc(s: string, d: nat, base: nat)
    requires d < base <= 16
    ensures Digits(s + [DigitChar(d)], base) ==
              match Digits(s, base) case Some(v) => Some(v * base + d) case None => None
  {
    assert (s + [DigitChar(d)])[..|s|] == s;
  }

  /** The last digit of a text and the number the others denote. */
  lemma LastDigit(n: nat, base: nat) returns (q: nat, r: nat)
    requires 2 <= base <= 16 && base <= n
    ensures q < n && r < base && n == q * base + r
    ensures TextOf(n, base) == TextOf(q, base) + [DigitChar(r)]
  {
    q, r := n / base, n % base;
  }

  lemma {:induction false} TextReadsBack(n: nat, base: nat)
    requires 2 <= base <= 16
    ensures Digits(TextOf(n, base), base) == Some(n)
  {
    if n < base {
      DigitsSnoc("", n, base);
      assert TextOf(n, base) == "" + [DigitChar(n)];
    } else {
      var q, r := LastDigit(n, base);
      TextReadsBack(q, base);
      DigitsSnoc(TextOf(q, base), r, base);
    }
  }

  lemma {:induction false} PaddedReadsBack(n: nat, width: nat)
    requires n < Pow10(width)
    ensures Digits(Padded(n, width), 10) == Some(n)
  {
    if width > 0 {
      var s := Padded(n, width);
      PaddedReadsBack(n / 10, width - 1);
      assert s[..width - 1] == Padded(n / 10, width - 1);
    }
  }

  // ---------- the two conversions ----------

  /** An optional sign and at least one hexadecimal digit. */
  function ParseHex(s: string): Option<int> {
    var signed := s != "" && (s[0] == '-' || s[0] == '+');
    var digits := if signed then s[1..] else s;
    if digits == "" then None
    else
      match Digits(digits, 16)
      case Some(v) => Some(if signed && s[0] == '-' then -(v as int) else v)
      case None => None
  }

  /** Nine decimals of ETH, the sign printed even when nothing else is left of a negative value. */
  function FormatEth(wei: int): string {
    (if wei < 0 then "-" else "") + Fixed(NanoEth(if wei < 0 then -wei else wei))
  }

  function Fixed(nano: nat): string {
    TextOf(nano / NANO, 10) + "." + Padded(nano % NANO, 9)
  }

  function Unprefixed(hexWei: string): string {
    if |hexWei| >= 2 && hexWei[..2] == "0x" then hexWei[2..] else hexWei
  }

  predicate Blank(hexWei: string) {
    hexWei == "" || hexWei == "0x0" || hexWei == "0x"
  }

  function WeiHexToEth(hexWei: string): string {
    if Blank(hexWei) then "0"
    else
      match ParseHex(Unprefixed(hexWei))
      case None => hexWei
      case Some(wei) => FormatEth(wei)
  }

  function BigIntToEth(wei: Option<int>): string {
    match wei
    case None => "0.000000000"
    case Some(v) => if v == 0 then "0.000000000" else FormatEth(v)
  }

  // ---------- reading ETH text back ----------

  /** Nano-ETH of an unsigned text, with nine decimals or none. */
  function ReadUnsigned(s: string): Option<nat> {
    if |s| > 10 && s[|s| - 10] == '.' then
      match (Digits(s[..|s| - 10], 10), Digits(s[|s| - 9..], 10))
      case (Some(whole), Some(part)) => Some(whole * NANO + part)
      case _ => None
    else
      match Digits(s, 10)
      case Some(whole) => Some(whole * NANO)
      case None => None
  }

  function ReadNano(s: string): Option<int> {
    if s != "" && s[0] == '-' then
      match ReadUnsigned(s[1..])
      case Some(v) => Some(-(v as int))
      case None => None
    else
      match ReadUnsigned(s)
      case Some(v) => Some(v)
      case None => None
  }

  lemma FixedReadsBack(nano: nat)
    ensures ReadUnsigned(Fixed(nano)) == Some(nano)
    ensures Fixed(nano) != "" && Fixed(nano)[0] != '-'
  {
    var whole, part, s := TextOf(nano / NANO, 10), Padded(nano % NANO, 9), Fixed(nano);
    TextReadsBack(nano / NANO, 10);
    assert Pow10(9) == NANO by {
      assert Pow10(4) == 10000 && Pow10(5) == 100000;
    }
    PaddedReadsBack(nano % NANO, 9);
    assert |s| - 10 == |whole|;
    assert s[..|s| - 10] == whole && s[|s| - 9..] == part && s[|s| - 10] == '.';
  }

  /** Text of the form -123.000000001: no superfluous zero in front, nine decimals, a minus exactly if `negative`. */
  ghost predicate NineDecimals(s: string, negative: bool) {
    var size := if negative && s != "" then s[1..] else s;
    && (negative ==> s != "" && s[0] == '-')
    && |size| > 10 && size[|size| - 10] == '.'
    && (forall i :: 0 <= i < |size| && i != |size| - 10 ==> '0' <= size[i] <= '9')
    && (|size| > 11 ==> size[0] != '0')
  }

  lemma {:induction false} TextIsDecimal(n: nat)
    ensures var s := TextOf(n, 10);
            && (forall i :: 0 <= i < |s| ==> '0' <= s[i] <= '9')
            && (|s| > 1 ==> s[0] != '0') && (n > 0 ==> s[0] != '0')
  {
    if n >= 10 {
      TextIsDecimal(n / 10);
    }
  }

  lemma {:induction false} PaddedIsDecimal(n: nat, width: nat)
    ensures forall i :: 0 <= i < width ==> '0' <= Padded(n, width)[i] <= '9'
  {
    if width > 0 {
      PaddedIsDecimal(n / 10, width - 1);
    }
  }

  lemma FixedHasNineDecimals(nano: nat)
    ensures NineDecimals(Fixed(nano), false)
  {
    var whole, part, size := TextOf(nano / NANO, 10), Padded(nano % NANO, 9), Fixed(nano);
    TextIsDecimal(nano / NANO);
    PaddedIsDecimal(nano % NANO, 9);
    assert size == whole + "." + part && |size| == |whole| + 10;
    forall i | 0 <= i < |size| && i != |size| - 10 ensures '0' <= size[i] <= '9' {
      assert size[i] == if i < |whole| then whole[i] else part[i - |whole| - 1];
    }
  }

  /** The form every printed amount has. */
  lemma FormatHasNineDecimals(wei: int)
    ensures NineDecimals(FormatEth(wei), wei < 0)
  {
    var size := Fixed(NanoEth(if wei < 0 then -wei else wei));
    FixedHasNineDecimals(NanoEth(if wei < 0 then -wei else wei));
    assert FormatEth(wei) == (if wei < 0 then "-" else "") + size;
    assert wei < 0 ==> FormatEth(wei)[1..] == size;
  }

  /** The text of a wei value reads back as a number of nano-ETH within half a nano-ETH of it. */
  lemma FormatIsAccurate(wei: int)
    ensures ReadNano(FormatEth(wei)).Some?
    ensures -NANO <= 2 * (ReadNano(FormatEth(wei)).value * NANO - wei) <= NANO
  {
    var size := if wei < 0 then -wei else wei;
    FixedReadsBack(NanoEth(size));
    NearestNanoEth(size);
    var text := Fixed(NanoEth(size));
    if wei < 0 {
      assert FormatEth(wei)[1..] == text;
    } else {
      assert FormatEth(wei) == text;
    }
  }

  /** The value a big integer stands for; none counts as zero. */
  function Wei(wei: Option<int>): int {
    match wei
    case None => 0
    case Some(v) => v
  }

  /** What a transaction's value is printed as: nine decimals, within half a nano-ETH, for none and zero too. */
  lemma BigIntToEthIsAccurate(wei: Option<int>)
    ensures NineDecimals(BigIntToEth(wei), Wei(wei) < 0)
    ensures ReadNano(BigIntToEth(wei)).Some?
    ensures -500_000_000 <= ReadNano(BigIntToEth(wei)).value * 1_000_000_000 - Wei(wei) <= 500_000_000
  {
    FormatHasNineDecimals(Wei(wei));
    FormatIsAccurate(Wei(wei));
    ZeroPrintsAs();
  }

  lemma ZeroPrintsAs()
    ensures FormatEth(0) == "0.000000000"
  {
    assert NanoEth(0) == 0 && TextOf(0, 10) == "0";
    PaddedZeros(9);
    assert Padded(0, 9) == "000000000";
  }

  lemma {:induction false} PaddedZeros(width: nat)
    ensures |Padded(0, width)| == width && forall i :: 0 <= i < width ==> Padded(0, width)[i] == '0'
  {
    if width > 0 {
      PaddedZeros(width - 1);
    }
  }

  /** Larger values never print as less, none and zero included. */
  lemma BigIntToEthIsMonotone(a: Option<int>, b: Option<int>)
    requires Wei(a) <= Wei(b)
    ensures ReadNano(BigIntToEth(a)).Some? && ReadNano(BigIntToEth(b)).Some?
    ensures ReadNano(BigIntToEth(a)).value <= ReadNano(BigIntToEth(b)).value
  {
    ZeroPrintsAs();
    PrintingIsMonotone(Wei(a), Wei(b));
  }

  /** The wei value a text is taken for, if it is taken for one. */
  function WeiValue(hexWei: string): Option<int> {
    if Blank(hexWei) then Some(0) else ParseHex(Unprefixed(hexWei))
  }

  /**
    Every input: nothing and zero print as "0"; any other text that is a wei value becomes nine-decimal text that
    reads back within half a nano-ETH of that value; and any other text is returned as it is.
   */
  lemma WeiHexToEthIsAccurate(hexWei: string)
    ensures hexWei == "" || hexWei == "0x" || hexWei == "0x0" ==> WeiValue(hexWei) == Some(0) && WeiHexToEth(hexWei) == "0"
    ensures match WeiValue(hexWei)
            case None => WeiHexToEth(hexWei) == hexWei
            case Some(wei) =>
              var nano := ReadNano(WeiHexToEth(hexWei));
              && nano.Some? && -NANO <= 2 * (nano.value * NANO - wei) <= NANO
              && (hexWei != "" && hexWei != "0x" && hexWei != "0x0" ==> NineDecimals(WeiHexToEth(hexWei), wei < 0))
  {
    if Blank(hexWei) {
      assert "0"[..0] == "";
      assert Digits("0", 10) == Some(0);
    } else if WeiValue(hexWei).Some? {
      FormatIsAccurate(WeiValue(hexWei).value);
      FormatHasNineDecimals(WeiValue(hexWei).value);
    }
  }

  lemma {:induction false} BadDigit(s: string, i: nat, base: nat)
    requires i < |s| && DigitValue(s[i]) < 0
    ensures Digits(s, base) == None
  {
    if i < |s| - 1 {
      BadDigit(s[..|s| - 1], i, base);
    }
  }

  /** Only the lower-case prefix is understood; text with the other one is returned as it is. */
  lemma UpperPrefixIsNotUnderstood(s: string)
    ensures WeiValue("0X" + s) == None && WeiHexToEth("0X" + s) == "0X" + s
  {
    var text := "0X" + s;
    assert text[0] == '0' && text[1] == 'X' && text[..2][1] == 'X';
    BadDigit(text, 1, 16);
  }

  /** The prefixed hexadecimal text of any positive wei value is taken for that value, and both printers agree on it. */
  lemma HexTextIsUnderstood(wei: nat)
    requires wei > 0
    ensures var text := "0x" + TextOf(wei, 16);
            WeiValue(text) == Some(wei) && WeiHexToEth(text) == BigIntToEth(Some(wei))
  {
    var digits := TextOf(wei, 16);
    var text := "0x" + digits;
    TextReadsBack(wei, 16);
    assert text[..2] == "0x" && text[2..] == digits;
    assert "0"[..0] == "";
    assert Digits("0", 16) == Some(0);
    assert digits != "0";
  }

  /** A sign in front of hexadecimal digits is understood. */
  lemma SignedTextIsUnderstood(s: string, wei: nat)
    requires s != "" && Digits(s, 16) == Some(wei) && s[0] != '-' && s[0] != '+'
    ensures WeiValue("-" + s) == Some(-(wei as int)) && WeiValue("+" + s) == Some(wei)
  {
    assert ("-" + s)[1..] == s && ("+" + s)[1..] == s;
    assert ("-" + s)[..2] != "0x" && ("+" + s)[..2] != "0x" by {
      assert ("-" + s)[..2][0] == '-' && ("+" + s)[..2][0] == '+';
    }
  }

  function Upper(c: char): char {
    if 'a' <= c <= 'z' then (c as int - 32) as char else c
  }

  /** Letter case does not matter to the digits. */
  lemma {:induction false} CaseIsIgnored(s: string, t: string)
    requires |s| == |t| && forall i :: 0 <= i < |s| ==> t[i] == s[i] || t[i] == Upper(s[i])
    ensures Digits(s, 16) == Digits(t, 16)
  {
    if s != "" {
      CaseIsIgnored(s[..|s| - 1], t[..|t| - 1]);
    }
  }

  /** Larger wei values never print as less, negative ones included. */
  lemma PrintingIsMonotone(a: int, b: int)
    requires a <= b
    ensures ReadNano(FormatEth(a)).Some? && ReadNano(FormatEth(b)).Some?
    ensures ReadNano(FormatEth(a)).value <= ReadNano(FormatEth(b)).value
  {
    FormatIsAccurate(a);
    FormatIsAccurate(b);
    NearbyKeepsOrder(a, b, ReadNano(FormatEth(a)).value, ReadNano(FormatEth(b)).value);
  }

  /** Rounding to within half a unit keeps the order. */
  lemma NearbyKeepsOrder(a: int, b: int, x: int, y: int)
    requires a <= b && (a == b ==> x == y)
    requires -NANO <= 2 * (x * NANO - a) <= NANO && -NANO <= 2 * (y * NANO - b) <= NANO
    ensures x <= y
  {
  }

  // ---------- decimal texts are read as hexadecimal ----------

  lemma {:induction false} DecimalDigitsReadAsHex(n: nat)
    ensures Digits(TextOf(n, 10), 16).Some?
    ensures Digits(TextOf(n, 10), 16).value >= n
    ensures Digits(TextOf(n, 10), 16).value == n <==> n < 10
  {
    var s := TextOf(n, 10);
    if n < 10 {
      assert s[..0] == "";
    } else {
      DecimalDigitsReadAsHex(n / 10);
      assert s[..|s| - 1] == TextOf(n / 10, 10);
      assert n == (n / 10) * 10 + n % 10;
    }
  }

  lemma PlainTextIsParsed(s: string)
    requires s != "" && s[0] != '-' && s[0] != '+' && (|s| >= 2 ==> s[1] != 'x')
    ensures !Blank(s) && Unprefixed(s) == s
    ensures ParseHex(s) == match Digits(s, 16) case Some(v) => Some(v) case None => None
  {
    if |s| >= 2 {
      assert s[..2][1] == s[1];
    }
  }

  /** An amount written in decimal, without a prefix, is read as a larger one exactly when it has two digits or more. */
  lemma DecimalAmountIsMisreadIff(n: nat)
    ensures WeiValue(TextOf(n, 10)).Some?
    ensures WeiValue(TextOf(n, 10)).value >= n
    ensures WeiValue(TextOf(n, 10)).value == n <==> n < 10
  {
    DecimalDigitsReadAsHex(n);
    SecondIsNotX(n);
    PlainTextIsParsed(TextOf(n, 10));
  }

  lemma {:induction false} SecondIsNotX(n: nat)
    ensures var s := TextOf(n, 10); |s| >= 2 ==> s[1] != 'x'
  {
    if n >= 10 {
      SecondIsNotX(n / 10);
    }
  }
}
