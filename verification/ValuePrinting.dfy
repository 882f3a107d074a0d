// Printed amounts, and the round trip: what the parser reads back from a printed amount. The printer
// is the reference the parser is measured against; its styles are the ones financial statements use.
module ValuePrinting {
  import opened Prelude
  import opened ValueParsing

  datatype Style = Plain | Parenthesised | Minus(sign: char)

  function DigitChar(d: nat): (c: char)
    requires d <= 9
    ensures IsDigit(c) && DigitValue(c) == d
  {
    '0' + d as char
  }

  function Digits(n: nat): (s: string)
    ensures s != [] && AllDigits(s)
    ensures Numeral(s) == n
  {
    if n < 10 then
      var s := [DigitChar(n)];
      assert Numeral(s[..0]) == 0;
      s
    else
      var s := Digits(n / 10) + [DigitChar(n % 10)];
      assert s[..|s| - 1] == Digits(n / 10);
      s
  }

  /** At least w digits, by leading zeros: the value does not change. */
  function Padded(s: string, w: nat): (r: string)
    requires AllDigits(s)
    ensures AllDigits(r) && |r| >= w && |r| >= |s|
    ensures Numeral(r) == Numeral(s)
    decreases w - |s|
  {
    if |s| >= w then s else LeadingZero(s); Padded("0" + s, w)
  }

  lemma {:induction false} LeadingZero(s: string)
    requires AllDigits(s)
    ensures AllDigits("0" + s) && Numeral("0" + s) == Numeral(s)
  {
    var z := "0" + s;
    if s == [] {
      assert Numeral(z[..0]) == 0;
    } else {
      LeadingZero(s[..|s| - 1]);
      assert z[..|z| - 1] == "0" + s[..|s| - 1];
    }
  }

  /** Commas between groups of three digits, counted from the right. */
  function Grouped(s: string): string {
    if |s| <= 3 then s else Grouped(s[..|s| - 3]) + "," + s[|s| - 3..]
  }

  /** The digits of coefficient / 10^decimals, with optional comma groups. */
  function PrintCore(coefficient: nat, decimals: nat, commas: bool): string {
    var s := Padded(Digits(coefficient), decimals + 1);
    var whole := s[..|s| - decimals];
    (if commas then Grouped(whole) else whole) + (if decimals == 0 then "" else "." + s[|s| - decimals..])
  }

  function Print(coefficient: nat, decimals: nat, commas: bool, style: Style): string {
    var core := PrintCore(coefficient, decimals, commas);
    match style
    case Plain => core
    case Parenthesised => "(" + core + ")"
    case Minus(sign) => [sign] + core
  }

  // ---------------------------------------------------------------- the core round trip

  lemma {:induction false} WithoutCommasAppend(a: string, b: string)
    ensures WithoutCommas(a + b) == WithoutCommas(a) + WithoutCommas(b)
  {
    if a == [] {
      assert a + b == b;
    } else {
      assert (a + b)[1..] == a[1..] + b;
      WithoutCommasAppend(a[1..], b);
    }
  }

  lemma {:induction false} WithoutCommasKeepsDigits(s: string)
    requires AllDigits(s)
    ensures WithoutCommas(s) == s
  {
    if s != [] {
      WithoutCommasKeepsDigits(s[1..]);
    }
  }

  lemma {:induction false} GroupsExtend(g: string, tail: string)
    requires IsGroups(g) && |tail| == 3 && AllDigits(tail)
    ensures IsGroups(g + "," + tail) && WithoutCommas(g + "," + tail) == WithoutCommas(g) + tail
  {
    hide IsGroups, WithoutCommas, AllDigits;
    GroupsShape(g, tail);
    GroupsValue(g, tail);
  }

  lemma {:induction false} GroupsValue(g: string, tail: string)
    requires AllDigits(tail)
    ensures WithoutCommas(g + "," + tail) == WithoutCommas(g) + tail
  {
    hide WithoutCommas, AllDigits;
    WithoutCommasAppend(g + ",", tail);
    WithoutCommasAppend(g, ",");
    CommaAlone();
    assert WithoutCommas(g) + [] == WithoutCommas(g);
    WithoutCommasKeepsDigits(tail);
  }

  lemma {:induction false} GroupsShape(g: string, tail: string)
    requires IsGroups(g) && |tail| == 3 && AllDigits(tail)
    ensures IsGroups(g + "," + tail)
  {
    var s := g + "," + tail;
    assert s[..|s| - 4] == g;
    assert s[|s| - 3..] == tail;
    assert s[|s| - 4] == ',';
  }

  lemma {:induction false} CommaAlone()
    ensures WithoutCommas(",") == []
  {
    assert WithoutCommas(",") == WithoutCommas(","[1..]);
  }

  lemma {:induction false} GroupedIsGroups(s: string)
    requires s != [] && AllDigits(s)
    ensures IsGroups(Grouped(s)) && WithoutCommas(Grouped(s)) == s
  {
    hide IsGroups, WithoutCommas;
    if |s| <= 3 {
      FewAreGroups(s);
      WithoutCommasKeepsDigits(s);
    } else {
      var head, tail := s[..|s| - 3], s[|s| - 3..];
      GroupedIsGroups(head);
      GroupsExtend(Grouped(head), tail);
      assert s == head + tail;
    }
  }

  lemma {:induction false} FewAreGroups(s: string)
    requires 1 <= |s| <= 3 && AllDigits(s)
    ensures IsGroups(s)
  {
  }

  lemma {:induction false} FirstDot(a: string, b: string)
    requires '.' !in a
    ensures DotAt(a + "." + b) == |a|
  {
    var s := a + "." + b;
    assert forall i :: 0 <= i < |a| ==> s[i] == a[i];
    assert s[|a|] == '.';
  }

  lemma {:induction false} NoDot(a: string)
    requires '.' !in a
    ensures DotAt(a) == |a|
  {
  }

  lemma {:induction false} WholeIsDotFree(whole: string)
    requires IsWhole(whole)
    ensures '.' !in whole && whole != []
  {
    if IsGroups(whole) {
      GroupsChars(whole);
    }
  }

  /** A whole part and a fraction of digits form a core whose exact value is their digits, read together. */
  lemma {:induction false} CoreOfParts(whole: string, digits: string, fraction: string)
    requires IsWhole(whole) && WithoutCommas(whole) == digits && AllDigits(digits) && AllDigits(fraction)
    ensures var core := whole + (if fraction == [] then "" else "." + fraction);
            IsCore(core) && Dec(core) == Amount(Numeral(digits + fraction), |fraction|)
  {
    var core := whole + (if fraction == [] then "" else "." + fraction);
    WholeIsDotFree(whole);
    if fraction == [] {
      assert core == whole;
      NoDot(whole);
      assert WholePart(core) == whole && Fraction(core) == [];
      assert digits + [] == digits;
    } else {
      assert core == whole + "." + fraction;
      FirstDot(whole, fraction);
      assert core[..|whole|] == whole && core[|whole| + 1..] == fraction;
    }
  }

  lemma {:induction false} PrintCoreParses(coefficient: nat, decimals: nat, commas: bool)
    ensures var core := PrintCore(coefficient, decimals, commas);
            IsCore(core) && Dec(core) == Amount(coefficient, decimals)
  {
    var s := Padded(Digits(coefficient), decimals + 1);
    var whole, fraction := s[..|s| - decimals], s[|s| - decimals..];
    assert whole + fraction == s;
    var printed := if commas then Grouped(whole) else whole;
    if commas {
      GroupedIsGroups(whole);
    } else {
      WithoutCommasKeepsDigits(whole);
    }
    CoreOfParts(printed, whole, fraction);
    assert decimals == 0 <==> fraction == [];
  }

  // ---------------------------------------------------------------- the cell round trip

  lemma {:induction false} StripLeftDrops(pad: string, t: string)
    requires forall i :: 0 <= i < |pad| ==> IsSpace(pad[i])
    requires t != [] && !IsSpace(t[0])
    ensures StripLeft(pad + t) == t
  {
    if pad == [] {
      assert pad + t == t;
    } else {
      assert (pad + t)[1..] == pad[1..] + t;
      StripLeftDrops(pad[1..], t);
    }
  }

  lemma {:induction false} StripRightDrops(t: string, pad: string)
    requires forall i :: 0 <= i < |pad| ==> IsSpace(pad[i])
    requires t != [] && !IsSpace(t[|t| - 1])
    ensures StripRight(t + pad) == t
  {
    if pad == [] {
      assert t + pad == t;
    } else {
      assert (t + pad)[..|t + pad| - 1] == t + pad[..|pad| - 1];
      StripRightDrops(t, pad[..|pad| - 1]);
    }
  }

  ghost predicate Blanks(pad: string) {
    forall i :: 0 <= i < |pad| ==> IsSpace(pad[i])
  }

  /** Surrounding blanks are dropped, and nothing else. */
  lemma {:induction false} StripRecovers(left: string, t: string, right: string)
    requires Blanks(left) && Blanks(right) && t != [] && !IsSpace(t[0]) && !IsSpace(t[|t| - 1])
    ensures Strip(left + t + right) == t
  {
    assert left + t + right == left + (t + right);
    StripLeftDrops(left, t + right);
    StripRightDrops(t, right);
  }

  /** A date has two separators outside its digits; a core has at most one. */
  lemma {:induction false} CoreIsNotDate(core: string)
    requires IsCore(core)
    ensures !IsDateCell(core)
  {
    CoreChars(core);
    forall a: nat, b: nat, c: nat ensures !DateLike(core, a, b, c) {
    }
  }

  lemma {:induction false} SignedIsNotDate(t: string)
    requires t != [] && !IsDigit(t[0])
    ensures !IsDateCell(t)
  {
    forall a: nat, b: nat, c: nat ensures a >= 1 ==> !DateLike(t, a, b, c) {
      if 1 <= a <= |t| {
        assert t[..a][0] == t[0];
      }
    }
  }

  lemma {:induction false} NotAnErrorCell(t: string)
    requires t != [] && t[0] != '#'
    ensures !IsErrorCell(t)
  {
    assert UpperAll(t)[0] == Upper(t[0]);
  }

  lemma {:induction false} CoreIsNotDashCell(t: string, core: string)
    requires IsCore(core) && (t == core || t == "(" + core + ")" || (|t| == |core| + 1 && t[1..] == core))
    ensures !IsDashCell(t)
  {
    CoreChars(core);
    if t == core {
      assert !IsDash(t[0]);
    } else {
      assert t[1] == core[0];
    }
  }

  lemma {:induction false} PlainParses(core: string)
    requires IsCore(core) && Strip(core) == core
    ensures ParseValue(core) == Parsed(Some(Dec(core)), Numeric)
  {
    CoreChars(core);
    CoreIsNotDashCell(core, core);
    NotAnErrorCell(core);
    CoreIsNotDate(core);
    assert PlainCore(core) == core;
    hide IsDateCell, IsErrorCell, IsDashCell, IsCore, Dec, Strip;
  }

  /** What the parser makes of a printed negative. */
  function NegativeOf(d: Amount, cls: Class): Parsed
    requires d.coefficient >= 0
  {
    Parsed(Some(Negate(d)), if d.coefficient == 0 then NegativeZero else cls)
  }

  lemma {:induction false} ParenParses(core: string)
    requires IsCore(core) && Strip(core) == core && Strip("(" + core + ")") == "(" + core + ")"
    ensures ParseValue("(" + core + ")") == NegativeOf(Dec(core), ParenthesisedNegative)
  {
    var t := "(" + core + ")";
    assert t[1..|t| - 1] == core;
    assert IsParenCell(t);
    CoreIsNotDashCell(t, core);
    NotAnErrorCell(t);
    SignedIsNotDate(t);
    assert PlainCore(t) == t;
    if IsCore(t) { DashIsNotCore(t); }
    hide IsDateCell, IsErrorCell, IsDashCell, IsCore, Dec, Strip;
  }

  lemma {:induction false} MinusParses(sign: char, core: string)
    requires IsMinus(sign) && IsCore(core) && Strip([sign] + core) == [sign] + core
    ensures ParseValue([sign] + core) == NegativeOf(Dec(core), MinusNegative)
  {
    var t := [sign] + core;
    assert t[1..] == core && t[1] == core[0];
    CoreChars(core);
    assert MinusCore(t) == core;
    CoreIsNotDashCell(t, core);
    NotAnErrorCell(t);
    SignedIsNotDate(t);
    assert PlainCore(t) == t;
    if IsCore(t) { DashIsNotCore(t); }
    hide IsDateCell, IsErrorCell, IsDashCell, IsCore, Dec, Strip;
  }

  function NegativeClass(style: Style): Class {
    if style.Parenthesised? then ParenthesisedNegative else MinusNegative
  }

  predicate PrintableStyle(style: Style) {
    style.Minus? ==> IsMinus(style.sign)
  }

  lemma {:induction false} StripOfTrimmed(t: string)
    requires t != [] && !IsSpace(t[0]) && !IsSpace(t[|t| - 1])
    ensures Strip(t) == t
  {
    assert StripLeft(t) == t;
  }

  lemma {:induction false} StripOfStripped(left: string, t: string, right: string)
    requires Strip(left + t + right) == t && Strip(t) == t
    ensures ParseValue(left + t + right) == ParseValue(t)
  {
    hide Strip, IsDashCell, IsErrorCell, IsDateCell, PlainCore, IsCore, Dec, IsParenCell, Negate, IsMinusCell,
         MinusCore, ParsePercent, IsBoundCell, LooksNumeric;
  }

  lemma {:induction false} PrintedIsTrimmed(coefficient: nat, decimals: nat, commas: bool, style: Style)
    requires PrintableStyle(style)
    ensures var t := Print(coefficient, decimals, commas, style);
            t != [] && !IsSpace(t[0]) && !IsSpace(t[|t| - 1])
  {
    hide PrintCore, IsCore, Dec;
    var core := PrintCore(coefficient, decimals, commas);
    PrintCoreParses(coefficient, decimals, commas);
    CoreChars(core);
    var t := Print(coefficient, decimals, commas, style);
    if style.Minus? {
      assert t[|t| - 1] == core[|core| - 1];
    }
  }

  /** Parse undoes print, up to the parser's own negation: for every amount, with or without comma groups, any
      decimals, every style and any surrounding blanks. */
  lemma {:induction false} ParseOfPrint(coefficient: nat, decimals: nat, commas: bool, style: Style, left: string,
                                        right: string)
    requires PrintableStyle(style) && Blanks(left) && Blanks(right)
    ensures ParseValue(left + Print(coefficient, decimals, commas, style) + right) ==
            if style == Plain then Parsed(Some(Amount(coefficient, decimals)), Numeric)
            else NegativeOf(Amount(coefficient, decimals), NegativeClass(style))
  {
    hide ParseValue, Strip, IsCore, Dec, PrintCore, IsSpace, Negate;
    var core := PrintCore(coefficient, decimals, commas);
    var t := Print(coefficient, decimals, commas, style);
    PrintCoreParses(coefficient, decimals, commas);
    PrintedIsTrimmed(coefficient, decimals, commas, Plain);
    PrintedIsTrimmed(coefficient, decimals, commas, style);
    StripOfTrimmed(core);
    StripOfTrimmed(t);
    StripRecovers(left, t, right);
    StripOfStripped(left, t, right);
    match style
    case Plain => PlainParses(core);
    case Parenthesised => ParenParses(core);
    case Minus(sign) => MinusParses(sign, core);
  }

  lemma {:induction false} RoundingIsExactOnMultiples(c: nat, u: nat)
    requires u >= 1
    ensures RoundHalfEven(c, u) * u == c <==> c % u == 0
  {
    var q, r := c / u, c % u;
    assert c == q * u + r;
    assert (q + 1) * u == q * u + u;
  }

  /** A printed negative reads back as its exact value if and only if it fits the parser's decimal context:
      at most 28 significant digits, or only zeros beyond the 28th. Everything else is rounded. */
  lemma {:induction false} NegativeReadsBackExactly(coefficient: nat, decimals: nat, commas: bool, style: Style,
                                                    left: string, right: string)
    requires PrintableStyle(style) && style != Plain && Blanks(left) && Blanks(right)
    ensures ParseValue(left + Print(coefficient, decimals, commas, style)
            + right).amount == Some(Amount(-(coefficient as int), decimals))
            <==> DigitCount(coefficient) <= PRECISION || coefficient % Pow10(DigitCount(coefficient) - PRECISION) == 0
  {
    hide ParseValue, Print;
    ParseOfPrint(coefficient, decimals, commas, style, left, right);
    RoundingIsExactOnMultiples(coefficient, KeptUnit(coefficient));
  }

  /** The failing family: 10...01 with more than 28 digits, printed negative, does not read back (its last
      digit is rounded away), while the same digits printed plain do. */
  lemma {:induction false} LongNegativeIsRounded(k: nat)
    requires k >= PRECISION
    ensures var n := Pow10(k) + 1;
            && ParseValue(Print(n, 0, false, Parenthesised)).amount != Some(Amount(-(n as int), 0))
            && ParseValue(Print(n, 0, false, Plain)) == Parsed(Some(Amount(n, 0)), Numeric)
  {
    hide ParseValue, Print, DigitCount, Negate, Pow10;
    var n := Pow10(k) + 1;
    assert "" + Print(n, 0, false, Parenthesised) + "" == Print(n, 0, false, Parenthesised);
    assert "" + Print(n, 0, false, Plain) + "" == Print(n, 0, false, Plain);
    NegativeReadsBackExactly(n, 0, false, Parenthesised, "", "");
    ParseOfPrint(n, 0, false, Plain, "", "");
    DigitCountOfPowerPlusOne(n, k);
    LongNumberIsNotKept(n, k);
  }

  lemma {:induction false} LongNumberIsNotKept(n: nat, k: nat)
    requires k >= PRECISION && n == Pow10(k) + 1
    ensures n % Pow10(k + 1 - PRECISION) != 0
  {
    hide Pow10;
    Pow10Next(k - 1);
    Pow10Next(k - PRECISION);
    NotMultiple(n, Pow10(k - PRECISION));
  }

  lemma {:induction false} Pow10Next(k: nat)
    ensures Pow10(k + 1) == 10 * Pow10(k)
  {
  }

  lemma {:induction false} NotMultiple(n: nat, m: nat)
    requires n % 10 == 1 && m >= 1
    ensures n % (10 * m) != 0
  {
    var q, r := n / (10 * m), n % (10 * m);
    assert n == q * (10 * m) + r;
    assert q * (10 * m) == 10 * (q * m);
  }

  lemma {:induction false} DigitCountOfPowerPlusOne(n: nat, k: nat)
    requires k >= 1 && n == Pow10(k) + 1
    ensures DigitCount(n) == k + 1
  {
    hide DigitCount, Pow10;
    Pow10Next(k - 1);
    Pow10Next(k);
    assert Pow10(k + 1 - 1) <= n < Pow10(k + 1);
    DigitCountIs(n, k + 1);
  }

  lemma {:induction false} DigitCountIs(n: nat, a: nat)
    requires n > 0 && a >= 1 && Pow10(a - 1) <= n < Pow10(a)
    ensures DigitCount(n) == a
  {
    hide DigitCount, Pow10;
    var d := DigitCount(n);
    DigitCountIsUnique(n, a, d);
  }

  lemma {:induction false} DigitCountIsUnique(n: nat, a: nat, b: nat)
    requires a >= 1 && b >= 1 && Pow10(a - 1) <= n < Pow10(a) && Pow10(b - 1) <= n < Pow10(b)
    ensures a == b
  {
    hide Pow10;
    if a < b {
      Pow10Monotone(a, b - 1);
    } else if b < a {
      Pow10Monotone(b, a - 1);
    }
  }

  // ---------------------------------------------------------------- percentages

  /** How a percentage is printed around its core: nothing, a minus or '(' before it, ')' before the sign or after it,
      and blanks between. */
  datatype PercentStyle = PercentStyle(lead: string, gap: string, before: string, close: bool, after: string,
                                       lastGap: string, closeLast: bool)

  ghost predicate PrintablePercent(style: PercentStyle) {
    && (style.lead == "" || style.lead == "(" || (|style.lead| == 1 && IsMinus(style.lead[0])))
    && Blanks(style.gap) && Blanks(style.before) && Blanks(style.after) && Blanks(style.lastGap)
    && (style.lead == "" ==> style.gap == "") && (!style.closeLast ==> style.lastGap == "")
  }

  /** What follows the percent sign, what follows the core, and the whole. */
  function PercentEnd(style: PercentStyle): string {
    style.lastGap + if style.closeLast then ")" else ""
  }

  function PercentTail(style: PercentStyle): string {
    style.before + (if style.close then ")" + style.after else "") + "%" + PercentEnd(style)
  }

  function PrintPercent(core: string, style: PercentStyle): string {
    style.lead + style.gap + core + PercentTail(style)
  }

  lemma {:induction false} PrefixOfCore(core: string, tail: string)
    requires (forall i :: 0 <= i < |core| ==> IsNumberChar(core[i])) && tail != [] && !IsNumberChar(tail[0])
    ensures NumberPrefix(core + tail) == |core|
  {
    if core == [] {
      assert core + tail == tail;
    } else {
      assert (core + tail)[1..] == core[1..] + tail;
      PrefixOfCore(core[1..], tail);
    }
  }

  lemma {:induction false} TailStarts(style: PercentStyle)
    requires PrintablePercent(style)
    ensures PercentTail(style) != [] && !IsNumberChar(PercentTail(style)[0])
  {
  }

  /** Before the core: the sign, and the blanks after it. */
  lemma {:induction false} PercentStarts(core: string, style: PercentStyle)
    requires PrintablePercent(style) && IsCore(core)
    ensures var t := PrintPercent(core, style);
            && t != [] && (IsMinus(t[0]) <==> style.lead != "" && style.lead != "(")
            && (t[0] == '(' <==> style.lead == "(")
            && StripLeft(if style.lead != "" then t[1..] else t) == core + PercentTail(style)
  {
    hide IsCore, PercentTail;
    CoreChars(core);
    var (t, s) := (PrintPercent(core, style), core + PercentTail(style));
    if style.lead == "" {
      assert t == s;
      StripLeftDrops("", s);
    } else {
      assert t[0] == style.lead[0] && t[1..] == style.gap + s;
      StripLeftDrops(style.gap, s);
    }
  }

  lemma {:induction false} PercentCore(core: string, style: PercentStyle)
    requires PrintablePercent(style) && IsCore(core)
    ensures var s := core + PercentTail(style);
            NumberPrefix(s) == |core| && s[..|core|] == core && s[|core|..] == PercentTail(style)
  {
    hide IsCore, NumberPrefix, PercentTail;
    CoreChars(core);
    TailStarts(style);
    PrefixOfCore(core, PercentTail(style));
  }

  /** The core and the signs of a printed percentage are read back. */
  lemma {:induction false} PercentParses(core: string, style: PercentStyle)
    requires PrintablePercent(style) && IsCore(core)
    ensures ParsePercent(PrintPercent(core, style)) ==
            Percent(style.lead != "" && style.lead != "(", style.lead == "(", core, style.close || style.closeLast)
  {
    hide IsCore, NumberPrefix, PercentTail, PrintPercent, PrintablePercent, StripLeft, IsMinus;
    PercentStarts(core, style);
    PercentCore(core, style);
    PercentSigns(style);
  }

  lemma {:induction false} PercentSigns(style: PercentStyle)
    requires PrintablePercent(style)
    ensures var r1 := StripLeft(PercentTail(style));
            var r2 := StripLeft(if StartsWith(r1, ')') then r1[1..] else r1);
            var r3 := StripLeft(if r2 == [] then [] else r2[1..]);
            && (StartsWith(r1, ')') <==> style.close) && StartsWith(r2, '%')
            && (StartsWith(r3, ')') <==> style.closeLast) && (if style.closeLast then r3[1..] else r3) == []
  {
    hide PrintablePercent, PercentTail, PercentEnd, StripLeft;
    AfterCore(style);
    AfterSign(style);
    var sign := "%" + PercentEnd(style);
    assert sign[0] == '%' && sign[1..] == PercentEnd(style);
  }

  lemma {:induction false} AfterCore(style: PercentStyle)
    requires PrintablePercent(style)
    ensures var r1 := StripLeft(PercentTail(style));
            && (StartsWith(r1, ')') <==> style.close)
            && StripLeft(if StartsWith(r1, ')') then r1[1..] else r1) == "%" + PercentEnd(style)
  {
    hide PercentEnd, StripLeft;
    var sign := "%" + PercentEnd(style);
    if style.close {
      var rest := ")" + (style.after + sign);
      assert PercentTail(style) == style.before + rest && rest[1..] == style.after + sign;
      StripLeftDrops(style.before, rest);
      StripLeftDrops(style.after, sign);
    } else {
      assert PercentTail(style) == style.before + sign;
      StripLeftDrops(style.before, sign);
      assert "" + sign == sign;
      StripLeftDrops("", sign);
    }
  }

  lemma {:induction false} AfterSign(style: PercentStyle)
    requires PrintablePercent(style)
    ensures var r3 := StripLeft(PercentEnd(style));
            (StartsWith(r3, ')') <==> style.closeLast) && (if style.closeLast then r3[1..] else r3) == []
  {
    if style.closeLast {
      StripLeftDrops(style.lastGap, ")");
    } else {
      assert PercentEnd(style) == "";
    }
  }

  lemma {:induction false} StripKeeps(s: string, c: char)
    requires c in s && !IsSpace(c)
    ensures c in Strip(s)
  {
    StripLeftKeeps(s, c);
    StripRightKeeps(StripLeft(s), c);
  }

  lemma {:induction false} StripLeftKeeps(s: string, c: char)
    requires c in s && !IsSpace(c)
    ensures c in StripLeft(s)
  {
    if s != [] && IsSpace(s[0]) {
      StripLeftKeeps(s[1..], c);
    }
  }

  lemma {:induction false} StripRightKeeps(s: string, c: char)
    requires c in s && !IsSpace(c)
    ensures c in StripRight(s)
  {
    if s != [] && IsSpace(s[|s| - 1]) {
      StripRightKeeps(s[..|s| - 1], c);
    }
  }

  lemma {:induction false} DateChars(t: string, a: nat, b: nat, c: nat, i: nat)
    requires DateLike(t, a, b, c) && i < |t|
    ensures IsDigit(t[i]) || IsDateSeparator(t[i])
  {
    if i < a { assert t[..a][i] == t[i]; }
    if a + 1 <= i < a + 1 + b { assert t[a + 1..a + 1 + b][i - a - 1] == t[i]; }
    if a + b + 2 <= i { assert t[a + b + 2..][i - a - b - 2] == t[i]; }
  }

  lemma {:induction false} DateHasNoPercent(t: string)
    requires '%' in t
    ensures !IsDateCell(t)
  {
    hide DateLike;
    var i :| 0 <= i < |t| && t[i] == '%';
    forall a: nat, b: nat, c: nat ensures !DateLike(t, a, b, c) {
      if DateLike(t, a, b, c) {
        DateChars(t, a, b, c, i);
      }
    }
  }

  lemma {:induction false} CoreHasNoPercent(s: string)
    requires '%' in s
    ensures !IsCore(s)
  {
    if IsCore(s) {
      CoreChars(s);
    }
  }

  /** A printed percentage is none of the patterns that come before it. */
  lemma {:induction false} PercentIsNothingElse(core: string, style: PercentStyle)
    requires PrintablePercent(style) && IsCore(core)
    ensures var t := PrintPercent(core, style);
            && t != [] && !IsSpace(t[0]) && !IsSpace(t[|t| - 1])
            && !IsDashCell(t) && !IsErrorCell(t) && !IsDateCell(t) && !IsCore(PlainCore(t)) && !IsParenCell(t)
            && !IsMinusCell(t)
  {
    hide IsCore, Strip, IsErrorCell, IsDateCell;
    CoreChars(core);
    var (t, end) := (PrintPercent(core, style), PercentEnd(style));
    var at := |t| - |end| - 1;
    assert t[at] == '%' && at >= |style.lead| + |core| && '%' in t;
    assert t[0] == if style.lead == "" then core[0] else style.lead[0];
    assert t[|t| - 1] == if style.closeLast then ')' else '%';
    NotAnErrorCell(t);
    DateHasNoPercent(t);
    CoreHasNoPercent(t);
    if style.closeLast {
      assert t[1..|t| - 1][at - 1] == '%';
      StripKeeps(t[1..|t| - 1], '%');
      CoreHasNoPercent(Strip(t[1..|t| - 1]));
    }
    if IsMinus(t[0]) {
      assert MinusCore(t) == t[|t| - |MinusCore(t)|..] && MinusCore(t)[at - (|t| - |MinusCore(t)|)] == '%';
      CoreHasNoPercent(MinusCore(t));
    }
  }

  /** Parse undoes print for percentages too: with a balanced parenthesis or none the amount is the printed one, negated
      if a minus or a parenthesis is printed; an unbalanced one is not resolved. */
  lemma {:induction false} ParseOfPercent(coefficient: nat, decimals: nat, commas: bool, style: PercentStyle,
                                          left: string, right: string)
    requires PrintablePercent(style) && Blanks(left) && Blanks(right)
    ensures var amount := Amount(coefficient, decimals);
            ParseValue(left + PrintPercent(PrintCore(coefficient, decimals, commas), style) + right) ==
            if (style.lead == "(") != (style.close || style.closeLast) then Parsed(None, Unresolved)
            else Parsed(Some(if style.lead == "" then amount else Negate(amount)), Percentage)
  {
    hide Strip, IsCore, Dec, PrintCore, IsSpace, Negate, ParsePercent, PrintPercent, IsDashCell, IsErrorCell,
         IsDateCell, PlainCore, IsParenCell, IsMinusCell;
    var core := PrintCore(coefficient, decimals, commas);
    var t := PrintPercent(core, style);
    PrintCoreParses(coefficient, decimals, commas);
    PercentIsNothingElse(core, style);
    StripOfTrimmed(t);
    StripRecovers(left, t, right);
    StripOfStripped(left, t, right);
    PercentParses(core, style);
  }
}
