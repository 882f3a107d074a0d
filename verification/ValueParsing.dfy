// The strict parser of printed statement cells (worker/financial_values.py, parse_value) and F6.1's
// classification of its result (worker/financial_validation.py, classify_value). The regular
// expressions are written out as recognisers over the characters of the cell.
module ValueParsing {
  import opened Prelude

  // ---------------------------------------------------------------- characters

  predicate IsDigit(c: char) {
    '0' <= c <= '9'
  }

  /** hyphen-minus, en dash, minus sign */
  predicate IsMinus(c: char) {
    c == '-' || c == '\U{2013}' || c == '\U{2212}'
  }

  /** a minus, or an em dash */
  predicate IsDash(c: char) {
    IsMinus(c) || c == '\U{2014}'
  }

  /** str.isspace() */
  predicate IsSpace(c: char) {
    || '\t' <= c <= '\r' || '\U{1C}' <= c <= ' ' || c == '\U{85}' || c == '\U{A0}' || c == '\U{1680}'
    || '\U{2000}' <= c <= '\U{200A}' || c == '\U{2028}' || c == '\U{2029}' || c == '\U{202F}' || c == '\U{205F}'
    || c == '\U{3000}'
  }

  predicate AllDigits(s: string) {
    forall i :: 0 <= i < |s| ==> IsDigit(s[i])
  }

  function StripLeft(s: string): string {
    if s != [] && IsSpace(s[0]) then StripLeft(s[1..]) else s
  }

  function StripRight(s: string): string {
    if s != [] && IsSpace(s[|s| - 1]) then StripRight(s[..|s| - 1]) else s
  }

  function Strip(s: string): string {
    StripRight(StripLeft(s))
  }

  function Upper(c: char): char {
    if 'a' <= c <= 'z' then 'A' + (c - 'a') else c
  }

  function UpperAll(s: string): string {
    if s == [] then [] else [Upper(s[0])] + UpperAll(s[1..])
  }

  function WithoutSpaces(s: string): string {
    if s == [] then [] else (if s[0] == ' ' then [] else [s[0]]) + WithoutSpaces(s[1..])
  }

  // ---------------------------------------------------------------- exact amounts

  /** The exact decimal coefficient * 10^-decimals. */
  datatype Amount = Amount(coefficient: int, decimals: nat)

  function Pow10(k: nat): (p: nat)
    ensures p >= 1
  {
    if k == 0 then 1 else 10 * Pow10(k - 1)
  }

  function DigitCount(n: nat): (d: nat)
    ensures d >= 1
    ensures n >= Pow10(d - 1) || n == 0
    ensures n < Pow10(d)
  {
    if n < 10 then (assert Pow10(1) == 10 * Pow10(0); 1) else DigitCount(n / 10) + 1
  }

  function RoundHalfEven(c: nat, unit: nat): nat
    requires unit >= 1
  {
    var q, r := c / unit, c % unit;
    if 2 * r > unit || (2 * r == unit && q % 2 == 1) then q + 1 else q
  }

  const PRECISION: nat := 28

  /** The weight of the last digit Python's default context keeps of n. */
  function KeptUnit(n: nat): (u: nat)
    ensures u >= 1
  {
    if DigitCount(n) <= PRECISION then 1 else Pow10(DigitCount(n) - PRECISION)
  }

  /** `-d` on a Decimal: unary minus rounds to the context's 28 significant digits, half to even. */
  function Negate(a: Amount): Amount
    requires a.coefficient >= 0
  {
    Amount(-(RoundHalfEven(a.coefficient, KeptUnit(a.coefficient)) * KeptUnit(a.coefficient)), a.decimals)
  }

  function DigitValue(c: char): nat
    requires IsDigit(c)
  {
    c as int - '0' as int
  }

  function Numeral(s: string): nat
    requires AllDigits(s)
  {
    if s == [] then 0 else Numeral(s[..|s| - 1]) * 10 + DigitValue(s[|s| - 1])
  }

  function WithoutCommas(s: string): (r: string)
    ensures forall i :: 0 <= i < |r| ==> r[i] in s && r[i] != ','
  {
    if s == [] then [] else (if s[0] == ',' then [] else [s[0]]) + WithoutCommas(s[1..])
  }

  // ---------------------------------------------------------------- the number core (_CORE)

  /** The first '.' of s, or |s|. */
  function DotAt(s: string): (d: nat)
    ensures d <= |s|
    ensures forall i :: 0 <= i < d ==> s[i] != '.'
    ensures d < |s| ==> s[d] == '.'
  {
    if s == [] || s[0] == '.' then 0 else 1 + DotAt(s[1..])
  }

  /** \d{1,3}(,\d{3})* */
  predicate IsGroups(s: string) {
    || (1 <= |s| <= 3 && AllDigits(s))
    || (|s| >= 5 && s[|s| - 4] == ',' && AllDigits(s[|s| - 3..]) && IsGroups(s[..|s| - 4]))
  }

  predicate IsWhole(s: string) {
    (s != [] && AllDigits(s)) || IsGroups(s)
  }

  predicate IsCore(s: string) {
    var d := DotAt(s);
    if d == |s| then IsWhole(s)
    else d + 1 < |s| && AllDigits(s[d + 1..]) && (d == 0 || IsWhole(s[..d]))
  }

  lemma {:induction false} GroupsChars(s: string)
    requires IsGroups(s)
    ensures forall i :: 0 <= i < |s| ==> IsDigit(s[i]) || s[i] == ','
    ensures IsDigit(s[0])
  {
    if !(1 <= |s| <= 3 && AllDigits(s)) {
      GroupsChars(s[..|s| - 4]);
      forall i | 0 <= i < |s| ensures IsDigit(s[i]) || s[i] == ',' {
        if i < |s| - 4 { assert s[i] == s[..|s| - 4][i]; }
        if i > |s| - 4 { assert s[i] == s[|s| - 3..][i - (|s| - 3)]; }
      }
    }
  }

  /** A core is digits, commas and at most one dot, and starts with a digit or the dot. */
  lemma {:induction false} CoreChars(s: string)
    requires IsCore(s)
    ensures s != []
    ensures forall i :: 0 <= i < |s| ==> IsDigit(s[i]) || s[i] == ',' || (s[i] == '.' && i == DotAt(s))
    ensures IsDigit(s[0]) || s[0] == '.'
    ensures IsDigit(s[|s| - 1])
  {
    var d := DotAt(s);
    if d == |s| {
      if IsGroups(s) { GroupsChars(s); LastOfGroups(s); }
    } else {
      if d > 0 && IsGroups(s[..d]) { GroupsChars(s[..d]); }
      forall i | 0 <= i < |s| ensures IsDigit(s[i]) || s[i] == ',' || (s[i] == '.' && i == d) {
        if i < d { assert s[i] == s[..d][i]; }
        if i > d { assert s[i] == s[d + 1..][i - d - 1]; }
      }
      assert s[|s| - 1] == s[d + 1..][|s| - d - 2];
    }
  }

  lemma {:induction false} LastOfGroups(s: string)
    requires IsGroups(s)
    ensures IsDigit(s[|s| - 1])
  {
    if |s| >= 5 { assert s[|s| - 1] == s[|s| - 3..][2] || AllDigits(s); }
  }

  lemma {:induction false} WithoutCommasDigits(s: string)
    requires forall i :: 0 <= i < |s| ==> IsDigit(s[i]) || s[i] == ','
    ensures AllDigits(WithoutCommas(s))
  {
    if s != [] {
      WithoutCommasDigits(s[1..]);
    }
  }

  function WholePart(s: string): string {
    s[..DotAt(s)]
  }

  function Fraction(s: string): string {
    if DotAt(s) < |s| then s[DotAt(s) + 1..] else []
  }

  lemma {:induction false} CoreDigits(s: string)
    requires IsCore(s)
    ensures AllDigits(WithoutCommas(WholePart(s)) + Fraction(s))
  {
    CoreChars(s);
    WithoutCommasDigits(WholePart(s));
  }

  /** _dec: commas removed, the exact Decimal, and the printed decimal places. */
  function Dec(s: string): (a: Amount)
    requires IsCore(s)
    ensures a.coefficient >= 0
  {
    CoreDigits(s);
    Amount(Numeral(WithoutCommas(WholePart(s)) + Fraction(s)), |Fraction(s)|)
  }

  // ---------------------------------------------------------------- the cell patterns

  predicate IsDashCell(t: string) {
    1 <= |t| <= 2 && forall i :: 0 <= i < |t| ==> IsDash(t[i])
  }

  predicate IsErrorCell(t: string) {
    UpperAll(t) in {"#REF!", "#DIV/0!", "#VALUE!", "#N/A", "#NAME?", "#NUM!", "#NULL!"}
  }

  predicate IsDateSeparator(c: char) {
    c == '.' || c == '/' || c == '-'
  }

  predicate DateLike(t: string, a: nat, b: nat, c: nat) {
    && |t| == a + b + c + 2
    && AllDigits(t[..a]) && IsDateSeparator(t[a])
    && AllDigits(t[a + 1..a + 1 + b]) && IsDateSeparator(t[a + 1 + b])
    && AllDigits(t[a + b + 2..])
  }

  /** \d{1,2}[./-]\d{1,2}[./-](\d{2}|\d{4}) */
  predicate IsDateCell(t: string) {
    || DateLike(t, 1, 1, 2) || DateLike(t, 1, 1, 4) || DateLike(t, 1, 2, 2) || DateLike(t, 1, 2, 4)
    || DateLike(t, 2, 1, 2) || DateLike(t, 2, 1, 4) || DateLike(t, 2, 2, 2) || DateLike(t, 2, 2, 4)
  }

  function PlainCore(t: string): string {
    if t != [] && t[0] == '+' then t[1..] else t
  }

  predicate IsParenCell(t: string) {
    |t| >= 2 && t[0] == '(' && t[|t| - 1] == ')' && IsCore(Strip(t[1..|t| - 1]))
  }

  function MinusCore(t: string): string
    requires t != []
  {
    if |t| >= 2 && IsSpace(t[1]) then t[2..] else t[1..]
  }

  predicate IsMinusCell(t: string) {
    t != [] && IsMinus(t[0]) && IsCore(MinusCore(t))
  }

  predicate IsNumberChar(c: char) {
    IsDigit(c) || c == ',' || c == '.'
  }

  /** Length of the longest prefix of digits, commas and dots. */
  function NumberPrefix(s: string): (n: nat)
    ensures n <= |s|
  {
    if s != [] && IsNumberChar(s[0]) then 1 + NumberPrefix(s[1..]) else 0
  }

  predicate StartsWith(s: string, c: char) {
    s != [] && s[0] == c
  }

  datatype Percent = NotPercent | Percent(minus: bool, open: bool, core: string, close: bool)

  /** An optional minus or '(', a core, an optional ')', '%', an optional ')'. */
  function ParsePercent(t: string): (p: Percent)
    ensures p.Percent? ==> IsCore(p.core)
  {
    var minus := t != [] && IsMinus(t[0]);
    var open := StartsWith(t, '(');
    var s := StripLeft(if minus || open then t[1..] else t);
    var n := NumberPrefix(s);
    var core := s[..n];
    if !IsCore(core) then NotPercent
    else
      var r1 := StripLeft(s[n..]);
      var close1 := StartsWith(r1, ')');
      var r2 := StripLeft(if close1 then r1[1..] else r1);
      if !StartsWith(r2, '%') then NotPercent
      else
        var r3 := StripLeft(r2[1..]);
        var close2 := StartsWith(r3, ')');
        if (if close2 then r3[1..] else r3) != [] then NotPercent
        else Percent(minus, open, core, close1 || close2)
  }

  /** '<', '>', '<=', '>=' or the one-character signs, then an optionally signed core, then an optional '%'. */
  predicate IsBoundCell(t: string) {
    if t == [] then false
    else if t[0] == '<' || t[0] == '>' then
      IsBounded(StripLeft(if |t| >= 2 && t[1] == '=' then t[2..] else t[1..]))
    else (t[0] == '\U{2265}' || t[0] == '\U{2264}') && IsBounded(StripLeft(t[1..]))
  }

  predicate IsBounded(s: string) {
    if StartsWith(s, '(') then
      var inner := StripLeft(s[1..]);
      var n := NumberPrefix(inner);
      var rest := StripLeft(inner[n..]);
      IsCore(inner[..n]) && StartsWith(rest, ')') && StripLeft(rest[1..]) in {"", "%"}
    else
      var inner := StripLeft(if s != [] && IsMinus(s[0]) then s[1..] else s);
      var n := NumberPrefix(inner);
      IsCore(inner[..n]) && StripLeft(inner[n..]) in {"", "%"}
  }

  predicate LooksNumeric(text: string) {
    var t := WithoutSpaces(text);
    t != [] && (IsDashCell(t) || IsErrorCell(t) ||
                ((exists i :: 0 <= i < |t| && IsDigit(t[i])) &&
                 forall i :: 0 <= i < |t| ==> IsNumberChar(t[i]) || IsDash(t[i]) || t[i] in "()%+<>"))
  }

  // ---------------------------------------------------------------- parse_value

  datatype Class =
    | Numeric | ParenthesisedNegative | MinusNegative | NegativeZero | DashNil
    | Percentage | ComparisonBound | SpreadsheetError | Text | Unresolved

  predicate IsAmountClass(c: Class) {
    c in {Numeric, ParenthesisedNegative, MinusNegative, NegativeZero}
  }

  predicate IsValueClass(c: Class) {
    IsAmountClass(c) || c in {DashNil, Percentage, ComparisonBound, SpreadsheetError}
  }

  datatype Parsed = Parsed(amount: Option<Amount>, cls: Class)

  function ParseValue(raw: string): Parsed {
    var t := Strip(raw);
    if t == [] then Parsed(None, Text)
    else if IsDashCell(t) then Parsed(None, DashNil)
    else if IsErrorCell(t) then Parsed(None, SpreadsheetError)
    else if IsDateCell(t) then Parsed(None, Text)
    else if IsCore(PlainCore(t)) then Parsed(Some(Dec(PlainCore(t))), Numeric)
    else if IsParenCell(t) then
      var d := Dec(Strip(t[1..|t| - 1]));
      Parsed(Some(Negate(d)), if d.coefficient == 0 then NegativeZero else ParenthesisedNegative)
    else if IsMinusCell(t) then
      var d := Dec(MinusCore(t));
      Parsed(Some(Negate(d)), if d.coefficient == 0 then NegativeZero else MinusNegative)
    else
      match ParsePercent(t)
      case Percent(minus, open, core, close) =>
        if open != close then Parsed(None, Unresolved)
        else Parsed(Some(if minus || open then Negate(Dec(core)) else Dec(core)), Percentage)
      case NotPercent =>
        if IsBoundCell(t) then Parsed(None, ComparisonBound)
        else if LooksNumeric(t) then Parsed(None, Unresolved)
        else Parsed(None, Text)
  }

  // ---------------------------------------------------------------- classify_value (F6.1)

  datatype ValueState =
    | InconsistentInput | NumericState | Blank | ReportedNil | ReportedNilWord | ReportedNotApplicable
    | NotAnAmount | NotANumber

  predicate IsDashGlyph(c: char) {
    IsDash(c) || c == '\U{2012}' || c == '\U{2015}'
  }

  function Lower(c: char): char {
    if 'A' <= c <= 'Z' then 'a' + (c - 'A') else c
  }

  /** " ".join(t.casefold().split()) of a stripped text: runs of spaces become one. */
  function Word(t: string): string {
    if t == [] then []
    else if IsSpace(t[0]) then (if |t| > 1 && IsSpace(t[1]) then Word(t[1..]) else " " + Word(t[1..]))
    else [Lower(t[0])] + Word(t[1..])
  }

  const NIL_WORDS := {"nil", "none"}
  const NOT_APPLICABLE_WORDS := {"n/a", "na", "n.a", "n.a.", "not applicable"}

  function ClassifyValue(raw: string, p: Parsed): ValueState {
    var t := Strip(raw);
    var compact := WithoutSpaces(t);
    var word := Word(t);
    if IsAmountClass(p.cls) then
      if p.amount.None? || (p.cls in {ParenthesisedNegative, MinusNegative} && p.amount.value.coefficient >= 0)
      then InconsistentInput else NumericState
    else if p.amount.Some? && p.cls == DashNil then InconsistentInput
    else if t == [] then Blank
    else if 1 <= |compact| <= 2 && (forall i :: 0 <= i < |compact| ==> IsDashGlyph(compact[i])) then ReportedNil
    else if word in NIL_WORDS then ReportedNilWord
    else if word in NOT_APPLICABLE_WORDS || WithoutSpaces(word) in NOT_APPLICABLE_WORDS then ReportedNotApplicable
    else if p.cls in {Percentage, ComparisonBound, SpreadsheetError} then NotAnAmount
    else NotANumber
  }

  // ---------------------------------------------------------------- what every cell satisfies

  lemma {:induction false} Pow10Monotone(a: nat, b: nat)
    requires a <= b
    ensures Pow10(a) <= Pow10(b)
    decreases b
  {
    if a < b {
      Pow10Monotone(a, b - 1);
    }
  }

  /** Rounding to 28 digits never reaches zero: the sign of a printed negative survives it. */
  lemma {:induction false} NegateIsNegative(a: Amount)
    requires a.coefficient > 0
    ensures Negate(a).coefficient < 0
  {
    var c: nat, u := a.coefficient, KeptUnit(a.coefficient);
    if DigitCount(c) > PRECISION {
      Pow10Monotone(DigitCount(c) - PRECISION, DigitCount(c) - 1);
    }
    assert c >= u;
    QuotientPositive(c, u);
    assert RoundHalfEven(c, u) >= 1;
    ProductPositive(RoundHalfEven(c, u), u);
  }

  /** kept * 10^e is c cut to 28 digits: the nearest such number, and of two nearest ones the even one. */
  ghost predicate IsRounded(c: int, kept: int, e: nat) {
    var unit: int := Pow10(e);
    && -unit <= 2 * (c - kept * unit) <= unit
    && (2 * (c - kept * unit) == unit || 2 * (c - kept * unit) == -unit ==> kept % 2 == 0)
    && (e == 0 || Pow10(e + PRECISION - 1) <= c) && c < Pow10(e + PRECISION)
  }

  /** Negation keeps an amount of up to 28 digits as it is and rounds a longer one to its first 28, halves to even. */
  lemma {:induction false} NegateRounds(a: Amount)
    requires a.coefficient >= 0
    ensures exists kept: nat, e: nat ::
              IsRounded(a.coefficient, kept, e) && Negate(a) == Amount(-(kept * Pow10(e)), a.decimals)
  {
    hide RoundHalfEven;
    var c: nat := a.coefficient;
    var d := DigitCount(c);
    var e := if d <= PRECISION then 0 else d - PRECISION;
    var kept := RoundHalfEven(c, Pow10(e));
    assert Pow10(0) == 1;
    if d <= PRECISION {
      Pow10Monotone(d, PRECISION);
    } else {
      LongIsPositive(c);
    }
    NearestMultiple(c, Pow10(e));
    assert IsRounded(c, kept, e);
  }

  lemma {:induction false} LongIsPositive(n: nat)
    requires DigitCount(n) > PRECISION
    ensures n >= Pow10(DigitCount(n) - 1)
  {
    assert n >= 10;
  }

  lemma {:induction false} NearestMultiple(c: nat, unit: int)
    requires unit >= 1
    ensures var kept := RoundHalfEven(c, unit);
            && -unit <= 2 * (c - kept * unit) <= unit
            && (2 * (c - kept * unit) == unit || 2 * (c - kept * unit) == -unit ==> kept % 2 == 0)
  {
    var q, r := c / unit, c % unit;
    assert (q + 1) * unit == q * unit + unit;
  }

  /** A blank cell is text, a spreadsheet error is one, and a date is text, none with an amount. */
  lemma {:induction false} CellsWithoutAmount(raw: string)
    ensures Strip(raw) == "" ==>
              ParseValue(raw) == Parsed(None, Text) && ClassifyValue(raw, ParseValue(raw)) == Blank
    ensures IsErrorCell(Strip(raw)) ==>
              ParseValue(raw) == Parsed(None, SpreadsheetError) && IsValueClass(ParseValue(raw).cls)
    ensures IsDateCell(Strip(raw)) ==> ParseValue(raw) == Parsed(None, Text) && !IsValueClass(ParseValue(raw).cls)
  {
    hide Strip;
    var t := Strip(raw);
    if IsErrorCell(t) {
      assert |UpperAll(t)| >= 4;
      UpperKeepsLength(t);
    }
    if IsDateCell(t) {
      DateIsNoError(t);
    }
  }

  lemma {:induction false} UpperKeepsLength(s: string)
    ensures |UpperAll(s)| == |s|
  {
    if s != [] {
      UpperKeepsLength(s[1..]);
    }
  }

  lemma {:induction false} DateIsNoError(t: string)
    requires IsDateCell(t)
    ensures |t| > 2 && !IsErrorCell(t)
  {
    assert IsDigit(t[0]) by {
      assert t[..1][0] == t[0] && t[..2][0] == t[0];
    }
    assert UpperAll(t)[0] == Upper(t[0]) == t[0];
  }

  lemma {:induction false} QuotientPositive(c: nat, u: nat)
    requires c >= u >= 1
    ensures c / u >= 1
  {
  }

  lemma {:induction false} ProductPositive(a: nat, b: nat)
    requires a >= 1 && b >= 1
    ensures a * b >= 1
  {
  }

  lemma {:induction false} NegateZero(a: Amount)
    requires a.coefficient == 0
    ensures Negate(a).coefficient == 0
  {
  }

  lemma {:induction false} DashIsNotCore(t: string)
    requires IsCore(t)
    ensures !IsDash(t[0]) && t[0] != '(' && t[0] != '+' && !IsSpace(t[0]) && !IsSpace(t[|t| - 1])
  {
    CoreChars(t);
  }

  /** What a parse result says about its own amount. */
  ghost predicate SignsMatchClass(p: Parsed) {
    && (IsAmountClass(p.cls) || p.cls == Percentage <==> p.amount.Some?)
    && (p.cls == Numeric ==> p.amount.value.coefficient >= 0)
    && (p.cls in {ParenthesisedNegative, MinusNegative} ==> p.amount.value.coefficient < 0)
    && (p.cls == NegativeZero ==> p.amount.value.coefficient == 0)
  }

  lemma {:induction false} PercentSign(t: string)
    ensures var p := ParsePercent(t);
            p.Percent? ==>
              && (t == [] ==> !p.minus && !p.open)
              && (t != [] ==> (p.minus || p.open <==> t[0] == '(' || IsMinus(t[0])))
              && Negate(Dec(p.core)).coefficient <= 0
  {
    hide IsCore, Dec;
    var p := ParsePercent(t);
    if p.Percent? {
      var d := Dec(p.core);
      if d.coefficient == 0 { NegateZero(d); } else { NegateIsNegative(d); }
    }
  }

  /** An amount class comes with its exact amount, and is negative exactly when the cell is printed negative; so does a
      percentage, zero apart. */
  lemma {:induction false} ParsedSignIsPrintedSign(raw: string)
    ensures SignsMatchClass(ParseValue(raw))
    ensures IsAmountClass(ParseValue(raw).cls) ==>
              Strip(raw) != [] && (ParseValue(raw).cls != Numeric <==> Strip(raw)[0] == '(' || IsMinus(Strip(raw)[0]))
    ensures ParseValue(raw).cls == Percentage ==>
              var amount := ParseValue(raw).amount.value.coefficient;
              && Strip(raw) != [] && (amount < 0 ==> Strip(raw)[0] == '(' || IsMinus(Strip(raw)[0]))
              && (amount > 0 ==> Strip(raw)[0] != '(' && !IsMinus(Strip(raw)[0]))
  {
    hide IsDateCell, IsErrorCell, IsBoundCell, LooksNumeric, ParsePercent, Negate, Dec, IsCore, IsDashCell, Strip;
    PercentSign(Strip(raw));
    var t := Strip(raw);
    if t != [] && !IsDashCell(t) && !IsErrorCell(t) && !IsDateCell(t) {
      if IsCore(PlainCore(t)) {
        DashIsNotCore(PlainCore(t));
      } else if IsParenCell(t) {
        var d := Dec(Strip(t[1..|t| - 1]));
        if d.coefficient == 0 { NegateZero(d); } else { NegateIsNegative(d); }
      } else if IsMinusCell(t) {
        var d := Dec(MinusCore(t));
        if d.coefficient == 0 { NegateZero(d); } else { NegateIsNegative(d); }
      }
    }
  }

  /** F6.1 never finds the parser's result inconsistent, and calls it numeric exactly for the amount classes. */
  lemma {:induction false} ParserNeverInconsistent(raw: string)
    ensures ClassifyValue(raw, ParseValue(raw)) != InconsistentInput
    ensures ClassifyValue(raw, ParseValue(raw)) == NumericState <==> IsAmountClass(ParseValue(raw).cls)
  {
    hide ParseValue, Strip, Word, WithoutSpaces;
    ParsedSignIsPrintedSign(raw);
  }

  /** A printed dash is a nil, never a number: for the parser and for F6.1. */
  lemma {:induction false} DashIsNil(raw: string)
    requires IsDashCell(Strip(raw))
    ensures ParseValue(raw) == Parsed(None, DashNil)
    ensures ClassifyValue(raw, ParseValue(raw)) == ReportedNil
  {
    var t := Strip(raw);
    if |t| == 1 {
      assert WithoutSpaces(t[1..]) == [];
      assert WithoutSpaces(t) == t;
    } else {
      assert WithoutSpaces(t[1..][1..]) == [];
      assert t[1..] == [t[1]];
      assert WithoutSpaces(t[1..]) == t[1..];
      assert WithoutSpaces(t) == t;
    }
  }
}
