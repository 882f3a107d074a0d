// F6.1's arithmetic diagnostics and sign detection (worker/financial_validation.py): printed amounts
// carry half a printed unit of uncertainty, and a relation between three amounts passes when their
// half-units cover the difference. Amounts are exact: the source's Decimal context traps inexact results.
module StatementArithmetic {
  import opened Prelude

  datatype Concept =
    | TotalAssets | TotalLiabilities | TotalEquity
    | GrossProfit | Revenue | CostOfSales
    | ProfitForPeriod | ProfitBeforeTax | IncomeTaxExpense
    | NetInterestIncome | InterestIncome | InterestExpense
    | OtherConcept(name: string)

  datatype NaturalSign = Income | Expense | Balance | AsPrintedSign | Outflow | Unknown
  datatype Form = Sum | PlusMinus | Pair
  datatype CheckId = A1 | A2 | A3 | A4 | A5
  datatype Verdict = Pass | Fail | NotApplicable | Insufficient
  datatype Variant = NoVariant | AsPrinted | Reversed | Either
  datatype Why = TotalNotReported | Missing(c: Concept) | Unusable(c: Concept) | MultipleValues(c: Concept)
               | CurrencyMismatch | DifferenceExceedsPrecision

  /** One candidate joined with its validation: usable when proposed, normalised, a column period, and with
      no operations claim. `group` is its statement column. */
  datatype Candidate = Candidate(key: nat, concept: Concept, natural: NaturalSign, group: nat, usable: bool,
                                 value: real, half: real, currency: string)

  datatype Term = Term(key: nat, concept: Concept, value: real, half: real, currency: string)

  datatype Arithmetic = Arithmetic(check: CheckId, group: nat, verdict: Verdict, variant: Variant, terms: seq<Term>,
                                   tolerance: real, reasons: seq<Why>)

  // ---------------------------------------------------------------- one relation

  function Tolerance(total: Term, first: Term, second: Term): real {
    total.half + first.half + second.half
  }

  predicate HoldsAsPrinted(total: Term, first: Term, second: Term) {
    Abs(total.value - (first.value + second.value)) <= Tolerance(total, first, second)
  }

  predicate HoldsReversed(total: Term, first: Term, second: Term) {
    Abs(total.value - (first.value - second.value)) <= Tolerance(total, first, second)
  }

  /** _decide, for terms the caller already picked. */
  function Decide(check: CheckId, group: nat, form: Form, total: Term, first: Term, second: Term): Arithmetic {
    var terms := [total, first, second];
    if !(total.currency == first.currency == second.currency) then
      Arithmetic(check, group, Insufficient, NoVariant, terms, 0.0, [CurrencyMismatch])
    else
      var tol := Tolerance(total, first, second);
      var ok1 := HoldsAsPrinted(total, first, second);
      if form == Sum || form == Pair then
        Arithmetic(check, group, if ok1 then Pass else Fail, AsPrinted, terms, tol,
                   if ok1 then [] else [DifferenceExceedsPrecision])
      else
        var ok2 := HoldsReversed(total, first, second);
        var variant := if ok1 && ok2 then Either else if ok1 then AsPrinted else if ok2 then Reversed else NoVariant;
        Arithmetic(check, group, if ok1 || ok2 then Pass else Fail, variant, terms, tol,
                   if ok1 || ok2 then [] else [DifferenceExceedsPrecision])
  }

  /** An exact amount the printed term could stand for: within half a printed unit. */
  ghost predicate Possible(t: Term, exact: real) {
    Abs(t.value - exact) <= t.half
  }

  ghost predicate ExactSum(total: Term, first: Term, second: Term) {
    exists t: real, a: real, b: real :: Possible(total, t) && Possible(first, a) && Possible(second, b) && t == a + b
  }

  ghost predicate ExactDifference(total: Term, first: Term, second: Term) {
    exists t: real, a: real, b: real :: Possible(total, t) && Possible(first, a) && Possible(second, b) && t == a - b
  }

  /** x moved towards zero by at most h. */
  function Absorb(x: real, h: real): real {
    if x > h then x - h else if x < -h then x + h else 0.0
  }

  lemma {:induction false} PrintedSumIsExactlyPossible(total: Term, first: Term, second: Term)
    requires total.half >= 0.0 && first.half >= 0.0 && second.half >= 0.0
    ensures HoldsAsPrinted(total, first, second) <==> ExactSum(total, first, second)
  {
    if HoldsAsPrinted(total, first, second) {
      var d := total.value - (first.value + second.value);
      var d1 := Absorb(d, total.half);
      var d2 := Absorb(d1, first.half);
      var t, a, b := total.value - (d - d1), first.value + (d1 - d2), second.value + d2;
      assert Possible(total, t) && Possible(first, a) && Possible(second, b) && t == a + b;
    }
  }

  lemma {:induction false} PrintedDifferenceIsExactlyPossible(total: Term, first: Term, second: Term)
    requires total.half >= 0.0 && first.half >= 0.0 && second.half >= 0.0
    ensures HoldsReversed(total, first, second) <==> ExactDifference(total, first, second)
  {
    var flipped := second.(value := -second.value);
    PrintedSumIsExactlyPossible(total, first, flipped);
    if ExactSum(total, first, flipped) {
      var t, a, b :| Possible(total, t) && Possible(first, a) && Possible(flipped, b) && t == a + b;
      assert Possible(second, -b) && t == a - (-b);
    }
    if ExactDifference(total, first, second) {
      var t, a, b :| Possible(total, t) && Possible(first, a) && Possible(second, b) && t == a - b;
      assert Possible(flipped, -b) && t == a + (-b);
    }
  }

  /** Rounding completeness: a check passes exactly when amounts that round to the printed ones satisfy it,
      and the variant says which form they satisfy. */
  lemma {:induction false} PassMeansExactAmountsExist(check: CheckId, group: nat, form: Form, total: Term, first: Term,
                                                      second: Term)
    requires total.half >= 0.0 && first.half >= 0.0 && second.half >= 0.0
    requires total.currency == first.currency == second.currency
    ensures var r := Decide(check, group, form, total, first, second);
            && (r.verdict == Pass <==>
                ExactSum(total, first, second) || (form == PlusMinus && ExactDifference(total, first, second)))
            && (r.verdict == Pass && form == PlusMinus ==>
                  && (r.variant in {AsPrinted, Either} <==> ExactSum(total, first, second))
                  && (r.variant in {Reversed, Either} <==> ExactDifference(total, first, second)))
  {
    PrintedSumIsExactlyPossible(total, first, second);
    PrintedDifferenceIsExactlyPossible(total, first, second);
  }

  /** 'either' is reported only when the second term is indistinguishable from zero at printed precision. */
  lemma {:induction false} EitherMeansSecondIsNegligible(check: CheckId, group: nat, total: Term, first: Term,
                                                         second: Term)
    requires Decide(check, group, PlusMinus, total, first, second).variant == Either
    ensures Abs(second.value) <= Tolerance(total, first, second)
    ensures second.half == total.half == first.half == 0.0 ==> second.value == 0.0
  {
    assert 2.0 * Abs(second.value) <= 2.0 * Tolerance(total, first, second);
  }

  // ---------------------------------------------------------------- comparing two candidates (V8)

  datatype ValueType = CurrencyAmount | PerShare | OtherType(name: string)

  /** A value result as compare_values reads it; term is its normalised value and half unit. */
  datatype Compared = Compared(normalised: bool, term: Term, valueType: ValueType)

  datatype Comparison = NotNormalised | CurrencyDiffers | ValueTypeDiffers | Agree | Disagree

  function CompareValues(a: Compared, b: Compared): Comparison {
    if !a.normalised || !b.normalised then NotNormalised
    else if a.term.currency != b.term.currency then CurrencyDiffers
    else if a.valueType != b.valueType then ValueTypeDiffers
    else if Abs(a.term.value - b.term.value) <= a.term.half + b.term.half then Agree
    else Disagree
  }

  ghost predicate Comparable(a: Compared, b: Compared) {
    a.normalised && b.normalised && a.term.currency == b.term.currency && a.valueType == b.valueType
  }

  ghost predicate CommonAmount(a: Term, b: Term) {
    exists x: real :: Possible(a, x) && Possible(b, x)
  }

  /** Two values of one currency and type agree exactly when one exact amount could have been printed as both, and
      disagree exactly when none could; otherwise they are incomparable. The comparison is symmetric. */
  lemma {:induction false} AgreementIsACommonAmount(a: Compared, b: Compared)
    requires a.term.half >= 0.0 && b.term.half >= 0.0
    ensures CompareValues(a, b) == Agree <==> Comparable(a, b) && CommonAmount(a.term, b.term)
    ensures CompareValues(a, b) == Disagree <==> Comparable(a, b) && !CommonAmount(a.term, b.term)
    ensures CompareValues(a, b) == CompareValues(b, a)
    ensures CompareValues(a, b) == NotNormalised <==> !a.normalised || !b.normalised
    ensures CompareValues(a, b) == CurrencyDiffers <==>
              a.normalised && b.normalised && a.term.currency != b.term.currency
  {
    if CompareValues(a, b) == Agree {
      var d := a.term.value - b.term.value;
      var x := a.term.value - (d - Absorb(d, a.term.half));
      assert Possible(a.term, x) && Possible(b.term, x);
    }
  }

  // ---------------------------------------------------------------- picking the terms

  datatype Picked = Picked(c: Candidate) | NotPicked(why: Why)

  function Members(pairs: seq<Candidate>, group: nat, concept: Concept): (r: seq<Candidate>)
    ensures forall c :: c in r <==> c in pairs && c.group == group && c.concept == concept
  {
    if pairs == [] then []
    else (if pairs[0].group == group && pairs[0].concept == concept then [pairs[0]] else [])
         + Members(pairs[1..], group, concept)
  }

  function UsableOf(cs: seq<Candidate>): (r: seq<Candidate>)
    ensures forall c :: c in r <==> c in cs && c.usable
  {
    if cs == [] then [] else (if cs[0].usable then [cs[0]] else []) + UsableOf(cs[1..])
  }

  function LeastKey(cs: seq<Candidate>): (c: Candidate)
    requires cs != []
    ensures c in cs && forall d :: d in cs ==> c.key <= d.key
  {
    if |cs| == 1 then cs[0]
    else var d := LeastKey(cs[1..]); if cs[0].key <= d.key then cs[0] else d
  }

  /** _single: the concept's one distinct usable value in the group, read from its first row. */
  function Single(pairs: seq<Candidate>, group: nat, concept: Concept): (r: Picked)
    ensures r.Picked? ==> r.c in pairs && r.c.group == group && r.c.concept == concept && r.c.usable
    ensures r.Picked? ==> forall c :: c in pairs && c.group == group && c.concept == concept && c.usable
                                      ==> c.value == r.c.value && r.c.key <= c.key
    ensures r.NotPicked? ==> r.why in {Missing(concept), Unusable(concept), MultipleValues(concept)}
    ensures r == NotPicked(MultipleValues(concept)) ==>
              exists c, d :: c in pairs && d in pairs && c.group == d.group == group
                  && c.concept == d.concept == concept
                             && c.usable && d.usable && c.value != d.value
  {
    var got := Members(pairs, group, concept);
    var usable := UsableOf(got);
    if got == [] then NotPicked(Missing(concept))
    else if usable == [] then NotPicked(Unusable(concept))
    else if exists c, d :: c in usable && d in usable && c.value != d.value then NotPicked(MultipleValues(concept))
    else Picked(LeastKey(usable))
  }

  function TermOf(c: Candidate): Term {
    Term(c.key, c.concept, c.value, c.half, c.currency)
  }

  /** A_CHECKS: total, terms and form (A4 evaluates attribution pairs instead and feeds no sign relation). */
  function CheckTerms(check: CheckId): (Concept, Concept, Concept, Form)
    requires check != A4
  {
    match check
    case A1 => (TotalAssets, TotalLiabilities, TotalEquity, Sum)
    case A2 => (GrossProfit, Revenue, CostOfSales, PlusMinus)
    case A3 => (ProfitForPeriod, ProfitBeforeTax, IncomeTaxExpense, PlusMinus)
    case A5 => (NetInterestIncome, InterestIncome, InterestExpense, PlusMinus)
  }

  /** _evaluate for one statement column. */
  function Evaluate(pairs: seq<Candidate>, check: CheckId, group: nat): Arithmetic
    requires check != A4
  {
    var (total, first, second, form) := CheckTerms(check);
    var none := Arithmetic(check, group, NotApplicable, NoVariant, [], 0.0, [TotalNotReported]);
    if Members(pairs, group, total) == [] then none
    else
      var (t, a, b) := (Single(pairs, group, total), Single(pairs, group, first), Single(pairs, group, second));
      if t.NotPicked? then none.(verdict := Insufficient, reasons := [t.why])
      else if a.NotPicked? || b.NotPicked? then
        none.(verdict := Insufficient, reasons := (if a.NotPicked? then [a.why] else [])
                                                  + if b.NotPicked? then [b.why] else [])
      else Decide(check, group, form, TermOf(t.c), TermOf(a.c), TermOf(b.c))
  }

  /** The relations: a total is the sum of two concepts, or, where turned, their sum or their difference. */
  ghost predicate Relates(check: CheckId, total: Concept, first: Concept, second: Concept, turned: bool) {
    || (check == A1 && total == TotalAssets && first == TotalLiabilities && second == TotalEquity && !turned)
    || (check == A2 && total == GrossProfit && first == Revenue && second == CostOfSales && turned)
    || (check == A3 && total == ProfitForPeriod && first == ProfitBeforeTax && second == IncomeTaxExpense && turned)
    || (check == A5 && total == NetInterestIncome && first == InterestIncome && second == InterestExpense && turned)
  }

  /** The concept's first usable row in the column, when all usable ones carry one value. */
  ghost predicate Picks(pairs: seq<Candidate>, group: nat, concept: Concept, c: Candidate) {
    && c in pairs && c.group == group && c.concept == concept && c.usable
    && forall d :: d in pairs && d.group == group && d.concept == concept && d.usable ==>
         d.value == c.value && c.key <= d.key
  }

  ghost predicate Reported(pairs: seq<Candidate>, group: nat, concept: Concept) {
    exists c :: c in pairs && c.group == group && c.concept == concept
  }

  /** Why the concept has no one value in the column. */
  ghost predicate LacksBecause(pairs: seq<Candidate>, group: nat, concept: Concept, why: Why) {
    || (why == Missing(concept) && !Reported(pairs, group, concept))
    || (why == Unusable(concept) && Reported(pairs, group, concept)
        && forall c :: c in pairs && c.group == group && c.concept == concept ==> !c.usable)
    || (why == MultipleValues(concept)
        && exists c, d :: c in pairs && d in pairs && c.group == d.group == group && c.concept == d.concept == concept
             && c.usable && d.usable && c.value != d.value)
  }

  /** The relation decided on three rows: it passes if the total is the sum, or where turned the difference, of the
      other two within the three half units, and says which. */
  ghost predicate DecidedOn(r: Arithmetic, turned: bool, t: Candidate, a: Candidate, b: Candidate) {
    var tol := t.half + a.half + b.half;
    var sum := -tol <= t.value - a.value - b.value <= tol;
    var difference := turned && -tol <= t.value - a.value + b.value <= tol;
    && r.verdict in {Pass, Fail} && (r.verdict == Pass <==> sum || difference)
    && r.terms == [TermOf(t), TermOf(a), TermOf(b)] && r.tolerance == tol
    && r.reasons == (if sum || difference then [] else [DifferenceExceedsPrecision])
    && (!turned ==> r.variant == AsPrinted)
    && (turned ==> (r.variant == AsPrinted <==> sum && !difference) && (r.variant == Reversed <==> difference && !sum)
                   && (r.variant == Either <==> sum && difference) && (r.variant == NoVariant <==> !sum && !difference))
  }

  lemma {:induction false} SingleIs(pairs: seq<Candidate>, group: nat, concept: Concept)
    ensures var r := Single(pairs, group, concept);
            && (r.Picked? ==> Picks(pairs, group, concept, r.c))
            && (r.NotPicked? ==>
                  LacksBecause(pairs, group, concept, r.why) && forall c :: !Picks(pairs, group, concept, c))
    ensures Reported(pairs, group, concept) <==> Members(pairs, group, concept) != []
  {
    var (got, usable) := (Members(pairs, group, concept), UsableOf(Members(pairs, group, concept)));
    if got != [] {
      assert got[0] in got;
    }
    if usable != [] {
      assert usable[0] in usable;
    }
    if Reported(pairs, group, concept) {
      var c :| c in pairs && c.group == group && c.concept == concept;
      assert c in got;
    }
    assert forall c :: c in pairs && c.group == group && c.concept == concept && c.usable ==> c in usable;
  }

  ghost predicate LacksValue(pairs: seq<Candidate>, group: nat, concept: Concept) {
    forall c :: !Picks(pairs, group, concept, c)
  }

  /** Three rows that give the relation its amounts. */
  ghost predicate PicksAll(pairs: seq<Candidate>, group: nat, total: Concept, first: Concept, second: Concept,
                           t: Candidate, a: Candidate, b: Candidate) {
    Picks(pairs, group, total, t) && Picks(pairs, group, first, a) && Picks(pairs, group, second, b)
  }

  /** One reason for each of the two terms that lacks a value, in order. */
  ghost predicate TermReasons(pairs: seq<Candidate>, group: nat, first: Concept, second: Concept, reasons: seq<Why>) {
    var (noFirst, noSecond) := (LacksValue(pairs, group, first), LacksValue(pairs, group, second));
    && |reasons| == (if noFirst then 1 else 0) + (if noSecond then 1 else 0)
    && (noFirst ==> LacksBecause(pairs, group, first, reasons[0]))
    && (noSecond ==> LacksBecause(pairs, group, second, reasons[|reasons| - 1]))
  }

  lemma {:induction false} OnePick(pairs: seq<Candidate>, group: nat, concept: Concept, c: Candidate, d: Candidate)
    requires UniqueKeys(pairs) && Picks(pairs, group, concept, c) && Picks(pairs, group, concept, d)
    ensures c == d
  {
  }

  lemma {:induction false} DecideIs(check: CheckId, group: nat, form: Form, t: Candidate, a: Candidate, b: Candidate)
    requires t.currency == a.currency == b.currency
    ensures DecidedOn(Decide(check, group, form, TermOf(t), TermOf(a), TermOf(b)), form == PlusMinus, t, a, b)
  {
  }

  /** _evaluate: not applicable exactly when the total is not reported in the column; insufficient with the reason of
      every concept that has no one value there, or when the three currencies are not one; and otherwise decided on the
      concepts' first usable rows. */
  lemma {:induction false} EvaluationIs(pairs: seq<Candidate>, check: CheckId, group: nat, total: Concept,
                                        first: Concept, second: Concept, turned: bool)
    requires UniqueKeys(pairs) && check != A4 && Relates(check, total, first, second, turned)
    ensures var r := Evaluate(pairs, check, group);
            && r.check == check && r.group == group
            && (r.verdict == NotApplicable <==> !Reported(pairs, group, total))
            && (r.verdict == NotApplicable ==> r.reasons == [TotalNotReported])
            && (Reported(pairs, group, total) && LacksValue(pairs, group, total) ==>
                  r.verdict == Insufficient && |r.reasons| == 1 && LacksBecause(pairs, group, total, r.reasons[0]))
            && (!LacksValue(pairs, group, total)
                && (LacksValue(pairs, group, first) || LacksValue(pairs, group, second)) ==>
                  r.verdict == Insufficient && TermReasons(pairs, group, first, second, r.reasons))
            && forall t, a, b :: PicksAll(pairs, group, total, first, second, t, a, b) ==>
                 if t.currency == a.currency == b.currency then DecidedOn(r, turned, t, a, b)
                 else r.verdict == Insufficient && r.reasons == [CurrencyMismatch]
  {
    hide Members, UsableOf, Picks, LacksBecause, Reported, DecidedOn, UniqueKeys, Decide, Single;
    SingleIs(pairs, group, total);
    SingleIs(pairs, group, first);
    SingleIs(pairs, group, second);
    forall t, a, b | PicksAll(pairs, group, total, first, second, t, a, b)
      ensures var r := Evaluate(pairs, check, group);
              if t.currency == a.currency == b.currency then DecidedOn(r, turned, t, a, b)
              else r.verdict == Insufficient && r.reasons == [CurrencyMismatch]
    {
      EvaluatedOnPicks(pairs, check, group, total, first, second, turned, t, a, b);
    }
    var (t, a, b) := (Single(pairs, group, total), Single(pairs, group, first), Single(pairs, group, second));
    if t.Picked? {
      PickIsReported(pairs, group, total, t.c);
      if a.Picked? && b.Picked? {
        DecidesSomething(check, group, CheckTerms(check).3, TermOf(t.c), TermOf(a.c), TermOf(b.c));
      }
    }
  }

  lemma {:induction false} DecidesSomething(check: CheckId, group: nat, form: Form, t: Term, a: Term, b: Term)
    ensures var r := Decide(check, group, form, t, a, b);
            r.check == check && r.group == group && r.verdict in {Pass, Fail, Insufficient}
  {
  }

  lemma {:induction false} PickIsReported(pairs: seq<Candidate>, group: nat, concept: Concept, c: Candidate)
    requires Picks(pairs, group, concept, c)
    ensures Reported(pairs, group, concept)
  {
  }

  lemma {:induction false} EvaluatedOnPicks(pairs: seq<Candidate>, check: CheckId, group: nat, total: Concept,
                                            first: Concept, second: Concept, turned: bool, t: Candidate, a: Candidate,
                                            b: Candidate)
    requires UniqueKeys(pairs) && check != A4 && Relates(check, total, first, second, turned)
    requires PicksAll(pairs, group, total, first, second, t, a, b)
    ensures var r := Evaluate(pairs, check, group);
            if t.currency == a.currency == b.currency then DecidedOn(r, turned, t, a, b)
            else r.verdict == Insufficient && r.reasons == [CurrencyMismatch]
  {
    hide Members, UsableOf, Picks, LacksBecause, Reported, DecidedOn, UniqueKeys, Single;
    SingleIs(pairs, group, total);
    SingleIs(pairs, group, first);
    SingleIs(pairs, group, second);
    PickIsReported(pairs, group, total, t);
    OnePick(pairs, group, total, t, Single(pairs, group, total).c);
    OnePick(pairs, group, first, a, Single(pairs, group, first).c);
    OnePick(pairs, group, second, b, Single(pairs, group, second).c);
    if t.currency == a.currency == b.currency {
      DecideIs(check, group, CheckTerms(check).3, t, a, b);
    }
  }

  // ---------------------------------------------------------------- sign detection

  datatype Convention = ContributionAsPrinted | MagnitudePrinted | Zero | SignNotApplicable | Undetermined
  datatype Basis = ByNaturalSign | IncomeAsPrinted | ZeroValue | ByRelation(check: CheckId)
                 | PrintedNegativeExpense | NoRelation
  datatype SignResult = SignResult(key: nat, convention: Convention, basis: Basis, contribution: Option<real>)

  function SignRelation(concept: Concept): Option<CheckId> {
    match concept
    case CostOfSales => Some(A2)
    case IncomeTaxExpense => Some(A3)
    case InterestExpense => Some(A5)
    case _ => None
  }

  predicate Names(r: Arithmetic, key: nat) {
    exists t :: t in r.terms && t.key == key
  }

  predicate Found(r: Arithmetic, c: Candidate, rel: CheckId) {
    r.group == c.group && r.check == rel && (r.verdict == Pass || r.verdict == Fail) && Names(r, c.key)
  }

  /** found[0]: the first decided result of the relation that names this very row. */
  function FirstFound(arithmetic: seq<Arithmetic>, c: Candidate, rel: CheckId): (r: Option<Arithmetic>)
    ensures r.Some? ==> r.value in arithmetic && Found(r.value, c, rel)
    ensures r.None? ==> forall a :: a in arithmetic ==> !Found(a, c, rel)
  {
    if arithmetic == [] then None
    else if Found(arithmetic[0], c, rel) then Some(arithmetic[0])
    else FirstFound(arithmetic[1..], c, rel)
  }

  /** What detect_signs reports for one usable value. */
  function SignOf(arithmetic: seq<Arithmetic>, c: Candidate): SignResult {
    if c.natural in {Balance, AsPrintedSign, Outflow, Unknown} then
      SignResult(c.key, SignNotApplicable, ByNaturalSign, None)
    else if c.natural == Income then SignResult(c.key, ContributionAsPrinted, IncomeAsPrinted, Some(c.value))
    else if c.value == 0.0 then SignResult(c.key, Zero, ZeroValue, Some(0.0))
    else
      var rel := SignRelation(c.concept);
      var found := if rel.Some? then FirstFound(arithmetic, c, rel.value) else None;
      if found.Some? then
        var r := found.value;
        if r.verdict == Pass && r.variant == AsPrinted then
          SignResult(c.key, ContributionAsPrinted, ByRelation(r.check), Some(c.value))
        else if r.verdict == Pass && r.variant == Reversed then
          SignResult(c.key, MagnitudePrinted, ByRelation(r.check), Some(-c.value))
        else SignResult(c.key, Undetermined, ByRelation(r.check), None)
      else if c.value < 0.0 then SignResult(c.key, ContributionAsPrinted, PrintedNegativeExpense, Some(c.value))
      else SignResult(c.key, Undetermined, NoRelation, None)
  }

  predicate KeyLe(a: Candidate, b: Candidate) {
    a.key <= b.key
  }

  ghost predicate UniqueKeys(pairs: seq<Candidate>) {
    forall a, b :: a in pairs && b in pairs && a.key == b.key ==> a == b
  }

  /** The results are this run's own diagnostics. */
  ghost predicate Diagnostics(pairs: seq<Candidate>, arithmetic: seq<Arithmetic>) {
    forall r :: r in arithmetic && r.check != A4 ==> r == Evaluate(pairs, r.check, r.group)
  }

  /** A contribution reported through a relation satisfies it: total = first + contribution, within the
      printed precision of the three amounts that relation names. */
  ghost predicate ContributionFits(r: Arithmetic, key: nat, contribution: real) {
    && r.verdict == Pass && |r.terms| == 3 && r.terms[2].key == key
    && Abs(r.terms[0].value - (r.terms[1].value + contribution)) <= r.tolerance
  }

  /** A decided result was computed from three picked rows, one per concept of the check. */
  lemma {:induction false} DecidedFromRows(pairs: seq<Candidate>, check: CheckId, group: nat) returns (t: Candidate,
                                           a: Candidate, b: Candidate)
    requires check != A4 && Evaluate(pairs, check, group).verdict in {Pass, Fail}
    ensures t in pairs && a in pairs && b in pairs
    ensures t.concept == CheckTerms(check).0 && a.concept == CheckTerms(check).1 && b.concept == CheckTerms(check).2
    ensures Evaluate(pairs, check, group) == Decide(check, group, CheckTerms(check).3, TermOf(t), TermOf(a), TermOf(b))
  {
    var (total, first, second, form) := CheckTerms(check);
    t, a, b := Single(pairs, group, total).c, Single(pairs, group, first).c, Single(pairs, group, second).c;
  }

  lemma {:induction false} RelationNamesItsSecondTerm(pairs: seq<Candidate>, c: Candidate, r: Arithmetic)
    requires UniqueKeys(pairs) && c in pairs && r.check != A4 && r == Evaluate(pairs, r.check, r.group)
    requires SignRelation(c.concept).Some? && Found(r, c, SignRelation(c.concept).value)
    ensures |r.terms| == 3 && r.terms[2] == TermOf(c)
    ensures r == Decide(r.check, r.group, PlusMinus, r.terms[0], r.terms[1], r.terms[2])
  {
    hide Evaluate, Tolerance, HoldsAsPrinted, HoldsReversed;
    var t, a, b := DecidedFromRows(pairs, r.check, r.group);
    assert r.terms == [TermOf(t), TermOf(a), TermOf(b)];
    assert CheckTerms(r.check).2 == c.concept && t.concept != c.concept && a.concept != c.concept;
    var named :| named in r.terms && named.key == c.key;
    assert named == TermOf(t) || named == TermOf(a) || named == TermOf(b);
  }

  lemma {:induction false} SignContributionFitsItsRelation(pairs: seq<Candidate>, arithmetic: seq<Arithmetic>,
                                                           c: Candidate)
    requires UniqueKeys(pairs) && Diagnostics(pairs, arithmetic) && c in pairs
    requires SignOf(arithmetic, c).basis.ByRelation? && SignOf(arithmetic, c).contribution.Some?
    ensures exists r :: r in arithmetic && r.check == SignOf(arithmetic, c).basis.check &&
                        ContributionFits(r, c.key, SignOf(arithmetic, c).contribution.value)
    ensures SignOf(arithmetic, c).contribution.value in {c.value, -c.value}
  {
    hide Evaluate;
    var r := FirstFound(arithmetic, c, SignRelation(c.concept).value).value;
    RelationNamesItsSecondTerm(pairs, c, r);
    assert ContributionFits(r, c.key, SignOf(arithmetic, c).contribution.value);
  }

  /** The results for the usable candidates of a list, in its order. */
  function SignsOf(arithmetic: seq<Arithmetic>, cs: seq<Candidate>): seq<SignResult> {
    if cs == [] then []
    else (if cs[0].usable then [SignOf(arithmetic, cs[0])] else []) + SignsOf(arithmetic, cs[1..])
  }

  lemma {:induction false} SignsOfUsable(arithmetic: seq<Arithmetic>, cs: seq<Candidate>)
    ensures forall s :: s in SignsOf(arithmetic, cs) <==> exists c :: c in cs && c.usable && s == SignOf(arithmetic, c)
  {
    hide SignOf;
    if cs != [] {
      SignsOfUsable(arithmetic, cs[1..]);
      forall c ensures c in cs <==> c == cs[0] || c in cs[1..] {
        assert cs == [cs[0]] + cs[1..];
      }
    }
  }

  lemma {:induction false} SignsInKeyOrder(arithmetic: seq<Arithmetic>, cs: seq<Candidate>)
    requires SortedBy(KeyLe, cs)
    ensures forall i, j :: 0 <= i < j < |SignsOf(arithmetic, cs)| ==>
              SignsOf(arithmetic, cs)[i].key <= SignsOf(arithmetic, cs)[j].key
  {
    if cs != [] {
      SignsOfUsable(arithmetic, cs[1..]);
      SignsInKeyOrder(arithmetic, cs[1..]);
      forall s | s in SignsOf(arithmetic, cs[1..]) ensures cs[0].key <= s.key {
        var c :| c in cs[1..] && s == SignOf(arithmetic, c);
        var j :| 0 <= j < |cs| - 1 && cs[1..][j] == c;
        assert KeyLe(cs[0], cs[j + 1]);
      }
    }
  }

  /** The diagnostic decides the relation of the row's concept, in the row's own column, and names the row. */
  ghost predicate Decides(r: Arithmetic, c: Candidate) {
    && r.group == c.group && r.verdict in {Pass, Fail} && (exists t :: t in r.terms && t.key == c.key)
    && ((c.concept == CostOfSales && r.check == A2) || (c.concept == IncomeTaxExpense && r.check == A3)
        || (c.concept == InterestExpense && r.check == A5))
  }

  ghost predicate DecidesFirst(arithmetic: seq<Arithmetic>, c: Candidate, i: nat) {
    i < |arithmetic| && Decides(arithmetic[i], c) && forall j: nat :: j < i ==> !Decides(arithmetic[j], c)
  }

  /** What a result says of its row. Income contributes as printed; an expense as its relation passed, as printed or
      with its sign turned; without a relation a printed negative contributes as printed; zero contributes zero; and
      nothing else has a contribution. */
  ghost predicate SignSays(arithmetic: seq<Arithmetic>, c: Candidate, s: SignResult) {
    && s.key == c.key
    && (c.natural == Income ==> s == SignResult(c.key, ContributionAsPrinted, IncomeAsPrinted, Some(c.value)))
    && (c.natural !in {Income, Expense} ==> s == SignResult(c.key, SignNotApplicable, ByNaturalSign, None))
    && (c.natural == Expense && c.value == 0.0 ==> s == SignResult(c.key, Zero, ZeroValue, Some(0.0)))
    && (c.natural == Expense && c.value != 0.0 ==>
          && (forall i: nat :: DecidesFirst(arithmetic, c, i) ==> RelationSays(arithmetic[i], c, s))
          && ((forall i: nat :: !DecidesFirst(arithmetic, c, i)) ==>
                s == if c.value < 0.0
                    then SignResult(c.key, ContributionAsPrinted, PrintedNegativeExpense, Some(c.value))
                     else SignResult(c.key, Undetermined, NoRelation, None)))
  }

  predicate RelationSays(r: Arithmetic, c: Candidate, s: SignResult) {
    && s.basis == ByRelation(r.check)
    && (s.convention == ContributionAsPrinted <==> r.verdict == Pass && r.variant == AsPrinted)
    && (s.convention == MagnitudePrinted <==> r.verdict == Pass && r.variant == Reversed)
    && s.convention in {ContributionAsPrinted, MagnitudePrinted, Undetermined}
    && s.contribution == (if s.convention == ContributionAsPrinted then Some(c.value)
                          else if s.convention == MagnitudePrinted then Some(-c.value) else None)
  }

  lemma {:induction false} FirstFoundDecides(arithmetic: seq<Arithmetic>, c: Candidate, rel: CheckId, i: nat)
    requires SignRelation(c.concept) == Some(rel) && DecidesFirst(arithmetic, c, i)
    ensures FirstFound(arithmetic, c, rel) == Some(arithmetic[i])
    decreases i
  {
    if i > 0 {
      assert !Decides(arithmetic[0], c);
      forall j: nat | j < i - 1 ensures !Decides(arithmetic[1..][j], c) {
        assert !Decides(arithmetic[j + 1], c);
      }
      FirstFoundDecides(arithmetic[1..], c, rel, i - 1);
    }
  }

  lemma {:induction false} SomeFirst(arithmetic: seq<Arithmetic>, c: Candidate, n: nat)
    requires n < |arithmetic| && Decides(arithmetic[n], c)
    ensures exists i: nat :: DecidesFirst(arithmetic, c, i)
  {
    if j: nat :| j < n && Decides(arithmetic[j], c) {
      SomeFirst(arithmetic, c, j);
    } else {
      assert DecidesFirst(arithmetic, c, n);
    }
  }

  /** detect_signs reports of each row what the row's natural sign, its value and its relation say. */
  lemma {:induction false} SignOfSays(arithmetic: seq<Arithmetic>, c: Candidate)
    ensures SignSays(arithmetic, c, SignOf(arithmetic, c))
  {
    if c.natural == Expense && c.value != 0.0 {
      var rel := SignRelation(c.concept);
      if i: nat :| DecidesFirst(arithmetic, c, i) {
        FirstFoundDecides(arithmetic, c, rel.value, i);
        forall k: nat | DecidesFirst(arithmetic, c, k) ensures k == i {
        }
      } else if rel.Some? && FirstFound(arithmetic, c, rel.value).Some? {
        var r := FirstFound(arithmetic, c, rel.value).value;
        var n: nat :| n < |arithmetic| && arithmetic[n] == r;
        SomeFirst(arithmetic, c, n);
      }
    }
  }

  /** Every result is what its row says, and every usable row has its result. */
  ghost predicate ReportsEachRow(pairs: seq<Candidate>, arithmetic: seq<Arithmetic>, out: seq<SignResult>) {
    && (forall s :: s in out ==> SaysOfSome(pairs, arithmetic, s))
    && (forall c :: c in pairs && c.usable ==> HasResult(arithmetic, out, c))
  }

  ghost predicate SaysOfSome(pairs: seq<Candidate>, arithmetic: seq<Arithmetic>, s: SignResult) {
    exists c :: c in pairs && c.usable && SignSays(arithmetic, c, s)
  }

  ghost predicate HasResult(arithmetic: seq<Arithmetic>, out: seq<SignResult>, c: Candidate) {
    exists s :: s in out && SignSays(arithmetic, c, s)
  }

  /** A contribution taken from a relation satisfies that relation. */
  ghost predicate RelationFits(arithmetic: seq<Arithmetic>, s: SignResult) {
    s.basis.ByRelation? && s.contribution.Some? ==>
      exists r :: r in arithmetic && ContributionFits(r, s.key, s.contribution.value)
  }

  /** A complete and sound report: one result per usable value, in row order, nothing else, and every
      contribution taken from a relation satisfies that relation. */
  ghost predicate SignReport(pairs: seq<Candidate>, arithmetic: seq<Arithmetic>, out: seq<SignResult>) {
    && ReportsEachRow(pairs, arithmetic, out) && |out| == |UsableOf(pairs)|
    && (forall i, j :: 0 <= i < j < |out| ==> out[i].key <= out[j].key)
    && (forall s :: s in out ==> RelationFits(arithmetic, s))
  }

  lemma {:induction false} UsableCount(arithmetic: seq<Arithmetic>, cs: seq<Candidate>, ds: seq<Candidate>)
    requires multiset(cs) == multiset(ds)
    ensures |SignsOf(arithmetic, cs)| == |UsableOf(ds)|
  {
    hide UsableOf, SignsOf;
    UsableBag(cs);
    UsableBag(ds);
    SignsCount(arithmetic, cs);
    var (a, b) := (multiset(UsableOf(cs)), multiset(UsableOf(ds)));
    assert a == b by {
      forall c ensures a[c] == b[c] {
      }
    }
    assert |a| == |UsableOf(cs)| && |b| == |UsableOf(ds)|;
  }

  lemma {:induction false} SignsCount(arithmetic: seq<Arithmetic>, cs: seq<Candidate>)
    ensures |SignsOf(arithmetic, cs)| == |UsableOf(cs)|
  {
    if cs != [] {
      SignsCount(arithmetic, cs[1..]);
    }
  }

  ghost function UsableIn(bag: multiset<Candidate>, c: Candidate): nat {
    if c.usable then bag[c] else 0
  }

  lemma {:induction false} UsableBag(cs: seq<Candidate>)
    ensures forall c :: multiset(UsableOf(cs))[c] == UsableIn(multiset(cs), c)
  {
    if cs != [] {
      UsableBag(cs[1..]);
      assert cs == [cs[0]] + cs[1..];
      forall c ensures multiset(UsableOf(cs))[c] == UsableIn(multiset(cs), c) {
        assert multiset(UsableOf(cs[1..]))[c] == UsableIn(multiset(cs[1..]), c);
      }
    }
  }

  lemma {:induction false} EachRowReported(pairs: seq<Candidate>, arithmetic: seq<Arithmetic>, sorted: seq<Candidate>)
    requires forall c :: c in sorted <==> c in pairs
    ensures ReportsEachRow(pairs, arithmetic, SignsOf(arithmetic, sorted))
  {
    hide SignOf, SignsOf, SignSays;
    var out := SignsOf(arithmetic, sorted);
    SignsOfUsable(arithmetic, sorted);
    forall s | s in out ensures SaysOfSome(pairs, arithmetic, s) {
      var c :| c in sorted && c.usable && s == SignOf(arithmetic, c);
      SignOfSays(arithmetic, c);
    }
    forall c | c in pairs && c.usable ensures HasResult(arithmetic, out, c) {
      assert SignOf(arithmetic, c) in out;
      SignOfSays(arithmetic, c);
    }
  }

  lemma {:induction false} SignsOfTheRun(pairs: seq<Candidate>, arithmetic: seq<Arithmetic>)
    requires UniqueKeys(pairs) && Diagnostics(pairs, arithmetic)
    ensures SignReport(pairs, arithmetic, SignsOf(arithmetic, Sort(KeyLe, pairs)))
  {
    hide Evaluate, SignOf, ContributionFits, Sort, SignsOf, ReportsEachRow, UsableOf, RelationFits;
    var sorted := Sort(KeyLe, pairs);
    SortSorts(KeyLe, pairs);
    SignsInKeyOrder(arithmetic, sorted);
    forall c ensures c in sorted <==> c in pairs {
      assert c in multiset(sorted) <==> c in multiset(pairs);
    }
    EachRowReported(pairs, arithmetic, sorted);
    UsableCount(arithmetic, sorted, pairs);
    forall s | s in SignsOf(arithmetic, sorted) ensures RelationFits(arithmetic, s) {
      FitsItsRelation(pairs, arithmetic, sorted, s);
    }
  }

  lemma {:induction false} FitsItsRelation(pairs: seq<Candidate>, arithmetic: seq<Arithmetic>, sorted: seq<Candidate>,
                                           s: SignResult)
    requires UniqueKeys(pairs) && Diagnostics(pairs, arithmetic) && (forall c :: c in sorted <==> c in pairs)
    requires s in SignsOf(arithmetic, sorted)
    ensures RelationFits(arithmetic, s)
  {
    hide Evaluate, SignOf, ContributionFits, SignsOf;
    SignsOfUsable(arithmetic, sorted);
    var c :| c in sorted && c.usable && s == SignOf(arithmetic, c);
    if s.basis.ByRelation? && s.contribution.Some? {
      ContributionOfOneRow(pairs, arithmetic, c, s);
    }
  }

  lemma {:induction false} ContributionOfOneRow(pairs: seq<Candidate>, arithmetic: seq<Arithmetic>, c: Candidate,
                                                s: SignResult)
    requires UniqueKeys(pairs) && Diagnostics(pairs, arithmetic) && c in pairs && s == SignOf(arithmetic, c)
    requires s.basis.ByRelation? && s.contribution.Some?
    ensures exists r :: r in arithmetic && ContributionFits(r, s.key, s.contribution.value)
  {
    hide Evaluate, ContributionFits;
    SignContributionFitsItsRelation(pairs, arithmetic, c);
  }

  /** detect_signs: the sign report of a run, row by row. */
  method DetectSigns(pairs: seq<Candidate>, arithmetic: seq<Arithmetic>) returns (out: seq<SignResult>)
    requires UniqueKeys(pairs) && Diagnostics(pairs, arithmetic)
    ensures SignReport(pairs, arithmetic, out)
  {
    hide Evaluate, SignOf, SignReport, Sort;
    var sorted := Sort(KeyLe, pairs);
    out := [];
    for i := 0 to |sorted|
      invariant out + SignsOf(arithmetic, sorted[i..]) == SignsOf(arithmetic, sorted)
    {
      if sorted[i].usable {
        out := out + [SignOf(arithmetic, sorted[i])];
      }
    }
    assert sorted[|sorted|..] == [];
    assert out == SignsOf(arithmetic, sorted);
    SignsOfTheRun(pairs, arithmetic);
  }
}
