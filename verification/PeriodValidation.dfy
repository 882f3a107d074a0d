// F6.1's period sanity check (worker/financial_validation.py, validate_period): every branch, its
// reasons, and the one way it can raise.
module PeriodValidation {
  import opened Prelude
  import opened Calendar

  datatype PeriodKind = Instant | Duration | OtherKind
  datatype PeriodClass = Unspecified | StandardMonths(n: int) | OtherMonths(n: int)
  datatype FyeBasis = Documented | OtherBasis

  datatype Reason =
    | PeriodKindMissing | PeriodKindInvalid | PeriodEndMissing
    | InstantWithDuration | InstantWithStart | InstantWithPeriodClass
    | DurationMonthsMissing | DurationMonthsInvalid | PeriodClassInconsistent
    | PeriodStartAfterEnd | PeriodStartInconsistent
    | PublicationDateNotSupplied | PeriodEndAfterPublication | FiscalLabelWithoutDocumentedFye

  datatype Note = InstantFromDurationColumnEnd | StartNotReported | EndNotMonthEnd | FiscalLabelNotVerifiable

  /** The run evidence the check reads: publication date, and F3's fiscal-year-end basis and statuses. */
  datatype Evidence = Evidence(publication: Option<Date>, fyeBasis: Option<FyeBasis>, fyeTrusted: bool,
                               periodTrusted: bool)

  datatype Claim = Claim(kind: Option<PeriodKind>, start: Option<Date>, end: Option<Date>, months: Option<int>,
                         periodClass: Option<PeriodClass>, fiscalLabel: Option<string>, fromColumnEnd: bool)

  datatype PeriodResult = PeriodResult(valid: bool, start: Option<Date>, months: Option<int>,
                                       fiscalLabel: Option<string>, reasons: seq<Reason>, notes: seq<Note>)

  function ExpectedClass(months: int): PeriodClass {
    if months == 0 then Unspecified
    else if months in {3, 6, 9, 12} then StandardMonths(months)
    else OtherMonths(months)
  }

  ghost predicate DatesValid(c: Claim, e: Evidence) {
    && (c.start.Some? ==> Valid(c.start.value))
    && (c.end.Some? ==> Valid(c.end.value))
    && (e.publication.Some? ==> Valid(e.publication.value))
  }

  /** The start and duration the rest of the check sees: both dropped for an instant printed at a
      duration column's end. */
  function Start(c: Claim): Option<Date> {
    if c.fromColumnEnd then None else c.start
  }

  function Months(c: Claim): Option<int> {
    if c.fromColumnEnd then None else c.months
  }

  /** The claim reaches the duration arithmetic: a duration of whole months with a start and an end. */
  predicate ChecksStart(c: Claim) {
    && c.kind == Some(Duration) && Start(c).Some? && c.end.Some?
    && Months(c).Some? && Months(c).value > 0
  }

  /** The arithmetic itself raises: the start is not after the end, and `end + 1 day` or the month
      subtraction leaves the calendar. */
  predicate Raises(c: Claim)
    requires c.end.Some? ==> Valid(c.end.value)
  {
    ChecksStart(c) && !Before(c.end.value, Start(c).value) && CheckedStart(c.end.value, Months(c).value).None?
  }

  /** The declarative meaning of a valid period. */
  predicate Acceptable(c: Claim, e: Evidence)
    requires c.end.Some? ==> Valid(c.end.value)
  {
    && c.end.Some?
    && (c.kind == Some(Instant) || c.kind == Some(Duration))
    && (c.kind == Some(Instant) ==> Months(c).None? && Start(c).None? && c.periodClass.None?)
    && (c.kind == Some(Duration) ==>
          && Months(c).Some? && Months(c).value > 0
          && c.periodClass == Some(if Months(c).value in {3, 6, 9, 12} then StandardMonths(Months(c).value)
                                   else OtherMonths(Months(c).value))
          && (Start(c).Some? ==> StartConsistent(Start(c).value, c.end.value, Months(c).value)))
    && e.publication.Some? && !Before(e.publication.value, c.end.value)
    && (c.fiscalLabel.Some? && e.fyeBasis.Some? ==> e.fyeBasis == Some(Documented) && e.fyeTrusted && e.periodTrusted)
  }

  /** The reasons for a missing kind or end and for an instant that carries duration fields. */
  method ShapeReasons(c: Claim) returns (reasons: seq<Reason>)
    ensures reasons == [] <==>
            c.end.Some? && (c.kind == Some(Instant) || c.kind == Some(Duration)) &&
            (c.kind == Some(Instant) ==> Months(c).None? && Start(c).None? && c.periodClass.None?)
    ensures PeriodStartAfterEnd !in reasons && PeriodStartInconsistent !in reasons
  {
    reasons := [];
    if c.kind != Some(Instant) && c.kind != Some(Duration) {
      reasons := [if c.kind.None? then PeriodKindMissing else PeriodKindInvalid];
    }
    if c.end.None? {
      reasons := reasons + [PeriodEndMissing];
    }
    if c.kind == Some(Instant) {
      if Months(c).Some? { reasons := reasons + [InstantWithDuration]; }
      if Start(c).Some? { reasons := reasons + [InstantWithStart]; }
      if c.periodClass.Some? { reasons := reasons + [InstantWithPeriodClass]; }
    }
  }

  /** The duration arithmetic; None when it raises. */
  method DurationReasons(c: Claim, months: Option<int>, start: Option<Date>)
    returns (out: Option<seq<Reason>>, notes: seq<Note>)
    requires c.kind == Some(Duration) && months == Months(c) && start == Start(c)
    requires (c.end.Some? ==> Valid(c.end.value)) && (start.Some? ==> Valid(start.value))
    ensures out.None? <==> Raises(c)
    ensures out.Some? && c.end.Some? ==> (out.value == [] <==>
              months.Some? && months.value > 0 && c.periodClass == Some(ExpectedClass(months.value)) &&
              (start.Some? ==> StartConsistent(start.value, c.end.value, months.value)))
    ensures out.Some? ==> (PeriodStartAfterEnd in out.value <==> ChecksStart(c) && Before(c.end.value, start.value))
    ensures out.Some? ==> (PeriodStartInconsistent in out.value <==>
              ChecksStart(c) && !Before(c.end.value, start.value) && CheckedStart(c.end.value, months.value) != start)
    ensures EndNotMonthEnd !in notes
  {
    notes := [];
    if months.None? {
      return Some([DurationMonthsMissing]), notes;
    }
    if months.value <= 0 {
      return Some([DurationMonthsInvalid]), notes;
    }
    var reasons: seq<Reason> := [];
    if c.periodClass != Some(ExpectedClass(months.value)) {
      reasons := [PeriodClassInconsistent];
    }
    if start.None? {
      notes := [StartNotReported];
    } else if c.end.Some? {
      if Before(c.end.value, start.value) {
        reasons := reasons + [PeriodStartAfterEnd];
      } else {
        var next := NextDay(c.end.value);
        if next.None? {
          return None, notes;
        }
        NextDayIsOneDayLater(c.end.value);
        var expected := AddMonths(next.value, -months.value);
        if expected.None? {
          return None, notes;
        }
        if start != expected {
          reasons := reasons + [PeriodStartInconsistent];
        }
      }
    }
    out := Some(reasons);
  }

  /** The publication date and the fiscal label. */
  method RunReasons(c: Claim, e: Evidence) returns (reasons: seq<Reason>, fiscal: Option<string>, notes: seq<Note>)
    ensures reasons == [] <==>
            e.publication.Some? && (c.end.Some? ==> !Before(e.publication.value, c.end.value)) &&
            (c.fiscalLabel.Some? && e.fyeBasis.Some? ==>
               e.fyeBasis == Some(Documented) && e.fyeTrusted && e.periodTrusted)
    ensures PeriodStartAfterEnd !in reasons && PeriodStartInconsistent !in reasons && EndNotMonthEnd !in notes
    ensures fiscal == if e.fyeBasis == Some(Documented) && e.fyeTrusted && e.periodTrusted then c.fiscalLabel else None
  {
    reasons, fiscal, notes := [], None, [];
    if e.publication.None? {
      reasons := [PublicationDateNotSupplied];
    } else if c.end.Some? && Before(e.publication.value, c.end.value) {
      reasons := [PeriodEndAfterPublication];
    }
    if c.fiscalLabel.Some? {
      if e.fyeBasis.None? {
        notes := [FiscalLabelNotVerifiable];
      } else if e.fyeBasis == Some(Documented) && e.fyeTrusted && e.periodTrusted {
        fiscal := c.fiscalLabel;
      } else {
        reasons := reasons + [FiscalLabelWithoutDocumentedFye];
      }
    }
  }

  /** The whole check. It raises exactly when the month arithmetic leaves the calendar, it is valid exactly
      when the period is acceptable, and the two start-date reasons mean what they say. */
  method ValidatePeriod(c: Claim, e: Evidence) returns (r: Option<PeriodResult>)
    requires DatesValid(c, e)
    ensures r.None? <==> Raises(c)
    ensures r.Some? ==> (r.value.valid <==> r.value.reasons == [])
    ensures r.Some? ==> (r.value.valid <==> Acceptable(c, e))
    ensures r.Some? ==>
            (PeriodStartAfterEnd in r.value.reasons <==> ChecksStart(c) && Before(c.end.value, Start(c).value))
    ensures r.Some? ==>
            (PeriodStartInconsistent in r.value.reasons <==>
             ChecksStart(c) && !Before(c.end.value, Start(c).value) &&
             CheckedStart(c.end.value, Months(c).value) != Start(c))
    ensures r.Some? ==> (r.value.fiscalLabel.Some? ==>
            r.value.fiscalLabel == c.fiscalLabel && e.fyeBasis == Some(Documented) && e.fyeTrusted && e.periodTrusted)
    ensures r.Some? ==> (EndNotMonthEnd in r.value.notes <==> c.end.Some? && !IsMonthEnd(c.end.value))
  {
    var start, months := c.start, c.months;
    var notes: seq<Note> := [];
    if c.fromColumnEnd {
      start, months, notes := None, None, [InstantFromDurationColumnEnd];
    }
    var reasons := ShapeReasons(c);
    if c.kind == Some(Duration) {
      var more, said := DurationReasons(c, months, start);
      if more.None? {
        return None;
      }
      reasons := reasons + more.value;
      notes := notes + said;
    }
    if c.end.Some? && !IsMonthEnd(c.end.value) {
      notes := notes + [EndNotMonthEnd];
    }
    var last, fiscal, said := RunReasons(c, e);
    reasons := reasons + last;
    notes := notes + said;
    r := Some(PeriodResult(reasons == [], start, if c.kind == Some(Duration) then months else None, fiscal, reasons,
                           notes));
  }

  /** A duration column whose start F3 or F4 derived, with the class F5 gives it and a later publication
      date, is a valid period: the two stages never disagree about a start date. */
  lemma {:induction false} DerivedDurationIsAcceptable(end: Date, months: int, e: Evidence)
    requires Valid(end) && IsMonthEnd(end) && months >= 1 && DerivedStart(end, months).Some?
    requires end != Date(MAX_YEAR, 12, 31)
    requires e.publication.Some? && Valid(e.publication.value) && !Before(e.publication.value, end)
    ensures var c := Claim(Some(Duration), DerivedStart(end, months), Some(end), Some(months),
                           Some(ExpectedClass(months)), None, false);
            !Raises(c) && Acceptable(c, e)
  {
    DerivedStartsAreAccepted(end, months);
  }

  lemma {:induction false} MonthRangeColumnIsAcceptable(m1: int, m2: int, y: int, e: Evidence)
    requires 1 <= m1 <= 12 && 1 <= m2 <= 12 && MIN_YEAR <= y <= MAX_YEAR && MonthRange(m1, m2, y).Some?
    requires MonthRange(m1, m2, y).value.1 != Date(MAX_YEAR, 12, 31)
    requires e.publication.Some? && Valid(e.publication.value)
    requires !Before(e.publication.value, MonthRange(m1, m2, y).value.1)
    ensures var (start, end, months) := MonthRange(m1, m2, y).value;
            Valid(end) &&
            var c := Claim(Some(Duration), Some(start), Some(end), Some(months), Some(ExpectedClass(months)), None,
                false);
            !Raises(c) && Acceptable(c, e)
  {
    MonthRangesAreAccepted(m1, m2, y);
  }
}
