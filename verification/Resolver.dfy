/**
 * The deterministic resolver (understanding/resolver.rs): parameters from hints and catalog
 * defaults, and the calendar range that each temporal hint stands for.
 */
module Resolver {
  import opened Wrappers
  import opened Calendar

  datatype Inferred =
    | Today | Yesterday | ThisWeek | LastWeek | ThisMonth | LastMonth | ThisYear | LastYear | Recent | AsOfNow
    | Range | NoTime

  datatype TemporalHint = TemporalHint(inferred: Inferred, confidence: real)

  datatype Quantity = AllRows | TopRows | LimitRows | DefaultRows

  datatype QuantityHint = QuantityHint(inferred: Quantity, value: Option<int>, confidence: real)

  const CONFIDENCE_FLOOR := 0.7

  function ResolveTemporal(hint: TemporalHint, today: Date): Option<(Date, Date)>
    requires Valid(today)
  {
    if hint.confidence < CONFIDENCE_FLOOR then None
    else
      match hint.inferred
      case Today => Some((today, today))
      case AsOfNow => Some((today, today))
      case Yesterday => Some((PlusDays(today, -1), PlusDays(today, -1)))
      case ThisWeek => Some((WeekStart(today), today))
      case LastWeek =>
        var previous := PlusDays(WeekStart(today), -7);
        Some((previous, PlusDays(previous, 6)))
      case ThisMonth => Some((StartOfMonth(today), today))
      case LastMonth =>
        var anchor := PlusMonths(today, -1);
        Some((StartOfMonth(anchor), EndOfMonth(anchor)))
      case ThisYear => Some((Date(today.year, 1, 1), today))
      case LastYear => Some((Date(today.year - 1, 1, 1), Date(today.year - 1, 12, 31)))
      case Recent => Some((PlusDays(today, -1), today))
      case Range => None
      case NoTime => None
  }

  // ------------------------------------------------------------- what the words mean

  /** Weeks since the one that began on Monday, 1 January of year 1. */
  function Week(d: Date): int
    requires Valid(d)
  {
    DayNumber(d) / 7
  }

  /** The meaning of a hint: which days it stands for, seen from today. */
  predicate Means(inferred: Inferred, today: Date, d: Date)
    requires Valid(today) && Valid(d)
  {
    match inferred
    case Today => d == today
    case AsOfNow => d == today
    case Yesterday => NextDay(d) == today
    case ThisWeek => Week(d) == Week(today) && AtMost(d, today)
    case LastWeek => Week(d) == Week(today) - 1
    case ThisMonth => MonthIndex(d) == MonthIndex(today) && AtMost(d, today)
    case LastMonth => MonthIndex(d) == MonthIndex(today) - 1
    case ThisYear => d.year == today.year && AtMost(d, today)
    case LastYear => d.year == today.year - 1
    case Recent => NextDay(d) == today || d == today
    case Range => false
    case NoTime => false
  }

  predicate Within(range: (Date, Date), d: Date) {
    AtMost(range.0, d) && AtMost(d, range.1)
  }

  ghost predicate ValidRange(range: (Date, Date), today: Date) {
    Valid(range.0) && Valid(range.1) && AtMost(range.0, range.1) && AtMost(range.1, today)
  }

  lemma YesterdayIs(today: Date, d: Date)
    requires Valid(today) && Valid(d)
    ensures Valid(PlusDays(today, -1)) && NextDay(PlusDays(today, -1)) == today
    ensures NextDay(d) == today <==> d == PlusDays(today, -1)
    ensures AtMost(PlusDays(today, -1), today)
    ensures AtMost(PlusDays(today, -1), d) && AtMost(d, today) <==> d == PlusDays(today, -1) || d == today
  {
  }

  lemma Multiple(n: int)
    ensures n - n % 7 == 7 * (n / 7) && (7 * (n / 7)) % 7 == 0
  {
  }

  lemma WeekStartNumber(today: Date)
    requires Valid(today)
    ensures Valid(WeekStart(today)) && DayNumber(WeekStart(today)) == 7 * Week(today)
    ensures Weekday(WeekStart(today)) == 0
  {
    PlusDaysNumber(today, -Weekday(today));
    Multiple(DayNumber(today));
  }

  lemma WeekBounds(n: int, w: int)
    ensures n / 7 == w <==> 7 * w <= n <= 7 * w + 6
  {
  }

  lemma ThisWeekIs(today: Date, d: Date)
    requires Valid(today) && Valid(d)
    ensures Valid(WeekStart(today)) && AtMost(WeekStart(today), today)
    ensures AtMost(WeekStart(today), d) && AtMost(d, today) <==> Week(d) == Week(today) && AtMost(d, today)
  {
    WeekStartNumber(today);
    NumbersOrderDates(WeekStart(today), today);
    NumbersOrderDates(WeekStart(today), d);
    NumbersOrderDates(d, today);
    WeekBounds(DayNumber(d), Week(today));
    WeekBounds(DayNumber(today), Week(today));
  }

  lemma LastWeekNumbers(today: Date)
    requires Valid(today)
    ensures
      var from := PlusDays(WeekStart(today), -7);
      var to := PlusDays(from, 6);
      && Valid(from) && Valid(to)
      && DayNumber(from) == 7 * (Week(today) - 1) && DayNumber(to) == 7 * (Week(today) - 1) + 6
      && NextDay(to) == WeekStart(today)
  {
    WeekStartNumber(today);
    var from := PlusDays(WeekStart(today), -7);
    var to := PlusDays(from, 6);
    PlusDaysNumber(WeekStart(today), -7);
    PlusDaysNumber(from, 6);
    NextDayNumber(to);
    NumbersOrderDates(NextDay(to), WeekStart(today));
  }

  /** A range of seven day numbers starting at a multiple of seven is one week. */
  lemma WeekIs(from: Date, to: Date, w: int, d: Date)
    requires Valid(from) && Valid(to) && Valid(d) && DayNumber(from) == 7 * w && DayNumber(to) == 7 * w + 6
    ensures AtMost(from, to) && (AtMost(from, d) && AtMost(d, to) <==> Week(d) == w)
  {
    NumbersOrderDates(from, to);
    NumbersOrderDates(from, d);
    NumbersOrderDates(d, to);
    WeekBounds(DayNumber(d), w);
  }

  lemma LastWeekIs(today: Date, d: Date)
    requires Valid(today) && Valid(d)
    ensures
      var from := PlusDays(WeekStart(today), -7);
      var to := PlusDays(from, 6);
      && ValidRange((from, to), today) && NextDay(to) == WeekStart(today)
      && (AtMost(from, d) && AtMost(d, to) <==> Week(d) == Week(today) - 1)
  {
    LastWeekNumbers(today);
    var from := PlusDays(WeekStart(today), -7);
    var to := PlusDays(from, 6);
    WeekIs(from, to, Week(today) - 1, d);
    WeekBounds(DayNumber(today), Week(today));
    NumbersOrderDates(to, today);
  }

  /** The whole month of a date. */
  lemma MonthIs(anchor: Date, d: Date)
    requires Valid(anchor) && Valid(d)
    ensures Valid(EndOfMonth(anchor)) && AtMost(StartOfMonth(anchor), EndOfMonth(anchor))
    ensures AtMost(StartOfMonth(anchor), d) && AtMost(d, EndOfMonth(anchor)) <==> MonthIndex(d) == MonthIndex(anchor)
  {
  }

  lemma EarlierMonthIsEarlier(a: Date, b: Date)
    requires Valid(a) && Valid(b) && MonthIndex(a) < MonthIndex(b)
    ensures AtMost(a, b)
  {
  }

  lemma LastMonthIs(today: Date, d: Date)
    requires Valid(today) && Valid(d)
    ensures
      var anchor := PlusMonths(today, -1);
      && Valid(EndOfMonth(anchor)) && AtMost(StartOfMonth(anchor), EndOfMonth(anchor)) &&
         AtMost(EndOfMonth(anchor), today)
      && StartOfMonth(anchor).day == 1 && NextDay(EndOfMonth(anchor)) == StartOfMonth(today)
      && (AtMost(StartOfMonth(anchor), d) && AtMost(d, EndOfMonth(anchor)) <==> MonthIndex(d) == MonthIndex(today) - 1)
  {
    var anchor := PlusMonths(today, -1);
    PlusMonthsIndex(today, -1);
    MonthIs(anchor, d);
    EndOfMonthIsLast(anchor);
    EarlierMonthIsEarlier(EndOfMonth(anchor), today);
    PlusMonthsIndex(StartOfMonth(anchor), 1);
    SameIndexSameMonth(PlusMonths(StartOfMonth(anchor), 1), StartOfMonth(today));
  }

  lemma YearsAre(today: Date, d: Date)
    requires Valid(today) && Valid(d)
    ensures AtMost(Date(today.year, 1, 1), d) && AtMost(d, today) <==> d.year == today.year && AtMost(d, today)
    ensures AtMost(Date(today.year - 1, 1, 1), d) && AtMost(d, Date(today.year - 1, 12, 31)) <==>
            d.year == today.year - 1
    ensures NextDay(Date(today.year - 1, 12, 31)) == Date(today.year, 1, 1)
  {
  }

  /** A hint resolves exactly when it is trusted and names a fixed period. */
  lemma ResolvesIff(hint: TemporalHint, today: Date)
    requires Valid(today)
    ensures ResolveTemporal(hint, today).Some? <==>
            hint.confidence >= 0.7 && !hint.inferred.Range? && !hint.inferred.NoTime?
  {
  }

  /**
   * Whatever resolves is an ordered range of real dates that does not reach past today, and
   * it contains exactly the days the words mean.
   */
  lemma RangeIsExact(hint: TemporalHint, today: Date, d: Date)
    requires Valid(today) && Valid(d) && ResolveTemporal(hint, today).Some?
    ensures ValidRange(ResolveTemporal(hint, today).value, today)
    ensures Within(ResolveTemporal(hint, today).value, d) <==> Means(hint.inferred, today, d)
  {
    match hint.inferred
    case Today =>
    case AsOfNow =>
    case Yesterday => YesterdayIs(today, d);
    case Recent => YesterdayIs(today, d);
    case ThisWeek => ThisWeekIs(today, d);
    case LastWeek => LastWeekIs(today, d);
    case ThisMonth => SameIndexSameMonth(d, today);
    case LastMonth => LastMonthIs(today, d);
    case ThisYear => YearsAre(today, d);
    case LastYear => YearsAre(today, d);
  }

  function Period(inferred: Inferred, today: Date): (Date, Date)
    requires Valid(today) && !inferred.Range? && !inferred.NoTime?
  {
    ResolveTemporal(TemporalHint(inferred, 1.0), today).value
  }

  /** Day, week, month and year: "last" ends the day before "this" begins. */
  lemma LastMeetsThis(today: Date)
    requires Valid(today)
    ensures NextDay(Period(Yesterday, today).1) == Period(Today, today).0
    ensures NextDay(Period(LastWeek, today).1) == Period(ThisWeek, today).0
    ensures NextDay(Period(LastMonth, today).1) == Period(ThisMonth, today).0
    ensures NextDay(Period(LastYear, today).1) == Period(ThisYear, today).0
  {
    YesterdayIs(today, today);
    LastWeekIs(today, today);
    LastMonthIs(today, today);
    YearsAre(today, today);
  }

  // ------------------------------------------------------------------- the parameter loop

  datatype Value = DateValue(date: Date) | IntegerValue(number: int) | Ids(ids: seq<int>) | Unbounded

  datatype Default =
    | BusinessToday | WallToday
    | TodayMinusDays(days: nat) | TodayMinusMonths(months: nat) | TodayMinusYears(years: nat)
    | MonthStartToday | MonthEndToday | NoLimit | Scope | LiteralInteger(number: int) | LiteralDate(date: Date)

  function Evaluate(e: Default, today: Date, offices: seq<int>): Value {
    match e
    case BusinessToday => DateValue(today)
    case WallToday => DateValue(today)
    case TodayMinusDays(n) => DateValue(PlusDays(today, 0 - n))
    case TodayMinusMonths(n) => DateValue(PlusMonths(today, 0 - n))
    case TodayMinusYears(n) => DateValue(PlusMonths(today, 0 - 12 * n))
    case MonthStartToday => DateValue(StartOfMonth(today))
    case MonthEndToday => DateValue(EndOfMonth(today))
    case NoLimit => Unbounded
    case Scope => Ids(offices)
    case LiteralInteger(v) => IntegerValue(v)
    case LiteralDate(d) => DateValue(d)
  }

  datatype Name = Name(text: string)

  const FROM_DATE := Name("from_date")
  const TO_DATE := Name("to_date")

  datatype Policy = Policy(name: Name, required: bool, fallback: Option<Default>)

  datatype Extraction = Extraction(temporal: Option<TemporalHint>, quantity: Option<QuantityHint>)

  datatype Source = LlmClaim | CatalogDefault

  datatype Resolved = Resolved(value: Value, source: Source)

  function ResolveQuantity(hint: QuantityHint): Option<Value> {
    if hint.confidence < CONFIDENCE_FLOOR then None
    else
      match hint.inferred
      case AllRows => Some(Unbounded)
      case DefaultRows => None
      case _ => if hint.value.Some? then Some(IntegerValue(hint.value.value)) else None
  }

  function FromHint(name: Name, extraction: Extraction, today: Date): Option<Value>
    requires Valid(today)
  {
    if name == FROM_DATE || name == TO_DATE then
      if extraction.temporal.None? || ResolveTemporal(extraction.temporal.value, today).None? then None
      else
        var (from, to) := ResolveTemporal(extraction.temporal.value, today).value;
        Some(DateValue(if name == FROM_DATE then from else to))
    else if name == Name("limit") || name == Name("top_n") then
      if extraction.quantity.None? then None else ResolveQuantity(extraction.quantity.value)
    else None
  }

  /** How one policy is filled, if it is. */
  function Fill(p: Policy, extraction: Extraction, today: Date, offices: seq<int>): Option<Resolved>
    requires Valid(today)
  {
    match FromHint(p.name, extraction, today)
    case Some(v) => Some(Resolved(v, LlmClaim))
    case None =>
      match p.fallback
      case Some(e) => Some(Resolved(Evaluate(e, today, offices), CatalogDefault))
      case None => None
  }

  type Parameters = map<Name, Resolved>

  /** The last policy of a name that is filled decides its value. */
  ghost predicate FilledBy(policies: seq<Policy>, extraction: Extraction, today: Date, offices: seq<int>, name: Name,
                           r: Resolved)
    requires Valid(today)
  {
    exists k :: 0 <= k < |policies| && policies[k].name == name &&
        Fill(policies[k], extraction, today, offices) == Some(r)
                && forall j | k < j < |policies| && policies[j].name == name ::
                   Fill(policies[j], extraction, today, offices).None?
  }

  /** The names that are required and not filled, in the order of the policies. */
  function Unfilled(policies: seq<Policy>, extraction: Extraction, today: Date, offices: seq<int>): seq<Name>
    requires Valid(today)
  {
    if policies == [] then []
    else
      var before, p := Unfilled(policies[..|policies| - 1], extraction, today, offices), policies[|policies| - 1];
      if p.required && Fill(p, extraction, today, offices).None? then before + [p.name] else before
  }

  ghost predicate IsResolution(policies: seq<Policy>, extraction: Extraction, today: Date, offices: seq<int>,
                               parameters: Parameters, unfilled: seq<Name>)
    requires Valid(today)
  {
    && (forall name | name in parameters :: FilledBy(policies, extraction, today, offices, name, parameters[name]))
    && (forall k | 0 <= k < |policies| && Fill(policies[k], extraction, today, offices).Some? ::
        policies[k].name in parameters)
    && unfilled == Unfilled(policies, extraction, today, offices)
  }

  lemma {:induction false} UnfilledExact(policies: seq<Policy>, extraction: Extraction, today: Date,
                                         offices: seq<int>, name: Name)
    requires Valid(today)
    ensures name in Unfilled(policies, extraction, today, offices) <==>
            exists p :: p in policies && p.name == name && p.required && Fill(p, extraction, today, offices).None?
  {
    if policies != [] {
      var init, last := policies[..|policies| - 1], policies[|policies| - 1];
      assert policies == init + [last];
      UnfilledExact(init, extraction, today, offices, name);
    }
  }

  /** What one turn of the loop does. */
  predicate Turned(p: Policy, filled: Option<Resolved>, parameters: Parameters, unfilled: seq<Name>,
                   parameters': Parameters, unfilled': seq<Name>) {
    && parameters' == (if filled.Some? then parameters[p.name := filled.value] else parameters)
    && unfilled' == (if filled.None? && p.required then unfilled + [p.name] else unfilled)
  }

  lemma ResolutionStep(policies: seq<Policy>, p: Policy, extraction: Extraction, today: Date, offices: seq<int>,
                       parameters: Parameters, unfilled: seq<Name>, parameters': Parameters, unfilled': seq<Name>)
    requires Valid(today) && IsResolution(policies, extraction, today, offices, parameters, unfilled)
    requires Turned(p, Fill(p, extraction, today, offices), parameters, unfilled, parameters', unfilled')
    ensures IsResolution(policies + [p], extraction, today, offices, parameters', unfilled')
  {
    var all := policies + [p];
    assert all[..|policies|] == policies;
    forall name | name in parameters' ensures FilledBy(all, extraction, today, offices, name, parameters'[name]) {
      FilledStep(policies, p, extraction, today, offices, name, parameters'[name]);
    }
  }

  lemma ResolutionAdvances(policies: seq<Policy>, i: nat, extraction: Extraction, today: Date, offices: seq<int>,
                           parameters: Parameters, unfilled: seq<Name>, parameters': Parameters, unfilled': seq<Name>)
    requires Valid(today) && i < |policies|
    requires IsResolution(policies[..i], extraction, today, offices, parameters, unfilled)
    requires Turned(policies[i], Fill(policies[i], extraction, today, offices), parameters, unfilled, parameters',
                    unfilled')
    ensures IsResolution(policies[..i + 1], extraction, today, offices, parameters', unfilled')
  {
    assert policies[..i + 1] == policies[..i] + [policies[i]];
    ResolutionStep(policies[..i], policies[i], extraction, today, offices, parameters, unfilled, parameters',
                   unfilled');
  }

  lemma FilledStep(policies: seq<Policy>, p: Policy, extraction: Extraction, today: Date, offices: seq<int>,
                   name: Name, r: Resolved)
    requires Valid(today)
    requires if p.name == name && Fill(p, extraction, today, offices).Some?
             then Fill(p, extraction, today, offices) == Some(r)
             else FilledBy(policies, extraction, today, offices, name, r)
    ensures FilledBy(policies + [p], extraction, today, offices, name, r)
  {
    var all := policies + [p];
    if p.name == name && Fill(p, extraction, today, offices).Some? {
      assert all[|policies|] == p;
    } else {
      var k :| 0 <= k < |policies| && policies[k].name == name &&
          Fill(policies[k], extraction, today, offices) == Some(r)
               && forall j | k < j < |policies| && policies[j].name == name ::
                  Fill(policies[j], extraction, today, offices).None?;
      assert all[k] == policies[k];
    }
  }

  method Resolve(policies: seq<Policy>, extraction: Extraction, today: Date, offices: seq<int>)
    returns (parameters: Parameters, unfilled: seq<Name>)
    requires Valid(today)
    ensures IsResolution(policies, extraction, today, offices, parameters, unfilled)
    ensures DistinctNames(policies) ==>
              forall p | p in policies :: Promised(p, extraction, today, offices, parameters, unfilled)
  {
    parameters, unfilled := map[], [];
    for i := 0 to |policies|
      invariant IsResolution(policies[..i], extraction, today, offices, parameters, unfilled)
    {
      var parameters', unfilled' := Turn(policies[i], extraction, today, offices, parameters, unfilled);
      ResolutionAdvances(policies, i, extraction, today, offices, parameters, unfilled, parameters', unfilled');
      parameters, unfilled := parameters', unfilled';
    }
    assert policies[..|policies|] == policies;
    if DistinctNames(policies) {
      ResolvedAsPromised(policies, extraction, today, offices, parameters, unfilled, FROM_DATE);
    }
  }

  method Turn(p: Policy, extraction: Extraction, today: Date, offices: seq<int>, parameters: Parameters,
              unfilled: seq<Name>)
    returns (parameters': Parameters, unfilled': seq<Name>)
    requires Valid(today)
    ensures Turned(p, Fill(p, extraction, today, offices), parameters, unfilled, parameters', unfilled')
  {
    parameters', unfilled' := parameters, unfilled;
    var claimed := FromHint(p.name, extraction, today);
    if claimed.Some? {
      parameters' := parameters[p.name := Resolved(claimed.value, LlmClaim)];
    } else if p.fallback.Some? {
      parameters' := parameters[p.name := Resolved(Evaluate(p.fallback.value, today, offices), CatalogDefault)];
    } else if p.required {
      unfilled' := unfilled + [p.name];
    }
  }

  ghost predicate DistinctNames(policies: seq<Policy>) {
    forall p, q | p in policies && q in policies && p.name == q.name :: p == q
  }

  /** With distinct names every required parameter is either filled or reported, never both. */
  lemma FilledOrReported(policies: seq<Policy>, extraction: Extraction, today: Date, offices: seq<int>,
                         parameters: Parameters, unfilled: seq<Name>, p: Policy)
    requires Valid(today) && IsResolution(policies, extraction, today, offices, parameters, unfilled)
    requires DistinctNames(policies) && p in policies && p.required
    ensures p.name in parameters <==> p.name !in unfilled
  {
    UnfilledExact(policies, extraction, today, offices, p.name);
  }

  /**
   * The two ends of the period are always taken from the same source, and when they come
   * from the hint they are an ordered range that ends no later than today.
   */
  lemma EndsAgree(policies: seq<Policy>, extraction: Extraction, today: Date, offices: seq<int>,
                  parameters: Parameters, unfilled: seq<Name>)
    requires Valid(today) && IsResolution(policies, extraction, today, offices, parameters, unfilled)
    requires FROM_DATE in parameters && TO_DATE in parameters
    ensures parameters[FROM_DATE].source == parameters[TO_DATE].source
    ensures parameters[FROM_DATE].source.LlmClaim? ==>
              && parameters[FROM_DATE].value.DateValue? && parameters[TO_DATE].value.DateValue?
              && ValidRange((parameters[FROM_DATE].value.date, parameters[TO_DATE].value.date), today)
  {
    EndsDiffer();
    assert FilledBy(policies, extraction, today, offices, FROM_DATE, parameters[FROM_DATE]);
    assert FilledBy(policies, extraction, today, offices, TO_DATE, parameters[TO_DATE]);
    if extraction.temporal.Some? && ResolveTemporal(extraction.temporal.value, today).Some? {
      RangeIsExact(extraction.temporal.value, today, today);
    }
  }

  lemma EndsDiffer()
    ensures FROM_DATE != TO_DATE
  {
  }

  /** Every date default is a real date; none but the end of the month and literals is after today. */
  lemma DefaultsAreDates(e: Default, today: Date, offices: seq<int>)
    requires Valid(today) && (e.LiteralDate? ==> Valid(e.date)) && Evaluate(e, today, offices).DateValue?
    ensures Valid(Evaluate(e, today, offices).date)
    ensures e.LiteralDate? || e.MonthEndToday? || AtMost(Evaluate(e, today, offices).date, today)
    ensures e.MonthEndToday? ==> AtMost(today, Evaluate(e, today, offices).date)
  {
    match e
    case TodayMinusDays(n) =>
      PlusDaysNumber(today, 0 - n);
      NumbersOrderDates(PlusDays(today, 0 - n), today);
    case TodayMinusMonths(n) => MonthsBack(today, n);
    case TodayMinusYears(n) => MonthsBack(today, 12 * n);
    case MonthEndToday => EndOfMonthIsLast(today);
    case _ =>
  }

  /**
   * What a default stands for: today; so many days before it; the same day so many months or
   * years before, or the last of that month if it is shorter; the first or last day of this
   * month; no bound; all of the caller's offices; or the literal itself.
   */
  ghost predicate DefaultMeans(e: Default, today: Date, offices: seq<int>, v: Value)
    requires Valid(today)
  {
    match e
    case BusinessToday => v == DateValue(today)
    case WallToday => v == DateValue(today)
    case TodayMinusDays(n) => v.DateValue? && Valid(v.date) && DayNumber(v.date) + n == DayNumber(today)
    case TodayMinusMonths(n) => v.DateValue? && MonthIndex(v.date) + n == MonthIndex(today) &&
        SameOrLastDay(v.date, today)
    case TodayMinusYears(n) =>
      v.DateValue? && v.date.year + n == today.year && v.date.month == today.month && SameOrLastDay(v.date, today)
    case MonthStartToday => v == DateValue(Date(today.year, today.month, 1))
    case MonthEndToday => v.DateValue? && Valid(v.date) && MonthIndex(v.date) == MonthIndex(today) &&
        NextDay(v.date).day == 1
    case NoLimit => v == Unbounded
    case Scope => v == Ids(offices)
    case LiteralInteger(n) => v == IntegerValue(n)
    case LiteralDate(d) => v == DateValue(d)
  }

  predicate SameOrLastDay(d: Date, today: Date) {
    Valid(d) && (d.day == today.day || (d.day < today.day && d.day == DaysIn(d.year, d.month)))
  }

  /** Every default yields what it stands for, leap days and short months included. */
  lemma DefaultsAreExact(e: Default, today: Date, offices: seq<int>)
    requires Valid(today)
    ensures DefaultMeans(e, today, offices, Evaluate(e, today, offices))
  {
    match e
    case TodayMinusDays(n) => PlusDaysNumber(today, 0 - n);
    case TodayMinusMonths(n) => PlusMonthsIndex(today, 0 - n);
    case TodayMinusYears(n) =>
      PlusMonthsIndex(today, 0 - 12 * n);
      YearsBack(today, n);
    case MonthEndToday => EndOfMonthIsLast(today);
    case _ =>
  }

  lemma YearsBack(today: Date, n: nat)
    requires Valid(today)
    ensures
      var d := PlusMonths(today, 0 - 12 * n);
      d.year + n == today.year && d.month == today.month
      && d.day == if today.day <= DaysIn(d.year, d.month) then today.day else 28
  {
    IndexSplits(today.year - n, today.month - 1);
    assert MonthIndex(today) - 12 * n == 12 * (today.year - n) + (today.month - 1);
  }

  lemma MonthsBack(today: Date, n: nat)
    requires Valid(today)
    ensures Valid(PlusMonths(today, 0 - n)) && AtMost(PlusMonths(today, 0 - n), today)
  {
  }

  // ------------------------------------------------------------- what the loop promises

  /**
   * What a hint says about a parameter: the two ends of the period are the first and the last
   * day that its words mean, all rows are no bound, and a number of rows is that number. A hint
   * below the confidence of 0.7 says nothing, and none says anything about another parameter.
   */
  ghost predicate HintSays(name: Name, x: Extraction, today: Date, v: Value)
    requires Valid(today)
  {
    if name.text == "from_date" || name.text == "to_date" then
      && x.temporal.Some? && x.temporal.value.confidence >= 0.7
      && v.DateValue? && Valid(v.date) && Means(x.temporal.value.inferred, today, v.date)
      && forall d | Valid(d) && Means(x.temporal.value.inferred, today, d) ::
           if name.text == "from_date" then AtMost(v.date, d) else AtMost(d, v.date)
    else
      && (name.text == "limit" || name.text == "top_n")
      && x.quantity.Some? && x.quantity.value.confidence >= 0.7
      && match x.quantity.value.inferred
         case AllRows => v == Unbounded
         case TopRows => v.IntegerValue? && x.quantity.value.value == Some(v.number)
         case LimitRows => v.IntegerValue? && x.quantity.value.value == Some(v.number)
         case DefaultRows => false
  }

  lemma PeriodHasEnds(hint: TemporalHint, today: Date)
    requires Valid(today)
    ensures
      var range := ResolveTemporal(hint, today);
      && (range.None? && hint.confidence >= 0.7 ==> forall d | Valid(d) :: !Means(hint.inferred, today, d))
      && (range.Some? ==>
            && hint.confidence >= 0.7 && ValidRange(range.value, today)
            && forall d | Valid(d) :: Means(hint.inferred, today, d) <==> Within(range.value, d))
  {
    if ResolveTemporal(hint, today).Some? {
      RangeIsExact(hint, today, today);
      forall d | Valid(d)
        ensures Means(hint.inferred, today, d) <==> Within(ResolveTemporal(hint, today).value, d)
      {
        RangeIsExact(hint, today, d);
      }
    }
  }

  /** The end of a range is the one day in it that no other day in it lies beyond. */
  lemma EndIsExtreme(range: (Date, Date), today: Date, first: bool, d: Date)
    requires Valid(today) && ValidRange(range, today) && Valid(d) && Within(range, d)
    ensures d == (if first then range.0 else range.1) <==>
            forall other | Valid(other) && Within(range, other) ::
              if first then AtMost(d, other) else AtMost(other, d)
  {
    assert Within(range, range.0) && Within(range, range.1);
  }

  lemma HintSaysIff(name: Name, x: Extraction, today: Date, v: Value)
    requires Valid(today)
    ensures HintSays(name, x, today, v) <==> FromHint(name, x, today) == Some(v)
  {
    assert name == Name(name.text);
    if (name == FROM_DATE || name == TO_DATE) && x.temporal.Some? {
      var range := ResolveTemporal(x.temporal.value, today);
      PeriodHasEnds(x.temporal.value, today);
      if range.Some? {
        assert Within(range.value, range.value.0) && Within(range.value, range.value.1);
        if v.DateValue? && Valid(v.date) && Within(range.value, v.date) {
          EndIsExtreme(range.value, today, name == FROM_DATE, v.date);
        }
      }
    }
  }

  /**
   * A parameter gets what the hint says, else what its default stands for, else nothing, and is
   * then reported if it is required.
   */
  ghost predicate Promised(p: Policy, x: Extraction, today: Date, offices: seq<int>, parameters: Parameters,
                           unfilled: seq<Name>)
    requires Valid(today)
  {
    && (if exists v :: HintSays(p.name, x, today, v)
        then p.name in parameters && parameters[p.name].source.LlmClaim?
             && HintSays(p.name, x, today, parameters[p.name].value)
        else match p.fallback
             case Some(e) => p.name in parameters && parameters[p.name].source.CatalogDefault?
                             && DefaultMeans(e, today, offices, parameters[p.name].value)
             case None => p.name !in parameters)
    && (p.name in unfilled <==> p.required && p.name !in parameters)
  }

  lemma FilledAsPromised(p: Policy, x: Extraction, today: Date, offices: seq<int>)
    requires Valid(today)
    ensures Fill(p, x, today, offices).Some? ==>
              var r := Fill(p, x, today, offices).value;
              if r.source.LlmClaim? then HintSays(p.name, x, today, r.value)
              else p.fallback.Some? && (forall v :: !HintSays(p.name, x, today, v))
                   && DefaultMeans(p.fallback.value, today, offices, r.value)
    ensures Fill(p, x, today, offices).None? <==> p.fallback.None? && forall v :: !HintSays(p.name, x, today, v)
  {
    forall v ensures HintSays(p.name, x, today, v) <==> FromHint(p.name, x, today) == Some(v) {
      HintSaysIff(p.name, x, today, v);
    }
    if p.fallback.Some? { DefaultsAreExact(p.fallback.value, today, offices); }
  }

  /** With distinct names every policy gets what it was promised, and nothing else is filled. */
  lemma ResolvedAsPromised(policies: seq<Policy>, x: Extraction, today: Date, offices: seq<int>,
                           parameters: Parameters, unfilled: seq<Name>, name: Name)
    requires Valid(today) && IsResolution(policies, x, today, offices, parameters, unfilled) && DistinctNames(policies)
    ensures forall p | p in policies :: Promised(p, x, today, offices, parameters, unfilled)
    ensures name in parameters || name in unfilled ==> exists p :: p in policies && p.name == name
  {
    forall p | p in policies ensures Promised(p, x, today, offices, parameters, unfilled) {
      FilledAsPromised(p, x, today, offices);
      UnfilledExact(policies, x, today, offices, p.name);
      if p.name in parameters {
        assert FilledBy(policies, x, today, offices, p.name, parameters[p.name]);
      }
    }
    UnfilledExact(policies, x, today, offices, name);
    if name in parameters { assert FilledBy(policies, x, today, offices, name, parameters[name]); }
  }

  /**
   * A bound on rows is lifted by a hint exactly for a trusted "all", and is a number from the
   * hint exactly for a trusted "top" or "limit" with that number.
   */
  lemma QuantityIsExact(policies: seq<Policy>, x: Extraction, today: Date, offices: seq<int>,
                        parameters: Parameters, unfilled: seq<Name>, p: Policy, n: int)
    requires Valid(today) && IsResolution(policies, x, today, offices, parameters, unfilled) && DistinctNames(policies)
    requires p in policies && (p.name.text == "limit" || p.name.text == "top_n")
    ensures
      var trusted := x.quantity.Some? && x.quantity.value.confidence >= 0.7;
      && ((p.name, Resolved(Unbounded, LlmClaim)) in parameters.Items <==>
            trusted && x.quantity.value.inferred.AllRows?)
      && ((p.name, Resolved(IntegerValue(n), LlmClaim)) in parameters.Items <==>
            && trusted && (x.quantity.value.inferred.TopRows? || x.quantity.value.inferred.LimitRows?)
            && x.quantity.value.value == Some(n))
  {
    ResolvedAsPromised(policies, x, today, offices, parameters, unfilled, p.name);
    var q := x.quantity;
    assert q.Some? && q.value.confidence >= 0.7 && q.value.inferred.AllRows? <==> HintSays(p.name, x, today, Unbounded);
    assert Promised(p, x, today, offices, parameters, unfilled);
  }

  /** Names are reported in the order of the policies, each as often as it is listed. */
  lemma {:induction false} ReportedInOrder(a: seq<Policy>, b: seq<Policy>, p: Policy, x: Extraction, today: Date,
                                           offices: seq<int>)
    requires Valid(today)
    ensures Unfilled(a + b, x, today, offices) == Unfilled(a, x, today, offices) + Unfilled(b, x, today, offices)
    ensures Unfilled([p], x, today, offices) ==
            if p.required && p.fallback.None? && (forall v :: !HintSays(p.name, x, today, v)) then [p.name] else []
  {
    FilledAsPromised(p, x, today, offices);
    assert [p][..0] == [];
    if b == [] {
      assert a + b == a;
    } else {
      var init, last := b[..|b| - 1], b[|b| - 1];
      assert (a + b)[..|a + b| - 1] == a + init && (a + b)[|a + b| - 1] == last;
      ReportedInOrder(a, init, p, x, today, offices);
    }
  }
}
