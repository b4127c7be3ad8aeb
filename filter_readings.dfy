/**
 * The interactive filter script: after cleaning, the user may narrow the
 * readings by meter id, by a comma-separated list of months and by a
 * comma-separated list of years, in that order, each step switched on or off
 * by a y/n answer. Console input is a sequence of answer lines consumed in
 * order; running out of lines is `EndOfInput`.
 */
module FilterReadings {
  import opened MeterData
  import opened PyInt

  /** The masks behind the three filters. */
  function MeterIs(id: string): Reading -> bool {
    (x: Reading) => x.meterId == id
  }

  function MonthIn(ms: seq<int>): Reading -> bool {
    (x: Reading) => x.month in ms
  }

  function YearIn(ys: seq<int>): Reading -> bool {
    (x: Reading) => x.year in ys
  }

  /** `df[df['meter_id'] == str(m_id)]`: an exact, case-sensitive match on the identifier text. */
  function FilterMeterId(rows: seq<Reading>, id: string): (r: seq<Reading>)
    ensures forall x :: x in r <==> x in rows && x.meterId == id
    ensures forall x :: multiset(r)[x] == if x.meterId == id then multiset(rows)[x] else 0
    ensures IsSubsequence(r, rows)
  {
    Where(rows, MeterIs(id))
  }

  /** `df[df.index.month.isin([int(m) for m in months.split(',')])]`. */
  function FilterMonth(rows: seq<Reading>, months: string): (r: Result<seq<Reading>>)
    ensures r.Ok? <==> ParseIntList(months).Ok?
    ensures r.Err? ==> r.error == ParseIntList(months).error
    ensures r.Ok? ==> IsSubsequence(r.value, rows) &&
                      forall x :: x in r.value <==> x in rows && x.month in ParseIntList(months).value
    ensures r.Ok? ==> forall x :: multiset(r.value)[x] ==
                        if x.month in ParseIntList(months).value then multiset(rows)[x] else 0
  {
    match ParseIntList(months)
    case Err(e) => Err(e)
    case Ok(ms) => Ok(Where(rows, MonthIn(ms)))
  }

  /** `df[df.index.year.isin([int(y) for y in years.split(',')])]`. */
  function FilterYear(rows: seq<Reading>, years: string): (r: Result<seq<Reading>>)
    ensures r.Ok? <==> ParseIntList(years).Ok?
    ensures r.Err? ==> r.error == ParseIntList(years).error
    ensures r.Ok? ==> IsSubsequence(r.value, rows) &&
                      forall x :: x in r.value <==> x in rows && x.year in ParseIntList(years).value
    ensures r.Ok? ==> forall x :: multiset(r.value)[x] ==
                        if x.year in ParseIntList(years).value then multiset(rows)[x] else 0
  {
    match ParseIntList(years)
    case Err(e) => Err(e)
    case Ok(ys) => Ok(Where(rows, YearIn(ys)))
  }

  // ---------------------------------------------------------------------------
  // Properties of the three filters

  /** Filtering by the same meter id twice is filtering once. */
  lemma FilterMeterIdIdempotent(rows: seq<Reading>, id: string)
    ensures FilterMeterId(FilterMeterId(rows, id), id) == FilterMeterId(rows, id)
  {
    WhereIdempotent(rows, MeterIs(id));
  }

  /** A month filter inside an earlier one with more months gives the same rows as the narrower one alone. */
  lemma FilterMonthNarrows(rows: seq<Reading>, wide: string, narrow: string)
    requires ParseIntList(wide).Ok? && ParseIntList(narrow).Ok?
    requires forall m :: m in ParseIntList(narrow).value ==> m in ParseIntList(wide).value
    ensures FilterMonth(FilterMonth(rows, wide).value, narrow) == FilterMonth(rows, narrow)
  {
    var ws, ns := ParseIntList(wide).value, ParseIntList(narrow).value;
    WhereWhere(rows, MonthIn(ws), MonthIn(ns));
    WhereSameMask(rows, Both(MonthIn(ws), MonthIn(ns)), MonthIn(ns));
  }

  /** A year filter inside an earlier one with more years gives the same rows as the narrower one alone. */
  lemma FilterYearNarrows(rows: seq<Reading>, wide: string, narrow: string)
    requires ParseIntList(wide).Ok? && ParseIntList(narrow).Ok?
    requires forall y :: y in ParseIntList(narrow).value ==> y in ParseIntList(wide).value
    ensures FilterYear(FilterYear(rows, wide).value, narrow) == FilterYear(rows, narrow)
  {
    var ws, ns := ParseIntList(wide).value, ParseIntList(narrow).value;
    WhereWhere(rows, YearIn(ws), YearIn(ns));
    WhereSameMask(rows, Both(YearIn(ws), YearIn(ns)), YearIn(ns));
  }

  /** Meter and month filters commute; a month list that does not parse fails in either order with its ValueError. */
  lemma MeterMonthCommute(rows: seq<Reading>, id: string, months: string)
    ensures FilterMonth(rows, months).Ok? ==>
              FilterMonth(FilterMeterId(rows, id), months) == Ok(FilterMeterId(FilterMonth(rows, months).value, id))
    ensures FilterMonth(rows, months).Err? ==> FilterMonth(FilterMeterId(rows, id), months) == FilterMonth(rows, months)
  {
    if ParseIntList(months).Ok? {
      WhereCommutes(rows, MeterIs(id), MonthIn(ParseIntList(months).value));
    }
  }

  /** Meter and year filters commute; a year list that does not parse fails in either order with its ValueError. */
  lemma MeterYearCommute(rows: seq<Reading>, id: string, years: string)
    ensures FilterYear(rows, years).Ok? ==>
              FilterYear(FilterMeterId(rows, id), years) == Ok(FilterMeterId(FilterYear(rows, years).value, id))
    ensures FilterYear(rows, years).Err? ==> FilterYear(FilterMeterId(rows, id), years) == FilterYear(rows, years)
  {
    if ParseIntList(years).Ok? {
      WhereCommutes(rows, MeterIs(id), YearIn(ParseIntList(years).value));
    }
  }

  /** The month filter, then the year filter on what it keeps: the order main runs them in. */
  function MonthThenYear(rows: seq<Reading>, months: string, years: string): Result<seq<Reading>> {
    match FilterMonth(rows, months)
    case Err(e) => Err(e)
    case Ok(t) => FilterYear(t, years)
  }

  /** The year filter first, then the month filter. */
  function YearThenMonth(rows: seq<Reading>, months: string, years: string): Result<seq<Reading>> {
    match FilterYear(rows, years)
    case Err(e) => Err(e)
    case Ok(t) => FilterMonth(t, months)
  }

  /** Month and year filters commute unless both lists fail to parse. */
  lemma MonthYearCommute(rows: seq<Reading>, months: string, years: string)
    requires ParseIntList(months).Ok? || ParseIntList(years).Ok?
    ensures MonthThenYear(rows, months, years) == YearThenMonth(rows, months, years)
  {
    if ParseIntList(months).Ok? && ParseIntList(years).Ok? {
      WhereCommutes(rows, MonthIn(ParseIntList(months).value), YearIn(ParseIntList(years).value));
    }
  }

  /** When neither list parses, the filter that runs first decides which ValueError surfaces. */
  lemma MonthYearBothFail(rows: seq<Reading>, months: string, years: string)
    requires ParseIntList(months).Err? && ParseIntList(years).Err?
    ensures MonthThenYear(rows, months, years) == Err(ParseIntList(months).error)
    ensures YearThenMonth(rows, months, years) == Err(ParseIntList(years).error)
  {
  }

  /** Numbers outside 1..12 are accepted by the month filter but match no reading of a real timestamp. */
  lemma MonthOutsideCalendarMatchesNothing(rows: seq<Reading>, months: string)
    requires forall x :: x in rows ==> WellFormed(x)
    requires ParseIntList(months).Ok?
    requires forall m :: m in ParseIntList(months).value ==> m < 1 || 12 < m
    ensures FilterMonth(rows, months) == Ok([])
  {
    var r := FilterMonth(rows, months).value;
    assert forall x :: x !in r;
  }

  // ---------------------------------------------------------------------------
  // The console dialogue of main

  /** The answers `in {'y', 'Y'}`: a single letter y in either case. */
  predicate IsYes(s: string) {
    |s| == 1 && (s[0] == 'y' || s[0] == 'Y')
  }

  /** The answers `in {'n', 'N'}`. */
  predicate IsNo(s: string) {
    |s| == 1 && (s[0] == 'n' || s[0] == 'N')
  }

  /** The only answers that end a y/n prompt loop: `in {'Y', 'y', 'N', 'n'}`. */
  predicate IsYesNo(s: string)
    ensures IsYesNo(s) <==> s in {"Y", "y", "N", "n"}
  {
    assert |s| == 1 ==> s == [s[0]];
    IsYes(s) || IsNo(s)
  }

  /**
   * The position of the answer that ends the y/n prompt begun at `pos`: the first
   * line from `pos` on that is one of Y, y, N, n.
   */
  function FirstYesNo(answers: seq<string>, pos: nat): (r: Result<nat>)
    decreases |answers| - pos
    ensures r.Ok? ==> pos <= r.value < |answers| && IsYesNo(answers[r.value])
    ensures r.Err? ==> r.error == EndOfInput
  {
    if pos >= |answers| then Err(EndOfInput)
    else if IsYesNo(answers[pos]) then Ok(pos)
    else FirstYesNo(answers, pos + 1)
  }

  /** Every line the prompt loop passes over before it stops is not a y/n answer. */
  lemma {:induction false} FirstYesNoSkips(answers: seq<string>, pos: nat, j: nat)
    requires pos <= j < |answers|
    requires FirstYesNo(answers, pos).Err? || j < FirstYesNo(answers, pos).value
    ensures !IsYesNo(answers[j])
    decreases j - pos
  {
    if pos < j {
      FirstYesNoSkips(answers, pos + 1, j);
    }
  }

  /** One prompt and its re-prompt loop: read a line, and keep reading while it is not a y/n answer. */
  method AskYesNo(answers: seq<string>, pos: nat) returns (r: Result<nat>)
    ensures r == FirstYesNo(answers, pos)
  {
    if pos >= |answers| {
      return Err(EndOfInput);
    }
    var i := pos;
    var userInput := answers[i];
    while !IsYesNo(userInput)
      invariant pos <= i < |answers| && userInput == answers[i]
      invariant FirstYesNo(answers, i) == FirstYesNo(answers, pos)
      decreases |answers| - i
    {
      if i + 1 >= |answers| {
        return Err(EndOfInput);
      }
      i := i + 1;
      userInput := answers[i];
    }
    return Ok(i);
  }

  /** What the user chose at one of the three steps. */
  datatype Choice = Skip | Use(value: string)

  datatype FilterKind = ByMeter | ByMonth | ByYear

  /** The filter behind one step, applied to the current table. */
  function ApplyFilter(kind: FilterKind, table: seq<Reading>, value: string): (r: Result<seq<Reading>>)
    ensures r.Ok? <==> Parses(kind, Use(value))
    ensures r.Ok? ==> r.value == Where(table, Mask(kind, Use(value)))
    ensures r.Err? ==> r.error == ParseIntList(value).error && r.error.ValueError?
  {
    match kind
    case ByMeter => Ok(FilterMeterId(table, value))
    case ByMonth => FilterMonth(table, value)
    case ByYear => FilterYear(table, value)
  }

  /** The state between two steps of the dialogue: the current table and the next unread line. */
  datatype Progress = Progress(table: seq<Reading>, pos: nat, choices: seq<Choice>)

  /** The mask of the filter chosen at one step; a skipped step keeps every row. */
  function Mask(kind: FilterKind, c: Choice): Reading -> bool
    requires Parses(kind, c)
  {
    match c
    case Skip => (x: Reading) => true
    case Use(v) =>
      match kind
      case ByMeter => MeterIs(v)
      case ByMonth => MonthIn(ParseIntList(v).value)
      case ByYear => YearIn(ParseIntList(v).value)
  }

  /** A choice whose value, if any, the filter of that kind accepts. */
  predicate Parses(kind: FilterKind, c: Choice) {
    c.Use? && kind != ByMeter ==> ParseIntList(c.value).Ok?
  }

  /**
   * One step of main: the y/n prompt; on y/Y one more line, the filter's value, and the
   * filter applied to the current table; on n/N the table unchanged.
   */
  function Step(kind: FilterKind, answers: seq<string>, p: Progress): (r: Result<Progress>)
    ensures r.Ok? ==> p.pos < r.value.pos && |r.value.choices| == |p.choices| + 1
    ensures r.Ok? ==> r.value.choices[..|p.choices|] == p.choices
    ensures r.Err? ==> r.error == EndOfInput || r.error.ValueError?
  {
    match FirstYesNo(answers, p.pos)
    case Err(e) => Err(e)
    case Ok(k) => Answer(kind, answers, p, k)
  }

  /** What follows the y/n answer on line k of the console input. */
  function Answer(kind: FilterKind, answers: seq<string>, p: Progress, k: nat): (r: Result<Progress>)
    requires k < |answers|
    ensures r.Ok? ==> k < r.value.pos && |r.value.choices| == |p.choices| + 1
    ensures r.Ok? ==> r.value.choices[..|p.choices|] == p.choices
    ensures r.Err? <==> !IsNo(answers[k]) && (k + 1 == |answers| || ApplyFilter(kind, p.table, answers[k + 1]).Err?)
    ensures r.Err? && k + 1 == |answers| ==> r.error == EndOfInput
    ensures r.Err? && k + 1 < |answers| ==> r.error == ApplyFilter(kind, p.table, answers[k + 1]).error
  {
    if IsNo(answers[k]) then
      assert (p.choices + [Skip])[..|p.choices|] == p.choices;
      Ok(Progress(p.table, k + 1, p.choices + [Skip]))
    else if k + 1 >= |answers| then Err(EndOfInput)
    else
      match ApplyFilter(kind, p.table, answers[k + 1])
      case Err(e) => Err(e)
      case Ok(t) =>
        var c := Use(answers[k + 1]);
        assert (p.choices + [c])[..|p.choices|] == p.choices;
        Ok(Progress(t, k + 2, p.choices + [c]))
  }

  /**
   * A step that succeeds selects the current table by the mask of the filter it
   * chose; a skipped step keeps the table as it is.
   */
  lemma StepSelects(kind: FilterKind, answers: seq<string>, p: Progress)
    requires Step(kind, answers, p).Ok?
    ensures var q := Step(kind, answers, p).value;
            var c := q.choices[|p.choices|];
            && Parses(kind, c)
            && q.table == Where(p.table, Mask(kind, c))
            && (c == Skip ==> q.table == p.table)
  {
    var k := FirstYesNo(answers, p.pos).value;
    if IsNo(answers[k]) {
      WhereKeepsAll(p.table, Mask(kind, Skip));
    }
  }

  /** Answering n or N (after any number of other lines) leaves the current table as it is. */
  lemma StepNo(kind: FilterKind, answers: seq<string>, p: Progress, k: nat)
    requires FirstYesNo(answers, p.pos) == Ok(k) && IsNo(answers[k])
    ensures Step(kind, answers, p) == Ok(Progress(p.table, k + 1, p.choices + [Skip]))
  {
  }

  /**
   * Answering y or Y reads the next line as the filter's value: a value the filter
   * accepts selects the current table, and a value it rejects ends the dialogue
   * with the filter's ValueError, without another prompt.
   */
  lemma StepYes(kind: FilterKind, answers: seq<string>, p: Progress, k: nat)
    requires FirstYesNo(answers, p.pos) == Ok(k) && IsYes(answers[k]) && k + 1 < |answers|
    ensures ApplyFilter(kind, p.table, answers[k + 1]).Ok? ==>
              Step(kind, answers, p) ==
              Ok(Progress(ApplyFilter(kind, p.table, answers[k + 1]).value, k + 2, p.choices + [Use(answers[k + 1])]))
    ensures ApplyFilter(kind, p.table, answers[k + 1]).Err? ==>
              Step(kind, answers, p) == Err(ApplyFilter(kind, p.table, answers[k + 1]).error)
  {
    assert !IsNo(answers[k]);
    assert Step(kind, answers, p) == Answer(kind, answers, p, k);
  }

  /** Input that runs out before a y/n answer, or right after a y answer, ends the dialogue with EndOfInput. */
  lemma StepEndOfInput(kind: FilterKind, answers: seq<string>, p: Progress)
    requires FirstYesNo(answers, p.pos).Err? ||
             (FirstYesNo(answers, p.pos).Ok? && IsYes(answers[FirstYesNo(answers, p.pos).value]) &&
              FirstYesNo(answers, p.pos).value + 1 == |answers|)
    ensures Step(kind, answers, p) == Err(EndOfInput)
  {
  }

  /**
   * Exactly when a step fails: no y/n answer before the input runs out, or a y answer
   * with no value line after it or with a value the filter rejects.
   */
  lemma StepFails(kind: FilterKind, answers: seq<string>, p: Progress)
    ensures FirstYesNo(answers, p.pos).Err? ==> Step(kind, answers, p) == Err(EndOfInput)
    ensures FirstYesNo(answers, p.pos).Ok? ==>
              var k := FirstYesNo(answers, p.pos).value;
              (Step(kind, answers, p).Err? <==>
                 IsYes(answers[k]) && (k + 1 == |answers| || ApplyFilter(kind, p.table, answers[k + 1]).Err?))
  {
    if FirstYesNo(answers, p.pos).Err? {
      StepEndOfInput(kind, answers, p);
    } else {
      var k := FirstYesNo(answers, p.pos).value;
      if IsNo(answers[k]) {
        StepNo(kind, answers, p, k);
      } else if k + 1 == |answers| {
        StepEndOfInput(kind, answers, p);
      } else {
        StepYes(kind, answers, p, k);
      }
    }
  }

  /** The whole dialogue of main on the cleaned readings: meter step, month step, year step. */
  function Session(data: seq<Reading>, answers: seq<string>): (r: Result<Progress>)
    ensures r.Ok? ==> |r.value.choices| == 3
    ensures r.Err? ==> r.error == EndOfInput || r.error.ValueError?
  {
    var start := Progress(CleanConsumptionData(data), 0, []);
    match Step(ByMeter, answers, start)
    case Err(e) => Err(e)
    case Ok(p1) =>
      match Step(ByMonth, answers, p1)
      case Err(e) => Err(e)
      case Ok(p2) => Step(ByYear, answers, p2)
  }

  /**
   * The final table is the cleaned readings selected by the three chosen masks
   * together, in their original order.
   */
  lemma SessionSelects(data: seq<Reading>, answers: seq<string>)
    requires Session(data, answers).Ok?
    ensures var p := Session(data, answers).value;
            && |p.choices| == 3
            && Parses(ByMeter, p.choices[0]) && Parses(ByMonth, p.choices[1]) && Parses(ByYear, p.choices[2])
            && p.table == Where(CleanConsumptionData(data),
                                Both(Both(Mask(ByMeter, p.choices[0]), Mask(ByMonth, p.choices[1])),
                                     Mask(ByYear, p.choices[2])))
  {
    var p0 := Progress(CleanConsumptionData(data), 0, []);
    var p1 := Step(ByMeter, answers, p0).value;
    var p2 := Step(ByMonth, answers, p1).value;
    var p3 := Step(ByYear, answers, p2).value;
    assert p3 == Session(data, answers).value;
    StepSelects(ByMeter, answers, p0);
    StepSelects(ByMonth, answers, p1);
    StepSelects(ByYear, answers, p2);
    assert p3.choices[..2] == p2.choices && p3.choices[..2][..1] == p3.choices[..1];
    assert p2.choices[..1] == p1.choices;
    var m0, m1, m2 := Mask(ByMeter, p3.choices[0]), Mask(ByMonth, p3.choices[1]), Mask(ByYear, p3.choices[2]);
    WhereWhere(p0.table, m0, m1);
    WhereWhere(p0.table, Both(m0, m1), m2);
  }

  /** The printed table deletes rows from the cleaned readings, and so from the file, without reordering any. */
  lemma SessionKeepsOrder(data: seq<Reading>, answers: seq<string>)
    requires Session(data, answers).Ok?
    ensures IsSubsequence(Session(data, answers).value.table, CleanConsumptionData(data))
    ensures IsSubsequence(Session(data, answers).value.table, data)
  {
    var t := Session(data, answers).value.table;
    SessionSelects(data, answers);
    IsSubsequenceTrans(t, CleanConsumptionData(data), data);
  }

  /** A session is the composition of its three steps. */
  lemma SessionOfSteps(data: seq<Reading>, answers: seq<string>, p1: Progress, p2: Progress, p3: Progress)
    requires Step(ByMeter, answers, Progress(CleanConsumptionData(data), 0, [])) == Ok(p1)
    requires Step(ByMonth, answers, p1) == Ok(p2)
    requires Step(ByYear, answers, p2) == Ok(p3)
    ensures Session(data, answers) == Ok(p3)
  {
  }

  /**
   * The first step that fails ends the dialogue with its error, whether the input ran
   * out or a list was rejected; once the first two steps succeed the year step decides.
   */
  lemma SessionFirstFailure(data: seq<Reading>, answers: seq<string>)
    ensures var p0 := Progress(CleanConsumptionData(data), 0, []);
            Step(ByMeter, answers, p0).Err? ==> Session(data, answers) == Err(Step(ByMeter, answers, p0).error)
    ensures var p0 := Progress(CleanConsumptionData(data), 0, []);
            Step(ByMeter, answers, p0).Ok? ==>
              var p1 := Step(ByMeter, answers, p0).value;
              Step(ByMonth, answers, p1).Err? ==> Session(data, answers) == Err(Step(ByMonth, answers, p1).error)
    ensures var p0 := Progress(CleanConsumptionData(data), 0, []);
            Step(ByMeter, answers, p0).Ok? ==>
              var p1 := Step(ByMeter, answers, p0).value;
              Step(ByMonth, answers, p1).Ok? ==>
                Session(data, answers) == Step(ByYear, answers, Step(ByMonth, answers, p1).value)
  {
  }

  /** y at the month prompt followed by a list int() rejects ends the dialogue with that list's ValueError. */
  lemma SessionBadMonths(data: seq<Reading>, answers: seq<string>, p1: Progress, k: nat)
    requires Step(ByMeter, answers, Progress(CleanConsumptionData(data), 0, [])) == Ok(p1)
    requires FirstYesNo(answers, p1.pos) == Ok(k) && IsYes(answers[k]) && k + 1 < |answers|
    requires ParseIntList(answers[k + 1]).Err?
    ensures Session(data, answers) == Err(ParseIntList(answers[k + 1]).error)
  {
    var e := ParseIntList(answers[k + 1]).error;
    assert ApplyFilter(ByMonth, p1.table, answers[k + 1]) == Err(e);
    assert Step(ByMonth, answers, p1) == Err(e) by {
      StepYes(ByMonth, answers, p1, k);
    }
  }

  /** y at the year prompt followed by a list int() rejects ends the dialogue with that list's ValueError. */
  lemma SessionBadYears(data: seq<Reading>, answers: seq<string>, p1: Progress, p2: Progress, k: nat)
    requires Step(ByMeter, answers, Progress(CleanConsumptionData(data), 0, [])) == Ok(p1)
    requires Step(ByMonth, answers, p1) == Ok(p2)
    requires FirstYesNo(answers, p2.pos) == Ok(k) && IsYes(answers[k]) && k + 1 < |answers|
    requires ParseIntList(answers[k + 1]).Err?
    ensures Session(data, answers) == Err(ParseIntList(answers[k + 1]).error)
  {
    var e := ParseIntList(answers[k + 1]).error;
    assert ApplyFilter(ByYear, p2.table, answers[k + 1]) == Err(e);
    assert Step(ByYear, answers, p2) == Err(e) by {
      StepYes(ByYear, answers, p2, k);
    }
  }

  /** The step method: the y/n prompt, then what follows the answer. */
  method RunStep(kind: FilterKind, answers: seq<string>, p: Progress) returns (r: Result<Progress>)
    ensures r == Step(kind, answers, p)
  {
    var answer := AskYesNo(answers, p.pos);
    if answer.Err? {
      return Err(answer.error);
    }
    r := RunAnswer(kind, answers, p, answer.value);
  }

  /** On y/Y read the filter's value and apply the filter; on n/N keep the table. */
  method RunAnswer(kind: FilterKind, answers: seq<string>, p: Progress, k: nat) returns (r: Result<Progress>)
    requires k < |answers| && IsYesNo(answers[k])
    ensures r == Answer(kind, answers, p, k)
  {
    if IsYes(answers[k]) {
      if k + 1 >= |answers| {
        return Err(EndOfInput);
      }
      var filtered := ApplyFilter(kind, p.table, answers[k + 1]);
      if filtered.Err? {
        return Err(filtered.error);
      }
      return Ok(Progress(filtered.value, k + 2, p.choices + [Use(answers[k + 1])]));
    } else {
      return Ok(Progress(p.table, k + 1, p.choices + [Skip]));
    }
  }

  /** The script's main function: the cleaned table narrowed by the filters the answers select. */
  method FilterMain(data: seq<Reading>, answers: seq<string>) returns (outcome: Result<seq<Reading>>)
    ensures outcome.Ok? <==> Session(data, answers).Ok?
    ensures outcome.Ok? ==> outcome.value == Session(data, answers).value.table
    ensures outcome.Err? ==> outcome.error == Session(data, answers).error
  {
    var df := CleanConsumptionData(data);
    var dfFilter := Progress(df, 0, []);
    var r := RunStep(ByMeter, answers, dfFilter);
    if r.Err? {
      return Err(r.error);
    }
    dfFilter := r.value;
    r := RunStep(ByMonth, answers, dfFilter);
    if r.Err? {
      return Err(r.error);
    }
    dfFilter := r.value;
    r := RunStep(ByYear, answers, dfFilter);
    if r.Err? {
      return Err(r.error);
    }
    return Ok(r.value.table);
  }
}

/** The examples of the script's docstring and the edge cases of its input handling. */
module FilterExamples {
  import opened MeterData
  import opened PyInt
  import opened FilterReadings

  /** Months February, April and May are entered as "2,4,5". */
  lemma MonthsDocstringExample()
    ensures ParseIntList("2,4,5") == Ok([2, 4, 5])
  {
    assert Join(Tokens([2, 4, 5], "")) == "2,4,5";
    ParseIntListRoundTrip([2, 4, 5], "");
  }

  /** str(2012) and str(2013). */
  lemma YearLiterals()
    ensures IntString(2012) == "2012" && IntString(2013) == "2013"
  {
    assert NatString(201) == "201";
  }

  /** Years 2012 and 2013 are entered as "2012, 2013": int() ignores the space. */
  lemma YearsDocstringExample()
    ensures ParseIntList("2012, 2013") == Ok([2012, 2013])
  {
    YearLiterals();
    assert Join(Tokens([2012, 2013], " ")) == "2012, 2013";
    ParseIntListRoundTrip([2012, 2013], " ");
  }

  /** Narrowing months {2, 4} to {4} is the same as asking for {4} at once. */
  lemma MonthNarrowingExample(rows: seq<Reading>)
    ensures FilterMonth(rows, "2,4").Ok?
    ensures FilterMonth(FilterMonth(rows, "2,4").value, "4") == FilterMonth(rows, "4")
  {
    assert Join(Tokens([2, 4], "")) == "2,4";
    ParseIntListRoundTrip([2, 4], "");
    assert Join(Tokens([4], "")) == "4";
    ParseIntListRoundTrip([4], "");
    FilterMonthNarrows(rows, "2,4", "4");
  }

  /** A month number outside 1..12 (13, say) is accepted by the parser and selects nothing from readings of real timestamps. */
  lemma MonthOutsideCalendarAccepted(rows: seq<Reading>, month: int)
    requires forall x :: x in rows ==> WellFormed(x)
    requires month < 1 || 12 < month
    ensures FilterMonth(rows, IntString(month)) == Ok([])
  {
    ParseIntListSingle(month);
    MonthOutsideCalendarMatchesNothing(rows, IntString(month));
  }

  /** With two bad lists, main (months first) reports the month list's ValueError; the other order would report the year list's. */
  lemma BadMonthAndYearExample(rows: seq<Reading>, m: char, y: char)
    requires !IsSpace(m) && !IsDigit(m) && m !in ",+-_"
    requires !IsSpace(y) && !IsDigit(y) && y !in ",+-_"
    ensures MonthThenYear(rows, [m], [y]) == Err(ValueError([m]))
    ensures YearThenMonth(rows, [m], [y]) == Err(ValueError([y]))
    ensures m != y ==> MonthThenYear(rows, [m], [y]) != YearThenMonth(rows, [m], [y])
  {
    SingleBadToken([m], 0);
    SingleBadToken([y], 0);
    MonthYearBothFail(rows, [m], [y]);
  }

  /** "yes", "no" and answers with spaces never end a y/n prompt. */
  lemma OnlySingleLetterAnswers()
    ensures FirstYesNo(["yes", "no", "Y ", ""], 0) == Err(EndOfInput)
    ensures FirstYesNo(["yes", "N"], 0) == Ok(1)
  {
  }

  /** A single year typed as its decimal digits keeps the readings of that year. */
  lemma FilterYearSingle(rows: seq<Reading>, year: int)
    ensures ApplyFilter(ByYear, rows, IntString(year)) == Ok(Where(rows, YearIn([year])))
  {
    ParseIntListSingle(year);
  }

  /** Answering n to all three prompts prints the cleaned table. */
  lemma AllNoKeepsCleanedTable(data: seq<Reading>)
    ensures Session(data, ["n", "N", "n"]).Ok?
    ensures Session(data, ["n", "N", "n"]).value.table == CleanConsumptionData(data)
  {
  }

  /** The meter step of the example below: a rejected line, then yes and the id. */
  lemma ExampleMeterStep(a: seq<string>, p: Progress)
    requires |a| == 6 && p.pos == 0 && !IsYesNo(a[0]) && IsYes(a[1])
    ensures Step(ByMeter, a, p) == Ok(Progress(FilterMeterId(p.table, a[2]), 3, p.choices + [Use(a[2])]))
  {
    assert FirstYesNo(a, 0) == Ok(1);
    StepYes(ByMeter, a, p, 1);
  }

  /** The month step of the example below: no. */
  lemma ExampleMonthStep(a: seq<string>, p: Progress)
    requires |a| == 6 && p.pos == 3 && IsNo(a[3])
    ensures Step(ByMonth, a, p) == Ok(Progress(p.table, 4, p.choices + [Skip]))
  {
    assert FirstYesNo(a, 3) == Ok(3);
    StepNo(ByMonth, a, p, 3);
  }

  /** The year step of the example below: yes and one year. */
  lemma ExampleYearStep(a: seq<string>, p: Progress, year: int)
    requires |a| == 6 && p.pos == 4 && IsYes(a[4]) && a[5] == IntString(year)
    ensures Step(ByYear, a, p) == Ok(Progress(Where(p.table, YearIn([year])), 6, p.choices + [Use(a[5])]))
  {
    assert FirstYesNo(a, 4) == Ok(4);
    FilterYearSingle(p.table, year);
    assert ApplyFilter(ByYear, p.table, a[5]) == Ok(Where(p.table, YearIn([year])));
    StepYes(ByYear, a, p, 4);
  }

  /**
   * A rejected line, then yes and a meter id, no to the month filter, yes and one year:
   * the meter filter, then the year filter, on the cleaned readings.
   */
  lemma MeterThenYearExample(data: seq<Reading>, a: seq<string>, year: int)
    requires |a| == 6 && !IsYesNo(a[0]) && IsYes(a[1]) && IsNo(a[3]) && IsYes(a[4])
    requires a[5] == IntString(year)
    ensures Session(data, a) ==
            Ok(Progress(Where(FilterMeterId(CleanConsumptionData(data), a[2]), YearIn([year])), 6, [Use(a[2]), Skip, Use(a[5])]))
  {
    var p0 := Progress(CleanConsumptionData(data), 0, []);
    var p1 := Progress(FilterMeterId(p0.table, a[2]), 3, [Use(a[2])]);
    var p2 := Progress(p1.table, 4, [Use(a[2]), Skip]);
    var p3 := Progress(Where(p2.table, YearIn([year])), 6, [Use(a[2]), Skip, Use(a[5])]);
    ExampleMeterStep(a, p0);
    assert p0.choices + [Use(a[2])] == p1.choices;
    ExampleMonthStep(a, p1);
    assert p1.choices + [Skip] == p2.choices;
    ExampleYearStep(a, p2, year);
    assert p2.choices + [Use(a[5])] == p3.choices;
    SessionOfSteps(data, a, p1, p2, p3);
  }

  /** No meter filter, then y and a month list int() rejects: main stops with that list's ValueError. */
  lemma BadMonthDialogue(data: seq<Reading>, m: char)
    requires !IsSpace(m) && !IsDigit(m) && m !in ",+-_"
    ensures Session(data, ["n", "y", [m]]) == Err(ValueError([m]))
  {
    var a := ["n", "y", [m]];
    var p1 := Progress(CleanConsumptionData(data), 1, [Skip]);
    assert FirstYesNo(a, 0) == Ok(0);
    StepNo(ByMeter, a, Progress(CleanConsumptionData(data), 0, []), 0);
    assert FirstYesNo(a, 1) == Ok(1);
    SingleBadToken([m], 0);
    SessionBadMonths(data, a, p1, 1);
  }

  /** With no input at all, or with input that runs out after a y answer, main stops with end of input. */
  lemma DialogueRunsOut(data: seq<Reading>)
    ensures Session(data, []) == Err(EndOfInput)
    ensures Session(data, ["n", "n", "y"]) == Err(EndOfInput)
  {
    var a := ["n", "n", "y"];
    var p0 := Progress(CleanConsumptionData(data), 0, []);
    assert FirstYesNo(a, 0) == Ok(0);
    StepNo(ByMeter, a, p0, 0);
    var p1 := Progress(p0.table, 1, [Skip]);
    assert FirstYesNo(a, 1) == Ok(1);
    StepNo(ByMonth, a, p1, 1);
    var p2 := Progress(p0.table, 2, [Skip, Skip]);
    assert FirstYesNo(a, 2) == Ok(2);
    StepEndOfInput(ByYear, a, p2);
  }
}
