/**
 * The cost script: the cleaned readings are grouped by meter, calendar month and
 * year, the consumption of each group is summed and priced at the flat rate, the
 * month number is replaced by its English name and the consumption column is
 * dropped, leaving one priced row per household and month.
 */
module EstimateUsageCost {
  import opened MeterData
  import opened PyInt

  // ---------------------------------------------------------------------------
  // month_name

  /** The dictionary inside month_name. */
  const MonthDict: map<int, string> := map[
    1 := "January", 2 := "February", 3 := "March", 4 := "April", 5 := "May", 6 := "June",
    7 := "July", 8 := "August", 9 := "September", 10 := "October", 11 := "November", 12 := "December"]

  /** month_dict[num]: the English name of a month number, a KeyError for any other number. */
  function MonthName(num: int): (r: Result<string>)
    ensures r.Ok? <==> 1 <= num <= 12
    ensures r.Err? ==> r.error == KeyError(num)
  {
    if num in MonthDict then Ok(MonthDict[num]) else Err(KeyError(num))
  }

  datatype Option<T> = None | Some(value: T)

  /**
   * Reading a month back from its name: the inverse of month_name. Neither script
   * does this; it states that month_name loses nothing.
   */
  function MonthNumber(name: string): (r: Option<int>)
    ensures r.Some? ==> 1 <= r.value <= 12 && MonthName(r.value) == Ok(name)
    ensures r.None? ==> forall num :: MonthName(num) != Ok(name)
  {
    if name == "January" then Some(1)
    else if name == "February" then Some(2)
    else if name == "March" then Some(3)
    else if name == "April" then Some(4)
    else if name == "May" then Some(5)
    else if name == "June" then Some(6)
    else if name == "July" then Some(7)
    else if name == "August" then Some(8)
    else if name == "September" then Some(9)
    else if name == "October" then Some(10)
    else if name == "November" then Some(11)
    else if name == "December" then Some(12)
    else None
  }

  /** Every month number read back from its name is the number it came from. */
  lemma MonthNameRoundTrip(num: int)
    requires 1 <= num <= 12
    ensures MonthNumber(MonthName(num).value) == Some(num)
  {
  }

  /** Two month numbers with the same name are the same month. */
  lemma MonthNameInjective(a: int, b: int)
    requires MonthName(a).Ok? && MonthName(a) == MonthName(b)
    ensures a == b
  {
    MonthNameRoundTrip(a);
    MonthNameRoundTrip(b);
  }

  lemma MonthNameExamples()
    ensures MonthName(3) == Ok("March")
    ensures MonthName(12) == Ok("December")
    ensures MonthName(0) == Err(KeyError(0)) && MonthName(13) == Err(KeyError(13))
  {
  }

  // ---------------------------------------------------------------------------
  // The Year column

  /**
   * `index.strftime("%Y")`: the year as text. A pandas timestamp lies in
   * MinYear..MaxYear, where this is the four-digit decimal rendering.
   */
  function YearString(y: int): (s: string)
    ensures MinYear <= y <= MaxYear ==> |s| == 4
  {
    FourDigitYears(y);
    IntString(y)
  }

  /** int() reads the Year text back as the year. */
  lemma YearStringRoundTrip(y: int)
    ensures ParseInt(YearString(y)) == Ok(y)
  {
    ParseIntString(y, "", "");
    assert "" + IntString(y) + "" == IntString(y);
  }

  lemma FourDigitYears(y: int)
    ensures 1000 <= y <= 9999 ==> |IntString(y)| == 4
  {
    if 1000 <= y <= 9999 {
      assert |NatString(y / 1000)| == 1;
      assert |NatString(y / 100)| == 2;
      assert |NatString(y / 10)| == 3;
    }
  }

  /** Different years give different Year texts, so grouping on the text is grouping on the year. */
  lemma YearStringInjective(a: int, b: int)
    requires YearString(a) == YearString(b)
    ensures a == b
  {
    YearStringRoundTrip(a);
    YearStringRoundTrip(b);
  }

  // ---------------------------------------------------------------------------
  // groupby(['meter_id', 'Month', 'Year'])[['consumption']].sum()

  /** The three grouping columns. */
  datatype GroupKey = GroupKey(meterId: string, month: int, year: string)

  /** The grouping key of a reading: its meter, its month number and its Year text. */
  function KeyOf(x: Reading): (k: GroupKey)
    ensures k.meterId == x.meterId && k.month == x.month
    ensures WellFormed(x) ==> |k.year| == 4
  {
    GroupKey(x.meterId, x.month, YearString(x.year))
  }

  /** A row of grouped_df after reset_index: the key columns and the summed consumption. */
  datatype Group = Group(key: GroupKey, consumption: real)

  /** Reference definition: the consumption of the readings with key k. */
  function TotalFor(rows: seq<Reading>, k: GroupKey): real {
    if rows == [] then 0.0
    else TotalFor(rows[..|rows| - 1], k) + (if KeyOf(rows[|rows| - 1]) == k then rows[|rows| - 1].consumption else 0.0)
  }

  /** The consumption of all readings. */
  function TotalConsumption(rows: seq<Reading>): real {
    if rows == [] then 0.0 else TotalConsumption(rows[..|rows| - 1]) + rows[|rows| - 1].consumption
  }

  /** The keys that occur among the readings. */
  function RowKeys(rows: seq<Reading>): set<GroupKey> {
    set x | x in rows :: KeyOf(x)
  }

  /** The keys of a grouped table. */
  function KeysOf(gs: seq<Group>): set<GroupKey> {
    set g | g in gs :: g.key
  }

  predicate DistinctKeys(gs: seq<Group>) {
    forall i, j :: 0 <= i < j < |gs| ==> gs[i].key != gs[j].key
  }

  /** The consumption of the first group with key k, 0 when there is none. */
  function Lookup(gs: seq<Group>, k: GroupKey): real {
    if gs == [] then 0.0 else if gs[0].key == k then gs[0].consumption else Lookup(gs[1..], k)
  }

  /** The sum of the consumption column of a grouped table. */
  function GroupTotal(gs: seq<Group>): real {
    if gs == [] then 0.0 else gs[0].consumption + GroupTotal(gs[1..])
  }

  /** Account for one more reading of key k: add to its group, or open a group at the end. */
  function AddReading(gs: seq<Group>, k: GroupKey, c: real): (r: seq<Group>)
    ensures GroupTotal(r) == GroupTotal(gs) + c
  {
    if gs == [] then [Group(k, c)]
    else if gs[0].key == k then
      var r := [Group(k, gs[0].consumption + c)] + gs[1..];
      assert r[1..] == gs[1..];
      r
    else
      var r := [gs[0]] + AddReading(gs[1..], k, c);
      assert r[1..] == AddReading(gs[1..], k, c);
      r
  }

  lemma KeysOfCons(g: Group, gs: seq<Group>)
    ensures KeysOf([g] + gs) == {g.key} + KeysOf(gs)
  {
    assert forall h :: h in [g] + gs <==> h == g || h in gs;
  }

  /** Keys are distinct in a table iff its first key is new to, and distinct in, the rest. */
  lemma DistinctCons(g: Group, gs: seq<Group>)
    ensures DistinctKeys([g] + gs) <==> g.key !in KeysOf(gs) && DistinctKeys(gs)
  {
    var r := [g] + gs;
    assert forall i :: 0 <= i < |gs| ==> r[i + 1] == gs[i];
    if g.key in KeysOf(gs) {
      var h :| h in gs && h.key == g.key;
      var j :| 0 <= j < |gs| && gs[j] == h;
      assert r[0].key == r[j + 1].key;
    }
    if g.key !in KeysOf(gs) && DistinctKeys(gs) {
      forall i, j | 0 <= i < j < |r| ensures r[i].key != r[j].key {
        assert r[j] == gs[j - 1];
        if i == 0 {
          assert r[j].key in KeysOf(gs);
        }
      }
    }
  }

  /** Adding a reading adds its key. */
  lemma {:induction false} AddReadingKeys(gs: seq<Group>, k: GroupKey, c: real)
    ensures KeysOf(AddReading(gs, k, c)) == KeysOf(gs) + {k}
  {
    if gs != [] {
      var r := AddReading(gs, k, c);
      assert [gs[0]] + gs[1..] == gs;
      assert r == [r[0]] + r[1..];
      KeysOfCons(gs[0], gs[1..]);
      KeysOfCons(r[0], r[1..]);
      if gs[0].key != k {
        AddReadingKeys(gs[1..], k, c);
      }
    }
  }

  /** Adding a reading keeps the keys distinct. */
  lemma {:induction false} AddReadingDistinct(gs: seq<Group>, k: GroupKey, c: real)
    requires DistinctKeys(gs)
    ensures DistinctKeys(AddReading(gs, k, c))
  {
    if gs != [] {
      var r := AddReading(gs, k, c);
      assert [gs[0]] + gs[1..] == gs;
      assert r == [r[0]] + r[1..];
      DistinctCons(gs[0], gs[1..]);
      DistinctCons(r[0], r[1..]);
      if gs[0].key != k {
        AddReadingKeys(gs[1..], k, c);
        AddReadingDistinct(gs[1..], k, c);
      }
    }
  }

  /** Adding a reading of key k raises k's total by its consumption and no other total. */
  lemma {:induction false} AddReadingLookup(gs: seq<Group>, k: GroupKey, c: real)
    ensures forall k' :: Lookup(AddReading(gs, k, c), k') == Lookup(gs, k') + (if k' == k then c else 0.0)
  {
    if gs != [] && gs[0].key != k {
      AddReadingLookup(gs[1..], k, c);
    }
  }

  lemma RowKeysSnoc(rows: seq<Reading>, x: Reading)
    ensures RowKeys(rows + [x]) == RowKeys(rows) + {KeyOf(x)}
  {
    assert forall y :: y in rows + [x] <==> y in rows || y == x;
  }

  /**
   * The groups of the readings, in the order their keys first occur, each with the
   * summed consumption of its readings.
   */
  function GroupSum(rows: seq<Reading>): (r: seq<Group>)
    ensures DistinctKeys(r)
    ensures KeysOf(r) == RowKeys(rows)
    ensures forall k :: Lookup(r, k) == TotalFor(rows, k)
    ensures GroupTotal(r) == TotalConsumption(rows)
  {
    if rows == [] then []
    else
      var front, last := rows[..|rows| - 1], rows[|rows| - 1];
      assert rows == front + [last];
      RowKeysSnoc(front, last);
      AddReadingKeys(GroupSum(front), KeyOf(last), last.consumption);
      AddReadingDistinct(GroupSum(front), KeyOf(last), last.consumption);
      AddReadingLookup(GroupSum(front), KeyOf(last), last.consumption);
      AddReading(GroupSum(front), KeyOf(last), last.consumption)
  }

  /** With distinct keys, a group's consumption is what Lookup finds for its key. */
  lemma {:induction false} LookupFinds(gs: seq<Group>, i: nat)
    requires DistinctKeys(gs) && i < |gs|
    ensures Lookup(gs, gs[i].key) == gs[i].consumption
  {
    if i > 0 {
      assert gs[1..][i - 1] == gs[i];
      LookupFinds(gs[1..], i - 1);
    }
  }

  /** Each group's total is the consumption of exactly the readings with its key. */
  lemma GroupSumTotals(rows: seq<Reading>, i: nat)
    requires i < |GroupSum(rows)|
    ensures GroupSum(rows)[i].consumption == TotalFor(rows, GroupSum(rows)[i].key)
  {
    LookupFinds(GroupSum(rows), i);
  }

  /** A key that no reading has totals to 0. */
  lemma {:induction false} TotalForAbsent(rows: seq<Reading>, k: GroupKey)
    requires k !in RowKeys(rows)
    ensures TotalFor(rows, k) == 0.0
  {
    if rows != [] {
      var front := rows[..|rows| - 1];
      assert forall x :: x in front ==> x in rows;
      assert rows[|rows| - 1] in rows;
      TotalForAbsent(front, k);
    }
  }

  // ---------------------------------------------------------------------------
  // The priced table

  /** The flat-rate tariff: 0.15 per unit of consumption. */
  const FlatRate: real := 0.15

  /** A row of the printed table: meter_id, Month (a name), Year (text) and the estimated cost. */
  datatype CostRow = CostRow(meterId: string, month: string, year: string, cost: real)

  function TotalCost(table: seq<CostRow>): real {
    if table == [] then 0.0 else table[0].cost + TotalCost(table[1..])
  }

  /** `grouped_df['Month'].apply(month_name)`: the names in row order, or the first KeyError. */
  function ApplyMonthName(gs: seq<Group>): (r: Result<seq<string>>)
    ensures r.Ok? <==> forall g :: g in gs ==> 1 <= g.key.month <= 12
    ensures r.Ok? ==> |r.value| == |gs| && forall i :: 0 <= i < |gs| ==> MonthName(gs[i].key.month) == Ok(r.value[i])
    ensures r.Err? ==> exists g :: g in gs && !(1 <= g.key.month <= 12) && r.error == KeyError(g.key.month)
  {
    if gs == [] then Ok([])
    else
      assert forall g :: g in gs <==> g == gs[0] || g in gs[1..];
      match MonthName(gs[0].key.month)
      case Err(e) => Err(e)
      case Ok(name) =>
        match ApplyMonthName(gs[1..])
        case Err(e) => Err(e)
        case Ok(names) => Ok([name] + names)
  }

  /** Every group holds some reading of its key. */
  lemma GroupHasReading(df: seq<Reading>, g: Group) returns (x: Reading)
    requires g in GroupSum(df)
    ensures x in df && KeyOf(x) == g.key
  {
    assert g.key in KeysOf(GroupSum(df));
    x :| x in df && KeyOf(x) == g.key;
  }

  /** Every reading's key has a group. */
  lemma ReadingHasGroup(df: seq<Reading>, x: Reading) returns (i: nat)
    requires x in df
    ensures i < |GroupSum(df)| && GroupSum(df)[i].key == KeyOf(x)
  {
    var grouped := GroupSum(df);
    assert KeyOf(x) in RowKeys(df);
    var g :| g in grouped && g.key == KeyOf(x);
    i :| i < |grouped| && grouped[i] == g;
  }

  /** Naming the groups' months fails iff some reading has a month outside 1..12, and names that month. */
  lemma MonthNamesOfReadings(df: seq<Reading>)
    ensures ApplyMonthName(GroupSum(df)).Ok? <==> forall x :: x in df ==> 1 <= x.month <= 12
    ensures ApplyMonthName(GroupSum(df)).Err? ==>
              exists x :: x in df && !(1 <= x.month <= 12) && ApplyMonthName(GroupSum(df)).error == KeyError(x.month)
  {
    var grouped := GroupSum(df);
    var names := ApplyMonthName(grouped);
    if names.Ok? {
      forall x | x in df ensures 1 <= x.month <= 12 {
        var i := ReadingHasGroup(df, x);
        assert grouped[i] in grouped;
      }
    } else {
      var g :| g in grouped && !(1 <= g.key.month <= 12) && names.error == KeyError(g.key.month);
      var x := GroupHasReading(df, g);
    }
  }

  /** The printed row describes reading x's group: its meter, month name, year and priced total. */
  predicate Describes(row: CostRow, x: Reading, rows: seq<Reading>) {
    && row.meterId == x.meterId
    && MonthName(x.month) == Ok(row.month)
    && row.year == YearString(x.year)
    && row.cost == TotalFor(rows, KeyOf(x)) * FlatRate
  }

  /** Pricing each group and summing is pricing the total. */
  lemma {:induction false} TotalCostOfGroups(table: seq<CostRow>, gs: seq<Group>)
    requires |table| == |gs|
    requires forall i :: 0 <= i < |gs| ==> table[i].cost == gs[i].consumption * FlatRate
    ensures TotalCost(table) == GroupTotal(gs) * FlatRate
  {
    if gs != [] {
      TotalCostOfGroups(table[1..], gs[1..]);
    }
  }

  /**
   * The script's main function from the cleaning step on (lines 27-43): the priced table
   * for the readings, or the KeyError month_name raises for a month outside 1..12.
   */
  method EstimateUsageCost(data: seq<Reading>) returns (outcome: Result<seq<CostRow>>)
    ensures outcome.Ok? <==> forall x :: x in CleanConsumptionData(data) ==> 1 <= x.month <= 12
    ensures (forall x :: x in data ==> WellFormed(x)) ==> outcome.Ok?
    ensures outcome.Err? ==> exists x :: x in CleanConsumptionData(data) && !(1 <= x.month <= 12) &&
                                         outcome.error == KeyError(x.month)
    ensures outcome.Ok? ==> forall row :: row in outcome.value ==>
                              exists x :: x in CleanConsumptionData(data) && Describes(row, x, CleanConsumptionData(data))
    ensures outcome.Ok? ==> forall x :: x in CleanConsumptionData(data) ==>
                              exists row :: row in outcome.value && Describes(row, x, CleanConsumptionData(data))
    ensures outcome.Ok? ==> forall i, j :: 0 <= i < j < |outcome.value| ==>
                              (outcome.value[i].meterId, outcome.value[i].month, outcome.value[i].year) !=
                              (outcome.value[j].meterId, outcome.value[j].month, outcome.value[j].year)
    ensures outcome.Ok? ==> TotalCost(outcome.value) == TotalConsumption(CleanConsumptionData(data)) * FlatRate
  {
    var df := CleanConsumptionData(data);
    var grouped := GroupSum(df);
    // the cost column
    var cost := seq(|grouped|, i requires 0 <= i < |grouped| => grouped[i].consumption * FlatRate);
    // the Month column, renamed
    var names := ApplyMonthName(grouped);
    MonthNamesOfReadings(df);
    if names.Err? {
      return Err(names.error);
    }
    // the consumption column dropped
    var table := seq(|grouped|, i requires 0 <= i < |grouped| =>
                       CostRow(grouped[i].key.meterId, names.value[i], grouped[i].key.year, cost[i]));
    outcome := Ok(table);
    assert Priced(grouped, names.value, table);
    PricedRowsDescribed(df, names.value, table);
    PricedRowsCover(df, names.value, table);
    PricedRowsDistinct(grouped, names.value, table);
    TotalCostOfGroups(table, grouped);
  }

  /** The priced table built from the groups and their month names, row by row. */
  predicate Priced(grouped: seq<Group>, names: seq<string>, table: seq<CostRow>) {
    && |names| == |grouped| == |table|
    && (forall i :: 0 <= i < |grouped| ==> MonthName(grouped[i].key.month) == Ok(names[i]))
    && (forall i :: 0 <= i < |grouped| ==>
          table[i] == CostRow(grouped[i].key.meterId, names[i], grouped[i].key.year, grouped[i].consumption * FlatRate))
  }

  /** Every printed row describes the group of some cleaned reading. */
  lemma PricedRowsDescribed(df: seq<Reading>, names: seq<string>, table: seq<CostRow>)
    requires Priced(GroupSum(df), names, table)
    ensures forall row :: row in table ==> exists x :: x in df && Describes(row, x, df)
  {
    var grouped := GroupSum(df);
    forall row | row in table
      ensures exists x :: x in df && Describes(row, x, df)
    {
      var i :| 0 <= i < |table| && table[i] == row;
      var x := GroupHasReading(df, grouped[i]);
      GroupSumTotals(df, i);
      assert Describes(row, x, df);
    }
  }

  /** Every cleaned reading's group is printed. */
  lemma PricedRowsCover(df: seq<Reading>, names: seq<string>, table: seq<CostRow>)
    requires Priced(GroupSum(df), names, table)
    ensures forall x :: x in df ==> exists row :: row in table && Describes(row, x, df)
  {
    var grouped := GroupSum(df);
    forall x | x in df
      ensures exists row :: row in table && Describes(row, x, df)
    {
      var i := ReadingHasGroup(df, x);
      GroupSumTotals(df, i);
      assert Describes(table[i], x, df);
    }
  }

  /** No two printed rows share meter, month name and year. */
  lemma PricedRowsDistinct(grouped: seq<Group>, names: seq<string>, table: seq<CostRow>)
    requires DistinctKeys(grouped) && Priced(grouped, names, table)
    ensures forall i, j :: 0 <= i < j < |table| ==>
              (table[i].meterId, table[i].month, table[i].year) != (table[j].meterId, table[j].month, table[j].year)
  {
    forall i, j | 0 <= i < j < |table|
      ensures (table[i].meterId, table[i].month, table[i].year) != (table[j].meterId, table[j].month, table[j].year)
    {
      if table[i].month == table[j].month {
        MonthNameInjective(grouped[i].key.month, grouped[j].key.month);
      }
    }
  }

  /** A reading outside (0, 3) changes no group and no total. */
  lemma GroupsIgnoreImplausible(data: seq<Reading>, bad: Reading)
    requires !(0.0 < bad.consumption < 3.0)
    ensures GroupSum(CleanConsumptionData(data + [bad])) == GroupSum(CleanConsumptionData(data))
  {
    CleanIgnoresImplausible(data, bad);
  }

  /** Two readings with the same key make one group holding their sum. */
  lemma SameKeyPair(a: Reading, b: Reading)
    requires KeyOf(a) == KeyOf(b)
    ensures GroupSum([a, b]) == [Group(KeyOf(a), a.consumption + b.consumption)]
  {
    assert [a, b][..1] == [a];
    assert [a][..0] == [];
    assert GroupSum([a]) == [Group(KeyOf(a), a.consumption)];
    assert AddReading([Group(KeyOf(a), a.consumption)], KeyOf(b), b.consumption)
        == [Group(KeyOf(a), a.consumption + b.consumption)] + [Group(KeyOf(a), a.consumption)][1..];
  }

  /**
   * Meter M1 reads 1.0 and 0.5 on one January day and 5.0 in February, meter M2 reads
   * -1.0 in January: the cleaned readings are the two January ones, which form one
   * group, M1 in January, of 1.5.
   */
  lemma JanuaryExample(m1: string, m2: string, year: int)
    ensures var data := [Reading(m1, 1, 1, year, 1.0), Reading(m1, 1, 1, year, 0.5),
                         Reading(m1, 2, 2, year, 5.0), Reading(m2, 1, 1, year, -1.0)];
            && CleanConsumptionData(data) == [data[0], data[1]]
            && GroupSum(CleanConsumptionData(data)) == [Group(GroupKey(m1, 1, YearString(year)), 1.5)]
  {
    var a, b := Reading(m1, 1, 1, year, 1.0), Reading(m1, 1, 1, year, 0.5);
    var high, low := Reading(m1, 2, 2, year, 5.0), Reading(m2, 1, 1, year, -1.0);
    assert CleanConsumptionData([a, b, high, low]) == [a, b] by {
      assert [a, b, high, low] == [a, b] + [high] + [low];
      CleanIgnoresImplausible([a, b] + [high], low);
      CleanIgnoresImplausible([a, b], high);
      WhereKeepsAll([a, b], Plausible);
    }
    SameKeyPair(a, b);
  }

  /** A table whose rows are all one row, which occurs, and which repeats no key, is that row alone. */
  lemma SingleRowTable(table: seq<CostRow>, row: CostRow)
    requires row in table && forall i :: 0 <= i < |table| ==> table[i] == row
    requires forall i, j :: 0 <= i < j < |table| ==>
               (table[i].meterId, table[i].month, table[i].year) != (table[j].meterId, table[j].month, table[j].year)
    ensures table == [row]
  {
    if |table| > 1 {
      FirstRowsDiffer(table);
      assert false;
    }
  }

  lemma FirstRowsDiffer(table: seq<CostRow>)
    requires |table| > 1
    requires forall i, j :: 0 <= i < j < |table| ==>
               (table[i].meterId, table[i].month, table[i].year) != (table[j].meterId, table[j].month, table[j].year)
    ensures table[0] != table[1]
  {
    assert (table[0].meterId, table[0].month, table[0].year) != (table[1].meterId, table[1].month, table[1].year);
  }

  /** In the 2013 scenario each cleaned reading is described by exactly the row M1, January, 2013, 0.225. */
  lemma JanuaryRow(a: Reading, b: Reading, r: CostRow, x: Reading)
    requires a == Reading("M1", 1, 1, 2013, 1.0) && b == Reading("M1", 1, 1, 2013, 0.5)
    requires x in [a, b]
    ensures Describes(r, x, [a, b]) <==> r == CostRow("M1", "January", "2013", 0.225)
  {
    assert YearString(2013) == "2013" by {
      assert NatString(201) == "201";
    }
    assert TotalFor([a, b], KeyOf(a)) == 1.5 by {
      assert [a, b][..1] == [a] && [a][..0] == [];
      assert TotalFor([a], KeyOf(a)) == 1.0;
    }
  }

  /** The 2013 January readings: two plausible ones of M1, one too high, one negative. */
  function JanuaryData(): seq<Reading> {
    [Reading("M1", 1, 1, 2013, 1.0), Reading("M1", 1, 1, 2013, 0.5),
     Reading("M1", 2, 2, 2013, 5.0), Reading("M2", 1, 1, 2013, -1.0)]
  }

  lemma JanuaryDataWellFormed()
    ensures forall x :: x in JanuaryData() ==> WellFormed(x)
  {
  }

  /** A report of the two plausible January readings that describes each of them, and only them, is the one row M1, January, 2013, 0.225. */
  lemma JanuaryPairTable(a: Reading, b: Reading, table: seq<CostRow>)
    requires a == Reading("M1", 1, 1, 2013, 1.0) && b == Reading("M1", 1, 1, 2013, 0.5)
    requires forall r :: r in table ==> exists x :: x in [a, b] && Describes(r, x, [a, b])
    requires forall x :: x in [a, b] ==> exists r :: r in table && Describes(r, x, [a, b])
    requires forall i, j :: 0 <= i < j < |table| ==>
               (table[i].meterId, table[i].month, table[i].year) != (table[j].meterId, table[j].month, table[j].year)
    ensures table == [CostRow("M1", "January", "2013", 0.225)]
  {
    var row := CostRow("M1", "January", "2013", 0.225);
    forall i | 0 <= i < |table|
      ensures table[i] == row
    {
      assert table[i] in table;
      var x :| x in [a, b] && Describes(table[i], x, [a, b]);
      JanuaryRow(a, b, table[i], x);
    }
    assert a in [a, b];
    var r :| r in table && Describes(r, a, [a, b]);
    JanuaryRow(a, b, r, a);
    SingleRowTable(table, row);
  }

  /** A report of JanuaryData that describes each cleaned reading, and only those, without repeating a key, is the one row M1, January, 2013, 0.225. */
  lemma JanuaryTable(table: seq<CostRow>)
    requires forall row :: row in table ==>
               exists x :: x in CleanConsumptionData(JanuaryData()) && Describes(row, x, CleanConsumptionData(JanuaryData()))
    requires forall x :: x in CleanConsumptionData(JanuaryData()) ==>
               exists row :: row in table && Describes(row, x, CleanConsumptionData(JanuaryData()))
    requires forall i, j :: 0 <= i < j < |table| ==>
               (table[i].meterId, table[i].month, table[i].year) != (table[j].meterId, table[j].month, table[j].year)
    ensures table == [CostRow("M1", "January", "2013", 0.225)]
  {
    var a, b := Reading("M1", 1, 1, 2013, 1.0), Reading("M1", 1, 1, 2013, 0.5);
    assert CleanConsumptionData(JanuaryData()) == [a, b] by {
      JanuaryExample("M1", "M2", 2013);
    }
    JanuaryPairTable(a, b, table);
  }

  /** The same scenario in 2013: the script prints the single row M1, January, 2013, 0.225. */
  method JanuaryReport() returns (out: Result<seq<CostRow>>)
    ensures out == Ok([CostRow("M1", "January", "2013", 0.225)])
  {
    JanuaryDataWellFormed();
    out := EstimateUsageCost(JanuaryData());
    JanuaryTable(out.value);
  }
}
