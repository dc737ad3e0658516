/** The cost calculation behind the "Calculate Cost" button (main.py:380-408):
    every salary record gains four cost fields in place, then four column
    sums are taken over the records. Salary figures and head counts are
    integers here; the head count is the non-negative number entered for the
    role (main.py:378). */
module CostCalculation {
  import opened PyValues

  /** The four fields main.py:387-390 add to a record. */
  datatype Costs = Costs(philippinesTotal: int, unitedStatesTotal: int, totalSavings: int, connextTotal: int)

  /** One entry of `job_list_salary` once its head count is set: the role,
      the currency, the monthly figures of its salary comparison, the head
      count, and the cost fields once computed. */
  datatype CostRow = CostRow(jobRole: string, currency: string, philippines: int, unitedStates: int,
                             employees: nat, costs: Option<Costs>)

  /** The cost fields main.py:387-390 compute for a row: head count times
      each country's figure, the United States cost minus the Philippines
      cost as savings, and the Philippines cost again as the cost through
      Connext. */
  function CostsOf(row: CostRow): (c: Costs)
    ensures c.totalSavings == c.unitedStatesTotal - c.philippinesTotal
    ensures c.connextTotal == c.philippinesTotal
    ensures c.philippinesTotal == row.employees * row.philippines
    ensures c.unitedStatesTotal == row.employees * row.unitedStates
  {
    var philippinesTotal := row.employees * row.philippines;
    var unitedStatesTotal := row.employees * row.unitedStates;
    Costs(philippinesTotal, unitedStatesTotal, unitedStatesTotal - philippinesTotal, philippinesTotal)
  }

  /** The row as main.py:387-390 leave it: its own fields untouched, its cost
      fields set (over any earlier ones). */
  function WithCosts(row: CostRow): (r: CostRow)
    ensures r.jobRole == row.jobRole && r.currency == row.currency
    ensures r.philippines == row.philippines && r.unitedStates == row.unitedStates
    ensures r.employees == row.employees
    ensures Costed(r)
  {
    row.(costs := Some(CostsOf(row)))
  }

  /** The row carries the cost fields its own figures give. */
  predicate Costed(row: CostRow) {
    row.costs == Some(CostsOf(row))
  }

  /** The loop of main.py:386-390, over the records in place: each row gains
      its cost fields and keeps everything else; the number of rows is that of
      the array. */
  method CalculateCosts(rows: array<CostRow>)
    modifies rows
    ensures forall i :: 0 <= i < rows.Length ==> rows[i] == WithCosts(old(rows[i]))
    ensures AllCosted(rows[..])
  {
    var i := 0;
    while i < rows.Length
      invariant 0 <= i <= rows.Length
      invariant forall j :: 0 <= j < i ==> rows[j] == WithCosts(old(rows[j]))
      invariant forall j :: i <= j < rows.Length ==> rows[j] == old(rows[j])
    {
      rows[i] := WithCosts(rows[i]);
      i := i + 1;
    }
  }

  /** A column of the cost fields. */
  datatype Column = PhilippinesTotal | UnitedStatesTotal | TotalSavings | ConnextTotal

  function Cell(c: Costs, column: Column): int {
    match column
    case PhilippinesTotal => c.philippinesTotal
    case UnitedStatesTotal => c.unitedStatesTotal
    case TotalSavings => c.totalSavings
    case ConnextTotal => c.connextTotal
  }

  /** Every row carries its cost fields. */
  predicate AllCosted(rows: seq<CostRow>) {
    forall i :: 0 <= i < |rows| ==> Costed(rows[i])
  }

  /** `df[column].sum()` over rows that all carry cost fields. */
  function ColumnSum(rows: seq<CostRow>, column: Column): (r: int)
    requires forall i :: 0 <= i < |rows| ==> rows[i].costs.Some?
    ensures (forall i :: 0 <= i < |rows| ==> Cell(rows[i].costs.value, column) >= 0) ==> r >= 0
    ensures (forall i :: 0 <= i < |rows| ==> Cell(rows[i].costs.value, column) <= 0) ==> r <= 0
  {
    if |rows| == 0 then 0
    else Cell(rows[0].costs.value, column) + ColumnSum(rows[1..], column)
  }

  /** The four figures main.py:405-408 show. */
  datatype Totals = Totals(philippinesOverall: int, unitedStatesOverall: int, expectedSavings: int, connextTotal: int)

  /** main.py:405-408: the connext total is the sum of the Philippines column
      again, not of the `connext_total_cost` column. */
  function OverallTotals(rows: seq<CostRow>): (t: Totals)
    requires forall i :: 0 <= i < |rows| ==> rows[i].costs.Some?
    ensures t.connextTotal == t.philippinesOverall
  {
    Totals(ColumnSum(rows, PhilippinesTotal), ColumnSum(rows, UnitedStatesTotal),
           ColumnSum(rows, TotalSavings), ColumnSum(rows, PhilippinesTotal))
  }

  /** What hiring everybody costs in one country: head count times that
      country's figure, summed over the roles. */
  function Payroll(rows: seq<CostRow>, philippines: bool): int {
    if |rows| == 0 then 0
    else rows[0].employees * (if philippines then rows[0].philippines else rows[0].unitedStates)
         + Payroll(rows[1..], philippines)
  }

  /** After the loop, the two overall costs are the payrolls of the two
      countries, the expected savings are their difference, and the connext
      total equals both the Philippines payroll and the sum of the
      `connext_total_cost` column. */
  lemma {:induction false} TotalsAgree(rows: seq<CostRow>)
    requires AllCosted(rows)
    ensures var t := OverallTotals(rows);
      && t.philippinesOverall == Payroll(rows, true)
      && t.unitedStatesOverall == Payroll(rows, false)
      && t.expectedSavings == t.unitedStatesOverall - t.philippinesOverall
      && t.connextTotal == ColumnSum(rows, ConnextTotal)
  {
    if |rows| > 0 {
      assert AllCosted(rows[1..]) by {
        forall i | 0 <= i < |rows[1..]| ensures Costed(rows[1..][i]) {
          assert rows[1..][i] == rows[i + 1];
        }
      }
      TotalsAgree(rows[1..]);
    }
  }

  /** When no role costs more in the Philippines than in the United States,
      the expected savings are not negative. */
  lemma SavingsNonNegative(rows: seq<CostRow>)
    requires AllCosted(rows)
    requires forall i :: 0 <= i < |rows| ==> rows[i].philippines <= rows[i].unitedStates
    ensures OverallTotals(rows).expectedSavings >= 0
  {
    forall i | 0 <= i < |rows| ensures Cell(rows[i].costs.value, TotalSavings) >= 0 {
      var row := rows[i];
      var c := CostsOf(row);
      assert rows[i].costs.value == c;
      assert c.totalSavings == row.employees * row.unitedStates - row.employees * row.philippines;
      ProductNonNegative(row.employees, row.unitedStates, row.philippines);
    }
  }

  /** A head count times a non-negative difference of figures is not
      negative. */
  lemma ProductNonNegative(n: nat, high: int, low: int)
    requires low <= high
    ensures n * high - n * low >= 0
  {
    assert n * high - n * low == n * (high - low);
  }

  /** After the loop every row carries its cost fields, so the totals of
      main.py:405-408 are defined, and the payrolls are those of the rows
      before it. */
  lemma {:induction false} CalculatedRows(before: seq<CostRow>, after: seq<CostRow>)
    requires |after| == |before|
    requires forall i :: 0 <= i < |after| ==> after[i] == WithCosts(before[i])
    ensures AllCosted(after)
    ensures Payroll(after, true) == Payroll(before, true) && Payroll(after, false) == Payroll(before, false)
  {
    if |before| > 0 {
      CalculatedRows(before[1..], after[1..]);
    }
  }
}
