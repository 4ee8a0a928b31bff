/** The row lists `exportToExcel` hands to the spreadsheet library (frontend/App.tsx:106-137):
    the summary sheet and the sheet of valid transactions. Writing the workbook is not modelled. */
module Export {
  import opened Types
  import Ledger

  /** One spreadsheet cell. */
  datatype Cell = Text(text: string) | Number(value: real)

  /** One spreadsheet row; the empty row is a blank line. */
  type Row = seq<Cell>

  /** The summary sheet's row for one month: its month label and its stored total. */
  function MonthRow(m: MonthlyData): Row
  {
    [Text(m.month), Number(m.total)]
  }

  /** The month rows, in month order. */
  function MonthRows(ms: seq<MonthlyData>): (r: seq<Row>)
    ensures |r| == |ms|
    ensures forall i :: 0 <= i < |ms| ==> r[i] == [Text(ms[i].month), Number(ms[i].total)]
  {
    seq(|ms|, i requires 0 <= i < |ms| => MonthRow(ms[i]))
  }

  /** The summary sheet. `upper` stands for `toUpperCase` and `analysisDate` for the
      locale-formatted creation time. */
  function SummarySheet(v: IncomeVerification, upper: string -> string, analysisDate: string): (r: seq<Row>)
    ensures |r| == 8 + |v.monthlyData|
    ensures r[0] == [Text("APURAÇÃO DE RENDA - " + upper(v.clientName))]
    ensures r[1] == [Text("Data da Análise"), Text(analysisDate)]
    ensures r[2] == [] && r[3] == [Text("RESUMO FINANCEIRO")]
    ensures r[6] == [] && r[7] == [Text("DETALHAMENTO MENSAL")]
    ensures r[4] == [Text("Renda Total Acumulada"), Number(v.totalIncome)]
    ensures r[5] == [Text("Média Mensal Apurada"), Number(v.averageIncome)]
    ensures forall i :: 0 <= i < |v.monthlyData| ==> r[8 + i] == [Text(v.monthlyData[i].month), Number(v.monthlyData[i].total)]
  {
    [ [Text("APURAÇÃO DE RENDA - " + upper(v.clientName))],
      [Text("Data da Análise"), Text(analysisDate)],
      [],
      [Text("RESUMO FINANCEIRO")],
      [Text("Renda Total Acumulada"), Number(v.totalIncome)],
      [Text("Média Mensal Apurada"), Number(v.averageIncome)],
      [],
      [Text("DETALHAMENTO MENSAL")] ]
    + MonthRows(v.monthlyData)
  }

  /** The numbers in the second column of `rows`, added up (rows without one add nothing). */
  function SecondColumnSum(rows: seq<Row>): real
    decreases |rows|
  {
    if |rows| == 0 then 0.0
    else (if |rows[0]| >= 2 && rows[0][1].Number? then rows[0][1].value else 0.0) + SecondColumnSum(rows[1..])
  }

  /** The month rows add up to the stored month totals. */
  lemma {:induction false} MonthRowsSum(ms: seq<MonthlyData>)
    ensures SecondColumnSum(MonthRows(ms)) == Ledger.SumTotals(ms)
    decreases |ms|
  {
    if |ms| > 0 {
      MonthRowsSum(ms[1..]);
      assert MonthRows(ms)[1..] == MonthRows(ms[1..]);
    }
  }

  /** On a verification whose figures agree with its months, the summary's month rows add up to
      its "Renda Total Acumulada" row. */
  lemma SummaryRowsAddUp(v: IncomeVerification, upper: string -> string, analysisDate: string)
    requires Ledger.FiguresConsistent(v)
    ensures var r := SummarySheet(v, upper, analysisDate);
      SecondColumnSum(r[8..]) == r[4][1].value
  {
    var r := SummarySheet(v, upper, analysisDate);
    assert r[8..] == MonthRows(v.monthlyData);
    MonthRowsSum(v.monthlyData);
  }

  /** One line of the transactions sheet: date, description, sender, bank, amount, month label. */
  datatype DetailRow = DetailRow(date: string, description: string, sender: string, bank: string,
                                 amount: real, month: string)

  /** The line for transaction `t` of the month labelled `monthLabel`. */
  function DetailOf(t: Transaction, monthLabel: string): DetailRow
  {
    DetailRow(t.date, t.description, t.sender, t.bank, t.amount, monthLabel)
  }

  /** One line per transaction of `ts`, in order, all tagged with `monthLabel`. */
  function LinesOf(ts: seq<Transaction>, monthLabel: string): (r: seq<DetailRow>)
    ensures |r| == |ts|
    ensures forall q :: 0 <= q < |ts| ==> r[q] == DetailOf(ts[q], monthLabel)
  {
    seq(|ts|, q requires 0 <= q < |ts| => DetailOf(ts[q], monthLabel))
  }

  /** Every line of a month comes from one of its valid transactions. */
  lemma MonthLineHasSource(m: MonthlyData, d: DetailRow)
    requires d in LinesOf(Ledger.ValidTransactions(m.transactions), m.month)
    ensures exists k :: 0 <= k < |m.transactions| && m.transactions[k].isValid && d == DetailOf(m.transactions[k], m.month)
  {
    var valid := Ledger.ValidTransactions(m.transactions);
    var q :| 0 <= q < |valid| && LinesOf(valid, m.month)[q] == d;
    assert valid[q] in m.transactions;
    var k :| 0 <= k < |m.transactions| && m.transactions[k] == valid[q];
    assert m.transactions[k].isValid && d == DetailOf(m.transactions[k], m.month);
  }

  /** Every valid transaction of a month yields one of its lines. */
  lemma ValidTransactionHasLine(m: MonthlyData, k: int)
    requires 0 <= k < |m.transactions| && m.transactions[k].isValid
    ensures DetailOf(m.transactions[k], m.month) in LinesOf(Ledger.ValidTransactions(m.transactions), m.month)
  {
    var valid := Ledger.ValidTransactions(m.transactions);
    assert m.transactions[k] in valid;
    var q :| 0 <= q < |valid| && valid[q] == m.transactions[k];
    assert LinesOf(valid, m.month)[q] == DetailOf(m.transactions[k], m.month);
  }

  /** The lines for the valid transactions of one month: one per valid transaction, in their order. */
  function MonthDetails(m: MonthlyData): (r: seq<DetailRow>)
    ensures |r| == |Ledger.ValidTransactions(m.transactions)|
    ensures forall q :: 0 <= q < |r| ==> r[q] == DetailOf(Ledger.ValidTransactions(m.transactions)[q], m.month)
    ensures forall d :: d in r <==>
      exists k :: 0 <= k < |m.transactions| && m.transactions[k].isValid && d == DetailOf(m.transactions[k], m.month)
  {
    forall d | d in LinesOf(Ledger.ValidTransactions(m.transactions), m.month) {
      MonthLineHasSource(m, d);
    }
    forall k | 0 <= k < |m.transactions| && m.transactions[k].isValid {
      ValidTransactionHasLine(m, k);
    }
    LinesOf(Ledger.ValidTransactions(m.transactions), m.month)
  }

  /** The lines of the transactions sheet below its header, month by month. */
  function Details(ms: seq<MonthlyData>): (r: seq<DetailRow>)
    ensures forall d :: d in r <==>
      exists i, k :: 0 <= i < |ms| && 0 <= k < |ms[i].transactions| && ms[i].transactions[k].isValid
        && d == DetailOf(ms[i].transactions[k], ms[i].month)
    ensures |ms| > 0 ==> r == MonthDetails(ms[0]) + Details(ms[1..])
    decreases |ms|
  {
    if |ms| == 0 then []
    else
      var r := MonthDetails(ms[0]) + Details(ms[1..]);
      assert forall i :: 1 <= i < |ms| ==> ms[i] == ms[1..][i - 1];
      r
  }

  /** The sheet's column titles. */
  const DetailHeader: Row := [Text("DATA"), Text("DESCRIÇÃO"), Text("REMETENTE"), Text("BANCO"), Text("VALOR"), Text("MÊS REF")]

  /** A detail line as spreadsheet cells, in the header's column order. */
  function DetailCells(d: DetailRow): Row
  {
    [Text(d.date), Text(d.description), Text(d.sender), Text(d.bank), Number(d.amount), Text(d.month)]
  }

  /** The lines as spreadsheet rows, in order. */
  function CellRows(ds: seq<DetailRow>): (r: seq<Row>)
    ensures |r| == |ds|
    ensures forall i :: 0 <= i < |ds| ==> r[i] == DetailCells(ds[i])
  {
    seq(|ds|, i requires 0 <= i < |ds| => DetailCells(ds[i]))
  }

  /** The transactions sheet: the header, then one line per valid transaction. */
  function DetailSheet(v: IncomeVerification): (r: seq<Row>)
    ensures |r| == 1 + |Details(v.monthlyData)|
    ensures r[0] == DetailHeader
    ensures forall i :: 1 <= i < |r| ==> r[i] == DetailCells(Details(v.monthlyData)[i - 1])
  {
    [DetailHeader] + CellRows(Details(v.monthlyData))
  }

  // ---------------------------------------------------------------------------
  // Properties of the transactions sheet
  // ---------------------------------------------------------------------------

  /** The months' lines come one month after another: the lines of a split list are the lines of
      its first part followed by those of its second. */
  lemma {:induction false} DetailsAppend(a: seq<MonthlyData>, b: seq<MonthlyData>)
    ensures Details(a + b) == Details(a) + Details(b)
    decreases |a|
  {
    if |a| == 0 {
      assert a + b == b;
    } else {
      assert (a + b)[0] == a[0];
      assert (a + b)[1..] == a[1..] + b;
      DetailsAppend(a[1..], b);
    }
  }

  /** The amounts on the lines, added up. */
  function DetailAmountSum(ds: seq<DetailRow>): real
    decreases |ds|
  {
    if |ds| == 0 then 0.0 else ds[0].amount + DetailAmountSum(ds[1..])
  }

  lemma {:induction false} DetailAmountSumAppend(a: seq<DetailRow>, b: seq<DetailRow>)
    ensures DetailAmountSum(a + b) == DetailAmountSum(a) + DetailAmountSum(b)
    decreases |a|
  {
    if |a| == 0 {
      assert a + b == b;
    } else {
      assert (a + b)[1..] == a[1..] + b;
      DetailAmountSumAppend(a[1..], b);
    }
  }

  /** Lines built from a run of transactions carry those transactions' amounts. */
  lemma {:induction false} DetailOfAmounts(ts: seq<Transaction>, monthLabel: string)
    ensures DetailAmountSum(seq(|ts|, k requires 0 <= k < |ts| => DetailOf(ts[k], monthLabel))) == Ledger.SumAmounts(ts)
    decreases |ts|
  {
    if |ts| > 0 {
      DetailOfAmounts(ts[1..], monthLabel);
      var lines := seq(|ts|, k requires 0 <= k < |ts| => DetailOf(ts[k], monthLabel));
      assert lines[1..] == seq(|ts[1..]|, k requires 0 <= k < |ts[1..]| => DetailOf(ts[1..][k], monthLabel));
    }
  }

  /** A month's lines add up to the total its valid transactions determine. */
  lemma MonthDetailsSum(m: MonthlyData)
    ensures DetailAmountSum(MonthDetails(m)) == Ledger.ValidTotal(m.transactions)
  {
    DetailOfAmounts(Ledger.ValidTransactions(m.transactions), m.month);
  }

  /** The exported lines add up to the total income of a consistent verification. */
  lemma {:induction false} DetailsSumToTotal(ms: seq<MonthlyData>)
    requires forall i :: 0 <= i < |ms| ==> Ledger.MonthConsistent(ms[i])
    ensures DetailAmountSum(Details(ms)) == Ledger.SumTotals(ms)
    decreases |ms|
  {
    if |ms| > 0 {
      DetailsSumToTotal(ms[1..]);
      MonthDetailsSum(ms[0]);
      DetailAmountSumAppend(MonthDetails(ms[0]), Details(ms[1..]));
    }
  }

  /** The amounts of the exported lines add up to the verification's total income. */
  lemma DetailLinesMatchTotal(v: IncomeVerification)
    requires Ledger.Consistent(v)
    ensures DetailAmountSum(Details(v.monthlyData)) == v.totalIncome
  {
    DetailsSumToTotal(v.monthlyData);
  }

  /** The sum of the numbers in the fifth (VALOR) column; rows without a number there add nothing. */
  function AmountColumnSum(rows: seq<Row>): real
    decreases |rows|
  {
    if |rows| == 0 then 0.0
    else (if |rows[0]| >= 5 && rows[0][4].Number? then rows[0][4].value else 0.0) + AmountColumnSum(rows[1..])
  }

  /** The VALOR column of the rows built from some lines adds up to the lines' amounts. */
  lemma {:induction false} CellRowsAmounts(ds: seq<DetailRow>)
    ensures AmountColumnSum(CellRows(ds)) == DetailAmountSum(ds)
    decreases |ds|
  {
    if |ds| > 0 {
      CellRowsAmounts(ds[1..]);
      assert CellRows(ds)[1..] == CellRows(ds[1..]);
    }
  }

  /** The VALOR cells of the transactions sheet, below its header, add up to the verification's
      total income. */
  lemma DetailSheetMatchesTotal(v: IncomeVerification)
    requires Ledger.Consistent(v)
    ensures AmountColumnSum(DetailSheet(v)[1..]) == v.totalIncome
  {
    assert DetailSheet(v)[1..] == CellRows(Details(v.monthlyData));
    CellRowsAmounts(Details(v.monthlyData));
    DetailLinesMatchTotal(v);
  }
}
