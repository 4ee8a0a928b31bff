/** The history list in frontend/App.tsx: a verification built from the parsed answer of `analyzeIncome`
    (lines 50-65), prepended to the list (line 68), and deletion by id (line 79). */
module History {
  import opened Wrappers
  import opened Types
  import Seqs
  import Ledger

  /** A transaction as the analysis answer gives it: everything but the id. */
  datatype AnalysisTransaction = AnalysisTransaction(
    date: string,
    description: string,
    amount: real,
    bank: string,
    sender: string,
    isValid: bool,
    exclusionReason: Option<string>)

  /** A month as the analysis answer gives it, with the total the answer states. */
  datatype AnalysisMonth = AnalysisMonth(month: string, total: real, transactions: seq<AnalysisTransaction>)

  /** The parsed answer of `analyzeIncome`; every field may be missing. */
  datatype AnalysisResult = AnalysisResult(
    monthlyData: Option<seq<AnalysisMonth>>,
    totalIncome: Option<real>,
    averageIncome: Option<real>)

  /** The form's submission. */
  datatype AnalysisRequest = AnalysisRequest(
    text: string,
    clientName: string,
    fatherName: Option<string>,
    motherName: Option<string>)

  /** The answer's transaction with every field kept and a fresh id added. */
  function WithId(t: AnalysisTransaction, id: string): (r: Transaction)
    ensures r.id == id
    ensures AnalysisTransaction(r.date, r.description, r.amount, r.bank, r.sender, r.isValid, r.exclusionReason) == t
  {
    Transaction(id, t.date, t.description, t.amount, t.bank, t.sender, t.isValid, t.exclusionReason)
  }

  /** Month `i` of the answer, each transaction `j` of it given the id `freshId(i, j)`. */
  function AdoptMonth(m: AnalysisMonth, i: int, freshId: (int, int) -> string): (r: MonthlyData)
    ensures r.month == m.month && r.total == m.total
    ensures |r.transactions| == |m.transactions|
    ensures forall j :: 0 <= j < |m.transactions| ==> r.transactions[j] == WithId(m.transactions[j], freshId(i, j))
  {
    MonthlyData(m.month, m.total,
      seq(|m.transactions|, j requires 0 <= j < |m.transactions| => WithId(m.transactions[j], freshId(i, j))))
  }

  /** The first month's label, or the empty string when there is none. */
  function FirstLabel(ms: seq<AnalysisMonth>): string
  {
    if |ms| == 0 then "" else ms[0].month
  }

  /** The last month's label, or the empty string when there is none. */
  function LastLabel(ms: seq<AnalysisMonth>): string
  {
    if |ms| == 0 then "" else ms[|ms| - 1].month
  }

  /** The verification built from an answer. `id`, `createdAt` and `freshId` stand for
      `crypto.randomUUID()` and `new Date().toISOString()`. Totals are copied, not derived. */
  function NewVerification(id: string, createdAt: string, req: AnalysisRequest, result: AnalysisResult,
                           freshId: (int, int) -> string): (r: IncomeVerification)
    ensures r.id == id && r.createdAt == createdAt && r.rawInput == req.text
    ensures r.clientName == req.clientName && r.fatherName == req.fatherName && r.motherName == req.motherName
    ensures var ms := result.monthlyData.GetOr([]);
      && |r.monthlyData| == |ms|
      && (forall i :: 0 <= i < |ms| ==> r.monthlyData[i] == AdoptMonth(ms[i], i, freshId))
    ensures |r.monthlyData| == 0 ==> r.periodStart == "" && r.periodEnd == ""
    ensures |r.monthlyData| > 0 ==>
      r.periodStart == r.monthlyData[0].month && r.periodEnd == r.monthlyData[|r.monthlyData| - 1].month
    ensures result.totalIncome.None? ==> r.totalIncome == 0.0
    ensures result.totalIncome.Some? ==> r.totalIncome == result.totalIncome.value
    ensures result.averageIncome.None? ==> r.averageIncome == 0.0
    ensures result.averageIncome.Some? ==> r.averageIncome == result.averageIncome.value
  {
    var ms := result.monthlyData.GetOr([]);
    IncomeVerification(
      id, req.clientName, req.fatherName, req.motherName, createdAt,
      FirstLabel(ms), LastLabel(ms),
      seq(|ms|, i requires 0 <= i < |ms| => AdoptMonth(ms[i], i, freshId)),
      result.totalIncome.GetOr(0.0), result.averageIncome.GetOr(0.0), req.text)
  }

  /** The history with the new record in front of all earlier ones. */
  function Prepend(nv: IncomeVerification, vs: seq<IncomeVerification>): (r: seq<IncomeVerification>)
    ensures |r| == |vs| + 1 && r[0] == nv && r[1..] == vs
  {
    [nv] + vs
  }

  /** A finished analysis: the new verification put at the front of the history. */
  function Analyze(vs: seq<IncomeVerification>, id: string, createdAt: string, req: AnalysisRequest,
                   result: AnalysisResult, freshId: (int, int) -> string): (r: seq<IncomeVerification>)
    ensures |r| == |vs| + 1 && r[1..] == vs
    ensures r[0] == NewVerification(id, createdAt, req, result, freshId)
  {
    Prepend(NewVerification(id, createdAt, req, result, freshId), vs)
  }

  /** The history without the verifications whose id is `id`, the others kept in order. */
  function Delete(vs: seq<IncomeVerification>, id: string): (r: seq<IncomeVerification>)
    ensures forall v :: v in r <==> v in vs && v.id != id
    ensures Seqs.IsSubsequence(r, vs)
    ensures forall v :: multiset(r)[v] == if v.id != id then multiset(vs)[v] else 0
  {
    var keep := (v: IncomeVerification) => v.id != id;
    Seqs.FilterIsSubsequence(keep, vs);
    Seqs.FilterMultiplicity(keep, vs);
    Seqs.Filter(keep, vs)
  }

  // ---------------------------------------------------------------------------
  // Properties
  // ---------------------------------------------------------------------------

  /** Deleting an id nobody carries leaves the history as it is. */
  lemma DeleteAbsentId(vs: seq<IncomeVerification>, id: string)
    requires forall i :: 0 <= i < |vs| ==> vs[i].id != id
    ensures Delete(vs, id) == vs
  {
    Seqs.FilterKeepsAll((v: IncomeVerification) => v.id != id, vs);
  }

  /** Deleting twice is deleting once. */
  lemma DeleteIdempotent(vs: seq<IncomeVerification>, id: string)
    ensures Delete(Delete(vs, id), id) == Delete(vs, id)
  {
    var once := Delete(vs, id);
    assert forall i :: 0 <= i < |once| ==> once[i] in once;
    DeleteAbsentId(once, id);
  }

  /** Deleting a just-added record, whose id is new to the history, restores the history. */
  lemma DeleteUndoesAnalyze(vs: seq<IncomeVerification>, id: string, createdAt: string, req: AnalysisRequest,
                            result: AnalysisResult, freshId: (int, int) -> string)
    requires forall i :: 0 <= i < |vs| ==> vs[i].id != id
    ensures Delete(Analyze(vs, id, createdAt, req, result, freshId), id) == vs
  {
    var nv := NewVerification(id, createdAt, req, result, freshId);
    var keep := (v: IncomeVerification) => v.id != id;
    Seqs.FilterAppend(keep, [nv], vs);
    assert Seqs.Filter(keep, [nv]) == [];
    DeleteAbsentId(vs, id);
  }

  /** When `freshId` never repeats, no two transactions of a month share an id, which is what the
      grid's per-id update relies on. */
  lemma FreshIdsAreDistinct(id: string, createdAt: string, req: AnalysisRequest, result: AnalysisResult,
                            freshId: (int, int) -> string)
    requires forall a, b, c, d :: freshId(a, b) == freshId(c, d) ==> a == c && b == d
    ensures var r := NewVerification(id, createdAt, req, result, freshId);
      forall i, j, k :: 0 <= i < |r.monthlyData| && 0 <= j < k < |r.monthlyData[i].transactions| ==>
        r.monthlyData[i].transactions[j].id != r.monthlyData[i].transactions[k].id
  {
  }

  /** The created record's month totals are copied from the answer, not derived: when the answer
      states a total for some month that its valid transactions do not add up to, the created
      record is inconsistent. */
  lemma StatedTotalsAreNotDerived(id: string, createdAt: string, req: AnalysisRequest, result: AnalysisResult,
                                  freshId: (int, int) -> string, i: int)
    requires result.monthlyData.Some? && 0 <= i < |result.monthlyData.value|
    requires var m := AdoptMonth(result.monthlyData.value[i], i, freshId);
      m.total != Ledger.ValidTotal(m.transactions)
    ensures !Ledger.Consistent(NewVerification(id, createdAt, req, result, freshId))
  {
    var r := NewVerification(id, createdAt, req, result, freshId);
    assert r.monthlyData[i] == AdoptMonth(result.monthlyData.value[i], i, freshId);
    assert !Ledger.MonthConsistent(r.monthlyData[i]);
  }

  /** An example: an answer claiming 100 over one empty month yields an inconsistent record, and
      one update of that month makes it consistent. */
  lemma CreationDoesNotDeriveTotals(freshId: (int, int) -> string)
    ensures var result := AnalysisResult(Some([AnalysisMonth("Julho/2024", 100.0, [])]), Some(100.0), Some(100.0));
      var r := NewVerification("v", "", AnalysisRequest("", "Ana", None, None), result, freshId);
      && !Ledger.Consistent(r)
      && Ledger.Consistent(Ledger.UpdateVerification(r, 0, "t", Ledger.Patch(None, None)))
  {
  }
}
