/** The ledger update behind the review grid (`handleUpdateTransaction`, frontend/App.tsx:84-104):
    patch the matching transactions of one month, re-derive that month's total, then re-derive
    the verification's total and average from the stored month totals. */
module Ledger {
  import opened Wrappers
  import opened Types
  import Seqs

  // ---------------------------------------------------------------------------
  // Sums
  // ---------------------------------------------------------------------------

  /** The amounts of the transactions in `ts`, added up from zero. */
  function SumAmounts(ts: seq<Transaction>): real
    decreases |ts|
  {
    if |ts| == 0 then 0.0 else ts[0].amount + SumAmounts(ts[1..])
  }

  lemma {:induction false} SumAmountsAppend(a: seq<Transaction>, b: seq<Transaction>)
    ensures SumAmounts(a + b) == SumAmounts(a) + SumAmounts(b)
    decreases |a|
  {
    if |a| == 0 {
      assert a + b == b;
    } else {
      assert (a + b)[1..] == a[1..] + b;
      SumAmountsAppend(a[1..], b);
    }
  }

  /** The transactions that count toward income, in their original order. */
  function ValidTransactions(ts: seq<Transaction>): (r: seq<Transaction>)
    ensures forall t :: t in r <==> t in ts && t.isValid
    ensures Seqs.IsSubsequence(r, ts)
  {
    var keep := (t: Transaction) => t.isValid;
    Seqs.FilterIsSubsequence(keep, ts);
    Seqs.Filter(keep, ts)
  }

  /** Each valid transaction is kept as often as it occurs, and no invalid one is kept. */
  lemma ValidTransactionsMultiplicity(ts: seq<Transaction>)
    ensures forall t :: multiset(ValidTransactions(ts))[t] == if t.isValid then multiset(ts)[t] else 0
  {
    Seqs.FilterMultiplicity((t: Transaction) => t.isValid, ts);
  }

  /** What one transaction adds to its month: its amount when valid, nothing otherwise. */
  function Contribution(t: Transaction): real
  {
    if t.isValid then t.amount else 0.0
  }

  /** A month's total as the update computes it: the valid transactions' amounts, added up. */
  function ValidTotal(ts: seq<Transaction>): real
  {
    SumAmounts(ValidTransactions(ts))
  }

  lemma ValidTotalAppend(a: seq<Transaction>, b: seq<Transaction>)
    ensures ValidTotal(a + b) == ValidTotal(a) + ValidTotal(b)
  {
    Seqs.FilterAppend((t: Transaction) => t.isValid, a, b);
    SumAmountsAppend(ValidTransactions(a), ValidTransactions(b));
  }

  lemma ValidTotalSingleton(t: Transaction)
    ensures ValidTotal([t]) == Contribution(t)
  {
    assert [t][1..] == [];
    assert ValidTransactions([t]) == (if t.isValid then [t] else []);
    if t.isValid {
      assert SumAmounts([t]) == t.amount + SumAmounts([]);
    }
  }

  /** Replacing one transaction moves the month's total by the change in that transaction's contribution. */
  lemma ValidTotalReplace(ts: seq<Transaction>, k: int, t: Transaction)
    requires 0 <= k < |ts|
    ensures ValidTotal(ts[k := t]) == ValidTotal(ts) - Contribution(ts[k]) + Contribution(t)
  {
    var pre, post := ts[..k], ts[k + 1..];
    assert ts == (pre + [ts[k]]) + post;
    assert ts[k := t] == (pre + [t]) + post;
    ValidTotalAppend(pre + [ts[k]], post);
    ValidTotalAppend(pre, [ts[k]]);
    ValidTotalAppend(pre + [t], post);
    ValidTotalAppend(pre, [t]);
    ValidTotalSingleton(ts[k]);
    ValidTotalSingleton(t);
  }

  /** The stored totals of the months in `ms`, added up from zero. */
  function SumTotals(ms: seq<MonthlyData>): real
    decreases |ms|
  {
    if |ms| == 0 then 0.0 else ms[0].total + SumTotals(ms[1..])
  }

  lemma {:induction false} SumTotalsAppend(a: seq<MonthlyData>, b: seq<MonthlyData>)
    ensures SumTotals(a + b) == SumTotals(a) + SumTotals(b)
    decreases |a|
  {
    if |a| == 0 {
      assert a + b == b;
    } else {
      assert (a + b)[1..] == a[1..] + b;
      SumTotalsAppend(a[1..], b);
    }
  }

  /** Replacing one month moves the sum by the change in that month's stored total. */
  lemma SumTotalsReplace(ms: seq<MonthlyData>, k: int, m: MonthlyData)
    requires 0 <= k < |ms|
    ensures SumTotals(ms[k := m]) == SumTotals(ms) - ms[k].total + m.total
  {
    var pre, post := ms[..k], ms[k + 1..];
    assert ms == (pre + [ms[k]]) + post;
    assert ms[k := m] == (pre + [m]) + post;
    SumTotalsAppend(pre + [ms[k]], post);
    SumTotalsAppend(pre, [ms[k]]);
    SumTotalsAppend(pre + [m], post);
    SumTotalsAppend(pre, [m]);
    assert [ms[k]][1..] == [] && [m][1..] == [];
  }

  /** The mean per month: the total divided by the month count, or by 1 when there are no months. */
  function MeanOver(total: real, count: nat): (r: real)
    ensures count > 0 ==> r * count as real == total
    ensures count == 0 ==> r == total
  {
    total / (if count == 0 then 1 else count) as real
  }

  // ---------------------------------------------------------------------------
  // Consistency of the stored figures
  // ---------------------------------------------------------------------------

  /** The month's stored total is the sum of its valid transactions. */
  predicate MonthConsistent(m: MonthlyData)
  {
    m.total == ValidTotal(m.transactions)
  }

  /** The verification's total and average agree with its stored month totals. */
  predicate FiguresConsistent(v: IncomeVerification)
  {
    && v.totalIncome == SumTotals(v.monthlyData)
    && v.averageIncome == MeanOver(v.totalIncome, |v.monthlyData|)
  }

  /** Every stored figure of the verification is the one its transactions determine. */
  predicate Consistent(v: IncomeVerification)
  {
    && FiguresConsistent(v)
    && forall j :: 0 <= j < |v.monthlyData| ==> MonthConsistent(v.monthlyData[j])
  }

  // ---------------------------------------------------------------------------
  // The update
  // ---------------------------------------------------------------------------

  /** The partial transaction an update carries: each field present overrides the transaction's.
      Validity and amount are two of the fields a partial transaction may hold; the grid's toggle
      sends only validity. */
  datatype Patch = Patch(isValid: Option<bool>, amount: Option<real>)

  /** The validity toggle's patch: only the validity flag, set to the opposite of the current one. */
  function TogglePatch(t: Transaction): Patch
  {
    Patch(Some(!t.isValid), None)
  }

  /** The patched transaction: fields the patch names take the patch's value, the rest keep the transaction's. */
  function ApplyPatch(t: Transaction, p: Patch): (r: Transaction)
    ensures r.(isValid := t.isValid, amount := t.amount) == t
    ensures p.isValid.Some? ==> r.isValid == p.isValid.value
    ensures p.isValid.None? ==> r.isValid == t.isValid
    ensures p.amount.Some? ==> r.amount == p.amount.value
    ensures p.amount.None? ==> r.amount == t.amount
  {
    t.(isValid := p.isValid.GetOr(t.isValid), amount := p.amount.GetOr(t.amount))
  }

  /** Patches every transaction whose id is `tid`; all others are kept as they are. */
  function PatchMatching(ts: seq<Transaction>, tid: string, p: Patch): (r: seq<Transaction>)
    ensures |r| == |ts|
    ensures forall k :: 0 <= k < |ts| ==> r[k].id == ts[k].id
    ensures forall k :: 0 <= k < |ts| && ts[k].id != tid ==> r[k] == ts[k]
    ensures forall k :: 0 <= k < |ts| && ts[k].id == tid ==> r[k] == ApplyPatch(ts[k], p)
  {
    seq(|ts|, k requires 0 <= k < |ts| => if ts[k].id == tid then ApplyPatch(ts[k], p) else ts[k])
  }

  /** The edited month: patched transactions and a total re-derived from them. */
  function UpdateMonth(m: MonthlyData, tid: string, p: Patch): (r: MonthlyData)
    ensures r.month == m.month
    ensures r.transactions == PatchMatching(m.transactions, tid, p)
    ensures MonthConsistent(r)
  {
    var ts := PatchMatching(m.transactions, tid, p);
    m.(transactions := ts, total := ValidTotal(ts))
  }

  /** The update applied to one verification whose id matched. */
  function UpdateVerification(v: IncomeVerification, mi: int, tid: string, p: Patch): (r: IncomeVerification)
    requires 0 <= mi < |v.monthlyData|
    ensures r.(monthlyData := v.monthlyData, totalIncome := v.totalIncome, averageIncome := v.averageIncome) == v
    ensures |r.monthlyData| == |v.monthlyData|
    ensures forall j :: 0 <= j < |v.monthlyData| && j != mi ==> r.monthlyData[j] == v.monthlyData[j]
    ensures r.monthlyData[mi] == UpdateMonth(v.monthlyData[mi], tid, p)
    ensures MonthConsistent(r.monthlyData[mi])
    ensures FiguresConsistent(r)
  {
    var months := v.monthlyData[mi := UpdateMonth(v.monthlyData[mi], tid, p)];
    var total := SumTotals(months);
    v.(monthlyData := months, totalIncome := total, averageIncome := MeanOver(total, |months|))
  }

  /** Every verification with id `vid` has a month at index `mi`; otherwise the source
      reads `.transactions` of `undefined` and throws. */
  predicate UpdateDefined(vs: seq<IncomeVerification>, vid: string, mi: int)
  {
    forall i :: 0 <= i < |vs| && vs[i].id == vid ==> 0 <= mi < |vs[i].monthlyData|
  }

  /** The edit applied to the history: every verification whose id is `vid` is updated. */
  function UpdateTransaction(vs: seq<IncomeVerification>, vid: string, mi: int, tid: string, p: Patch)
    : (r: seq<IncomeVerification>)
    requires UpdateDefined(vs, vid, mi)
    ensures |r| == |vs|
    ensures forall i :: 0 <= i < |vs| ==> r[i].id == vs[i].id
    ensures forall i :: 0 <= i < |vs| && vs[i].id != vid ==> r[i] == vs[i]
    ensures forall i :: 0 <= i < |vs| && vs[i].id == vid ==> r[i] == UpdateVerification(vs[i], mi, tid, p)
  {
    seq(|vs|, i requires 0 <= i < |vs| =>
      if vs[i].id == vid then UpdateVerification(vs[i], mi, tid, p) else vs[i])
  }

  /** The error the update throws when a matching verification has no month `mi`. */
  datatype UpdateError = MonthMissing

  /** The update with its failure made explicit. */
  function TryUpdateTransaction(vs: seq<IncomeVerification>, vid: string, mi: int, tid: string, p: Patch)
    : (r: Result<seq<IncomeVerification>, UpdateError>)
    ensures r.Failure? <==> exists i :: 0 <= i < |vs| && vs[i].id == vid && !(0 <= mi < |vs[i].monthlyData|)
    ensures r.Success? ==> r.value == UpdateTransaction(vs, vid, mi, tid, p)
  {
    if UpdateDefined(vs, vid, mi) then Success(UpdateTransaction(vs, vid, mi, tid, p)) else Failure(MonthMissing)
  }

  // ---------------------------------------------------------------------------
  // Properties of the update
  // ---------------------------------------------------------------------------

  /** After an update the touched verification is fully consistent whenever its other months were,
      whatever its previous figures; in particular an update keeps a consistent verification consistent. */
  lemma UpdateRestoresConsistency(v: IncomeVerification, mi: int, tid: string, p: Patch)
    requires 0 <= mi < |v.monthlyData|
    requires forall j :: 0 <= j < |v.monthlyData| && j != mi ==> MonthConsistent(v.monthlyData[j])
    ensures Consistent(UpdateVerification(v, mi, tid, p))
  {
  }

  /** The new total differs from the old month sum only by the edited month's change. */
  lemma UpdateTotalDelta(v: IncomeVerification, mi: int, tid: string, p: Patch)
    requires 0 <= mi < |v.monthlyData|
    ensures var r := UpdateVerification(v, mi, tid, p);
      r.totalIncome == SumTotals(v.monthlyData) - v.monthlyData[mi].total + r.monthlyData[mi].total
  {
    SumTotalsReplace(v.monthlyData, mi, UpdateMonth(v.monthlyData[mi], tid, p));
  }

  /** Toggling a transaction whose id is unique in its month moves both the month total and the
      verification total by exactly its amount: down when it was valid, up when it was not.
      Only the edited month's total and the total income need to agree with what they summarise. */
  lemma ToggleShiftsTotals(v: IncomeVerification, mi: int, k: int)
    requires 0 <= mi < |v.monthlyData|
    requires 0 <= k < |v.monthlyData[mi].transactions|
    requires forall j :: 0 <= j < |v.monthlyData[mi].transactions| && j != k ==>
      v.monthlyData[mi].transactions[j].id != v.monthlyData[mi].transactions[k].id
    requires MonthConsistent(v.monthlyData[mi])
    requires v.totalIncome == SumTotals(v.monthlyData)
    ensures var t := v.monthlyData[mi].transactions[k];
      var delta := if t.isValid then -t.amount else t.amount;
      var r := UpdateVerification(v, mi, t.id, TogglePatch(t));
      && r.monthlyData[mi].total == v.monthlyData[mi].total + delta
      && r.totalIncome == v.totalIncome + delta
  {
    var ts := v.monthlyData[mi].transactions;
    var t := ts[k];
    var p := TogglePatch(t);
    var patched := PatchMatching(ts, t.id, p);
    assert patched == ts[k := ApplyPatch(t, p)];
    ValidTotalReplace(ts, k, ApplyPatch(t, p));
    UpdateTotalDelta(v, mi, t.id, p);
  }

  /** An unknown transaction id changes no transaction, yet the figures are still re-derived;
      on a consistent verification the update is therefore a no-op. */
  lemma UnknownTransactionId(v: IncomeVerification, mi: int, tid: string, p: Patch)
    requires 0 <= mi < |v.monthlyData|
    requires forall k :: 0 <= k < |v.monthlyData[mi].transactions| ==> v.monthlyData[mi].transactions[k].id != tid
    ensures var r := UpdateVerification(v, mi, tid, p);
      && r.monthlyData[mi].transactions == v.monthlyData[mi].transactions
      && r.monthlyData[mi].total == ValidTotal(v.monthlyData[mi].transactions)
      && (Consistent(v) ==> r == v)
  {
    var r := UpdateVerification(v, mi, tid, p);
    assert PatchMatching(v.monthlyData[mi].transactions, tid, p) == v.monthlyData[mi].transactions;
    if Consistent(v) {
      assert r.monthlyData == v.monthlyData;
    }
  }

  /** Applying the same update to one verification twice gives what applying it once gives. */
  lemma UpdateVerificationIdempotent(v: IncomeVerification, mi: int, tid: string, p: Patch)
    requires 0 <= mi < |v.monthlyData|
    ensures var once := UpdateVerification(v, mi, tid, p);
      UpdateVerification(once, mi, tid, p) == once
  {
    var once := UpdateVerification(v, mi, tid, p);
    var ts := v.monthlyData[mi].transactions;
    var ts1 := once.monthlyData[mi].transactions;
    assert PatchMatching(ts1, tid, p) == ts1;
    assert UpdateMonth(once.monthlyData[mi], tid, p) == once.monthlyData[mi];
    assert once.monthlyData[mi := once.monthlyData[mi]] == once.monthlyData;
  }

  /** Applying the same update to the history twice gives what applying it once gives. */
  lemma UpdateTransactionIdempotent(vs: seq<IncomeVerification>, vid: string, mi: int, tid: string, p: Patch)
    requires UpdateDefined(vs, vid, mi)
    ensures UpdateDefined(UpdateTransaction(vs, vid, mi, tid, p), vid, mi)
    ensures var once := UpdateTransaction(vs, vid, mi, tid, p);
      UpdateTransaction(once, vid, mi, tid, p) == once
  {
    var once := UpdateTransaction(vs, vid, mi, tid, p);
    var twice := UpdateTransaction(once, vid, mi, tid, p);
    forall i | 0 <= i < |vs|
      ensures twice[i] == once[i]
    {
      if vs[i].id == vid {
        UpdateVerificationIdempotent(vs[i], mi, tid, p);
      }
    }
  }
}
