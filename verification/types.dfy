/** The record types of the income-verification history (frontend/types.ts).
    Monetary amounts are `real`: a JavaScript number without its binary rounding. */
module Types {
  import opened Wrappers

  /** One incoming bank entry. `id` is synthetic and stays fixed across edits. */
  datatype Transaction = Transaction(
    id: string,
    date: string,
    description: string,
    amount: real,
    bank: string,
    sender: string,
    isValid: bool,
    exclusionReason: Option<string>)

  /** One month of a verification. `total` is a stored figure: it is re-derived only when the
      month is edited, so nothing ties it to `transactions` by construction. */
  datatype MonthlyData = MonthlyData(month: string, total: real, transactions: seq<Transaction>)

  /** One analysis run for a client, as kept in the history list. */
  datatype IncomeVerification = IncomeVerification(
    id: string,
    clientName: string,
    fatherName: Option<string>,
    motherName: Option<string>,
    createdAt: string,
    periodStart: string,
    periodEnd: string,
    monthlyData: seq<MonthlyData>,
    totalIncome: real,
    averageIncome: real,
    rawInput: string)
}
