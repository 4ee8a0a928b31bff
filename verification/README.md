# Income verification history — a Dafny model

This project models the deterministic record-keeping in the income-verification ("apuração de
renda") front end. An external model reads a bank statement and returns months of classified
incoming transactions. The application then keeps a history list of verifications. On that list
it:

- creates a verification from the model's answer and puts it at the front of the history;
- deletes a verification by id;
- applies the review grid's edits to one transaction, then re-derives the month total, the
  total income and the monthly average;
- builds the two row lists of the spreadsheet export: the summary, and the valid transactions;
- filters the history by client name, ignoring case.

Amounts are `real`: a JavaScript number without binary rounding. Ids, timestamps, the
locale-formatted date, `toUpperCase` and `toLowerCase` are parameters of the functions that
use them.

Modules, one per concern:

- `Wrappers` (wrappers.dfy): `Option` and `Result`.
- `Seqs` (seqs.dfy): `Filter`, which is `Array.prototype.filter`, and `Includes`, which is
  `String.prototype.includes`. Each comes with its characterising lemmas.
- `Types` (types.dfy): `Transaction`, `MonthlyData` and `IncomeVerification`, from
  frontend/types.ts.
- `Ledger` (ledger.dfy): the transaction update and the consistency of the stored figures.
- `History` (history.dfy): creation, prepend and delete.
- `Export` (export.dfy): the row lists of the two export sheets.
- `HistorySearch` (search.dfy): the client-name search.

Behaviour of the code that a reader might not expect, modelled as written:

- An unknown transaction id is not an error. The update changes no transaction but still
  re-derives the figures (`Ledger.UnknownTransactionId`).
- An out-of-range month index makes the code throw. The model has two forms of this.
  `Ledger.UpdateTransaction` requires the index to be in range.
  `Ledger.TryUpdateTransaction` returns `Failure(MonthMissing)` exactly when some record with
  the verification id has no month at that index. When no record has the id, nothing throws,
  whatever the index.
- The average divides by `(months.length || 1)` (`Ledger.MeanOver`). The divisor 1 is never
  used: an update needs the month it edits to exist, so the record always has at least one month
  (`Ledger.UpdateVerification` requires it).
- Creating a verification copies the model's totals and does not derive them. Consistency of
  the stored figures is therefore not a datatype invariant. It is a predicate
  (`Ledger.Consistent`) that updates preserve and restore (`Ledger.UpdateRestoresConsistency`).
- An update recomputes only the edited month. The total income then adds up the stored totals
  of all months, including months that were never recomputed.

## Model

| member | source | states |
|---|---|---|
| `Ledger.ApplyPatch` | frontend/App.tsx:90 | the spread `{...t, ...updates}` replaces exactly the fields the patch names (validity, amount) and keeps every other field, id included |
| `Ledger.PatchMatching` | frontend/App.tsx:90 | every transaction whose id equals the given id is patched, every other one is kept; length, order and ids are unchanged |
| `Ledger.UpdateMonth` | frontend/App.tsx:89-94 | the edited month keeps its label, holds the patched transactions, and its total equals the sum of the amounts of its valid transactions |
| `Ledger.MeanOver` | frontend/App.tsx:98 | the average times the month count gives back the total; with no months the divisor is 1, a case no update reaches |
| `Ledger.UpdateVerification` | frontend/App.tsx:86-100 | only the month list, total and average of the record change; other months are kept; the edited month is re-derived; the total is the sum of the stored month totals and the average is that total over the month count |
| `Ledger.UpdateTransaction` | frontend/App.tsx:84-104 | the history keeps its length and order and every id; records with another id are returned unchanged; each record with the id gets the per-record update |
| `Ledger.TryUpdateTransaction` | frontend/App.tsx:88-90 | the update fails exactly when some record with the id has no month at the index (the source throws there); otherwise it returns the updated history |
| `Ledger.ValidTransactions` | frontend/App.tsx:93 | the valid transactions are kept in their original relative order, and nothing else is kept |
| `Ledger.ValidTransactionsMultiplicity` | frontend/App.tsx:93 | each valid transaction is kept as often as it occurs, and no invalid one is kept |
| `Ledger.ValidTotalReplace` | frontend/App.tsx:93 | replacing one transaction moves the month total by that transaction's change in contribution (its amount when valid, zero otherwise) |
| `Ledger.UpdateRestoresConsistency` | frontend/App.tsx:92-98 | after an update the record is fully consistent whenever its untouched months were, whatever its previous total, average and edited-month total; so an update keeps a consistent record consistent |
| `Ledger.UpdateTotalDelta` | frontend/App.tsx:94-97 | the new total income is the old month-total sum, less the edited month's old stored total, plus its new total |
| `Ledger.ToggleShiftsTotals` | frontend/components/ResultDisplay.tsx:112 | when the edited month's total and the total income agree with what they summarise, the grid's toggle on a transaction with a unique id moves both by exactly its amount: down when it was valid, up when it was not |
| `Ledger.UnknownTransactionId` | frontend/App.tsx:90-98 | an unknown transaction id changes no transaction but still re-derives the month total; on a consistent record the update returns it unchanged |
| `Ledger.UpdateVerificationIdempotent` | frontend/App.tsx:88-100 | applying the same update to a record twice gives the same record as applying it once |
| `Ledger.UpdateTransactionIdempotent` | frontend/App.tsx:85-103 | the same update applied twice to the history is still defined and gives the same history as applying it once |
| `History.WithId` | frontend/App.tsx:60 | a transaction taken from the answer gets the fresh id and keeps all its other fields |
| `History.AdoptMonth` | frontend/App.tsx:58-61 | a month taken from the answer keeps its label, stored total and transactions in order, each with its own fresh id |
| `History.NewVerification` | frontend/App.tsx:50-65 | the new record carries the request's names and text, the given id and time, the answer's months in order, the first and last month labels (or empty strings when there are no months), and the answer's totals with 0 for a missing one |
| `History.Prepend` | frontend/App.tsx:68 | the new record is at the front and the previous history follows unchanged |
| `History.Analyze` | frontend/App.tsx:48-68 | a finished analysis adds exactly one record, at the front: the record built from the answer, with the given id and client; the previous history follows unchanged |
| `History.Delete` | frontend/App.tsx:79 | the result holds exactly the records whose id differs, each as often as before, in their original relative order |
| `History.DeleteAbsentId` | frontend/App.tsx:79 | deleting an id no record carries leaves the history unchanged |
| `History.DeleteIdempotent` | frontend/App.tsx:79 | deleting the same id twice is the same as deleting it once |
| `History.DeleteUndoesAnalyze` | frontend/App.tsx:68-79 | deleting a just-added record whose id is new to the history restores the previous history |
| `History.FreshIdsAreDistinct` | frontend/App.tsx:60 | when the id source never repeats, no two transactions of a created month share an id |
| `History.StatedTotalsAreNotDerived` | frontend/App.tsx:56-63 | when the answer states a total for some month that the month's valid transactions do not add up to, the created record is inconsistent: totals are copied, not derived |
| `History.CreationDoesNotDeriveTotals` | frontend/App.tsx:62-63 | for example, an answer claiming 100 over one empty month yields an inconsistent record, and one update of that month makes it consistent |
| `Export.MonthRows` | frontend/App.tsx:121-123 | one row per month, in month order, holding the month label and its stored total |
| `Export.SummarySheet` | frontend/App.tsx:110-123 | the summary has eight heading rows: the upper-cased client title, the date, a blank row, the "RESUMO FINANCEIRO" title, the total income row, the average row, a blank row and the "DETALHAMENTO MENSAL" title; one label-and-total row per month follows |
| `Export.MonthRowsSum` | frontend/App.tsx:121-123 | the month rows' totals add up to the sum of the stored month totals |
| `Export.SummaryRowsAddUp` | frontend/App.tsx:115-123 | on a record whose figures agree with its months, the month rows add up to the "Renda Total Acumulada" row |
| `Export.MonthDetails` | frontend/App.tsx:134-136 | a month contributes one line per valid transaction, in the transactions' order, each tagged with the month's label; a line is there exactly when some valid transaction of the month yields it |
| `Export.Details` | frontend/App.tsx:133-137 | the lines are the first month's lines followed by those of the remaining months; a line is on the sheet exactly when some month holds a valid transaction it was built from, tagged with that month's label; an invalid one contributes nothing |
| `Export.DetailsAppend` | frontend/App.tsx:133-137 | the lines come month by month: the lines of a split month list are those of its first part followed by those of its second |
| `Export.DetailSheet` | frontend/App.tsx:129-137 | the sheet is the column-title row followed by one six-column row per line, in line order |
| `Export.DetailsSumToTotal` | frontend/App.tsx:133-137 | when every month's total agrees with its transactions, the exported amounts add up to the sum of the month totals |
| `Export.DetailLinesMatchTotal` | frontend/App.tsx:133-137 | on a consistent record the amounts of the exported lines add up to its total income |
| `Export.CellRowsAmounts` | frontend/App.tsx:135 | the VALOR column of the rows built from a list of lines adds up to the lines' amounts |
| `Export.DetailSheetMatchesTotal` | frontend/App.tsx:128-137 | on a consistent record the VALOR cells of the transactions sheet, below its header, add up to its total income |
| `Seqs.IncludesIffOccurs` | frontend/components/HistoryTab.tsx:17 | the substring test holds exactly when the term occurs at some position of the name |
| `HistorySearch.Search` | frontend/components/HistoryTab.tsx:16-18 | the filtered list is an order-preserving subsequence, never longer than the input, and keeps exactly the records whose folded name includes the folded term, each as often as it occurs in the history |
| `HistorySearch.SearchKeepsExactlyContaining` | frontend/components/HistoryTab.tsx:16-18 | a record is kept exactly when it is in the history and the folded term occurs at some position of its folded name |
| `HistorySearch.EmptyTermKeepsAll` | frontend/components/HistoryTab.tsx:14-18 | with the initial empty term every record is listed, in order, provided folding keeps the empty string empty |
| `HistorySearch.LowercasedTermSameResult` | frontend/components/HistoryTab.tsx:17 | searching with a term or with its folded form gives the same list when folding that term is idempotent |
| `HistorySearch.AsciiLower` | frontend/components/HistoryTab.tsx:17 | ASCII folding keeps the length, maps each character on its own, and leaves no upper-case ASCII letter |
| `HistorySearch.AsciiSearchIgnoresCase` | frontend/components/HistoryTab.tsx:17 | with ASCII folding, a term and its lower-cased form find the same records, and the empty term finds all |
| `HistorySearch.SearchExample` | frontend/components/HistoryTab.tsx:16-18 | the term "ana" finds the client "ANA SILVA" and not "Rui" |

## Left out

- The call to the external model and its prompt (frontend/services/geminiService.ts). The period
  window and the exclusion rules exist only as prompt text that no code enforces. The answer is
  a parameter (`History.AnalysisResult`).
- Loading and saving the history in `localStorage` (frontend/App.tsx:29-42). This is browser I/O.
- Building and writing the workbook (frontend/App.tsx:107, 125-126, 139-142). The spreadsheet
  library is foreign code. Only the row lists are modelled.
- `crypto.randomUUID`, `new Date().toISOString()` and `toLocaleString` (frontend/App.tsx:51,
  55, 60, 112). These are nondeterministic, so they are parameters.
- React state: `setCurrentVerification` (frontend/App.tsx:67, 80, 101), the `confirm` dialog
  (frontend/App.tsx:78), the loading and error state, and all rendering.
- Floating-point rounding of JavaScript numbers. Amounts are exact reals. `x || 0` on a NaN
  total is not modelled.
- `History.NewVerification`: the answer's fields are typed. A month without a `transactions`
  array, which would throw in the source, cannot be expressed.
- `HistorySearch.Search`: Unicode case mapping is not modelled. Folding is a parameter, and the
  concrete `AsciiLower` maps only `A`-`Z`.
- `Ledger.Patch`: the patch holds validity and amount, two of the fields a partial transaction
  may carry. The grid's toggle sends only validity, and nothing in the interface edits the
  amount. A patch that overwrote a transaction's id or text fields is not modelled.
