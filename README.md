# Household finance dashboard: period window, balance and paid-flag save

This project models the logic of the household finance dashboard's `app.py`.
The dashboard shows recurring fixed charges (`sabit_gider`) in an editable
table where each row has a paid checkbox (`odendi`). It also shows the income
and expense entries (`gelir_gider`) of the current month and a running balance.
A save button writes the paid flags back to the hosted store.

Four modules:

- `Records`: the rows of the two tables. A `Date` is a (year, month, day)
  triple, a `Transaction` has a date, a description, an amount and a kind
  (`tur`), and a `FixedCharge` has an id, a description, an amount and a paid
  flag. Amounts are exact integers in minor units. The kind is kept as free
  text, so rows whose kind is neither `"Gelir"` (income) nor `"Gider"`
  (expense) can be represented.
- `Period`: the month window. Its start is today's date with the day set to 1.
  A transaction is selected when its date is on or after that start, with no
  upper bound. `ThisMonth` is the store query that applies this test.
- `Ledger`: the income total, the expense total, the total of fixed rows
  marked paid in the editor, and the balance, which is income minus expense
  minus paid fixed charges. Each total is a filter followed by a sum, as in the
  source. The paid total is taken from the editor's current rows, so a ticked
  box counts before it is saved. The lemmas relate the totals to a row-by-row
  reference definition (`NetFlow`, `PaidAmount`). They also show that the sums
  distribute over concatenation, ignore row order and are non-negative for
  non-negative amounts, and that ticking or clearing one box moves the balance
  by exactly that row's amount.
- `Dashboard`: the store (class `Store`, the fixed charges as a map keyed by
  id plus the transaction table) and the session cache (class `Session`, the
  two cached tables, absent until loaded). `LoadIfMissing` is the load guard.
  It tests only the cached fixed charges and then fetches both tables.
  `SaveChanges` is the save button. It loops over the editor rows and issues
  one paid-flag update per row, then drops the cached fixed charges. Its result
  is specified by `SavedTable`, and the lemmas about `SavedTable` state three
  things. Every edited id gets the row's flag, with the last row winning when
  ids repeat. No other record changes. The description and amount are never
  written, even when the user edited them in the table. After the reload an
  edited amount is replaced by the stored one, and the balance changes
  (`EditedAmountIsNotSaved`).

`app.py` saves all rows in one batch when the button is pressed and has no
error handling. An update whose id matches no record changes nothing and
creates nothing. After a save, `app.py` drops the cached fixed charges, and the
next run's guard reloads both tables.

## Model

| member | source | states |
|---|---|---|
| `Period.MonthStart` | app.py:16-17 | The window start has today's year and month. For a valid today it is a valid date not after today, and it is not after any valid date of that month, so it is the month's first day. |
| `Period.InPeriod` | app.py:24 | A valid date is selected exactly when its (year, month) is not before today's. The first day of the month is included and so is every future date. |
| `Period.ThisMonth` | app.py:22-25 | The query result holds exactly the table rows whose date is on or after the month start, and no more rows than the table. |
| `Period.ThisMonthKeepsEveryCopy` | app.py:22-25 | Each row of the period occurs in the query result as often as in the table, and no other row occurs. |
| `Period.ThisMonthAppend` | app.py:22-25 | The query on two tables joined is the query on the first followed by the query on the second. |
| `Period.EarlierDateIgnored` | app.py:24 | A transaction dated before the month start never reaches the selection, wherever it stands in the table. |
| `Ledger.IncomeTotal` | app.py:37 | The income total, with its empty-table guard, is the sum of the amounts of the rows of kind `Gelir`. |
| `Ledger.ExpenseTotal` | app.py:38 | The expense total, with its empty-table guard, is the sum of the amounts of the rows of kind `Gider`. |
| `Ledger.PaidFixedTotal` | app.py:63 | The sum over the paid mask equals the row-by-row sum in which a paid row adds its amount and an unpaid row adds 0. |
| `Ledger.Balance` | app.py:64 | The balance is the row-by-row net flow of the transactions minus the row-by-row paid total of the editor rows. |
| `Ledger.OfKind` | app.py:37-38 | The kind mask keeps exactly the rows whose `tur` equals the given kind. |
| `Ledger.OfKindKeepsEveryCopy` | app.py:37-38 | Each row of the given kind occurs in the mask's result as often as in the input, and no other row occurs. |
| `Ledger.PaidRows` | app.py:63 | The paid mask keeps exactly the editor rows whose `odendi` is true. |
| `Ledger.PaidRowsKeepsEveryCopy` | app.py:63 | Each paid editor row occurs in the mask's result as often as in the input, and no unpaid row occurs. |
| `Ledger.KindTotalAppend` | app.py:37-38 | The per-kind sum of a concatenation is the sum of the per-kind sums. |
| `Ledger.IncomeExpenseAppend` | app.py:37-38 | Income and expense totals, including the empty-table guard, distribute over concatenation. |
| `Ledger.PaidTotalAppend` | app.py:63 | The paid-fixed total distributes over concatenation of editor rows. |
| `Ledger.IncomeMinusExpenseIsNetFlow` | app.py:37-38 | Income minus expense equals the row-by-row net flow, in which income adds, expense subtracts and any other kind adds 0. The empty-table guard agrees with the sums, so an empty table gives 0. |
| `Ledger.RecordedTransaction` | app.py:37-38 | One more transaction moves the balance by its effect. A row of any other kind leaves the balance unchanged. |
| `Ledger.TotalsNonNegative` | app.py:37-63 | With non-negative amounts, income, expense and the paid-fixed total are non-negative, and the paid total is at most the sum of all fixed amounts. |
| `Ledger.NothingRecordedZeroBalance` | app.py:62-64 | With no transactions and no row marked paid, the balance is 0. |
| `Ledger.PaidTotalUpdate` | app.py:63 | Replacing one editor row changes the paid-fixed total by the difference of the two rows' paid amounts. |
| `Ledger.MarkPaid` | app.py:63-64 | Ticking an unpaid row lowers the balance by exactly that row's amount. |
| `Ledger.MarkUnpaid` | app.py:63-64 | Clearing a paid row raises the balance by exactly that row's amount. Clearing and then ticking gives back the original rows. |
| `Ledger.KindTotalPermutation` | app.py:37-38 | The per-kind sums depend only on the multiset of rows, not their order. |
| `Ledger.BalanceIgnoresOrder` | app.py:25-38 | Income, expense and balance are the same for any order of the fetched rows, so the date-descending order of the query does not affect them. |
| `Dashboard.PatchPaid` | app.py:75 | One update keeps the table's ids and every other record. The matching record gets only its `odendi` replaced. A missing id changes nothing. |
| `Dashboard.SavedTable` | app.py:74-75 | The batch of updates creates and deletes no record: the saved table has the same ids as before. |
| `Dashboard.ReloadedRows` | app.py:73-79 | What the reload shows is the stored rows in listing order, each with the editor's flag. When the editor changed only flags, that is exactly the editor rows. |
| `Dashboard.LastFlag` | app.py:74-75 | Gives no flag exactly when no editor row has the id. Otherwise it gives the flag of the last row with that id: no later row has it. |
| `Dashboard.SavedTableAt` | app.py:74-75 | Saving keeps the store's ids. Each record becomes the old record with the last editor flag for its id written over it, or stays as it was when no row has its id. |
| `Dashboard.SaveAgreesWithEditor` | app.py:74-75 | With distinct ids, each edited row's stored record is the old record with only `odendi` set to the row's flag. Description and amount are not written. |
| `Dashboard.SaveLeavesOthers` | app.py:74-75 | A record whose id is in no editor row is untouched by the save. |
| `Dashboard.SaveIdempotent` | app.py:73-75 | Saving the same editor rows twice stores what saving once stores. |
| `Dashboard.SavedRowsAreEdited` | app.py:74-75 | If the editor rows came from the store's id-ordered listing and only paid flags changed, then after the save the store holds each editor row exactly as edited. |
| `Dashboard.ReloadAfterEdit` | app.py:49-79 | Suppose the editor rows keep the listing's ids in order, with any description, amount or flag edited. Then after the save the store's id-ordered listing is the old records with the editor's flags. Edited descriptions and amounts are lost. |
| `Dashboard.EditedAmountIsNotSaved` | app.py:49-75 | An unpaid charge of 100 is edited to 150 and ticked. The balance the editor shows subtracts 150. The balance from the reloaded rows subtracts the stored 100. |
| `Dashboard.ReloadAfterSave` | app.py:73-79 | Suppose the editor rows came from the store's id-ordered listing and only paid flags changed. Then after the save the store's listing is exactly the editor rows. |
| `Dashboard.Store.UpdatePaid` | app.py:75 | The update sets `odendi` on the record with that id and changes nothing else. A missing id leaves the table unchanged. |
| `Dashboard.LoadIfMissing` | app.py:30-33 | With no cached fixed charges, both tables are loaded: the fixed charges in id order and the transactions of this month. Otherwise the session is unchanged. |
| `Dashboard.SaveChanges` | app.py:73-79 | The store becomes `SavedTable` of the old store and the editor rows. The cached fixed charges are dropped and the cached transactions are kept. |
| `Dashboard.SaveAndReload` | app.py:30-79 | The editor rows keep the cached listing's ids in order, and any other field may be edited. After a save and the rerun it triggers, the store is `SavedTable` of the old store. The session holds the reloaded rows, that is, the stored records with the editor's flags, and this month's transactions. The balance is computed from the reloaded rows. When only flags were edited, the session holds the editor rows. If the cached transactions were also this month's selection, the balance equals the one the editor showed. |

## Left out

- Page configuration, columns, titles, captions, the data editor's rendering and column settings, metric formatting, the sidebar and the popover are presentation and are not modelled. The popover's entry form is cut off in the source, so no transaction entry or amount validation is modelled.
- Creating the store client and reading its secrets are not modelled, because they are configuration.
- The store queries are represented by their results. The id-ordered select is a parameter constrained by `IsListing`, which is the store's promise of every record once in ascending id order. The date filter is `ThisMonth`. The date-descending order is not modelled, and `BalanceIgnoresOrder` shows it does not affect any total.
- Store failures (network, authentication) are not modelled. The source does not handle them: an exception stops the script.
- DataFrame mechanics are not modelled. Rows are sequences of datatypes.
- An empty `sabit_gider` table is not modelled as the source handles it. Its DataFrame has no columns, so the column selection at app.py:51 raises before the paid total at app.py:63 is computed, and the fixed table has no empty guard like the one at app.py:37-38. The model instead continues with an empty sequence and a paid total of 0.
- A missing (null) `odendi` is not modelled. The flag is a plain boolean.
- Today's date is a parameter instead of a clock read. The date sent to the store as an ISO string and compared there as a date is modelled as the lexicographic order on (year, month, day).
- Amounts are exact integers in minor units, not floating point, and display rounding is not modelled.
- `st.success` and `st.rerun` are not modelled as calls. The rerun appears only as the call to `LoadIfMissing` in `SaveAndReload`.
- After the rerun, the editor's rows are taken to be the reloaded rows. State the data editor keeps across reruns under its widget key is not modelled.
- Concurrent editing by several users is not modelled, because the source does not address it.
