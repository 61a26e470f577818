# Trade ledger and dashboard figures, in Dafny

This project models the core of a small performance dashboard for a
brokerage account, `app.py`. The dashboard reads a brokerage year-to-date
export. `process_tasty_tax_document` turns that export into a trade
ledger. Each row gets a ticker, a long/short side, close and open dates,
open and close costs, P/L, and the running total of P/L in order of close
date. The dashboard then filters the ledger into a view, using selected
symbols and an inclusive close-date range. From the view it computes the
"P/L last" and "P/L max" figures and two per-day series for the chart.

The model is split into four modules, plus one worked example:

- `Text` covers the string work of the export.
  - The ticker is the piece at index 1 after splitting the description on runs of spaces.
  - Every `$` is removed from a cost.
  - The remaining text is read as a decimal number.
- `Ledger` covers the transformation itself.
  - Each column is derived in the order the source derives them, so the first failing step decides the error.
  - The ledger is sorted in place by close date (`SortByCloseDate`, a method on an array).
  - A loop adds the running total (`CumulativeSum`).
  - `ProcessTastyTaxDocument` is proved against `IsLedgerOf`. Its result holds the same trades, each once, sorted by close date, each carrying the sum of P/L up to and including itself.
- `Dashboard` covers the view filter, the two headline figures and the per-day groups.
- `Scenario` works a two-trade ledger through.

Dates are day numbers. The date parser is a parameter: a function from text to an optional day number. Amounts are exact reals.

In several places the code does not do what a reader of its column names might expect. The model follows the code:

- **Sorting.** A stable sort would keep same-day trades in export order. pandas' default `sort_values` is a quicksort and promises no order for them. The model therefore promises sorted order and a permutation, and nothing about the order of trades that close on the same day. On the whole, unfiltered ledger the chart's per-day line does not depend on that order (`Dashboard.DailyLineIsTotalToDate`). On a filtered view it can, and so can "P/L max" (see "## Left out").
- **Empty input.** An empty export does not give an empty ledger. An export in which no description contains a space, the empty export included, has no column at index 1 after the split, and the code fails on `[1]`. The model reports this as `NoSymbolColumn`.
- **Splitting.** The split pattern is the space character only, so a tab does not separate pieces.
- **OPEN DATE** would be expected to come from the OPEN_DATE column. The code takes it from the parsed close date (app.py:33).
- **Sign of P/L.** OPEN_COST comes from NO_WS_PROCEEDS and CLOSE_COST from NO_WS_COST, so P/L (`OPEN_COST - CLOSE_COST`) is proceeds minus cost: $150.00 of proceeds against a $100.00 cost gives +50 (`Scenario.ScenarioLedger`).
- **Error contents.** The code raises pandas' error, which carries the text of the first cell it rejects; the model's error carries that text too. Some pandas versions (2.0 and later, for dates) also give the cell's position; the model does not. The lemmas name the row.

## Model

| member | source | states |
|---|---|---|
| Text.Tokens | app.py:22 | splitting on runs of spaces yields at least one piece, no piece contains a space, and only the first and last pieces can be empty |
| Text.Symbol | app.py:22 | the symbol is missing exactly when the description contains no space; a present symbol contains no space |
| Text.SingleToken | app.py:22 | a description splits into a single piece exactly when it contains no space |
| Text.TokensAfterRun | app.py:22 | a run of spaces after a first piece separates it from the pieces of the rest |
| Text.SymbolOf | app.py:22 | for a description made of a first piece, a run of spaces, a ticker, then nothing or a space, the symbol is that ticker; with an empty first piece this is the leading-space case |
| Text.StripDollar | app.py:25-26 | the result contains no `$` and is no longer than the input |
| Text.StripDollarConcat | app.py:25-26 | removing `$` from a concatenation removes it from each part |
| Text.StripDollarUnchanged | app.py:25-26 | text without `$` is left unchanged |
| Text.ParseAmountAccepts | app.py:36-37 | `ParseAmount`, the model of `float()` applied to one cell: a cost converts exactly when it is an optional sign followed by digits with at most one point and at least one digit |
| Text.ParseUnsignedDecimal | app.py:36-37 | digits, a point and digits, with a digit on at least one side ("1.25", "5.", ".5"), read as whole part plus fraction |
| Text.SignedAmount | app.py:36-37 | an optional "+" or "-" in front of a well-formed unsigned decimal reads as that decimal's value, negated for "-" |
| Text.ParseUnsignedDigits | app.py:36-37 | digits without a point ("150") read as the number they denote |
| Text.NatDigitsValue | app.py:36-37 | the decimal digits of a natural number read back as that number |
| Text.FormatCentsParses | app.py:36-37 | an amount written in cents reads back as its exact value |
| Text.DollarPrefixRemoved | app.py:25-26 | a leading `$` before text without one is removed and the rest kept |
| Text.FormatThenParse | app.py:36-37 | `ParseAmount` after `$` removal: an amount written in cents behind a `$` reads back as its exact value |
| Ledger.SideOf | app.py:29 | the side is Short exactly for the code "S" and Long exactly for "L"; any other code is Unknown |
| Ledger.ParseColumn | app.py:32-37 | converting a whole column either fails at some cell or gives one value per cell |
| Ledger.ParseColumnValues | app.py:32-37 | a column converts exactly when every cell converts, and then holds each cell's value at the same index |
| Ledger.ParseColumnFirstFailure | app.py:32-37 | a failed column conversion reports the first cell, in row order, that does not convert |
| Ledger.HasSymbolColumn | app.py:22 | an empty export has no column at index 1 after the split, so `[1]` fails on it (exactly when the column exists is stated by `Ledger.NoSymbolColumnExactly`) |
| Ledger.DeriveRow | app.py:22-38 | one row's trade has OPEN DATE equal to CLOSE DATE, the given close date and costs, and P/L equal to open cost minus close cost; its symbol is missing exactly when the description has no space, and its side is Unknown exactly for a code other than "S" and "L" |
| Ledger.DeriveTrades | app.py:22-38 | on success there is one trade per export row |
| Ledger.DeriveTradesRows | app.py:22-38 | each derived trade carries its row's symbol, type and side. Its close date and both costs are the row's converted cells. OPEN DATE equals CLOSE DATE, and P/L is open cost minus close cost |
| Ledger.NoSymbolColumnExactly | app.py:22 | the missing-symbol-column error happens exactly when no description contains a space, the empty export included |
| Ledger.DeriveTradesOk | app.py:22-38 | the export yields trades exactly when some description has a symbol and every date and cost cell converts |
| Ledger.DeriveTradesSucceeds | app.py:22-38 | the export yields trades exactly when some description has a symbol, every close date parses and both costs of every row are well-formed decimals after removing `$` |
| Ledger.BadCloseDateIsFirst | app.py:32 | a bad close date is reported only when the symbol column exists, and names the first row whose close date does not parse |
| Ledger.BadCloseCostIsFirst | app.py:36 | a bad close cost is reported only when every close date parses, and names the first row whose cost does not convert once `$` is removed |
| Ledger.BadOpenCostIsFirst | app.py:37 | a bad open cost is reported only when every close date parses and every close cost is well formed, and names the first row whose proceeds do not convert |
| Ledger.OpenDateIgnored | app.py:32-33 | the raw OPEN_DATE cells never influence the result |
| Ledger.SortByCloseDate | app.py:41 | afterwards the array is sorted by ascending close date and is a permutation of its previous contents |
| Ledger.SinkInto | app.py:41 | one insertion step extends the sorted prefix by one trade, leaves the rest alone and keeps the multiset |
| Ledger.SwapDown | app.py:41 | exchanging two neighbours keeps the multiset of trades |
| Ledger.CumulativeSum | app.py:42 | entry i holds trade i unchanged plus the sum of P/L over trades 0 to i |
| Ledger.BuildLedger | app.py:41-42 | the result has one entry per trade and is the ledger of the trades: the same trades, each once, sorted by close date, with running totals |
| Ledger.ProcessTastyTaxDocument | app.py:12-48 | the result is an error exactly when the derivation fails, with that error; otherwise it has one entry per export row and is the ledger of the derived trades (same trades, each once, sorted by close date, running totals) |
| Ledger.TotalPLConcat | app.py:42 | the P/L total of a concatenation is the sum of the parts' totals |
| Ledger.TotalPLRemove | app.py:42 | removing one trade removes its P/L from the total |
| Ledger.MultisetRemove | app.py:41-42 | taking one trade out of a sequence takes one copy of it out of its multiset |
| Ledger.TotalPLPermutation | app.py:41-42 | the P/L total does not depend on the order of the trades |
| Ledger.CumulatedStep | app.py:42 | the first running total is the first P/L; each later one is the previous total plus its own P/L |
| Ledger.CumulatedRisesIffGain | app.py:42 | the running total does not fall from one entry to the next exactly when the later P/L is not negative |
| Ledger.LastCumulatedIsTotal | app.py:41-42 | the last running total is the total P/L of all trades |
| Ledger.EntriesComeFromExport | app.py:22-46 | every ledger entry is derived from some export row, with OPEN DATE equal to CLOSE DATE and P/L equal to open cost minus close cost |
| Dashboard.SymbolsOf | app.py:63 | every ledger symbol, the missing one included, is in the set and nothing else is |
| Dashboard.Filter | app.py:72-75 | an entry is in the view exactly when it is in the ledger, its symbol is selected and its close date is within the inclusive range |
| Dashboard.Selection | app.py:62-63 | a non-empty selection is used as it is; an empty one covers every ledger symbol |
| Dashboard.View | app.py:62-75 | with a selection, the view holds exactly the ledger entries that are selected and in range; with none, exactly those in range |
| Dashboard.FilterConcat | app.py:72-75 | filtering a concatenation concatenates the filtered parts, so the view keeps ledger order |
| Dashboard.FilterCount | app.py:72-75 | each entry occurs in the view as often as in the ledger if it passes, otherwise not at all |
| Dashboard.FilterAgrees | app.py:72-75 | two selections that agree on the ledger's symbols give the same view |
| Dashboard.EmptySelectionSelectsAll | app.py:62-63 | selecting nothing gives the same view as selecting every ledger symbol or any larger set |
| Dashboard.FilterKeepsAll | app.py:72-75 | a filter every entry passes returns the ledger unchanged |
| Dashboard.FullRangeShowsLedger | app.py:62-75 | no selection and a range spanning every close date give back the whole ledger |
| Dashboard.FilterKeepsOrder | app.py:72-75 | the view of a ledger sorted by close date is sorted by close date |
| Dashboard.Truncate | app.py:80-81 | the integer is the real with its fraction dropped toward zero |
| Dashboard.PlLast | app.py:80 | "P/L last" is the view's summed P/L truncated toward zero, and 0 for an empty view |
| Dashboard.PlLastOfWholeLedger | app.py:80 | on the whole ledger "P/L last" is the last running total, truncated |
| Dashboard.MaxCumulated | app.py:81 | there is no maximum exactly when the view is empty; otherwise it is a running total of the view and no entry's running total exceeds it |
| Dashboard.PlMax | app.py:81 | "P/L max" is absent exactly for the empty view; otherwise it is the truncation of some entry's running total and at least the truncation of every entry's |
| Dashboard.TruncateMonotone | app.py:81 | truncation keeps the order between running totals and their maximum |
| Dashboard.Lookup | app.py:93-96 | a series has a value at a date exactly when the date is one of its dates |
| Dashboard.Put | app.py:93-96 | adding a value at a date adds exactly that date to the series' dates |
| Dashboard.PutAscending | app.py:93-96 | adding a value keeps the dates strictly ascending |
| Dashboard.LookupPut | app.py:93-96 | adding a value changes the series only at its date: a new point, or the old value combined with it |
| Dashboard.Group | app.py:93-96 | the group keys are strictly ascending and are exactly the close dates of the view |
| Dashboard.GroupLast | app.py:93 | keys ascend, and each date's value is the running total of the last view entry closing on that date |
| Dashboard.GroupSum | app.py:96 | keys ascend, and each date's value is the summed P/L of the view entries closing on that date |
| Dashboard.LastOn | app.py:93 | the value exists exactly when some entry closes on the date, and is the running total of an entry on that date with no later entry on that date |
| Dashboard.GroupLastValues | app.py:93 | the fold for the line series agrees at every date with the last entry of that date |
| Dashboard.GroupSumValues | app.py:96 | the fold for the bar series agrees at every date with the day's summed P/L |
| Dashboard.DayPLAbsent | app.py:96 | a date no entry closes on has no P/L |
| Dashboard.SumValuesPut | app.py:96 | adding a P/L to the bar series raises its total by that P/L |
| Dashboard.DailyBarsAddUp | app.py:96 | the daily P/L bars add up to the view's total P/L, the sum that "P/L last" truncates |
| Dashboard.ClosedByCount | app.py:93 | trades closed by the date keep their multiplicity; later ones vanish |
| Dashboard.ClosedByPermutation | app.py:93 | reordering the trades does not change which are closed by a date |
| Dashboard.SortedClosedBy | app.py:93 | in sorted trades, those closed by a date run up to the last one closing on it |
| Dashboard.LastOnIsTotalToDate | app.py:93 | in a ledger, the last entry closing on a date carries the total P/L of all trades closed by that date |
| Dashboard.DailyLineIsTotalToDate | app.py:93 | on the whole ledger, the line's value at every close date is the total P/L of the trades closed by then, whatever order the sort left same-day trades in |
| Scenario.ScenarioLedger | app.py:38-42 | with an AAPL gain of 50 closing after an MSFT loss of 10, the ledger lists MSFT first with running total -10, then AAPL with 40 |
| Scenario.PairLedger | app.py:41-42 | two trades in close-date order, each with its running total, form a ledger of them |
| Scenario.SameDayOrdersAreLedgers | app.py:41 | two trades closing on the same day, a gain of 10 and a loss of 20, form a ledger in either order |
| Scenario.SameDayOrderDecidesPlMax | app.py:81 | "P/L max" of those two ledgers is 10 in one order and -10 in the other |

## Left out

- The Streamlit page is not modelled: the sidebar widgets, file upload, metrics display, table display and the Plotly chart (app.py:50-98 apart from the expressions above). The option list of the symbol multiselect (app.py:59-61) is not modelled either; the selection is any set of symbols.
- `pd.read_csv` is not modelled. Every cell is taken to be text. A column that pandas infers as numeric is outside the model.
- Missing values are not modelled. By default `pd.read_csv` reads an empty cell and the texts "N/A", "NA", "n/a", "#N/A", "#N/A N/A", "#NA", "NULL", "null", "NaN", "nan", "-NaN", "-nan", "1.#IND", "1.#QNAN", "-1.#IND", "-1.#QNAN", "<NA>" and "None" as missing values, not as text. A missing cost becomes NaN, so its P/L is NaN. `cumsum` skips NaN, so that entry's running total is NaN while later entries carry on from the last number, and there is no error. The model reads such a cell as the text itself, so "N/A" as a cost gives `BadCloseCost` or `BadOpenCost`. A missing close date becomes NaT rather than an error.
- Missing columns are not modelled. `Ledger.RawRecord` always has all seven columns. In the code a missing SEC_DESCR raises `KeyError` at app.py:22. NO_WS_PROCEEDS or NO_WS_COST raises at app.py:25-26, LONG_SHORT_IND at app.py:29 and CLOSE_DATE at app.py:32. A missing SEC_TYPE raises only at the column projection (app.py:44-45), after every conversion has succeeded. A missing OPEN_DATE raises nothing, since app.py:33 creates that column.
- `usd_to_eur` (app.py:7-9) is not modelled. It is never called, and it refers to names that do not exist.
- "P/L annualized" (app.py:82) is not modelled. It is a floating-point division by the ledger's day span, which is zero when all trades close on the same day.
- `pd.to_datetime` (app.py:32) is a parameter of the model, a function from text to an optional day number. Its date grammar is not modelled. pandas 2.0 and later guess one format from the first cell and apply it to the whole column (earlier versions parse each cell on its own). Such a version can therefore reject a column in which every cell would parse on its own, for example "01/02/2023" followed by "2023-01-03". The per-cell parser parameter cannot express that.
- Text.ParseAmountAccepts: covers only a plain decimal, with an optional sign, digits and at most one point. Python's `float` also accepts surrounding whitespace, exponents, digit underscores, `inf` and `nan`; those texts are rejected here.
- IEEE double rounding in the costs, P/L, the running total and the sums is not modelled, because amounts are exact reals.
- Ledger.SortByCloseDate: promises sorted order and a permutation only. pandas' quicksort leaves same-day trades in some fixed order that the model does not reproduce, so the ledger is determined only up to the order of same-day trades. This also means the model states "the same input gives the same output" only up to that order.
- Ledger.SortByCloseDate: uses an in-place insertion sort; the algorithm pandas uses is not modelled, only its result.
- Ledger.ProcessTastyTaxDocument: a conversion error carries the offending cell's text, not its row number. The row is stated by `Ledger.BadCloseDateIsFirst`, `Ledger.BadCloseCostIsFirst` and `Ledger.BadOpenCostIsFirst`.
- Dashboard.PlMax: depends, like the per-day line on a filtered view (`Dashboard.GroupLast` of a `Dashboard.View` that leaves out some trades), on the order the sort leaves same-day trades in, which the model does not fix. Two trades closing on the same day with P/L +10 and -20 give running totals 10 then -10 in one order and -20 then -10 in the other. Selecting only the first trade then shows 10 or -10. `Scenario.SameDayOrdersAreLedgers` and `Scenario.SameDayOrderDecidesPlMax` state this case. Only the whole-ledger line is order-independent (`Dashboard.DailyLineIsTotalToDate`).
- Dashboard.PlMax: returns no value for an empty view. The source raises there, because it converts the NaN maximum to an integer.
- The column projection and renaming (app.py:44-46) is the field order of `Ledger.Entry` and has no member of its own.
- The worked examples in `Scenario` start from the derived trades. Reading its raw description and dollar texts is covered by the general lemmas `Text.SymbolOf` and `Text.FormatThenParse`, not by a concrete instance.
