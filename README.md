# Drug usage lookup: query pipeline

This project models the query pipeline of a one-page lookup tool for the 2024
national health-insurance drug claims table, and proves properties of it in
Dafny. The user types an active ingredient. The page keeps every drug record
whose name contains that keyword, ignoring case. It then shows two tables:

- a detail view with one numbered row per matched record (code, name, usage);
- a summary with one numbered row per distinct drug name (name, cumulative
  usage), in ascending name order.

Usage is the record's quantity rounded to one decimal place.

Modules:

- `Wrappers` (`wrappers.dfy`): `Option`, used for a drug name that may be missing.
- `Text` (`text.dfy`): ASCII lower-casing, substring containment, and the
  code-point lexicographic order used to sort group names.
- `Rounding` (`rounding.dfy`): `round(1)` as round-half-to-even on ten times
  the value, over exact numbers.
- `RecordFilter` (`filter.dfy`): a record, the match mask, and the filter.
- `Views` (`views.dfy`): the usage column, the numbered detail view, the
  group-by-name sum as a sorted association list, and the summary view.
- `Query` (`query.dfy`): `Run`, which takes the script's steps in order. It
  does nothing for an empty keyword. Otherwise it filters, adds usage, and
  builds the detail and the summary.

Quantities are exact `real` numbers. Every usage value is a whole number of
tenths, so every group sum is one too. The model therefore proves that the
second rounding (the summary's) changes nothing. As a result, conservation
between the two views is exact.

## Model

| member | source | states |
|---|---|---|
| `Text.Lower` | app.py:13 | the case-insensitive comparison folds every character of a string: same length, each ASCII capital replaced by its small letter, every other character kept |
| `Text.Contains` | app.py:13 | the name contains the keyword exactly when the keyword occurs at some position of the name (both directions) |
| `Text.Below` | app.py:25 | the order in which group names are sorted: no name comes before itself, and a proper prefix comes before every longer name that extends it |
| `Text.BelowTransitive` | app.py:25 | the name order used for groups is transitive |
| `Text.BelowTotal` | app.py:25 | any two different names are ordered one way or the other |
| `Text.BelowAsymmetric` | app.py:25 | two names are never each ordered before the other |
| `Rounding.RoundHalfEven` | app.py:16 | the result is an integer within one half of the argument, and on a tie it is even |
| `Rounding.RoundHalfEvenUnique` | app.py:16 | those two properties determine the rounded integer uniquely |
| `Rounding.Round1` | app.py:16 | one-decimal rounding gives a whole number of tenths within 0.05 of the quantity |
| `Rounding.Round1Fixed` | app.py:27 | rounding a value that is already a whole number of tenths returns it unchanged |
| `Rounding.OnTenthsAdd` | app.py:25 | a sum of two whole numbers of tenths is a whole number of tenths |
| `Rounding.Round1TiesToEven` | app.py:16 | 0.25 rounds to 0.2 and 0.75 to 0.8 (ties go to the even tenth) |
| `RecordFilter.Matches` | app.py:13 | a row passes the mask exactly when its name is present and the lower-cased keyword occurs at some position of the lower-cased name; a missing name never passes |
| `RecordFilter.Filter` | app.py:13 | every kept row is a table row that matches; every matching table row is kept; no kept row lacks a name |
| `RecordFilter.MatchPositionsInTable` | app.py:13 | the matching positions strictly increase and lie inside the table |
| `RecordFilter.MatchPositionsExact` | app.py:13 | the matching positions mark exactly the rows whose name contains the keyword |
| `RecordFilter.FilterAtPositions` | app.py:13 | the filter result is the table read at the matching positions, one row per position, in order |
| `RecordFilter.FilterKeepsOrder` | app.py:13 | the result is an order-preserving subsequence of the table: strictly increasing positions, exactly the matching rows, no row added, dropped or reordered |
| `RecordFilter.FilterAppend` | app.py:13 | filtering a concatenation of two tables is the concatenation of their filters |
| `RecordFilter.MatchesIgnoresKeywordCase` | app.py:13 | two keywords with the same lower-case form select the same rows |
| `RecordFilter.MatchesIgnoresNameCase` | app.py:13 | two drug names with the same lower-case form match the same keywords |
| `RecordFilter.IbuprofenMatchesProfen` | app.py:13 | the name "Ibuprofen 400mg" matches the keyword "PROFEN" |
| `Views.WithUsage` | app.py:16 | the usage column is added to every row: a whole number of tenths within 0.05 of the quantity; code, name and quantity are kept |
| `Views.DetailView` | app.py:19-20 | one detail row per matched row, in order, numbered 1 to n, carrying that row's code, name and usage |
| `Views.AccumulateNames` | app.py:25 | adding a row to the groups adds its name to the group names and no other name |
| `Views.AccumulateKeyTotal` | app.py:25 | adding a row raises its name's total by its usage and leaves every other name's total unchanged |
| `Views.AccumulateSum` | app.py:25 | adding a row raises the sum of all group totals by exactly its usage |
| `Views.AccumulateAscending` | app.py:25 | adding a row to groups in ascending name order keeps them in ascending order |
| `Views.GroupByName` | app.py:25 | the group-by-name sum: group names strictly ascend and are exactly the names present among the rows (rows without a name join no group); for every name the recorded total is the usage of the rows with that name; the totals add up to the usage of all named rows |
| `Views.KeyTotalOfGroup` | app.py:25 | in an ascending rollup each group holds the whole total recorded for its name |
| `Views.NamesDistinct` | app.py:25 | no name labels two groups of an ascending rollup |
| `Views.GroupTotals` | app.py:25 | each group's total equals the summed usage of the rows with that group's name |
| `Views.UsageOfOnTenths` | app.py:16 | when every usage is a whole number of tenths, so is every per-name sum |
| `Views.NamedUsageAll` | app.py:25 | when every row has a name, the named usage is the usage of all rows |
| `Views.SummaryView` | app.py:26-28 | one summary row per group, in order, numbered 1 to m, with the group's name and its total rounded to a whole number of tenths within 0.05 |
| `Views.RollupNames` | app.py:25 | the summary of a set of records has strictly ascending names, and they are exactly the names of those records |
| `Views.SummaryTotalsExact` | app.py:16-27 | the second rounding changes nothing: each summary total equals the group sum and the summed usage of the records with that name |
| `Views.RollupConserves` | app.py:16-27 | when every record has a name, the summary totals add up to the detail usages |
| `Views.AspirinRollup` | app.py:16-28 | two "Aspirin 100mg" rows with quantities 10.0 and 20.5 give a single summary row, number 1, totalling 30.5 |
| `Query.Run` | app.py:11-28 | no views for an empty keyword; otherwise the detail view has one row per matched record in table order, numbered 1 to n, with usage the rounded quantity; the summary has strictly ascending distinct names equal to the matched names, numbered 1 to m, each total the summed usage for that name; and the summary totals add up to the detail usages |

## Left out

- The page layout, text input, tables and download button (app.py:4, 9, 21-22, 29-30, 35-40) are presentation only.
- Reading the CSV file (app.py:7) and writing the summary as UTF-8-with-signature CSV (app.py:34) are I/O. The serialiser's quoting rules are part of the data-frame library, which is not part of this model.
- Floating point: quantities are exact rationals (`real`). Round-off in the float sums, and the float representation of values such as 0.35, are not modelled. In floats the second rounding (app.py:27) can differ from the exact group sum; in the model it cannot.
- `Rounding.Round1`: models numpy's round-half-to-even on ten times the value exactly, not its float arithmetic.
- `RecordFilter.Filter`: the data-frame `str.contains` treats the keyword as a regular expression. The model uses literal substring containment, so keywords with regex metacharacters (`.`, `(`, `+`, ...) behave differently. A malformed pattern, which raises an error in the source, is not modelled.
- `Text.Lower`: lower-cases ASCII letters only. Python's case-insensitive matching also folds non-ASCII letters. Characters with no case, such as CJK drug names, are the same either way.
- A quantity that is missing (NaN) is not modelled: every quantity is a number.
- A name cell holding a non-string value is treated like a missing name: neither matches the filter.
- Grouping drops rows without a name, as the data-frame default does. The model keeps that behaviour, and after the filter no such row exists.
- The order of addition inside a group is not modelled: exact sums do not depend on it.
