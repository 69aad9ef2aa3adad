# Natality dashboard pipeline, modelled in Dafny

`app.py` is a Streamlit script that shows births by state and gender. It loads
the provisional natality table and normalizes the column headers. It checks
that six logical fields are present, then coerces `births` to numbers and
drops the rows where that failed. Three sidebar multiselects (month, sex of
infant, state of residence) offer `"All"` plus the column's distinct values.
The script filters the table by them and stops with a warning when nothing
is left. Otherwise it sums `births` per (state, gender) pair, sorts by state
and charts the result.

This project models that pipeline:

- `seqs.dfy`, modules `Seqs` and `Sorting`: duplicate-free sequences,
  subsequences, `Series.unique()`, and a stable sort by a total preorder.
- `string_order.dfy`, module `StringOrder`: Python's code-point
  lexicographic order on `str`, and `sorted` on strings.
- `schema.dfy`, module `Schema`: header normalization (`strip`, `lower`,
  `replace(" ", "_")`), the required fields, and the sorted list of
  missing names.
- `table.dfy`, module `Table`: rows, `pd.to_numeric(errors="coerce")` on
  `births`, and `dropna(subset=["births"])`.
- `filters.dfy`, module `Filters`: the options of each multiselect and the
  three `"All"`-sentinel restrictions.
- `aggregation.dfy`, module `Aggregation`:
  `groupby([state, gender]).sum().sort_values(state)`.
- `dashboard.dfy`, modules `Dashboard`, `Gate` and `DashboardExamples`:
  - `Dashboard.Run` performs one run of the script, rebinding the table
    stage by stage.
  - `Gate` states what the empty-result gate does and does not guarantee.
  - `DashboardExamples` holds worked examples.

The script's halts (`st.stop()`) become values of `Dashboard.Outcome`:
`SchemaError` carries the sorted missing names, `NoData` is the "no data"
warning, and `Report` carries the sidebar options and the aggregated rows.

Three behaviours of the code are worth knowing, and the model follows the
code in each:

- `groupby` drops rows whose state or gender is NaN. The gate at
  app.py:91 tests the filtered rows, not the groups. So when "All" is
  selected for gender or state, a row with a NaN key passes the gate but
  yields no group (`Gate.UnkeyedRowPassesGate`). When both gender and state
  are restricted, at least one group exists and the groups carry every
  filtered birth (`Gate.RestrictedKeysGiveGroups`).
- `groupby` leaves the groups in (state, gender) order. Then
  `sort_values("state_of_residence")` re-sorts them by state alone, and
  pandas' default sort is not stable. So the order of the groups within
  one state is not fixed, and the model claims only the state order.
- A selection that holds `"All"` together with other values does not
  restrict at all. A selection without `"All"` keeps only rows whose value
  is selected, so an empty selection keeps no row.

## Model

| member | source | states |
|---|---|---|
| `Schema.Strip` | app.py:24 | the result is a contiguous slice of the header; everything cut from either end is whitespace in the sense of `str.isspace`; the result neither starts nor ends with whitespace |
| `Schema.Lower` | app.py:25 | same length; each ASCII capital becomes its small letter (code point + 32) and every other character is kept; whitespace positions are unchanged |
| `Schema.ReplaceSpaces` | app.py:26 | same length; every space becomes `_`; every other character is kept, so no space is left |
| `Schema.Normalize` | app.py:22-27 | the normalized name is the trimmed header with each character in canonical form (space to `_`, ASCII capital to small letter, others kept); it has no space or capital and does not start or end with whitespace |
| `Schema.Canon` | app.py:25-26 | a space becomes `_`, an ASCII capital becomes its small letter, every other character is kept |
| `Schema.CanonAlike` | app.py:25-26 | two characters normalize alike exactly when they are equal, are a space and an underscore, or are the two cases of one ASCII letter |
| `Schema.NormalizeMatches` | app.py:22-27 | two headers normalize to the same name exactly when their trimmed forms have equal length and agree position by position up to ASCII case and space/underscore |
| `Schema.NormalizeIdempotent` | app.py:22-27 | normalizing an already normalized name leaves it unchanged |
| `Schema.NormalizeColumns` | app.py:22-27 | every header is replaced by its normalized form, in place and in order |
| `Schema.MissingFields` | app.py:39 | `required_fields - set(df.columns)` holds only required fields and none of the columns present; `MissingFieldsOfHeader` pins it exactly: a field is missing iff it is required and no header normalizes to it |
| `Schema.MissingFieldsOfHeader` | app.py:39 | a required field is missing exactly when no header normalizes to it; with `NormalizeMatches`, fields are matched regardless of ASCII case, padding and space/underscore |
| `Schema.ExampleHeaderMatches` | app.py:22-27 | `"  Sex of Infant "` normalizes to the required field `sex_of_infant` |
| `Schema.SortedNames` | app.py:41 | `sorted(list(missing_fields))` lists every missing name exactly once, in strictly ascending order |
| `StringOrder.LexLeIsTotalPreorder` | app.py:55 | Python's string order, used by `sorted`, is total and transitive |
| `StringOrder.LexLeAntisymmetric` | app.py:55 | two strings that are each at most the other are equal |
| `StringOrder.SortStrings` | app.py:55 | `sorted` of distinct strings is strictly ascending, with the same elements and length |
| `Sorting.InsertionSort` | app.py:55 | sorting yields a sequence that is ordered by the comparison and is a permutation (same multiset) of its input |
| `Seqs.Unique` | app.py:64 | `.unique()` keeps each value once: the result has no duplicates and has exactly the input's elements |
| `Filters.NonNull` | app.py:64 | `.dropna()` on a column leaves exactly the non-null values |
| `Filters.OptionsFor` | app.py:54-60 | the options are `"All"` first, then every distinct non-null value of the column once, in strictly ascending order, and nothing else |
| `Filters.DimensionOptions` | app.py:62-75 | one multiselect's options: `"All"` first, then exactly the values some row holds in that column (ordered and duplicate-free by `OptionsFor`) |
| `Dashboard.SidebarFor` | app.py:62-75 | each of the three option lists starts with `"All"` and then offers exactly the values present in its column of the cleaned table |
| `Table.ToNumeric` | app.py:46 | a cell becomes numeric or NaN, never text; numbers are kept; NaN stays NaN; text becomes a number exactly when it parses, and then the number it parses to |
| `Table.CoerceBirths` | app.py:46 | overwriting `births` leaves every row in place with only `births` changed, and the column is numeric afterwards |
| `Table.DropMissingBirths` | app.py:47 | every remaining row has a numeric `births`; the result is an order-preserving subsequence; it holds exactly the rows with a number, as many as there are |
| `Table.Cleaned` | app.py:46-47 | coercion then `dropna` leaves a numeric `births` column; `CleanedRows` and `DropMissingBirths` pin exactly which rows remain and what they hold |
| `Table.CleanedRows` | app.py:46-47 | a row survives cleaning exactly when its `births` was a number or parsable text, and it survives with only `births` rewritten |
| `Filters.IsIn` | app.py:83 | `isin` keeps an order-preserving subsequence: exactly the rows whose non-null value is selected; an empty selection keeps none |
| `Filters.ApplyFilter` | app.py:82-89 | one `if "All" not in ...: isin` step returns a subsequence of its input, and the input itself when `"All"` is selected; `FilterSemantics` and `ApplyFilterExtends` pin it exactly |
| `Filters.FilterSemantics` | app.py:82-89 | a selection holding `"All"` returns the table unchanged even beside other values; otherwise exactly the rows whose value is selected remain; an empty selection yields no rows; the result is a subsequence |
| `Filters.ApplyFilterExtends` | app.py:82-89 | each filter step adds its dimension to the conjunction of the predicates already applied |
| `Filters.FiltersCommute` | app.py:80-89 | any two filter steps can be applied in either order with the same result |
| `Filters.PassingIsSubsequence` | app.py:80-89 | the filtered table is a subsequence of the cleaned table and holds exactly the rows admitted on all three dimensions |
| `Filters.AllSelectedKeepsEverything` | app.py:80-89 | `"All"` selected on every dimension yields the cleaned table unchanged |
| `Filters.EmptySelectionKeepsNothing` | app.py:82-89 | an empty selection on any one dimension yields no rows at all |
| `Filters.FilterTable` | app.py:80-89 | the copy-then-restrict-three-times code computes exactly the conjunction of the three per-dimension predicates |
| `Aggregation.PresentKeys` | app.py:100 | the group keys are exactly the (state, gender) pairs of rows where neither is NaN |
| `Aggregation.GroupKeysSorted` | app.py:100 | `groupby` forms one key per distinct present pair, with no duplicates, in ascending (state, gender) order |
| `Aggregation.GroupsFor` | app.py:101 | each group keeps its key, in key order, and carries the births of the rows with that key |
| `Aggregation.SortByState` | app.py:102 | the groups come out ordered by state, as a permutation of the groups |
| `Aggregation.AggregateKeys` | app.py:102 | reordering the groups keeps the same groups, the same key set, and keys that stay distinct |
| `Aggregation.Aggregate` | app.py:98-103 | the result is ordered by state; there is exactly one group per distinct present (state, gender) pair; each group's value is the births of its rows; the result is non-empty exactly when some row has both keys |
| `Aggregation.TotalOfGroupsFor` | app.py:101 | groups for distinct keys carry, between them, the births of exactly the rows with one of those keys |
| `Aggregation.AggregateTotal` | app.py:98-103 | the births summed over all groups equal the births of the rows that have both a state and a gender |
| `Aggregation.KeyedTotalAllKeyed` | app.py:100 | when no row has a NaN key, the keyed total is the total births |
| `Gate.RestrictedKeysGiveGroups` | app.py:85-101 | with gender and state both restricted, a table that passes the gate gives at least one group, and the groups carry all of its births |
| `Gate.UnkeyedRowPassesGate` | app.py:91-100 | with `"All"` selected, a row with a NaN gender passes the gate, yet the aggregation is empty |
| `DashboardExamples.ExampleAllSelected` | app.py:98-103 | CA/M/10, CA/F/20 and NY/M/5 aggregate to CA/F/20, CA/M/10, NY/M/5 |
| `DashboardExamples.ExampleStateFilter` | app.py:88-101 | with only CA selected, the groups total 30 births |
| `Dashboard.Run` | app.py:22-103 | the run reports a schema error exactly when a required field is missing, listing the missing names in ascending order; it stops with "no data" exactly when the filtered table is empty; otherwise it reports the aggregation of the filtered table, whose groups total the births of the rows with both keys; the sidebar options are those of the cleaned table |

## Left out

- Page setup and the widget layer are not modelled. This covers `st.title`, `st.sidebar.multiselect`, `st.error`, `st.warning`, `st.write`, `st.dataframe` and `st.stop`. The halts are `Outcome` values. The user's selections are inputs to `Dashboard.Run`.
- The model does not require that a selection be drawn from its options, as the multiselect ensures. The filter properties hold for any selection.
- The Plotly chart (app.py:108-129) is not modelled: it is a foreign rendering library.
- `pd.read_csv` and the `FileNotFoundError` path (app.py:15-19) are not modelled: they are file I/O. A row holds only the four columns the pipeline reads. `month_code` and `year_code` take part only in the header check.
- `pd.to_numeric`'s reading of text is the parameter `parse: string -> Option<int>`. Floating-point values, and float summation and rounding, are not modelled: births are integers.
- Duplicate header names after normalization are not modelled. With them, pandas would return a frame for `df["births"]`.
- Dimension columns are modelled as text. A column that pandas reads as numbers would sort numerically.
- Schema.Lower: lowercases only `A`-`Z`. Python's `str.lower` also maps non-ASCII letters, so for headers with such letters the model differs.
- Aggregation.SortByState: `sort_values` is modelled as a stable insertion sort. pandas' default quicksort is not stable, so the code fixes no order among the groups of one state. Only the state order is claimed.
- Aggregation.Aggregate: requires a numeric `births` column, which the cleaning step guarantees. Summing a text column, which pandas would concatenate or reject, is not modelled.
