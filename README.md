# Fabric-shop stock and revenue dashboard, modelled in Dafny

`main.py` is a single Streamlit script. It reads a spreadsheet of fabric
stock (one row per fabric and colour, holding units stocked, units moved, unit
price and total revenue), cleans it, and lets the user pick fabrics and
colours in two sidebar multiselects. It then shows charts of:

- the selected rows;
- available stock and quantity moved per fabric;
- one block per fabric, listing its colours that are out of stock and a per-colour line chart;
- revenue per colour, sorted ascending, with the grand total;
- revenue per colour and fabric.

This project models the computation behind that page, from the header labels
and rows of the sheet to the tables behind every chart, and proves what each
step promises.

| module | file | what it models |
|---|---|---|
| `Labels` | `src/labels.dfy` | `str.strip().str.capitalize()` on the header labels |
| `Revenue` | `src/revenue.dfy` | the `R\$ ` removal, the `,`→`.` rewrite and the decimal parse of a revenue text |
| `Records` | `src/records.dfy` | the raw row (fabric may be missing, revenue a text or a number), the cleaned row and the row with its stock |
| `Cleaning` | `src/cleaning.dfy` | the `fillna`, the revenue rewrite and `astype(float)` with its failure |
| `Sequences` | `src/sequences.dfy` | `unique()`: distinct values in order of first appearance |
| `Ordering` | `src/ordering.dfy` | Python's `<` on strings and on (colour, fabric) pairs, proved to be strict total orders |
| `Grouping` | `src/grouping.dfy` | `groupby(...).sum()` with sorted keys, and `sort_values` on the sums |
| `Selection` | `src/selection.dfy` | the facet options, the "select all" defaults and the `query` filter |
| `Stock` | `src/stock.dfy` | the `Estoque_disponivel` column and the columns the group-bys read |
| `Aggregates` | `src/aggregates.dfy` | the per-fabric, per-colour and per-(colour, fabric) sums and the grand total |
| `FabricBlocks` | `src/fabric_blocks.dfy` | `exibir_graficos_interativos` and the loop over every fabric |
| `Dashboard` | `src/dashboard.dfy` | the whole script, step by step, as one method |
| `Scenarios` | `src/scenarios.dfy` | single-colour tables and a worked two-row example |

All numeric columns are exact `real`s. A revenue cell is either a text or a
number (`Cell`), because the regular-expression replacements only touch
strings and `astype(float)` keeps numbers as they are.

The revenue conversion does not read every way of writing an amount.
`"R$1.234,56"` and `"R$ 1.234,56"` do not read as 1234.56. The key `'R$ '` of
the replacement dictionary (main.py:24) is a regular expression in which `$`
is an end anchor, so it never matches. Only `R\$ ` removes anything, so a bare
`"R$"` stays in the text and the parse fails (`Revenue.BareSymbolRejected`).
A thousands separator becomes a second point, and the parse fails as well
(`Revenue.ThousandsSeparatorRejected`). Either failure aborts the whole
conversion (`Cleaning.Clean`, `Dashboard.RunDashboard`).

Out of stock is judged per row (main.py:108-109), not per colour total.
`Scenarios.ScenarioBlock` shows a colour listed as out of stock although its
summed stock is positive.

## Model

| member | source | states |
|---|---|---|
| Labels.Upper | main.py:20 | a lower-case letter of ASCII or Latin-1 becomes an upper-case letter, every other character is kept, and no lower-case letter is left |
| Labels.Lower | main.py:20 | an upper-case letter of ASCII or Latin-1 becomes a lower-case letter, every other character is kept, and no upper-case letter is left |
| Labels.CaseRoundTrip | main.py:20 | a letter and its case partner map to each other, and changing case twice gives what the last change alone gives |
| Labels.LeadingSpace | main.py:20 | counts the whitespace that opens a text: every counted character is whitespace and the next one is not |
| Labels.TrailingSpace | main.py:20 | counts the whitespace that closes a text: every counted character is whitespace and the one before them is not |
| Labels.Strip | main.py:20 | the result has no whitespace at either end, is the contiguous slice of the input that starts after its leading whitespace, and only whitespace follows it |
| Labels.StripKeeps | main.py:20 | every non-whitespace character of the input is kept by strip, at its own offset in the slice |
| Labels.StripFixed | main.py:20 | strip leaves a text without surrounding whitespace unchanged |
| Labels.Capitalize | main.py:20 | same length, first character upper-cased, every later character lower-cased |
| Labels.CapitalizeNormal | main.py:20 | capitalising a stripped text gives the normal label shape |
| Labels.NormalizeLabel | main.py:20 | the label comes out stripped, with its first character upper case and the rest lower case, and no longer than before |
| Labels.NormalizeLabels | main.py:20 | the header row keeps its length, each label is replaced by its own normalised form, and every label has the normal shape |
| Labels.NormalFixed | main.py:20 | a label that already has the normal shape is left unchanged |
| Labels.NormalizeIdempotent | main.py:20 | normalising a label twice gives what normalising once gives |
| Labels.NormalizeLabelsIdempotent | main.py:20 | normalising the header row twice gives what normalising once gives |
| Labels.CapitalizeInsensitive | main.py:20 | two texts capitalise to the same text exactly when their lower-case forms agree |
| Labels.NormalizeInsensitive | main.py:20 | two labels normalise to the same text exactly when their stripped, lower-cased forms agree |
| Cleaning.FillMissingFabric | main.py:21 | same number of rows and none missing a fabric; rows with a fabric are unchanged, and a missing fabric becomes "Desconhecido" with nothing else changed |
| Cleaning.FillIdempotent | main.py:21 | filling a table with no missing fabric changes nothing, so filling twice equals filling once |
| Revenue.DropMarker | main.py:24 | removes marker characters in whole groups of three and keeps every other character, in order |
| Revenue.DropMarkerPrefix | main.py:24 | a "R$ " at the front is removed |
| Revenue.DropMarkerKeepsPrefix | main.py:24 | text in which no occurrence of "R$ " starts passes through unchanged ahead of whatever follows; with the front-removal lemma this fixes the left-to-right, non-overlapping removal of every occurrence, and a text with no occurrence is left as it is |
| Revenue.BareSymbolKept | main.py:24 | "R$" not followed by a space stays in the text |
| Revenue.CommaToDot | main.py:25 | same length, no comma left, every comma becomes a dot, every other character is unchanged |
| Revenue.RewriteRevenue | main.py:24-25 | the rewritten text has no comma and is no longer than the cell |
| Revenue.ParseNumber | main.py:26 | a text that parses is, once stripped, not empty, and holds nothing but whitespace, digits, points and signs; so a blank text is no number |
| Revenue.ParseInteger | main.py:26 | a cell of digits alone reads as the integer they spell |
| Revenue.SignedDecimal | main.py:26 | a decimal with a leading "-" or "+" reads as the negated or the plain value, so negative amounts come through unclamped |
| Revenue.Padded | main.py:26 | whitespace before and after a number does not change how it reads |
| Revenue.StripPadded | main.py:26 | stripping whitespace-padded text gives back the stripped text inside |
| Revenue.ParseDecimal | main.py:26 | digits, a point and digits parse to the decimal value they spell |
| Revenue.BrlRewrite | main.py:24-25 | "R$ <reais>,<cc>" is rewritten to "<reais>.<cc>" |
| Revenue.BrlRoundTrip | main.py:24-26 | rewriting and parsing "R$ <reais>,<cc>" gives back reais + cc/100 exactly |
| Revenue.LeadingLetterRejected | main.py:26 | a text whose first non-blank character is not a sign, digit or point does not parse |
| Revenue.TwoPointsRejected | main.py:26 | a text containing two points does not parse |
| Revenue.BareSymbolRejected | main.py:24-26 | "R$<reais>,<cc>" written without the space does not parse after the rewrite |
| Revenue.ThousandsSeparatorRejected | main.py:24-26 | "R$ <a>.<b>,<c>" written with a thousands separator does not parse after the rewrite |
| Cleaning.RewriteCell | main.py:24-25 | a text cell stays a text and loses its commas; a numeric cell is unchanged |
| Cleaning.RewriteRevenueColumn | main.py:22-25 | only the revenue cell of each row changes, and it changes by the cell rewrite |
| Cleaning.CellValue | main.py:26 | a numeric cell converts to its own value |
| Cleaning.ToFloat | main.py:26 | conversion succeeds exactly when every revenue cell converts; the rows keep their order and get the converted values; on failure the error is the first text that does not convert |
| Cleaning.Clean | main.py:21-27 | the table is accepted exactly when every revenue cell converts after the rewrite; the cleaned rows are the raw rows, in order, with fabric filled and revenue converted; a failure names the first rewritten text that does not convert |
| Cleaning.CleanCellValues | main.py:22-26 | a cell "R$ <reais>,<cc>" cleans to reais + cc/100, and a numeric cell keeps its value |
| Sequences.Unique | main.py:34 | no value twice, and exactly the values of the input |
| Sequences.UniquePrefix | main.py:34 | the distinct values of a prefix open the distinct values of the whole sequence, so values appear in order of first appearance |
| Selection.FabricOptions | main.py:34 | no fabric twice, and exactly the fabrics of the unfiltered table |
| Selection.ColourOptions | main.py:42 | no colour twice, and exactly the colours of the unfiltered table |
| Selection.DefaultChoice | main.py:35-38 | the initial selection is every option when "select all" is ticked, and none otherwise |
| Selection.Choice | main.py:36 | an untouched multiselect yields its default and a changed one yields what the user picked |
| Selection.Filter | main.py:49 | no more rows than the table, and a row is kept exactly when it is in the table and both its fabric and its colour are selected |
| Selection.FilterAppend | main.py:49 | the filter keeps row order: filtering a concatenation concatenates the filtered parts |
| Selection.FilterKeepsAll | main.py:49 | a table whose rows are all selected passes unchanged |
| Selection.FilterEmptyChoice | main.py:49 | an empty selection on either facet yields no rows, not an error |
| Selection.DefaultShowsAll | main.py:33-49 | with both boxes ticked and the multiselects untouched, the filter keeps the whole table |
| Selection.UntickedShowsNothing | main.py:33-49 | with either box unticked and the multiselects untouched, the filter keeps no row |
| Stock.WithStock | main.py:56 | same rows in the same order, each with stock = units stocked − units moved, not clamped |
| Stock.Restock | main.py:108 | recomputing the column keeps the rows and makes each row's stock its own difference |
| Stock.RestockUnchanged | main.py:108 | recomputing the column over rows that already carry it changes nothing |
| Stock.StockColumnDifference | main.py:56 | the stock column is, row by row, the units column minus the moved column |
| Ordering.StrLessOrder | main.py:59 | Python's `<` on strings is a strict total order, so sorted group keys are well defined |
| Ordering.PairLessOrder | main.py:159 | the lexicographic order on (colour, fabric) pairs is a strict total order |
| Grouping.SortedKeys | main.py:59 | the group keys are strictly ascending, without repeats, and exactly the keys present |
| Grouping.GroupSum | main.py:59 | one group per key present, in ascending key order, each holding the sum over the rows with that key |
| Grouping.GroupSumTotal | main.py:59 | the group sums add up to the column total |
| Grouping.SumWhereDifference | main.py:130 | for any key, the sum of a difference column is the difference of the sums |
| Grouping.SumDifference | main.py:56 | the sum of a difference column is the difference of the column sums |
| Grouping.SortByTotal | main.py:151 | the groups come out in ascending order of total, as a permutation of the input, with the same overall total |
| Aggregates.StockByFabric | main.py:59 | available stock per fabric: fabrics ascending and distinct, exactly those present, each total the fabric's summed stock, all adding up to the stock column |
| Aggregates.MovedByFabric | main.py:70 | units moved per fabric: fabrics ascending and distinct, exactly those present, each total the fabric's summed units moved, all adding up to the moved column |
| Aggregates.SortedSums | main.py:149-152 | sorting group sums by total keeps one group per key present, each with its key's sum, and the overall total |
| Aggregates.RevenueByColour | main.py:149-152 | revenue per colour in ascending order of revenue: each colour present once, with its summed revenue, all adding up to the revenue column |
| Aggregates.GrandTotal | main.py:155 | the grand total is the sum of every selected row's revenue |
| Aggregates.RevenueByColourFabric | main.py:159 | revenue per (colour, fabric) pair: pairs ascending and distinct, exactly those present, each with its summed revenue, all adding up to the revenue column |
| Aggregates.StockBalance | main.py:56-59 | the per-fabric stock adds up to units stocked minus units moved over the selection |
| FabricBlocks.OfFabric | main.py:83 | a row is kept exactly when it is in the selection and has the fabric |
| FabricBlocks.OfFabricAppend | main.py:83 | the fabric's rows keep their order and their repeats: selecting from a concatenation concatenates the selections |
| FabricBlocks.ShortColours | main.py:109 | a colour is listed exactly when one of its rows has stock ≤ 0 |
| FabricBlocks.OutOfStock | main.py:109 | each colour that has a row with stock ≤ 0 appears once, and no other colour appears |
| FabricBlocks.Lines | main.py:130 | one line per colour present, colours ascending and distinct, each holding the colour's sums of units stocked, units moved and stock |
| FabricBlocks.LinesBalance | main.py:108-130 | on rows that carry their own stock, each colour line has stock = units stocked − units moved |
| FabricBlocks.RestockShort | main.py:108-109 | after the recomputation, a colour is short exactly when one of its rows has units stocked − units moved ≤ 0 |
| FabricBlocks.BlockFor | main.py:82-130 | no block exactly when no selected row has the fabric; otherwise a block of the fabric's selected rows, listing each colour with an oversold or empty row once and no other colour, with the per-colour lines of those rows after the stock is recomputed, each balanced |
| FabricBlocks.Blocks | main.py:144-145 | no more blocks than fabrics; every block belongs to an offered fabric, holds that fabric's selected rows, of which there is at least one, and is the block that fabric's call produces |
| FabricBlocks.BlocksStep | main.py:144-145 | blocks come in option order: the last option's block, if any, follows the blocks of the options before it |
| FabricBlocks.BlocksCover | main.py:82-84 | a fabric gets a block exactly when it is offered and some selected row has it |
| FabricBlocks.BlocksDistinct | main.py:144-145 | no fabric gets two blocks |
| FabricBlocks.BlocksHoldRows | main.py:83 | every selected row of an offered fabric appears in that fabric's block |
| FabricBlocks.RenderFabricBlocks | main.py:144-145 | the loop over the fabrics renders exactly the blocks the specification function describes, in option order |
| Dashboard.SelectionOffered | main.py:34-49 | every selected row's fabric is one of the options |
| Dashboard.RunDashboard | main.py:20-159 | the script fails exactly when the cleaning fails, with the same message; otherwise every table it shows is the one its step defines, the per-fabric stock balances, no fabric gets two blocks, and a fabric gets a block exactly when some selected row has it |
| Scenarios.SingleColourRevenue | main.py:149-152 | rows of one colour give a single revenue entry that holds all the revenue |
| Scenarios.SingleColourLines | main.py:130 | rows of one colour give a single line that holds the three column sums |
| Scenarios.SingleColourShort | main.py:109 | rows of one colour, one of them with no stock left, list just that colour |
| Scenarios.TwoRows | main.py:56 | (100 stocked, 30 moved) and (100 stocked, 120 moved) have stock 70 and −20 |
| Scenarios.ScenarioRevenue | main.py:149-152 | revenues 10 and 5 of one colour give that colour 15 |
| Scenarios.ScenarioBlock | main.py:108-130 | the oversold row puts the colour on the out-of-stock list, although its line shows stock 200 − 150 = 50 |

## Left out

- Reading the spreadsheet (main.py:13-17) is file I/O. The model starts from the header labels and the rows.
- The page configuration, titles, `st.dataframe` and all Plotly drawing are left out. The model keeps the data each chart is drawn from: a block's rows, and the group tables.
- The shortage sentence (main.py:112-115) and the `:,.2f` formatting of the grand total (main.py:156) are text rendering. The model keeps the list and the total they show.
- The user's interaction with the sidebar is a parameter: each multiselect is `Untouched` (its default) or `Picked(values)`. Streamlit's rejection of picks outside the options is not modelled.
- Revenue.ParseNumber: accepts only plain decimals (surrounding whitespace, an optional sign, digits with at most one point). Python's `float()` also reads exponents, `inf`, `nan`, `_` digit separators and non-ASCII decimal digits (Arabic-Indic "١٢", fullwidth "１２"), which the model rejects.
- Cleaning.ToFloat: does not model binary floating point. Numbers are exact reals, so there is no rounding in the parse, the sums or the grand total.
- Labels.Upper: case mapping covers ASCII and Latin-1 only. Characters with no one-character partner there (ß, µ, ÿ and everything beyond Latin-1) keep their case, whereas Python maps some of them.
- Labels.Strip: whitespace is the code-point list of Python's `str.isspace`. Unicode normalisation is not modelled.
- Grouping.SortByTotal: states ascending order and a permutation only. The order of groups with equal totals is not fixed, because pandas does not guarantee a stable sort here.
- The lookup of columns by their normalised names is not modelled. The model assumes the six columns are present; a header that does not normalise to one of them would make pandas raise `KeyError`.
- Missing values other than a missing fabric (an empty colour, units or revenue cell) are not modelled. Colours are texts and numeric columns are numbers.
- Assignments to a DataFrame are reassignments of values. `df_tecido` (main.py:83) is a new table, so recomputing its stock (main.py:108) does not touch `df_selection`, and the model reflects this. Pandas' warning about writing into a slice is not modelled.
