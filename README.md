# Shipment weight calculation: a Dafny model

This project models the calculation core of a small Streamlit app that
works out the shipping weight of a load: the products' weight plus the
pallet's weight. Two master sheets are read from a workbook. 製品マスター
holds products, with 品名 as the name and 1ポリ重量 as the unit weight.
パレットマスター holds pallets, with パレット名 as the name and 重量kg as
the weight. The product weight comes from one of two tabs:

- **Single entry:** one product and a quantity of at least 1. The weight is
  unit weight × quantity.
- **Upload:** a sheet whose column A is 型番 (product code) and column B is
  数量 (quantity). It is left-joined against the product master on
  型番 = 品名. Each row gets a 小計重量 (subtotal) of 数量 × 1ポリ重量. The
  subtotals are summed only when every row found a weight. Otherwise the
  unknown codes are listed.

The total adds the weight of the selected pallet.

Modules:

- `Wrappers` (wrappers.dfy): `Option`, where `None` stands for a pandas NaN
  or a missing row.
- `Text` (text.dfy): Python's `str.strip()`, which is applied to header names.
- `Master` (master.dfy): product and pallet rows and tables, loading with
  header stripping, and the first-match lookups `df[df[col] == v].iloc[0]`.
- `Bulk` (bulk.dfy): the header rename, the left merge, subtotals, the
  unknown-code list and the guarded sum. It also holds the lemmas linking
  the merged table to the upload rows: one row per upload row when names are
  unique, the unknown list, a row-by-row reference total, and independence
  from row order.
- `Shipment` (shipment.dfy): one run of the script as a method. Its local
  `productsWeightSum` is assigned in script order: line 73, then line 85,
  then line 108. It is read at line 131.
- `Scenarios` (scenarios.dfy): worked examples on small masters of one or two product rows.

Weights are exact `real`s. A NaN cell is `None`. A quantity is an
`Option<int>`, because an empty 数量 cell is NaN in pandas.

Some behaviour of the program is easy to misread from its intent; the
model follows the code as written:

- **The single-entry weight never reaches the total.** Streamlit runs both
  tabs on every run, so `products_weight_sum = 0` at app.py:85 always
  overwrites the value set at app.py:73. `Shipment.RunScript` states that the
  product weight it shows is `ProductsWeight(BulkPath(upload, …))`. That
  expression does not depend on the selected product or the quantity.
  `Scenarios.SingleEntryNotInTotal` shows this on one input.
- **Product names are not declared unique.** pandas `merge` repeats an
  upload row once for each product row with that name. `Bulk.LeftMerge`
  models this in general: `Bulk.MatchesCount` and `Bulk.MatchesAppend` fix
  how often and in which order the matching rows appear, and
  `Scenarios.DuplicateNameDoubles` shows a total doubling. The
  one-row-per-upload-row lemmas assume `UniqueNames`.
- **Only header names are trimmed.** Cell values such as 品名 and 型番 are
  compared exactly as stored.
- **A missing product is not a recoverable "not found" in tab 1.**
  `.iloc[0]` on an empty selection raises IndexError, and the run stops. The
  model returns `Stopped(NoMatchingRow(…))`. The same happens with a missing
  pallet.
- **Only the パレット名 column is checked up front.** A missing 品名,
  1ポリ重量 or 重量kg column is an uncaught KeyError at the point where the
  column is read. The model returns `Stopped(MissingColumn(…))`.
- **A blank 数量 counts as zero.** pandas `sum()` skips NaN, and the
  unknown check at app.py:104 looks only at 1ポリ重量. So a known product
  with an empty quantity cell is accepted and adds nothing.
  `Scenarios.BlankQuantityAddsNothing` shows this.

## Model

| member | source | states |
|---|---|---|
| `Text.IsSpace` | app.py:22-23 | the characters Python's `str.strip()` removes: those for which `str.isspace()` holds |
| `Text.Lead` | app.py:22-23 | the count of leading whitespace characters: all of them are whitespace and the next character is not |
| `Text.Trail` | app.py:22-23 | the count of trailing whitespace characters: all of them are whitespace and the character before them is not |
| `Text.Strip` | app.py:22-23 | the result is an infix of the input, everything around it is whitespace, and its own first and last characters are not whitespace |
| `Text.StripUnique` | app.py:22-23 | any infix with whitespace padding and non-whitespace ends is the strip, so the properties above define `strip()` completely |
| `Text.StripIdempotent` | app.py:22-23 | stripping twice equals stripping once |
| `Text.StripOfTrimmed` | app.py:22-23 | a name without whitespace at either end is unchanged by stripping |
| `Master.StripHeaders` | app.py:22-23 | the header keeps its column count and order, and each name is replaced by its stripped form |
| `Master.StripHeadersIdempotent` | app.py:22-23 | no stripped header name has whitespace at either end, and stripping the header again changes nothing |
| `Master.LoadData` | app.py:13-29 | the master loads exactly when both sheets were read; both headers are then stripped and the rows are kept |
| `Master.FirstIndex` | app.py:64 | the first position holding the key, or None exactly when the key is absent |
| `Master.Column` | app.py:59 | a column read off a sheet has one entry per row, in row order |
| `Master.FindProduct` | app.py:64-65 | the first product row whose 品名 equals the name exactly, or None (IndexError) exactly when no row has that name |
| `Master.FindPallet` | app.py:127-128 | the first pallet row whose パレット名 equals the name exactly, or None (IndexError) exactly when no row has that name |
| `Master.FindProductUnique` | app.py:64 | with unique 品名, looking up a row's name finds that row |
| `Master.Times` | app.py:73 | single-entry weight = unit weight × quantity; NaN exactly when the unit weight is NaN |
| `Bulk.RenameHeader` | app.py:93 | fails exactly when the sheet has fewer than 2 columns; otherwise the length is unchanged, positions 0 and 1 are 型番 and 数量, and columns from index 2 on are unchanged, in order |
| `Bulk.Matches` | app.py:96 | every product row with the code is included, and only product rows with that code |
| `Bulk.MatchesCount` | app.py:96 | each product row with the code appears in the matches exactly as often as in the master, so a duplicated 品名 repeats the upload row |
| `Bulk.MatchesAppend` | app.py:96 | the matches of a concatenated master are the matches of its parts, concatenated, so they keep master order |
| `Bulk.MergeRow` | app.py:96 | one upload row gives one merged row per element of the matches, in the same order, carrying that product's weight; with no match it gives a single row with no weight |
| `Bulk.LeftMerge` | app.py:96 | a left join: never fewer rows than the upload |
| `Bulk.LeftMergeAppend` | app.py:96 | merging a concatenation concatenates the merges, so upload order is kept |
| `Bulk.WeightOf` | app.py:96 | a code that resolves to a weight names a product row that has that weight |
| `Bulk.MatchesUnique` | app.py:96 | with unique 品名, a code matches exactly the row the lookup finds, or nothing |
| `Bulk.MergeRowUnique` | app.py:96 | with unique 品名, each upload row merges into exactly one row |
| `Bulk.LeftMergeUnique` | app.py:96 | with unique 品名, row i of the merge pairs upload row i with the weight of the product named by its 型番; the output has exactly as many rows as the upload |
| `Bulk.WeightOfUnique` | app.py:96 | with unique 品名, a unit weight is present exactly when a product with that name exists and its weight cell is not empty, and it equals that cell |
| `Bulk.Subtotal` | app.py:99 | subtotal = 数量 × 1ポリ重量 when both are present, missing otherwise |
| `Bulk.Subtotals` | app.py:99 | the 小計重量 column has one subtotal per merged row |
| `Bulk.MissingWeight` | app.py:104 | true only of a non-empty merged table, and false exactly when every merged row has a 1ポリ重量 |
| `Bulk.SumPresent` | app.py:108 | the sum skips missing values: a column with no values sums to 0, and non-negative values give a non-negative sum |
| `Bulk.UnknownCodes` | app.py:105 | the list is empty exactly when no weight is missing; every code in it belongs to a row without a weight |
| `Bulk.Aggregate` | app.py:104-108 | unknown codes exactly when some merged row lacks a weight, and then the list is non-empty; otherwise the sum of the subtotals |
| `Bulk.BulkPath` | app.py:83-112 | no file gives no outcome; an unreadable file or fewer than 2 columns is the caught read error; otherwise the aggregate of the merge |
| `Bulk.ProductsWeight` | app.py:85-108 | `products_weight_sum` after tab 2: the sum when every row resolved, otherwise the 0 of line 85 |
| `Bulk.UnknownCodesAppend` | app.py:105 | the unknown list of a concatenation is the concatenation of the unknown lists |
| `Bulk.SumPresentAppend` | app.py:108 | the skip-NaN sum of a concatenation is the sum of the parts |
| `Bulk.UnknownCodesOfMerge` | app.py:104-106 | with unique 品名, the unknown list is exactly the 型番 of the upload rows that found no weight, in row order with duplicates kept |
| `Bulk.MergeStatsAppend` | app.py:96-108 | total, missing-weight verdict and unknown list are each additive over concatenated uploads |
| `Bulk.AggregateAppend` | app.py:104-108 | every row adds its own subtotal, duplicate 型番 included; the total is withheld when either part has an unknown code |
| `Bulk.ExpectedWeightOfMerge` | app.py:99-108 | with unique 品名, the sum of the merged subtotals equals Σ 数量 × 1ポリ重量 computed row by row from the upload |
| `Bulk.AggregateOfUpload` | app.py:96-108 | with unique 品名, the upload resolves exactly when every 型番 has a weight; it then gives the row-by-row total, and otherwise the unresolved codes |
| `Bulk.MergeStatsPermuted` | app.py:96-108 | reordering the upload rows changes neither the sum, nor the missing-weight verdict, nor the unknown codes as a multiset |
| `Bulk.AggregateOrderIndependent` | app.py:104-108 | the upload tab's verdict and total do not depend on row order |
| `Shipment.AddPallet` | app.py:131 | total = product weight + pallet 重量kg; NaN when the pallet weight is NaN; equal to the pallet weight when the product weight is 0 |
| `Shipment.RunScript` | app.py:31-131 | the reason for each early stop, in script order: load failure, missing パレット名 column, missing 品名 column, no row with the selected 品名, missing 1ポリ重量 column, no row with the selected パレット名, missing 重量kg column; a finished run computes the single-entry weight at line 73 and then discards it, its product weight is the tab-2 value (0 unless the upload fully resolved), and the total is that plus the first matching pallet's 重量kg |
| `Scenarios.UnknownProductReported` | app.py:104-106 | uploading P1 and an unknown P2 reports exactly ["P2"] and no total |
| `Scenarios.DuplicateCodesAdd` | app.py:96-108 | two P1 rows (4 and 6 at 2.5 kg) give a total of 25 |
| `Scenarios.BlankQuantityAddsNothing` | app.py:99-108 | a known product with a blank 数量 is accepted and adds nothing |
| `Scenarios.ExampleHeadersClean` | app.py:22-23 | the example headers are unchanged by stripping |
| `Scenarios.DuplicateNameDoubles` | app.py:96-108 | with P1 listed twice in the master, one uploaded P1 row of 4 merges into two rows and weighs 20 kg, not 10 |
| `Scenarios.EmptyUploadTotalIsPallet` | app.py:85-131 | an uploaded sheet with no rows resolves to 0 kg, and the total is the 15 kg pallet alone |
| `Scenarios.SingleEntryNotInTotal` | app.py:64-131 | with 2.5 kg × 10 entered in tab 1 and nothing uploaded, the product weight is 0 and the total is the 15 kg pallet alone |

## Left out

- Streamlit presentation: title, tabs, headers, select boxes, `number_input`, `file_uploader`, `dataframe`, `metric`, and the error, success and info messages. The selections and the quantity are parameters of `Shipment.RunScript`.
- `st.stop()` and uncaught exceptions are modelled only as an early `Stopped` outcome.
- The `@st.cache_data` caching has no logical effect and is not modelled.
- Excel I/O. Reading `master_data.xlsx` and the upload are inputs that are either already parsed or marked unreadable (`None`, `Unreadable`). Which library errors the blanket `except` handlers catch is not modelled.
- Floating-point rounding and the `:.2f` display format. Weights are exact reals.
- pandas dtype coercion. Header names, 品名 and 型番 are strings, and 数量 is an integer or empty. A non-string header (which `.str.strip()` turns into NaN), a numeric 型番, and NaN join keys (which pandas matches with each other) are not modelled.
- Columns other than the ones the program reads are not carried in the rows. So duplicate header names after stripping, and the `_x`/`_y` suffixes pandas adds when an upload column shares a name with a product column, are not modelled.
- Exceptions inside the upload `try` other than an unreadable file and a short header, such as a KeyError from suffixed columns, are not modelled.
