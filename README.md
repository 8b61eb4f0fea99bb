# Compound case-study summary: a verified model

This project models the non-visual logic of a small React app. A user uploads a "Book of
Work" spreadsheet. The app turns its rows into case-study records, groups the records by
primary compound code, and shows per-compound summaries with three figures.

The model follows the three files that hold this logic:

- `rownormalizer.dfy` (module `RowNormalizer`): the row-to-record mapping and filter in
  `processExcelFile`. Each field takes the cell under its human-readable header when that
  cell is truthy. Otherwise it takes the cell under its snake_case header when that one is
  truthy, and otherwise `''`. This is the JavaScript `||` chain. Records whose compound code
  is falsy are dropped. Cells are `Missing | Str | Num | Bool`. A truthy number is kept as a
  number, because the code does no string conversion.
- `fileupload.dfy` (module `FileUpload`): `processExcelFile` and `onDrop`. A drop starts
  processing for the first accepted file only. The reader's `onload` then hands the
  normalised records to the page, or `[]` when decoding throws. It also produces the
  notification with the record count. Only `onload` is installed: when the read itself
  fails, no handler runs and the page stays processing until another upload completes.
- `datasummary.dfy` (module `DataSummary`): the grouping `reduce` is an imperative loop
  over a dictionary of sequences plus the key-creation order. It is proved equal to a
  reference definition: one bucket per code, each the order-preserving filter of the input.
  The module also holds the `Object.entries(...).map(...)` projection, the three figures
  and the choice of view.
- `indexpage.dfy` (module `IndexPage`): the page state `uploadedData` / `isProcessing` as a
  class with the two handlers.
- Support modules: `seqs.dfy` (`Seqs` for `filter` and subsequences, `Sorting` for an
  insertion sort), `jsvalues.dfy` (truthiness, `||`, converting a value to a property key)
  and `jsobjects.dfy` (the order in which `Object.entries` lists keys, and the keys inherited
  from `Object.prototype`).

In three places the code behaves differently from what one might expect, and the model follows the code:

- **Summary order.** One might expect summaries in first-appearance order of their codes.
  `Object.entries` lists canonical array-index keys ("0" to "4294967294") first, in
  ascending numeric order, and only then the other keys in insertion order. The model
  includes this. `SummariesInFirstAppearanceOrder` proves first-appearance order only when no
  code is an array index. `ArrayIndexKeysComeFirst` shows "B" then "7" coming out as "7", "B".
- **Key conversion.** Codes are grouped by their property key. The number `5` and the string
  `"5"` therefore share a bucket, and the emitted `compoundCode` is always a string. The
  records keep their original cells.
- **Rounding.** The average is `Math.round(n / k)` in exact integers, `(2n + k) / (2k)`.
  That is round-half-up for the non-negative operands that occur here.

## Model

| member | source | states |
|---|---|---|
| `JsValues.NumberAndStringShareKey` | src/components/DataSummary.tsx:29-33 | a number code and its decimal string are the same dictionary key, so they share a bucket |
| `JsValues.NumberKeyIsArrayIndex` | src/components/DataSummary.tsx:29-37 | a whole-number code below 2^32 - 1 becomes an array-index key with that numeric value |
| `JsValues.NegativeKeyIsNotArrayIndex` | src/components/DataSummary.tsx:29-37 | a negative number code never becomes an array-index key |
| `JsValues.NatToStringRoundTrip` | src/components/DataSummary.tsx:29-31 | reading back the decimal key of a number gives the number |
| `JsValues.Truthy` | src/components/FileUpload.tsx:45-49 | a cell is truthy iff it is none of `undefined`, `''`, `0` and `false` |
| `JsValues.Or` | src/components/FileUpload.tsx:45-48 | the JavaScript `or` of two cells is one of its operands, unconverted; it is `a` when `a` is truthy and `b` otherwise, and it is truthy iff either operand is |
| `JsValues.PropertyKey` | src/components/DataSummary.tsx:29-33 | a string code is its own key; a number code becomes its canonical decimal digits (no leading zero), with a leading `-` when negative, reading back to the number; `undefined` becomes `"undefined"` and a boolean `"true"` or `"false"` |
| `JsObjects.OwnKeysOrder` | src/components/DataSummary.tsx:37 | `Object.entries` lists a permutation of the keys in creation order; its order is pinned down by the four lemmas below |
| `JsObjects.OwnKeysPermutation` | src/components/DataSummary.tsx:37 | `Object.entries` lists every own key, nothing else, and none twice |
| `JsObjects.OwnKeysIndicesFirst` | src/components/DataSummary.tsx:37 | every array-index key is listed before every other key |
| `JsObjects.OwnKeysIndicesAscending` | src/components/DataSummary.tsx:37 | array-index keys are listed in ascending numeric order |
| `JsObjects.OwnKeysNamedInOrder` | src/components/DataSummary.tsx:37 | the keys that are not array indices keep their insertion order |
| `JsObjects.NamedKeysKeepInsertionOrder` | src/components/DataSummary.tsx:37 | with no array-index key, the listing is exactly the insertion order |
| `JsObjects.ArrayIndexKeysComeFirst` | src/components/DataSummary.tsx:37 | keys created as "B" then "7" are listed as "7", "B" |
| `RowNormalizer.Resolve` | src/components/FileUpload.tsx:45-48 | a field takes the title-header cell if truthy, else the alias cell if truthy, else `''`; it is truthy iff one of the two cells is |
| `RowNormalizer.ToCaseStudy` | src/components/FileUpload.tsx:44-48 | every field of the record of one row is that field resolved from its title and alias headers (`Resolve`); so the record has a compound code iff the row has a truthy cell under one of the two code headers, and each optional field without a truthy cell is `''` |
| `RowNormalizer.MapRows` | src/components/FileUpload.tsx:44-48 | one record per row, at the same position |
| `RowNormalizer.Normalize` | src/components/FileUpload.tsx:44-49 | every output record has a truthy compound code; there are no more records than rows |
| `RowNormalizer.NormalizeSelectsCodedRows` | src/components/FileUpload.tsx:44-49 | the output is the order-preserving subsequence of mapped rows at exactly the positions of rows with a code |
| `RowNormalizer.NormalizeKeepsAllIff` | src/components/FileUpload.tsx:44-49 | output length equals input length iff every row has a code under one of its two headers, and then nothing is dropped |
| `RowNormalizer.NormalizeEmpty` | src/components/FileUpload.tsx:44-49 | no rows give no records |
| `RowNormalizer.OtherHeadersIgnored` | src/components/FileUpload.tsx:45-48 | a column under any other spelling, a different capitalisation included, changes no field |
| `RowNormalizer.OptionalFieldsNeverDrop` | src/components/FileUpload.tsx:46-49 | only the compound-code headers decide whether a row is kept |
| `RowNormalizer.MissingOptionalFieldsDefault` | src/components/FileUpload.tsx:45-49 | a row with a code and no optional column is kept with `''` in the optional fields |
| `RowNormalizer.FalsyTitleFallsThrough` | src/components/FileUpload.tsx:45 | a falsy `0` under the title header loses to the alias cell |
| `RowNormalizer.NumberCodePassesThrough` | src/components/FileUpload.tsx:45 | a truthy number code is kept as a number, not converted to a string |
| `RowNormalizer.EmptyCodeRowDropped` | src/components/FileUpload.tsx:45-49 | a row with an empty code and a study code is dropped |
| `FileUpload.LoadOutcome` | src/components/FileUpload.tsx:44-66 | a decode failure gives `[]` and the error notification; a decoded sheet gives exactly the normalised records and a count equal to their number |
| `FileUpload.LoadOutcomeRecords` | src/components/FileUpload.tsx:44-57 | every record handed to the page has a compound code, and there are no more records than rows |
| `FileUpload.ProcessExcelFile` | src/components/FileUpload.tsx:29-32 | starting a file raises the processing flag and keeps the shown records |
| `FileUpload.OnLoad` | src/components/FileUpload.tsx:33-67 | when the file has loaded the page holds exactly the outcome's records and is no longer processing, on both paths |
| `FileUpload.OnDrop` | src/components/FileUpload.tsx:72-77 | only the first accepted file is processed; an empty drop starts nothing |
| `FileUpload.Upload` | src/components/FileUpload.tsx:29-77 | an upload whose file loads replaces the page's records with the new outcome and clears the flag; a failed read leaves the records and the flag raised; an empty drop changes nothing |
| `FileUpload.ExampleNormalizes` | src/components/FileUpload.tsx:44-49 | the three-row example, one row using the snake_case headers, gives three records |
| `DataSummary.TwoCompoundsCodes` | src/components/DataSummary.tsx:28-35 | records with codes A, A, C yield the codes A, C |
| `DataSummary.TwoCompoundsBuckets` | src/components/DataSummary.tsx:28-35 | records with codes A, A, C yield buckets [first, second] and [third] |
| `DataSummary.TwoCompoundsSummary` | src/components/DataSummary.tsx:27-42 | codes A, A, C that are not array indices give two summaries in input order, with figures 2, 3 and 2 |
| `FileUpload.ExampleSummarizes` | src/components/DataSummary.tsx:27-42 | the example gives "CPD-1" with S1 then S2 and "CPD-2" with one study; the average is round(1.5) = 2 |
| `FileUpload.UnreadableUploadShowsEmpty` | src/components/FileUpload.tsx:59-66 | after a file that loads but does not decode, the page shows the empty placeholder |
| `FileUpload.FailedReadStaysProcessing` | src/components/FileUpload.tsx:29-69 | after a file whose read fails, the page stays on the processing placeholder, since only `onload` is installed |
| `DataSummary.FirstAppearance` | src/components/DataSummary.tsx:28-35 | the codes met, each once, exactly those that occur in the data |
| `DataSummary.FirstAppearanceOrder` | src/components/DataSummary.tsx:28-35 | of two listed codes, the earlier has occurred in a prefix of the data where the later has not |
| `DataSummary.Summaries` | src/components/DataSummary.tsx:27-42 | the reference summaries: one per distinct code, each with `totalStudies` equal to the length of its records |
| `DataSummary.BucketSnoc` | src/components/DataSummary.tsx:33 | one more record extends only its own bucket, at the end |
| `DataSummary.GroupStep` | src/components/DataSummary.tsx:29-34 | one step of the `reduce` keeps every bucket equal to the order-preserving filter of the records seen |
| `DataSummary.Project` | src/components/DataSummary.tsx:37-41 | one summary per key in the given order, its count equal to its bucket's length |
| `DataSummary.ProjectIsSummaries` | src/components/DataSummary.tsx:37-41 | projecting the finished dictionary in `Object.entries` order gives the reference summaries |
| `DataSummary.CompoundSummaries` | src/components/DataSummary.tsx:27-42 | the grouping loop and projection compute exactly the reference summaries |
| `DataSummary.SummaryKeys` | src/components/DataSummary.tsx:28-37 | the summary keys are distinct and are exactly the codes that occur |
| `DataSummary.BucketNonEmpty` | src/components/DataSummary.tsx:30-33 | the bucket of a code that occurs is non-empty |
| `DataSummary.SummaryShape` | src/components/DataSummary.tsx:30-40 | each summary's `totalStudies` is the length of its `caseStudies`, at least 1, and all its records carry its code |
| `DataSummary.SummaryCodes` | src/components/DataSummary.tsx:28-37 | summary codes are pairwise distinct, and their set is the set of codes in the data |
| `DataSummary.EachRecordInOneSummary` | src/components/DataSummary.tsx:28-35 | each record lies in the summary for its own code and in no other |
| `DataSummary.BucketKeepsInputOrder` | src/components/DataSummary.tsx:28-33 | a summary's records are the subsequence of the data at the increasing positions of exactly the records with its code |
| `DataSummary.BucketSizesTotal` | src/components/DataSummary.tsx:28-35 | over distinct keys covering every code, the bucket sizes add up to the number of records |
| `DataSummary.TotalStudiesConserved` | src/components/DataSummary.tsx:28-41 | the sum of `totalStudies` over all summaries equals `data.length` |
| `DataSummary.SummariesInFirstAppearanceOrder` | src/components/DataSummary.tsx:28-41 | with no array-index code, the summaries come in first-appearance order of their codes |
| `DataSummary.Average` | src/components/DataSummary.tsx:126 | `0` with no compounds; otherwise the `r` with `r - 1/2 <= n/k < r + 1/2` (round half up) |
| `DataSummary.StatsOf` | src/components/DataSummary.tsx:101-126 | the compound count is the number of distinct codes, at most the case-study count, which is the number of records; the average is `Average` of the two |
| `DataSummary.StatsConsistent` | src/components/DataSummary.tsx:101-126 | the compound count is the number of distinct codes, the case-study count is the sum of the summary counts, and the average is 0 iff there is no record |
| `DataSummary.NoRecordsNoSummaries` | src/components/DataSummary.tsx:27-42 | no records give no summaries and figures 0, 0, 0 |
| `DataSummary.SummaryCodesBound` | src/components/DataSummary.tsx:28-35 | there are never more distinct codes than records |
| `DataSummary.SelectView` | src/components/DataSummary.tsx:44-91 | the processing view iff processing; otherwise the empty view iff there is no data; otherwise the summaries and all three figures of the data, with the compound count equal to the number of summaries and the case-study count to the number of records |
| `IndexPage.Page.constructor` | src/pages/Index.tsx:17-18 | the page starts with no records and not processing |
| `IndexPage.Page.HandleDataProcessed` | src/pages/Index.tsx:20-23 | the records are replaced by exactly the given ones, never merged, and the flag is cleared |
| `IndexPage.Page.HandleProcessingStart` | src/pages/Index.tsx:25-27 | the flag is raised and the records are unchanged |
| `IndexPage.Page.CurrentView` | src/pages/Index.tsx:90-93 | the summary component gets the page's records and flag |
| `IndexPage.InitialView` | src/pages/Index.tsx:17-18 | a new page shows the empty placeholder |

## Left out

- Reading the file (`FileReader`, `readAsArrayBuffer`) and decoding it (`XLSX.read`,
  `sheet_to_json`) are I/O and a foreign library. A file is represented by whether its read
  succeeds and, if it does, by what decoding it yields: a sequence of rows, or an exception.
- The asynchronous gap between `onProcessingStart` and the reader's `onload` is two separate
  steps, `ProcessExcelFile` and `OnLoad`. `Upload` runs them back to back. Events that arrive
  in between are not modelled.
- React's batched `useState` updates are modelled as immediate field assignments.
  `useMemo`, `useCallback`, the dropzone configuration (MIME types, `multiple: false`),
  toasts as UI, `console.log` and all markup are left out.
- `CompoundSummaries` requires that no code is a key inherited from `Object.prototype`
  (`"__proto__"`, `"toString"`, `"constructor"` and the like). On such a code the source's
  `acc[code].push` throws, and the model does not capture that crash.
- SelectView: on data with such a code it still returns a summary view, and so does
  `Page.CurrentView`; in the source the grouping throws before any view is chosen.
- Cells hold integers only. Fractional numbers, `NaN`, `null` and dates are not modelled.
- IntToString: renders every integer in plain decimal, whereas JavaScript prints numbers of
  magnitude 10^21 or more, positive or negative, in exponent form; such codes are outside
  the model. `Missing` stands for
  an absent column and becomes the key `"undefined"`.
- `Math.round` on floating point is replaced by the exact integer formula. This matches the
  floating-point result while record counts stay far below 2^52.
- The pluralisation label of the summary badge and the status badges of
  src/components/DocumentStatus.tsx are presentation only. DocumentStatus.tsx is not part
  of this model.
