# Integrated Values Survey builder — a Dafny model

This project models the build-and-validate pipeline that assembles the Integrated Values Survey (IVS) from two survey extracts. The extracts are the World Values Survey (WVS) and the European Values Study (EVS). The pipeline has four steps:

1. It keeps the WVS rows whose `s002` wave is requested, and the EVS rows whose `S002EVS` wave is requested.
2. It checks that both tables carry the respondent id `S007_01`.
3. It concatenates EVS then WVS and sorts the result by `S007_01`.
4. It reports a fixed battery of data-quality checks on the merged table: duplicate ids, the number of countries, the survey composition, and missing values in the key columns.

The model also covers the column search of the conversion check script (`find_variables`) and its presence map (`check_variable_presence`).

Files:

- `wrappers.dfy` (module `Wrappers`): `Option` (a missing cell) and `Result` (a raised error).
- `sequences.dfy` (module `Sequences`): `IsSubsequence`, order-preserving deletion.
- `data_loader.dfy` (module `DataLoader`): tables, the wave filter, the merge with its in-place sort, the validation report, and the class `IVSBuilder`.
- `verify_conversion.dfy` (module `VerifyConversion`): lower-casing, substring search, `FindVariables` and `Presence`.

A table is its list of column names plus its rows. A row holds four cells:

- `wave`: the source's own wave column;
- `id`: `S007_01`;
- `s024`: `S024`, which is country * 10 + wave;
- `s001`: `S001`, where 1 means EVS and 2 means WVS.

A missing cell is `None`. Each column-lookup error of the Python code becomes a `Failure` of a `SchemaError`:

- the loaders' `ValueError` is `MissingWaveColumn`;
- the merge guard's `ValueError` is `MissingMergeKey`;
- the `KeyError` of `df["X"]` is `MissingColumn`.

Reading a CSV file is not modelled: `IVSBuilder` keeps its two paths, and the reader is a parameter `readCsv: string -> Table` applied to them. The merge copies the concatenation into a fresh array and insertion-sorts it in place (`SortById`). Missing ids sort last, as pandas places NaN keys. The sort is only promised to be ordered and a permutation, not stable.

Two points where the model follows the code:

- The sort is pandas' default `sort_values`, which is not guaranteed stable. The model promises order and permutation only.
- The validation does raise, with a `KeyError`, when `S024` or `S001` is absent from the merged table. The merge also raises when neither input has `S001`, because it looks up `ivs["S001"]` for its breakdown (src/data_loader.py:53).

## Model

| member | source | states |
|---|---|---|
| `DataLoader.FilterWaves` | src/data_loader.py:16 | the filter never grows the table, and every row it returns has its wave among the requested ones |
| `DataLoader.FilterWavesMultiplicity` | src/data_loader.py:16 | completeness with multiplicity: a row occurs in the result as often as in the source if its wave is requested, and not at all otherwise |
| `DataLoader.FilterWavesMembership` | src/data_loader.py:33 | a row is in the result if and only if it is a source row with a requested wave |
| `DataLoader.FilterWavesSubsequence` | src/data_loader.py:33 | boolean-mask selection keeps source order: the result is a subsequence of the source rows |
| `DataLoader.LoadWaves` | src/data_loader.py:13-16 | schema guard: fails with the wave column's name exactly when that column is absent; otherwise the same columns and the order-preserving, sound and complete selection of rows |
| `DataLoader.IVSBuilder.constructor` | src/data_loader.py:4-6 | stores the WVS and EVS paths that `LoadWvs` and `LoadEvs` read |
| `DataLoader.IVSBuilder.LoadWvs` | src/data_loader.py:8-23 | reads the builder's WVS path; fails iff `s002` is absent; otherwise the same columns and exactly the filtered rows: only requested waves, every requested row kept as often as in the source, source order kept |
| `DataLoader.IVSBuilder.LoadEvs` | src/data_loader.py:25-40 | the same for the EVS path and its `S002EVS` column |
| `DataLoader.ColumnUnion` | src/data_loader.py:48 | the concatenation's columns: exactly the columns of either input, the first input's columns first and in order |
| `DataLoader.SortById` | src/data_loader.py:49 | the in-place sort leaves the array ordered by id (missing ids last) and a permutation of what it was |
| `DataLoader.Merge` | src/data_loader.py:42-55 | fails with the merge-key error unless BOTH inputs have `S007_01`; then fails with a `KeyError` iff neither has `S001`; otherwise returns all rows of both, `len(evs) + len(wvs)` of them, as a sorted permutation of EVS-then-WVS |
| `DataLoader.IdCountPermutation` | src/data_loader.py:48-49 | reordering rows (as the sort does) does not change how often any id occurs |
| `DataLoader.MergeIdCounts` | src/data_loader.py:48-49 | merge completeness: each id occurs in the merged table exactly as often as in both inputs together, and the row count is the sum |
| `DataLoader.DuplicateCount` | src/data_loader.py:74 | `duplicated().sum()`, rows whose id appeared at an earlier position, equals rows minus distinct ids |
| `DataLoader.DuplicatesZeroIffDistinct` | src/data_loader.py:74-75 | the duplicate check passes (count 0) if and only if no two rows share an id |
| `DataLoader.DuplicateCountPermutation` | src/data_loader.py:49 | the duplicate count does not depend on row order, so not on the sort |
| `DataLoader.OneExtraCopy` | src/data_loader.py:74-75 | a duplicate-free table plus one extra copy of one id, in any order, has duplicate count exactly 1 |
| `DataLoader.CountryOf` | src/data_loader.py:83 | `S024 // 10` is floor division: `10*c <= code < 10*c + 10`, also for negative sentinel codes |
| `DataLoader.CountryWaveSetMember` | src/data_loader.py:79 | the country-wave codes are exactly the present `S024` values (`nunique` skips NaN) |
| `DataLoader.CountrySetMember` | src/data_loader.py:83-84 | a country is counted exactly when some row's present `S024` code floors to it |
| `DataLoader.CountryCountBound` | src/data_loader.py:79-84 | there are never more distinct countries than distinct `S024` codes |
| `DataLoader.SourceCount` | src/data_loader.py:89-90 | a survey's row count never exceeds the table |
| `DataLoader.CompositionBound` | src/data_loader.py:89-91 | EVS count plus WVS count is at most the total row count |
| `DataLoader.MissingCount` | src/data_loader.py:97-99 | the missing count of a key column is at most the row count, and is 0 iff every row has that cell |
| `DataLoader.MissingAudit` | src/data_loader.py:96-100 | one missing-value check per key column, in the order `S007_01`, `S024`, `S001`, each with its missing count, passing iff no cell of that column is missing |
| `DataLoader.Report` | src/data_loader.py:73-100 | each check with its measured value: duplicates = rows minus distinct ids and passes iff ids are distinct; countries = distinct `S024 // 10`, at most the country-wave count, passes iff in 100..120; composition counts equal to the `S001 == 1` and `S001 == 2` row counts, together within the total; the missing-value checks of `MissingAudit` |
| `DataLoader.Validate` | src/data_loader.py:68-100 | raises the `KeyError` of the first absent key column in lookup order; otherwise the report of the table's rows, which it does not change |
| `DataLoader.MergedReport` | src/data_loader.py:63-65 | on a merged table the report's total is the sum of the inputs and its duplicate count is that of EVS-then-WVS, independent of the sort |
| `DataLoader.GetUniqueCountries` | src/data_loader.py:57-58 | as written: `S024.nunique()`, the country-wave count, which is at least the country count; fails with `MissingColumn("S024")`, the `KeyError`, iff `S024` is absent |
| `DataLoader.GetUniqueCountriesCountsCountryWaves` | src/data_loader.py:57-58 | two waves of one country: it reports 2 where there is 1 country |
| `DataLoader.UniqueCountries` | src/data_loader.py:82-84 | corrected: the distinct `S024 // 10` count, the same number the validation report gives; fails with `MissingColumn("S024")` iff `S024` is absent |
| `DataLoader.IVSBuilder.BuildIvs` | src/data_loader.py:60-66 | load WVS, load EVS, merge, validate; its first error aborts the build and is the one returned: the `s002` error, then `S002EVS`, then the merge key, then the `S001` lookup, then the `S024` lookup; it succeeds iff `s002`, `S002EVS`, `S007_01` in both, and `S001` and `S024` in either are present; on success it returns the merge of the two filtered tables unchanged, with `Validate`'s report on it |
| `VerifyConversion.LowerChar` | scripts/verify_conversion.py:45 | lower-casing a character leaves no ASCII upper-case letter, maps `A`-`Z` to `a`-`z` and touches nothing else |
| `VerifyConversion.Lower` | scripts/verify_conversion.py:45 | `col.lower()` keeps the length, maps each upper-case letter to its lower-case letter, and changes nothing else |
| `VerifyConversion.LowerIdempotent` | scripts/verify_conversion.py:45 | lower-casing twice is lower-casing once |
| `VerifyConversion.FindVariables` | scripts/verify_conversion.py:41-47 | the list the loop builds equals `SelectMatching`: a subsequence of the columns, holding a column iff some pattern occurs in its lower-cased name |
| `VerifyConversion.SelectMatchingSubsequence` | scripts/verify_conversion.py:43-47 | the selection keeps column order |
| `VerifyConversion.SelectMatchingMultiplicity` | scripts/verify_conversion.py:44-46 | each matching column is appended once per column, not once per matching pattern |
| `VerifyConversion.SelectMatchingMembership` | scripts/verify_conversion.py:44-46 | a name is selected iff it is a column and some pattern occurs in its lower-cased form |
| `VerifyConversion.NoPatternsSelectNothing` | scripts/verify_conversion.py:45 | an empty pattern list selects nothing (`any` over nothing is false) |
| `VerifyConversion.EmptyPatternSelectsAll` | scripts/verify_conversion.py:45 | the empty pattern selects every column |
| `VerifyConversion.UpperCasePatternNeverMatches` | scripts/verify_conversion.py:45 | only the column is lower-cased, so a pattern with an upper-case letter never matches |
| `VerifyConversion.MatchingIgnoresColumnCase` | scripts/verify_conversion.py:42-45 | a column and its lower-cased name match the same patterns |
| `VerifyConversion.Presence` | scripts/verify_conversion.py:53-54 | one entry per dataset, true iff the name is exactly one of its columns |
| `VerifyConversion.PresenceIsCaseSensitive` | scripts/verify_conversion.py:44-54 | presence is case-sensitive where pattern search is not: `s007_01` is absent next to `S007_01`, which the pattern `s007` still finds |

## Left out

- `DataLoader.IVSBuilder.BuildIvs`: returns the validation report next to the merged table; `build_ivs` only prints it and returns the table alone.
- CSV reading and writing, the JSON metadata file and directory creation: I/O. Reading is the `readCsv` parameter.
- All printed output (progress lines, value-count breakdowns, PASS/FAIL labels): reporting only. The per-wave breakdown after filtering and the `S001` breakdown after the merge are not modelled. The only part kept is the `KeyError` that the `S001` lookup can raise.
- The composition percentages `evs_count/total*100`: floating point, and a division by zero on an empty table. Only the integer counts are modelled.
- `astype(int)` on `S024 // 10` raises when an `S024` cell is missing. The model instead counts countries over the present codes, as `nunique` would.
- The model does not say where pandas puts NaN ids relative to each other. It sorts them last and treats all NaN ids as one value in the duplicate count, as `duplicated` does.
- NaN wave values: `wave` is always an integer in the model.
- The column-by-column detail of `concat` for mismatched schemas: the model keeps the union of column names, and every row has the same four cells.
- `DataLoader.SortById`: does not claim stability, because pandas' default sort kind does not promise it.
- `VerifyConversion.Lower`: lower-cases ASCII letters only; Python's `str.lower` also folds other Unicode letters.
- `load_dataset`, `print_basic_info`, `analyze_variable` and `main` of `scripts/verify_conversion.py`, `scripts/explore_ivs_data.py`, `scripts/build_ivs.py` and `test_setup.py`: I/O, printing, command-line glue and a network client.
- The default arguments `[5, 6, 7]` and `[4, 5]` of `load_wvs`, `load_evs` and `build_ivs`: Dafny has no default arguments, so the loaders and `BuildIvs` always take their waves explicitly.

## Findings

| source | as written | input that shows it | evidently intended | confidence | as-written member | corrected member |
|---|---|---|---|---|---|---|
| src/data_loader.py:57-58 | `get_unique_countries` returns `S024.nunique()`, which counts country-wave codes; `scripts/build_ivs.py` stores it as `n_countries` | two rows with `S024` = 2765 and 2766 (one country, two waves): it reports 2 | the number of distinct countries, `S024 // 10`, as the validation counts them (src/data_loader.py:82-84) | medium, not executed | `DataLoader.GetUniqueCountriesCountsCountryWaves` | `DataLoader.UniqueCountries` |
