# Correction rules for spreadsheet rows, in Dafny

This project models the core of csvxlseditor, a tool that loads the rows of
a spreadsheet and corrects them column by column. A *profile* lists the
columns of the file. Each column holds *bindings* `(ruleId, order)` that
refer to rules of a catalog. A *rule* has an optional condition on the row
and a transform `(value, row) -> value`.

The engine has two modes:

- **Final mode** (`applyRulesToRows`) returns corrected copies of the rows.
- **Preview mode** (`applyRulesPreview`) also records, per column, a
  `_changes` entry `{old, new}`.

Both modes resolve a column's bindings the same way. They look each id up
in the catalog, drop ids the catalog lacks, and stable-sort the rest by
`order`.

Around the engine the project also models:

- the store that holds the profile and the rows, and edits the profile;
- the four-rule catalog;
- the chunking helper;
- the worker's trimming pass.

Modules, one per file:

| file | module | what it holds |
|---|---|---|
| wrappers.dfy | Wrappers | `Option` |
| rows.dfy | Rows | cell values (a closed sum: string, number, boolean, null, undefined); rows as a key sequence plus a map, so `Object.keys` order is kept; `row[k]`, `row[k] = v`, truthiness, `??` |
| types.dfy | Types | `Rule`, `Binding`, `Column`, `Profile`; whether a rule applies |
| strings.dfy | Strings | `trim`, unquoting with `slice(1, -1)`, `replace(",", ".")` |
| rules.dfy | Rules | the catalog `allRules`; rules 1 and 2 take the host's number parsing and rounding as a `NumericOps` parameter |
| resolution.dfy | Resolution | lookup, dropping dangling ids, stable sort by `order` |
| apply_rules.dfy | ApplyRules | both modes: fold definitions (`FinalRow`, `PreviewRowOf`) and the loop methods proved equal to them |
| engine_properties.dfy | EngineProperties | guards, empty and dangling bindings, the meaning of `_changes`, what final mode's rules see |
| mode_comparison.dfy | ModeComparison | when the two modes agree, and a row on which they differ |
| store.dfy | CorrectionStore | profile editing as functions with lemmas, and the store class whose methods overwrite its fields |
| xlsx_utils.dfy | XlsxUtils | `splitIntoChunks` |
| xlsx_worker.dfy | XlsxWorker | the worker's `applyRules` and the mapping over a chunk |

The loops of the source are `method`s with loop invariants. Each method is
proved equal to a specification function, and the properties are lemmas
about those functions.

- `CorrectRow` and `PreviewOneRow` are the per-row loops of the two modes.
- `SplitIntoChunks` is the chunking loop.
- `XlsxWorker.ApplyRules` is the worker's `for…in` loop.
- `CreateProfileFromFile` and `ApplyChanges` hold the store's `map` loops.

The store is a class. Its fields are `profile`, `originalRows`,
`previewRows`, `processedRows` and `availableRules`. Each method states the
complete new state.

### How final and preview mode differ, and what `_changes` records

- **What a rule sees in final mode.** Final mode keeps a column's running
  value in a local and writes it to the row only once the column's whole
  pipeline has run (`frontend/src/utils/applyRules.ts:25-36`). So every
  rule of a column sees the row as it was before that column started,
  including the column's own cell. Preview mode writes each change into the
  row at once (`frontend/src/utils/applyRules.ts:74`), so later rules of the
  same column see it.
  - `EngineProperties.FinalColumnSeesRowBeforeIt` states what final mode's
    rules see.
  - `ModeComparison.ModesDifferOnOwnColumn` gives a profile of the catalog's
    own rules 4 then 3 on which the two modes produce different cells.
- **What a `_changes` entry records.** A column has an entry exactly when
  some applied rule of its pipeline returned a value `!==` its input
  (`frontend/src/utils/applyRules.ts:73-77`). `new` is the column's final
  cell. `old` is the cell before the first change, and later changes keep it
  unless it is null or undefined (the `??` at
  `frontend/src/utils/applyRules.ts:76`).
  - `EngineProperties.PreviewEntries` states this for every column of a row.
  - `EngineProperties.EntryDespiteNetNoChange`: the entry exists even when
    the pipeline ends where it started. "a" -> "x" -> "a" leaves the entry
    `{old: "a", new: "a"}`.
  - `EngineProperties.NullBeforeNotKept`: `null ?? oldValue` moves on to the
    next value, so `old` is not kept when it was null. null -> "x" -> "y"
    records `{old: "x", new: "y"}`.

## Model

| member | source | states |
|---|---|---|
| Rows.Get | frontend/src/utils/applyRules.ts:25 | reading a key gives its cell, and `undefined` when the row lacks the key |
| Rows.Set | frontend/src/utils/applyRules.ts:36 | writing a cell gives the new value at that key, leaves every other key's value alone, keeps an existing key in place and appends a new key last, and keeps a row well formed |
| Rows.SetSameValue | frontend/src/utils/applyRules.ts:36 | writing back the value a present key already holds leaves the row as it was |
| Rows.SetSet | frontend/src/utils/applyRules.ts:74 | a second write to the same key overrides the first, so repeated writes leave only the last value |
| Rows.Truthy | frontend/src/rules/rules.ts:33-34 | a value is truthy unless it is one of the falsy values `""`, `0`, `false`, `null`, `undefined` |
| Rows.IsNullish | frontend/src/utils/applyRules.ts:76 | `== null` holds exactly for null and undefined, and such a value is falsy |
| Types.Applies | frontend/src/utils/applyRules.ts:28 | a rule without a condition always applies; one with a condition applies exactly when the condition holds on the row |
| Rows.Coalesce | frontend/src/utils/applyRules.ts:76 | `a ?? b` is `a` unless `a` is null or undefined, and `b` then |
| Resolution.FindRule | frontend/src/utils/applyRules.ts:18 | the lookup finds nothing exactly when no catalog rule has the id, and what it finds has the id |
| Resolution.FirstIndex | frontend/src/utils/applyRules.ts:18 | `find` stops at the first catalog rule with the id: every earlier rule has another id |
| Resolution.FindRuleAt | frontend/src/utils/applyRules.ts:18 | a rule whose id no earlier rule has is the one the lookup returns for that id |
| Resolution.Lookup | frontend/src/utils/applyRules.ts:16-22 | the map and filter yield at most one entry per binding, each carrying an order used by some binding |
| Resolution.LookupOne | frontend/src/utils/applyRules.ts:17-22 | one binding yields nothing when no catalog rule has its id, and otherwise one catalog rule with that id carrying the binding's order |
| Resolution.LookupAppend | frontend/src/utils/applyRules.ts:16-22 | the map and filter work binding by binding: on a concatenation they give the concatenation of the results |
| Resolution.SortByOrder | frontend/src/utils/applyRules.ts:23 | the sort is a stable sort: same length, ascending order, and for each order value the entries with it in their input sequence |
| Resolution.Insert | frontend/src/utils/applyRules.ts:23 | one insertion step keeps the sequence sorted and puts the new entry after all entries of its order |
| Resolution.WithOrderAppend | frontend/src/utils/applyRules.ts:23 | helper for SortByOrder: the entries of one order in a concatenation are those of the parts, in turn |
| Resolution.WithOrderNonEmpty | frontend/src/utils/applyRules.ts:23 | helper for AppendGreatestRunsLast: an order value has entries exactly when some entry carries it |
| Resolution.LookupDangling | frontend/src/utils/applyRules.ts:19 | a binding whose id the catalog lacks resolves to nothing |
| Resolution.LookupSkipsDangling | frontend/src/utils/applyRules.ts:17-22 | removing a dangling binding from anywhere in the list does not change the lookup |
| Resolution.DanglingBindingIgnored | frontend/src/utils/applyRules.ts:16-23 | a binding whose id no catalog rule has does not change the resolved pipeline |
| Resolution.NoBindingsNoPipeline | frontend/src/utils/applyRules.ts:16-23 | a column without bindings has an empty pipeline |
| Resolution.Resolve | frontend/src/utils/applyRules.ts:16-23 | the pipeline has one entry per found binding, runs in ascending order, and rules of equal order keep their binding-list order |
| Resolution.SortAppendGreatest | frontend/src/utils/applyRules.ts:23 | an entry whose order exceeds all others ends up last, after the others sorted |
| Resolution.AppendGreatestRunsLast | frontend/src/utils/applyRules.ts:16-23 | a found binding appended with a larger order than all others adds its rule at the end of the pipeline |
| Resolution.IncreasingOrdersRunInListOrder | frontend/src/utils/applyRules.ts:16-23 | with strictly increasing orders the sort changes nothing: the pipeline is the lookup in binding order |
| Resolution.TwoBindingsRunInOrder | frontend/src/utils/applyRules.ts:16-23 | two found bindings with increasing orders run in that order |
| ApplyRules.RunFinal | frontend/src/utils/applyRules.ts:27-34 | a final pipeline none of whose rules applies to the row leaves the value as it is |
| ApplyRules.FinalColumn | frontend/src/utils/applyRules.ts:25-36 | one final-mode column writes the pipeline's value, computed from the pre-pipeline cell with every rule seeing the same row, and leaves every other cell |
| ApplyRules.FinalRow | frontend/src/utils/applyRules.ts:15-37 | final mode on a row changes only the cells of column keys, adds every column key, and keeps the row's keys in front in their order |
| ApplyRules.FinalRowAppend | frontend/src/utils/applyRules.ts:15-37 | running the columns `a + b` is running `a`, then running `b` on the result |
| ApplyRules.CorrectRow | frontend/src/utils/applyRules.ts:13-39 | the nested loops of one row compute the final-mode fold |
| ApplyRules.ApplyRulesToRows | frontend/src/utils/applyRules.ts:7-41 | one output row per input row, in order, each the final-mode fold of that input row |
| ApplyRules.PreviewStep | frontend/src/utils/applyRules.ts:67-80 | one preview rule changes the row exactly when it applies and returns a value `!==` the cell; then the cell and the entry's `new` hold that value, and `old` is the existing entry's `old` unless that is missing, null or undefined, in which case it is the cell before this step (`old ?? oldValue`), and other keys keep their cells and entries |
| ApplyRules.RunPreview | frontend/src/utils/applyRules.ts:66-81 | a preview pipeline changes only its own column's cell and entry, keeps an existing entry, and keeps every key |
| ApplyRules.PreviewColumn | frontend/src/utils/applyRules.ts:55-81 | one preview column changes only its own cell and entry, and keeps an existing entry |
| ApplyRules.PreviewColumns | frontend/src/utils/applyRules.ts:54-82 | the preview columns change only the cells and entries of column keys, make entries only for column keys, and keep the row's keys |
| ApplyRules.PreviewRowOf | frontend/src/utils/applyRules.ts:52-84 | preview mode on a row starts from an empty `_changes`, makes entries only for column keys, and leaves other cells alone |
| ApplyRules.PreviewColumnsAppend | frontend/src/utils/applyRules.ts:54-82 | running the preview columns `a + b` is running `a`, then `b` |
| ApplyRules.PreviewOneRow | frontend/src/utils/applyRules.ts:52-84 | the nested loops of one row, with their in-place writes, compute the preview fold |
| ApplyRules.ApplyRulesPreview | frontend/src/utils/applyRules.ts:46-86 | one preview row per input row, in order, each the preview fold of that input row |
| EngineProperties.ConditionGuardsRule | frontend/src/utils/applyRules.ts:28-30 | a rule without a condition always runs; one whose condition is false leaves the value |
| EngineProperties.NoRuleAppliesPreview | frontend/src/utils/applyRules.ts:66-81 | when no rule of a preview pipeline applies, the preview row stays |
| EngineProperties.EmptyColumnNoEffect | frontend/src/utils/applyRules.ts:16-36 | a column without bindings keeps its value and gets no entry; final mode still writes the cell |
| EngineProperties.DanglingBindingNoEffect | frontend/src/utils/applyRules.ts:16-23 | a binding to a missing id changes neither mode's result for the column |
| EngineProperties.EntryIffSomeRuleChanged | frontend/src/utils/applyRules.ts:70-80 | starting without an entry, the pipeline makes one iff some applied rule returned a value `!==` its input; `new` is the final cell; without an entry nothing changed |
| EngineProperties.BeforeIsPrePipelineValue | frontend/src/utils/applyRules.ts:75-78 | when the cell was neither null nor undefined, `old` is the pre-pipeline value however many rules changed it |
| EngineProperties.PreviewEntries | frontend/src/utils/applyRules.ts:54-82 | with distinct column keys, each column starts from the row's own cell; its entry exists iff some applied rule changed the cell; `new` is the final cell; `old` is the original cell unless that was null or undefined; without an entry the cell is unchanged |
| EngineProperties.FinalColumnSeesRowBeforeIt | frontend/src/utils/applyRules.ts:25-36 | with distinct column keys, a column's final value is its pipeline run from the original cell, every rule seeing the row as the earlier columns left it |
| EngineProperties.EntryDespiteNetNoChange | frontend/src/utils/applyRules.ts:73-78 | "a" -> "x" -> "a" leaves the entry `{old: "a", new: "a"}` with the cell back at "a" |
| EngineProperties.NullBeforeNotKept | frontend/src/utils/applyRules.ts:76 | null -> "x" -> "y" records `{old: "x", new: "y"}` |
| ModeComparison.PipelinesAgree | frontend/src/utils/applyRules.ts:64-81 | on a pipeline blind to its own cell, preview mode's cell follows the final-mode value and nothing else changes |
| ModeComparison.ColumnsAgree | frontend/src/utils/applyRules.ts:25-36 | one such column yields the same cells in both modes |
| ModeComparison.ModesAgree | frontend/src/utils/applyRules.ts:15-37 | when every column key is in the row and no pipeline reads its own cell, preview cells equal the final-mode row |
| ModeComparison.CatalogBlindness | frontend/src/rules/rules.ts:1-42 | rules 1, 2 and 4 ignore the row, and rule 3 ignores every cell but the two yield columns |
| ModeComparison.FillYesBlindTo | frontend/src/rules/rules.ts:32-34 | rule 3 ignores a cell other than the two yield columns |
| ModeComparison.ExamplePipeline | frontend/src/utils/applyRules.ts:16-23 | the bindings `(4, 1), (3, 2)` resolve to rule 4, then rule 3 |
| ModeComparison.ExampleFinal | frontend/src/utils/applyRules.ts:25-36 | in final mode that pipeline gives "Да": rule 3 sees the untrimmed "  " |
| ModeComparison.ExampleTrimmedRow | frontend/src/rules/rules.ts:32-34 | "  " trims to "", and rule 3 does not fire once the 14-day cell is "" |
| ModeComparison.ExampleFirstPreviewStep | frontend/src/utils/applyRules.ts:70-79 | the first preview step writes the trimmed "" into the row |
| ModeComparison.ExamplePreview | frontend/src/utils/applyRules.ts:66-81 | in preview mode that pipeline leaves "" |
| ModeComparison.ModesDifferOnOwnColumn | frontend/src/utils/applyRules.ts:25-36 | on the example row the two modes give "Да" and "" for the 14-day column |
| Rules.ToJsString | frontend/src/rules/rules.ts:9 | `String(v)` of each kind of value; only the empty string and a number can print as "" |
| Rules.ToNumber | frontend/src/rules/rules.ts:25-26 | the number `isNaN` and `Math.round` coerce to: booleans and null to 1 or 0, only a string or undefined to `NaN` |
| Rules.NormalizeNumeric | frontend/src/rules/rules.ts:9-15 | of the trimmed and unquoted text, the first comma becomes a dot and every other character stays |
| Rules.ToNumberTransform | frontend/src/rules/rules.ts:5-19 | rule 1 returns null, undefined and "" unchanged, returns the original value when parsing the normalised string fails, and the parsed number otherwise |
| Rules.RoundTransform | frontend/src/rules/rules.ts:24-27 | rule 2 returns "" and values that do not coerce to a number unchanged, and rounds the coerced number otherwise |
| Rules.FillYesTransform | frontend/src/rules/rules.ts:35 | rule 3's transform always returns "Да" |
| Rules.TrimTransform | frontend/src/rules/rules.ts:40 | rule 4 trims strings and returns every other value unchanged |
| Rules.AllRules | frontend/src/rules/rules.ts:1-42 | the catalog holds rules 1 to 4 in that order, with pairwise distinct ids; only rule 3 has a condition; each rule carries its transform |
| Rules.FillYesCondition | frontend/src/rules/rules.ts:32-34 | rule 3 needs a truthy 14-day cell and fires whenever the yesterday cell is falsy as well; for a number or boolean yesterday cell it fires exactly then |
| Rules.FillYesConditionIff | frontend/src/rules/rules.ts:32-34 | rule 3 fires iff the yesterday cell is falsy or only whitespace and the 14-day cell is truthy |
| Rules.TrimTransformIdempotent | frontend/src/rules/rules.ts:40 | rule 4 twice is rule 4 once |
| Rules.NormalizeCommaExample | frontend/src/rules/rules.ts:9-15 | "3,7" normalises to "3.7" |
| Rules.NormalizeQuotedExample | frontend/src/rules/rules.ts:9-15 | ` "1,5,0" ` normalises to "1.5,0": trim, one pair of quotes, first comma only |
| Strings.TrimStart | frontend/src/rules/rules.ts:9 | the leading whitespace goes: the result is a suffix starting with a non-whitespace character, with only whitespace before it |
| Strings.TrimEnd | frontend/src/rules/rules.ts:9 | the trailing whitespace goes: the result is a prefix ending with a non-whitespace character, with only whitespace after it |
| Strings.Trim | frontend/src/rules/rules.ts:9 | the trimmed string is no longer and neither starts nor ends with whitespace |
| Strings.TrimIsInfix | frontend/src/rules/rules.ts:9 | the trimmed string is an infix of the input with only whitespace on either side |
| Strings.TrimIdempotent | frontend/src/rules/rules.ts:40 | trimming twice is trimming once |
| Strings.TrimEmptyIffBlank | frontend/src/rules/rules.ts:33 | a string trims to "" iff all its characters are whitespace |
| Strings.StripQuotes | frontend/src/rules/rules.ts:10-12 | one pair of surrounding double quotes goes; a lone `"` becomes ""; any other string stays |
| Strings.IndexOf | frontend/src/rules/rules.ts:15 | the position of the first occurrence, or the length when there is none |
| Strings.ReplaceFirst | frontend/src/rules/rules.ts:15 | only the first comma becomes a dot; without a comma the string stays |
| CorrectionStore.ProfileName | frontend/src/stores/useFileCorrectionStore.ts:50 | an absent or empty name gives way to the fallback name |
| CorrectionStore.FirstRowKeys | frontend/src/stores/useFileCorrectionStore.ts:48 | the first row's keys in order, and none without rows |
| CorrectionStore.CreateFromRows | frontend/src/stores/useFileCorrectionStore.ts:47-57 | one column per key of the first row, in key order, each typed "string" with no rules; the fixed description; no rows give no columns |
| CorrectionStore.HasRules | frontend/src/stores/useFileCorrectionStore.ts:28 | a profile has rules unless every column's binding list is empty |
| CorrectionStore.CreatedProfileHasNoRules | frontend/src/stores/useFileCorrectionStore.ts:52-56 | a created profile binds nothing, so its preview is empty, and it binds no id twice |
| CorrectionStore.RuleFreeColumnsLeaveRow | frontend/src/stores/useFileCorrectionStore.ts:52-56 | final mode under rule-less columns the row has returns the row unchanged |
| CorrectionStore.CreatedProfileLeavesRows | frontend/src/stores/useFileCorrectionStore.ts:47-57 | applying a created profile to a row with the first row's keys changes nothing |
| CorrectionStore.FindColumn | frontend/src/stores/useFileCorrectionStore.ts:64 | the first column with the key, or none when no column has it |
| CorrectionStore.HasBinding | frontend/src/stores/useFileCorrectionStore.ts:67 | an id is bound unless every binding of the column names another id |
| CorrectionStore.MaxOrder | frontend/src/stores/useFileCorrectionStore.ts:70 | the maximum order: no binding exceeds it, and some binding has it |
| CorrectionStore.NextOrder | frontend/src/stores/useFileCorrectionStore.ts:69-71 | 1 for an empty list; otherwise one past the maximum order: every order is at most `o - 1` and some order equals it, so the new order exceeds every existing one |
| CorrectionStore.AddRule | frontend/src/stores/useFileCorrectionStore.ts:62-73 | no change without the column or with the id already bound; otherwise that column gets `{ruleId, order}` appended and everything else stays |
| CorrectionStore.WithoutRule | frontend/src/stores/useFileCorrectionStore.ts:81 | the filter keeps exactly the bindings with another id, and changes nothing when the id is not bound |
| CorrectionStore.WithoutRuleAppend | frontend/src/stores/useFileCorrectionStore.ts:81 | the filter keeps the relative order of what it keeps |
| CorrectionStore.RemoveRule | frontend/src/stores/useFileCorrectionStore.ts:76-82 | no change without the column; otherwise that column loses every binding with the id, the rest keep their orders, and everything else stays |
| CorrectionStore.AddRuleTwice | frontend/src/stores/useFileCorrectionStore.ts:67 | adding the same id twice is adding it once |
| CorrectionStore.AddRuleKeepsUnique | frontend/src/stores/useFileCorrectionStore.ts:67-72 | adding keeps every column free of duplicate ids |
| CorrectionStore.RemoveRuleKeepsUnique | frontend/src/stores/useFileCorrectionStore.ts:81 | removing keeps every column free of duplicate ids |
| CorrectionStore.WithoutRuleUnique | frontend/src/stores/useFileCorrectionStore.ts:81 | filtering a list without duplicate ids leaves one without duplicate ids |
| CorrectionStore.ConsDistinct | frontend/src/stores/useFileCorrectionStore.ts:81 | helper for WithoutRuleUnique: a binding whose id the list lacks can go in front without making a duplicate |
| CorrectionStore.RemoveUndoesAdd | frontend/src/stores/useFileCorrectionStore.ts:62-82 | removing an id just added to a column that did not bind it restores the profile |
| CorrectionStore.AddedRuleRunsLast | frontend/src/stores/useFileCorrectionStore.ts:69-72 | the added binding's rule runs after the column's existing pipeline |
| CorrectionStore.AddRuleAt | frontend/src/stores/useFileCorrectionStore.ts:64-72 | a successful add keeps the column where it was and appends the binding |
| CorrectionStore.ThreeBindings | frontend/src/stores/useFileCorrectionStore.ts:69-71 | helper for ThreeAddsNumberedInOrder: the orders and duplicate checks that three adds go through |
| CorrectionStore.ThreeAddsNumberedInOrder | frontend/src/stores/useFileCorrectionStore.ts:69-72 | three adds of distinct ids to a rule-less column number them 1, 2, 3 |
| CorrectionStore.FileCorrectionStore.constructor | frontend/src/stores/useFileCorrectionStore.ts:13-19 | the store starts with no profile, no rows and the given catalog |
| CorrectionStore.FileCorrectionStore.SetProfile | frontend/src/stores/useFileCorrectionStore.ts:43-45 | the profile is replaced and the rows stay |
| CorrectionStore.FileCorrectionStore.CreateProfileFromFile | frontend/src/stores/useFileCorrectionStore.ts:47-59 | the profile becomes the one created from the rows and the rows stay |
| CorrectionStore.FileCorrectionStore.SetOriginalRows | frontend/src/stores/useFileCorrectionStore.ts:85-87 | the original rows are replaced and nothing else changes |
| CorrectionStore.FileCorrectionStore.AddRuleToColumn | frontend/src/stores/useFileCorrectionStore.ts:62-73 | without a profile nothing changes; otherwise the profile becomes `AddRule` of it; the rows stay |
| CorrectionStore.FileCorrectionStore.RemoveRuleFromColumn | frontend/src/stores/useFileCorrectionStore.ts:76-82 | without a profile nothing changes; otherwise the profile becomes `RemoveRule` of it; the rows stay |
| CorrectionStore.FileCorrectionStore.ApplyChanges | frontend/src/stores/useFileCorrectionStore.ts:90-98 | without a profile nothing changes; otherwise the processed rows are final mode over the original rows, one per row, and the preview shows them with empty `_changes` |
| CorrectionStore.FileCorrectionStore.Reset | frontend/src/stores/useFileCorrectionStore.ts:101-109 | the profile and all row lists are cleared |
| CorrectionStore.FileCorrectionStore.RecomputePreview | frontend/src/stores/useFileCorrectionStore.ts:22-36 | the preview is preview mode over the original rows when there are rows, a profile and a column with rules, and empty otherwise; nothing else changes |
| XlsxUtils.Chunks | frontend/src/utils/xlsxUtils.ts:14-16 | there are no chunks exactly when there are no items, and every chunk has 1 to `chunkSize` elements |
| XlsxUtils.FlattenChunks | frontend/src/utils/xlsxUtils.ts:12-18 | concatenating the chunks gives back the input exactly |
| XlsxUtils.ChunkLengths | frontend/src/utils/xlsxUtils.ts:14-15 | every chunk but the last has exactly `chunkSize` elements |
| XlsxUtils.ChunkCount | frontend/src/utils/xlsxUtils.ts:14 | there are ceil(n / `chunkSize`) chunks |
| XlsxUtils.DivShift | frontend/src/utils/xlsxUtils.ts:14 | helper for ChunkCount: one more stride of `chunkSize` is one more chunk |
| XlsxUtils.SmallQuotient | frontend/src/utils/xlsxUtils.ts:14 | helper for ChunkCount: fewer than `chunkSize` remaining elements make no further full stride |
| XlsxUtils.SliceFrom | frontend/src/utils/xlsxUtils.ts:15 | helper for ChunksFrom: the suffix from a position has the remaining length, and is empty past the end |
| XlsxUtils.ChunksFrom | frontend/src/utils/xlsxUtils.ts:14-15 | helper for SplitIntoChunks: the chunks from position `i` are the slice from `i` to `i + chunkSize`, cut at the end, then the chunks after it |
| XlsxUtils.SplitIntoChunks | frontend/src/utils/xlsxUtils.ts:12-18 | the loop returns the chunks of the input: their concatenation is the input and there are ceil(n / `chunkSize`) of them; a positive size is required, since on non-empty input the loop does not end otherwise |
| XlsxWorker.WorkerRow | frontend/src/workers/xlsxWorker.ts:14-22 | the cleaned row has exactly the input's keys in their order, string cells trimmed and other cells copied |
| XlsxWorker.ApplyRules | frontend/src/workers/xlsxWorker.ts:14-22 | the `for…in` loop builds the cleaned row, whatever the `rules` argument |
| XlsxWorker.TrimmedCellsStep | frontend/src/workers/xlsxWorker.ts:19 | one loop step adds the visited key's cleaned value |
| XlsxWorker.ProcessChunk | frontend/src/workers/xlsxWorker.ts:10 | mapping over a chunk keeps its length and order and cleans each row |
| XlsxWorker.WorkerRowIdempotent | frontend/src/workers/xlsxWorker.ts:18 | cleaning a row twice is cleaning it once |
| XlsxWorker.ProcessChunkIdempotent | frontend/src/workers/xlsxWorker.ts:10 | processing a chunk twice is processing it once |
| XlsxWorker.ProcessChunkAppend | frontend/src/workers/xlsxWorker.ts:10 | processing a concatenation is processing the parts, so chunking does not change the result |

## Left out

- Numbers are unbounded reals. `NaN`, `Infinity` and `-0` are not represented, and `!==` is structural inequality on the closed value type.
- Rule ids (`Rule.id`, `Binding.ruleId`) are integers. The source types them as `number`; fractional or `NaN` ids are not modelled. Binding orders are reals, so fractional orders such as 1.5 are modelled; a `NaN` order, on which the sort's comparator is inconsistent, is not.
- XlsxUtils.SplitIntoChunks: `chunkSize` is a positive integer. With a fractional size, `slice` truncates its bounds and the chunks have uneven lengths (2.5 gives 2, 3, 2, …); that case is not modelled.
- Rules.FillYesCondition: `toString()` of a truthy number is taken to be a non-blank numeral, since number formatting is a parameter of the model.
- Rules 1 and 2: `parseFloat`, `Number(string)`, number-to-string conversion and `Math.round` are parameters (`NumericOps`). The result `None` stands for `NaN`. Their floating-point behaviour is not modelled.
- Rows keep `Object.keys` order as insertion order. JavaScript lists integer-like keys first, in ascending order; this is not modelled.
- Preview mode keeps `_changes` beside the cells, not as a `_changes` field of the row. A column named `_changes` would collide in the source, and conditions there can see the `_changes` field; neither is modelled.
- `column.rules ?? []`: `rules` is a required sequence in the data model (it is required in the type declaration), so the fallback for an undefined `rules` is not modelled.
- Exceptions a transform or condition might throw are not modelled; the source does not catch them.
- The Vue/Pinia reactivity (`defineStore`, `ref`, the deep `watch`) is replaced by the explicit method `RecomputePreview`, which callers must invoke after changing the rows or the profile.
- `Date.now()` in the default profile name is the parameter `fallbackName`.
- The store's `loading`, `progress` and `headers` fields are not modelled. Only `reset` touches them.
- CorrectionStore.FileCorrectionStore.Reset: does not state that `loading`, `progress` and `headers` are reset, because those fields are not modelled.
- Profile objects are values. The source mutates the column object inside the profile (`column.rules.push`, reassigning `column.rules`), which would be visible through other references to the same profile; that aliasing is not modelled.
- XlsxWorker.ApplyRules: the `for…in` loop is modelled over the row's key sequence. JavaScript's enumeration order for integer-like keys is not modelled.
- `readXlsxFile` and `exportToXlsx` (SheetJS wrappers), `processInWorker` and the worker's message handler (message passing between threads) are not modelled. Only the handler's mapping over a chunk is modelled, as `ProcessChunk`.
- `frontend/src/utils/opfsUtils.ts` (browser file storage) is not part of this model.
- `frontend/src/rules/profiles/milkReportProfile.ts` is not part of this model. It is a data constant that does not have the profile type's shape, and the engine does not use it.
