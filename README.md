# ComponentExtractor and the component identifiers, in Dafny

This project models the part of pythermodb_settings that trims a YAML
thermodynamic reference down to the components a caller asks for.

- **`ComponentExtractor`** (`references/component_extractor.py`):
  - It turns requested components and raw keys into normalised keys.
  - It walks every table of every reference in the parsed document, keeps the `VALUES` rows whose key (built from the `name`, `formula` and `state` columns) is requested, and optionally renumbers the `No.` column.
  - It reports which keys were matched and which are missing.
  - It caches a loaded reference for the data-based entry point.
- **The identifier builders** (`utils/component_utils.py`): `create_component_id`, `set_component_id`, `create_binary_mixture_id` and `create_mixture_id`.

The modules follow the program:

| file | module | what it holds |
|---|---|---|
| `basics.dfy` | `Basics` | `Option`, `Result` and one error per raise site |
| `strings.dfy` | `Strings` | the Python string built-ins the code relies on: `strip`, `split`, `join`, `replace` and `" ".join(s.split())`, with their round trips |
| `models.dfy` | `Models` | `Component`, the `ComponentKey` literals, the `case` argument and `lower()`/`upper()` |
| `sorting.dfy` | `Sorting` | `sorted()` on strings and on sets of strings |
| `document.dfy` | `Document` | the parsed reference (`REFERENCES` → `TABLES` → `STRUCTURE.COLUMNS` / `VALUES`), `str()` of a scalar, and the dumper's flow-style choice |
| `key_normalizer.dfy` | `KeyNormalizer` | `_normalize_key` |
| `component_utils.dfy` | `ComponentUtils` | the identifier builders |
| `key_builder.dfy` | `KeyBuilder` | `_build_component_key`, `_get_column_value`, `_join_parts` |
| `table_filter.dfy` | `TableFilter` | `_renumber_rows`, `_filter_reference_dict` |
| `key_collector.dfy` | `KeyCollector` | `_collect_keys`, and why a requested component's row is kept |
| `extractor.dfy` | `Extractor` | `_pick_reference_section`, the class with its cached reference, `load_ref`, `filter_components`, `filter_components_from_data`, `check_component_availability` |
| `doc_examples.dfy` | `DocExamples` | the docstring examples of the mixture identifiers |

**How the source's forms are modelled:**
- Pure helpers are functions.
- Loops that build a result step by step are methods with loop invariants, each proved equal to a specification function:
  - `CollectKeys` / `ComponentIds`;
  - `RenumberRows`;
  - `FilterRows`, `FilterTables`, `FilterRefs`;
  - `SortedKeys`.
- The specification functions carry the properties, proved as lemmas.
- `ComponentExtractor` is a class. Its one mutable field is the cached reference, which `LoadRef` updates in place.
- Every `raise ValueError` becomes an `Err` of `Basics.Error`, raised in the same order as in the source.

**Text and numbers:**
- `str.isspace()` is modelled on the ASCII and Latin-1 range.
- `lower()`/`upper()` are modelled on ASCII letters.
- `sorted()` compares strings code point by code point, as Python does.
- `str()` of an integer is its decimal text, and `str(None)` is `"None"`.

## Model

| member | source | states |
|---|---|---|
| Strings.Strip | pythermodb_settings/references/component_extractor.py:493 | `strip()` leaves no whitespace at either end, adds no character, and leaves already-trimmed text alone |
| Strings.StripEnds | pythermodb_settings/references/component_extractor.py:493 | `strip()` cuts off exactly a whitespace prefix and a whitespace suffix and keeps the slice between them |
| Strings.ReplaceChar | pythermodb_settings/references/component_extractor.py:493 | after `replace` of the bar character by the separator every character is from the input other than the target, or from the replacement |
| Strings.ReplaceCharAppend | pythermodb_settings/references/component_extractor.py:493 | `replace` works on each part of a concatenation separately, so every character is handled where it stands, in order |
| Strings.ReplaceCharOne | pythermodb_settings/references/component_extractor.py:493 | a single character is replaced by the replacement when it is the target and kept otherwise |
| Strings.JoinSplit | pythermodb_settings/references/component_extractor.py:494-495 | joining what `split(sep)` cut apart gives back the text |
| Strings.SplitJoinChar | pythermodb_settings/references/component_extractor.py:494-495 | splitting on one character undoes joining on it when no piece contains it |
| Strings.SplitParts | pythermodb_settings/references/component_extractor.py:494 | the pieces of `split(c)` never contain `c`, nor any character absent from the text |
| Strings.Collapse | pythermodb_settings/references/component_extractor.py:496 | `" ".join(s.split())` is trimmed, single-spaced, and adds only spaces |
| Strings.CollapseWords | pythermodb_settings/references/component_extractor.py:496 | a run of whitespace between two trimmed, non-empty texts becomes one space, and each side collapses on its own, so the words stay in order |
| Strings.CollapseBlank | pythermodb_settings/references/component_extractor.py:496 | text made only of whitespace collapses to the empty string |
| Strings.CollapseCollapsed | pythermodb_settings/references/component_extractor.py:496 | collapsing already collapsed text changes nothing |
| Strings.CollapseJoin | pythermodb_settings/references/component_extractor.py:495-496 | collapsing acts piece by piece on trimmed pieces joined by a non-space character |
| Strings.IndexOfFirst | pythermodb_settings/references/component_extractor.py:494 | the cut `split` makes is at the first occurrence of the separator, or there is none |
| Models.ConvertCaseIdempotent | pythermodb_settings/utils/component_utils.py:127-130 | `lower()` or `upper()` applied twice is applied once |
| Models.ConvertCaseKeeps | pythermodb_settings/utils/component_utils.py:323-328 | no case, or a case other than lower and upper, leaves the identifier as it is |
| Models.ConvertCaseAvoids | pythermodb_settings/references/component_extractor.py:499-502 | case conversion neither creates nor removes a non-letter |
| Models.CaseCharFacts | pythermodb_settings/references/component_extractor.py:499-502 | case mapping keeps whitespace, non-letters and letters in their class, and is idempotent per character |
| Sorting.SortStrings | pythermodb_settings/utils/component_utils.py:317 | `sorted()` is ordered and a permutation of its input |
| Sorting.SortIgnoresOrder | pythermodb_settings/utils/component_utils.py:315-317 | `sorted()` depends only on the multiset of its input |
| Sorting.SortedUnique | pythermodb_settings/utils/component_utils.py:317 | two sorted arrangements of one multiset are the same list |
| Sorting.SortedKeys | pythermodb_settings/references/component_extractor.py:342-343 | `sorted(found)` lists each key of the set once, in ascending order |
| Sorting.SortedListUnique | pythermodb_settings/references/component_extractor.py:257-261 | the sorted list of a set is determined by the set |
| Document.NatText | pythermodb_settings/references/component_extractor.py:452 | `str()` of a natural number is non-empty decimal digits, with a leading zero only for 0 |
| Document.NatTextValue | pythermodb_settings/references/component_extractor.py:251 | the digits `str()` writes read back as the number |
| Document.NatTextInjective | pythermodb_settings/references/component_extractor.py:251 | different counts are written differently |
| Document.DigitsCut | pythermodb_settings/references/component_extractor.py:251 | a number written before a non-digit can be cut back off the text |
| Document.FlowStyleAppend | pythermodb_settings/references/component_extractor.py:550-558 | a list is written in flow style exactly when both halves would be; the empty list is |
| Document.RowsFlowStyle | pythermodb_settings/references/component_extractor.py:550-558 | a row of cells stays on one line exactly when none of its cells is a nested list or mapping; a `VALUES` list is in flow style exactly when it holds no row of cells |
| KeyNormalizer.TargetCase | pythermodb_settings/references/component_extractor.py:498 | no case means lower; any other case is kept |
| KeyNormalizer.NormalizeKey | pythermodb_settings/references/component_extractor.py:484-504 | `None` gives `""`; an empty separator is an error; otherwise strip, replace the bar character, split, strip the pieces, join, collapse whitespace, convert case |
| KeyNormalizer.NormalizeCollapsed | pythermodb_settings/references/component_extractor.py:493-496 | a normalised key is trimmed and single-spaced |
| KeyNormalizer.NormalizeAvoidsBar | pythermodb_settings/references/component_extractor.py:493 | no bar character survives unless the separator brings one |
| KeyNormalizer.NormalizeCase | pythermodb_settings/references/component_extractor.py:498-502 | the key is the unconverted key put into the target case (lower when no case is given); with no case or lower, lowercasing leaves it alone; with upper, uppercasing does; with another case, it is unconverted |
| KeyNormalizer.NormalizeSegments | pythermodb_settings/references/component_extractor.py:493-502 | a normalised key is clean segments (collapsed, free of the separator and the bar character, in the target case) joined by the separator |
| KeyNormalizer.NormalizeIdempotent | pythermodb_settings/references/component_extractor.py:484-504 | normalising a normalised key changes nothing, for a one-character separator that is not whitespace, the bar or a letter |
| ComponentUtils.CreateComponentId | pythermodb_settings/utils/component_utils.py:12-54 | each identifier is as long as the stripped field, the stripped separator and the state code together |
| ComponentUtils.ComponentIdLayout | pythermodb_settings/utils/component_utils.py:32-48 | name-state and formula-state are the stripped field, then the stripped separator, then the state code, whatever characters they hold |
| ComponentUtils.ComponentIdSplits | pythermodb_settings/utils/component_utils.py:32-48 | splitting either identifier at the separator gives back the stripped name or formula and the state |
| ComponentUtils.PhaseCodeLetters | pythermodb_settings/utils/component_utils.py:36 | a state code is non-empty lower-case letters, so `strip().lower()` keeps it |
| ComponentUtils.SchemeId | pythermodb_settings/utils/component_utils.py:108-124 | an identifier exists exactly for the six accepted schemes |
| ComponentUtils.SetComponentId | pythermodb_settings/utils/component_utils.py:57-146 | an unknown scheme fails first, then an unknown case; the identifier is the scheme's identifier converted to the requested case (unchanged with no case), and converting it again changes nothing |
| ComponentUtils.NameFormulaStateIdSplits | pythermodb_settings/utils/component_utils.py:116-117 | the Name-Formula-State identifier splits back into name, formula and state |
| ComponentUtils.FormulaNameStateIdSplits | pythermodb_settings/utils/component_utils.py:118-119 | the Formula-Name-State identifier splits back into formula, name and state |
| ComponentUtils.CreateBinaryMixtureId | pythermodb_settings/utils/component_utils.py:149-228 | only Name and Formula are accepted |
| ComponentUtils.BinaryMixtureIdOrdered | pythermodb_settings/utils/component_utils.py:208-222 | the binary identifier is the smaller id, the stripped delimiter, the larger id |
| ComponentUtils.BinaryMixtureIdSymmetric | pythermodb_settings/utils/component_utils.py:220 | swapping the two components gives the same identifier |
| ComponentUtils.CreateMixtureId | pythermodb_settings/utils/component_utils.py:231-334 | an empty list fails before the scheme is checked; it succeeds exactly for a non-empty list and an accepted scheme |
| ComponentUtils.MixtureIdOrdered | pythermodb_settings/utils/component_utils.py:292-331 | the mixture identifier is the per-component identifiers in ascending order, joined by the stripped delimiter, stripped, then converted to the requested case |
| ComponentUtils.MixtureIdsAreComponentIds | pythermodb_settings/utils/component_utils.py:294-311 | each per-component identifier is the one `set_component_id` builds with a fixed "-" separator and no case, whatever the delimiter |
| ComponentUtils.MixtureIdOrderFree | pythermodb_settings/utils/component_utils.py:315-317 | the mixture identifier does not depend on the order of the components |
| ComponentUtils.MapIdsPermutation | pythermodb_settings/utils/component_utils.py:295-313 | rearranged components give rearranged per-component ids |
| DocExamples.BinaryMixtureIdExample | pythermodb_settings/utils/component_utils.py:185-188 | Water and Ethanol by name give Ethanol, the bar, Water |
| DocExamples.MixtureIdExample | pythermodb_settings/utils/component_utils.py:272-276 | Water, Ethanol and Methanol by name give Ethanol, Methanol and Water joined by the bar, in that order |
| KeyBuilder.ColumnIndex | pythermodb_settings/references/component_extractor.py:423-425 | the index the lookup dict gives is the last column with that lower-cased name; none when no column has it |
| KeyBuilder.ColumnValue | pythermodb_settings/references/component_extractor.py:446-454 | a value exactly when there is an index and the row is indexable and long enough; the value is `str()` of that cell |
| KeyBuilder.JoinParts | pythermodb_settings/references/component_extractor.py:456-459 | `None` exactly when no part is present and non-empty |
| KeyBuilder.Cleaned | pythermodb_settings/references/component_extractor.py:458 | the kept parts are trimmed; there are none exactly when no part is truthy |
| KeyBuilder.JoinPartsSkips | pythermodb_settings/references/component_extractor.py:458 | a missing or empty part is skipped as if absent |
| KeyBuilder.JoinPartsAll | pythermodb_settings/references/component_extractor.py:456-459 | all parts present: they are stripped and joined in order |
| KeyBuilder.JoinPartsSplit | pythermodb_settings/references/component_extractor.py:456-459 | splitting a joined key at a one-character separator the fields lack gives back the kept, stripped fields |
| KeyBuilder.RawKey | pythermodb_settings/references/component_extractor.py:429-441 | an unknown scheme has no builder |
| KeyBuilder.KeyOf | pythermodb_settings/references/component_extractor.py:443-444 | a key exactly when the built text is non-empty; it is then trimmed and single-spaced |
| KeyBuilder.BuildKey | pythermodb_settings/references/component_extractor.py:414-444 | no key for an unknown scheme; any key is in normal form |
| KeyBuilder.BuildKeyNormalized | pythermodb_settings/references/component_extractor.py:443-444 | normalising a built key again, as the targets are, changes nothing |
| KeyBuilder.RawKeyMatches | pythermodb_settings/references/component_extractor.py:429-436 | a component's fields give a non-empty builder result that normalises as its `set_component_id` identifier does |
| KeyBuilder.ComponentRowMatches | pythermodb_settings/references/component_extractor.py:414-444 | a row holding a component's name, formula and state gets the key its identifier normalises to, for all six accepted schemes and every case |
| TableFilter.NumberColumn | pythermodb_settings/references/component_extractor.py:466-468 | the number column is a "no." or "no" column |
| TableFilter.NumberInFirstColumnIgnored | pythermodb_settings/references/component_extractor.py:468 | a "No." header at position 0 with no "no" column is never renumbered, since index 0 is falsy |
| TableFilter.RenumberRow | pythermodb_settings/references/component_extractor.py:474-479 | a wide enough row gets the number at that position, keeping its width; any other row is left as it was |
| TableFilter.Renumbered | pythermodb_settings/references/component_extractor.py:461-482 | the same number of rows; without a number column, the rows themselves |
| TableFilter.RenumberedNumbers | pythermodb_settings/references/component_extractor.py:472-480 | the k-th row carries k+1 in the number column when wide enough, and is left as it was otherwise |
| TableFilter.RenumberRows | pythermodb_settings/references/component_extractor.py:461-482 | the loop computes the renumbered rows |
| TableFilter.NumberEach | pythermodb_settings/references/component_extractor.py:473-480 | the enumerate loop gives the i-th row (counting from 1) what the step makes of it with i |
| TableFilter.RenumberRowKeeps | pythermodb_settings/references/component_extractor.py:475-476 | every position but the number column reads as before |
| TableFilter.RenumberRowKeepsKey | pythermodb_settings/references/component_extractor.py:402-403 | renumbering never changes a row's key |
| TableFilter.RenumberedIdempotent | pythermodb_settings/references/component_extractor.py:461-482 | renumbering renumbered rows changes nothing |
| TableFilter.QueryOfRenumberSafe | pythermodb_settings/references/component_extractor.py:392-403 | the key `_build_component_key` builds survives renumbering |
| TableFilter.KeptRowsSpec | pythermodb_settings/references/component_extractor.py:390-401 | the kept rows are rows of the table that match, and every matching row is kept |
| TableFilter.RowsFound | pythermodb_settings/references/component_extractor.py:399-401 | found keys are requested, non-empty keys |
| TableFilter.RowsFoundSpec | pythermodb_settings/references/component_extractor.py:399-401 | a key is found exactly when some kept row carries it |
| TableFilter.FilterRows | pythermodb_settings/references/component_extractor.py:390-401 | the loop computes the kept rows and found keys |
| TableFilter.KeptRowsAppend | pythermodb_settings/references/component_extractor.py:391 | rows are filtered one at a time, in order |
| TableFilter.RowsFoundAppend | pythermodb_settings/references/component_extractor.py:401 | keys found in two parts of the table add up |
| TableFilter.KeptRowsAll | pythermodb_settings/references/component_extractor.py:399-400 | rows that all match are all kept |
| TableFilter.KeptRowsIdempotent | pythermodb_settings/references/component_extractor.py:390-401 | filtering kept rows keeps them all and finds the same keys |
| TableFilter.SameKeysFound | pythermodb_settings/references/component_extractor.py:399-401 | rows with pairwise equal keys find the same keys and match alike |
| TableFilter.RenumberedKeepsKeys | pythermodb_settings/references/component_extractor.py:402-406 | renumbered rows keep their keys |
| TableFilter.FilteredTable | pythermodb_settings/references/component_extractor.py:383-406 | columns and other entries unchanged; a skipped table unchanged; no new rows |
| TableFilter.TablesFound | pythermodb_settings/references/component_extractor.py:382-401 | keys found over the tables are requested keys |
| TableFilter.DocFound | pythermodb_settings/references/component_extractor.py:379-401 | keys found over the document are requested keys |
| TableFilter.FilterKeepsSkeleton | pythermodb_settings/references/component_extractor.py:376-406 | filtering rewrites `VALUES` lists and nothing else |
| TableFilter.FilteredTableTwice | pythermodb_settings/references/component_extractor.py:383-406 | filtering a filtered table changes nothing and finds the same keys |
| TableFilter.FilterIdempotent | pythermodb_settings/references/component_extractor.py:362-412 | filtering the filtered document with the same keys gives it back and finds the same keys |
| TableFilter.FilterTables | pythermodb_settings/references/component_extractor.py:382-406 | the loop over tables computes the filtered tables and their keys |
| TableFilter.FilterRefs | pythermodb_settings/references/component_extractor.py:379-406 | the loop over references computes the filtered references and their keys |
| TableFilter.FilterReferenceDict | pythermodb_settings/references/component_extractor.py:362-412 | an empty separator fails; otherwise the filtered document and the keys found |
| KeyCollector.MapResults | pythermodb_settings/references/component_extractor.py:518-527 | succeeds exactly when every component does, with their ids in order; else fails with some component's error |
| KeyCollector.MapResultsFails | pythermodb_settings/references/component_extractor.py:519-527 | the first failing component decides the failure |
| KeyCollector.CollectedKeys | pythermodb_settings/references/component_extractor.py:506-535 | the ids, then the raw keys; unknown scheme or case fails only when components are given; nothing at all fails |
| KeyCollector.ComponentIds | pythermodb_settings/references/component_extractor.py:518-527 | the loop over components computes their ids, stopping at the first failure |
| KeyCollector.CollectKeys | pythermodb_settings/references/component_extractor.py:506-535 | the method computes the collected keys |
| KeyCollector.IdCollected | pythermodb_settings/references/component_extractor.py:518-527 | every requested component's identifier is among the key inputs |
| KeyCollector.ComponentRowKept | pythermodb_settings/references/component_extractor.py:389-401 | with no case, the row of a requested component is kept, under its identifier's key, unless that key is empty |
| Extractor.FirstReference | pythermodb_settings/references/component_extractor.py:349-352 | the first section whose content is a mapping with `REFERENCES` |
| Extractor.FirstMapping | pythermodb_settings/references/component_extractor.py:355-358 | the first section whose content is a mapping |
| Extractor.PickReferenceSection | pythermodb_settings/references/component_extractor.py:347-360 | the first section whose content is a mapping with `REFERENCES`; failing that, the first whose content is a mapping; nothing exactly when no content is a mapping |
| Extractor.FilterWith | pythermodb_settings/references/component_extractor.py:145-166 | an empty separator fails; found keys are among the requested ones, which are the normalised inputs |
| Extractor.SavedTo | pythermodb_settings/references/component_extractor.py:168-174 | saving without a path fails; a path is reported exactly when saving |
| Extractor.ReportsPartition | pythermodb_settings/references/component_extractor.py:163-182 | matched and missing split the requested keys |
| Extractor.SummaryReadsBack | pythermodb_settings/references/component_extractor.py:251-255 | the summary determines the found count, the requested count and whether anything is missing |
| Extractor.ComponentExtractor.constructor | pythermodb_settings/references/component_extractor.py:27-30 | nothing is cached |
| Extractor.ComponentExtractor.LoadRef | pythermodb_settings/references/component_extractor.py:73-95 | a mapping is cached and returned; anything else fails and leaves the cache |
| Extractor.ComponentExtractor.Finish | pythermodb_settings/references/component_extractor.py:145-182 | filter, requested and missing keys, save check, sorted report |
| Extractor.ComponentExtractor.FilterComponents | pythermodb_settings/references/component_extractor.py:97-182 | keys, then sections, then the reference section, then the filter; errors in that order; the sorted report |
| Extractor.ComponentExtractor.FilterComponentsFromData | pythermodb_settings/references/component_extractor.py:265-345 | the given reference or the cached one, which must be a mapping; otherwise as filter_components |
| Extractor.ComponentExtractor.CheckComponentAvailability | pythermodb_settings/references/component_extractor.py:185-262 | matched, missing and requested keys sorted, and the summary of the counts |

## Left out

- YAML parsing and dumping are left out: the model starts from the parsed document and stops before the dump. The `yaml` string of the result, the custom loader and `extract_yaml_sections` (its sections are an input) are not modelled. The dumper's flow-style choice, `_represent_list`, is modelled by `Document.FlowStyle`.
- File I/O is left out. This covers `filter_components_from_file` (a read plus an automatic output path), the `Path(...).exists()` branch of `load_ref` and `check_component_availability`, `write_text`, and `str(Path(output_path))` in `saved_to`. The path is reported as given.
- Logging and the `measure_time` decorator have no effect on results and are left out.
- Shapes that make Python raise `AttributeError`, `TypeError` or `KeyError` outside the handled paths cannot be represented. Examples: `REFERENCES: null`, a table that is not a mapping, a dict row. The model covers only documents built from mappings, lists and scalars.
- `str()` of a float or date is carried as opaque text (`Cell.Other`). A list or mapping inside a row is carried as its `str()` text (`Cell.Nested`), which is enough for the dumper's style choice but not for its contents.
- Unicode whitespace beyond Latin-1 and non-ASCII case mapping are left out.
- The deep copies (`deepcopy`) are implicit, since the model works on values.
- Extractor.ComponentExtractor.LoadRef: `load_ref` caches the caller's dict itself, without a copy, so a caller who changes that dict later also changes the cached reference. The model works on values and does not capture this aliasing.
- `Component.mole_fraction` is part of no key and is left out.
- The state is one of the codes `g`, `l`, `s`, `aq`. So `strip().lower()` (`set_component_id`) and `strip()` (`create_mixture_id`) agree on it.
- TableFilter.FilterReferenceDict: requires a non-empty key list, which every caller guarantees because `_collect_keys` raises otherwise. With no keys and an empty separator, the source raises only once some row yields a key, and that path is not modelled.
- KeyNormalizer.NormalizeIdempotent: holds only for a one-character separator that is not whitespace, `|` or a letter, such as the default `-`. It fails for other separators:
  - `"--"`: `"a - -- b"` normalises to `"a ---b"`, which normalises again to `"a---b"`.
  - `"x"` in lower case: `"aX b"` becomes `"ax b"`, then `"axb"`.
- KeyBuilder.ComponentRowMatches: stated for a one-character, non-whitespace separator, and for a component whose name and formula are non-empty.
- KeyCollector.ComponentRowKept: stated for identifiers built with no case, the default. With lower or upper, `set_component_id` converts the identifier before it is normalised. That this conversion commutes with the normalisation is not proved.
- Name-Formula is built by `_build_component_key` but refused by `set_component_id`. Both behaviours are modelled as written: a Name-Formula request made from components fails, while one made from raw keys works.
- `check_component_availability` defaults to `renumber=False`, while the other entry points default to True. Defaults are not modelled; `renumber` is part of every request.
- The behaviour of a "No." header in column 0 follows the code, not the prose description of the feature: `column_lookup.get("no.") or ...` treats index 0 as missing, so that column is not renumbered (`TableFilter.NumberInFirstColumnIgnored`).
