# kfit core, modelled in Dafny

kfit is a small desktop tool that fits peaks in spectra. It runs lmfit's
least-squares fits with composite models built from Gaussian, Lorentzian,
pseudo-Voigt and linear components. There are two GUI controllers, one in
GTK (`kfit/kfit.py`) and one in Qt; the Qt one exists in an older version
(`kfit/kfit_old.py`) and a newer one (`kfit/application.py`).

This project models the state logic those controllers share:

- the component counts and the composite model built from them;
- the guesses, the user-entered values and the merged lmfit parameters;
- the paired `x`/`y` arrays taken from DataFrame columns, with their range
  and missing-value filters;
- the fit result's export tables and file names;
- the CSV import settings.

It also models the Bokeh notebook prototype (`kfit_old.py`): its results
table, its sliders and its two callbacks.

Modules:

- `Wrappers`: `Option`.
- `Text`: the Python string behaviour the code relies on: `str.find`,
  slicing with negative bounds, `str(n)`, `int(text)`, `float(text)`.
- `Data`: DataFrame columns with missing entries (`None` for NaN), numpy
  mask indexing, the range and missing-value filters, and the padded axis
  limits.
- `Models`: the components made by `gaussx`, `lorx`, `voigtx` and `linex`,
  their prefixes, and the composite model's parameter names.
- `Params`: the three-level `guesses` / `usr_vals` dictionaries, the seeding
  of `guess_params`, the parsing done by `update_usr_vals`, and the merge
  done by `set_params`.
- `Names`: the export file names and the component label.
- `Results`: the tables `process_results` builds.
- `Settings`: the GTK and Qt import settings and their dialogs.
- `Notebook`: the notebook prototype.
- `Kfit`: the controller class `App`, with one method per controller
  operation.

The three controllers are near copies. Where their operations agree, one
method models all of them. Where they differ, each version has its own
method: `HardReset` and `HardResetQt`; `SetXRangeToZoom` and `SetXYRange`;
`ExportData` and `ExportResultsQt`; `RunSettingsDialog` and
`SetImportSettingsQt`.

`init_model` in all three versions (kfit/kfit.py:283-291,
kfit/kfit_old.py:490-498, kfit/application.py:351-359) calls `line_mod`,
`gauss_mod`, `lor_mod` and `voigt_mod`, which `kfit/models.py` does not define. The model uses
`linex`, `gaussx`, `lorx` and `voigtx` from `kfit/models.py` in their place.

Other modelling choices:

- `mean` and `std` of a column are uninterpreted functions, passed in as
  `Params.Stats`.
- Numbers are exact reals; a missing value is `None`.
- The lmfit fit result is an input: the `result` field, read by
  `ProcessResults`.

## Model

| member | source | states |
|---|---|---|
| Kfit.Incremented | kfit/kfit.py:478-506 | after `increment` the counts are valid (`ngau`, `nlor`, `nvoi` ≥ 0, `nlin` ≥ 1); from valid counts only the named count changes; adding raises it by exactly one; removing lowers it by one above its floor; at its floor, or for an unknown key, nothing changes |
| Kfit.IncrementUndo | kfit/kfit.py:478-506 | adding a component and removing it restores the counts; so does removing one above the floor and adding it back |
| Kfit.App.Increment | kfit/kfit_old.py:984-1012 | the new counts are `Incremented` of the old counts (the same code as kfit/kfit.py:478-506 and kfit/application.py:755-783) |
| Kfit.LoadColumns | kfit/kfit.py:758-775 | both arrays are read exactly when both indices name a column; a missing x column leaves both arrays; a missing y column leaves `y`; arrays read from a DataFrame have equal length |
| Kfit.SelectColumns | kfit/kfit.py:734-784 | a text `int()` rejects leaves indices and arrays unchanged; otherwise both parsed indices are stored, even when the range check then fails, and the outcome is `Updated` exactly when both columns exist |
| Kfit.SelectX | kfit/application.py:552-568 | `xset_click`: unparseable text changes nothing; otherwise the parsed x index is stored, the y index is kept, and both columns are read |
| Kfit.SelectY | kfit/application.py:569-585 | `yset_click`: unparseable text changes nothing; the x index never changes; otherwise the parsed y index is stored and both columns are read |
| Kfit.SelectColumnsIdempotent | kfit/kfit.py:734-784 | entering the same column texts a second time changes nothing more |
| Kfit.SelectColumnsUpdated | kfit/kfit.py:758-775 | after a successful selection, `x` and `y` are exactly the chosen columns and have equal length |
| Kfit.SelectXThenY | kfit/application.py:552-585 | setting x, then y, one at a time ends in the same state as setting both at once, whenever both columns exist |
| Kfit.MergeParams | kfit/kfit.py:451-460 | the loop of `set_params` computes `BuildParams`: one parameter per name in order, each made by lmfit's `Parameters.add`, stopping at the first KeyError or at lmfit's ValueError for equal min and max |
| Kfit.App.constructor | kfit/kfit.py:82-231 | the demo data with columns 0 and 1 as `x` and `y`; one line and no peaks; empty guesses, user values and parameters; no result or tables; the default import settings |
| Kfit.App.InitModel | kfit/kfit.py:283-291 | the model is the components of `linex(nlin)`, then those of `gaussx`, `lorx` and `voigtx` whose count is not zero, and no component occurs twice (the same code as kfit/kfit_old.py:490-498 and kfit/application.py:351-359) |
| Kfit.App.GuessParams | kfit/kfit.py:405-441 | the component-by-component loop computes `SeedAll`: guesses are seeded in model order, stopping where a column read raises IndexError |
| Kfit.App.UpdateUsrVals | kfit/application.py:434-442 | each of the three user-value dictionaries becomes its overlay by the entries whose text `float()` accepts |
| Kfit.App.SetParams | kfit/kfit_old.py:635-656 | when seeding raises, no parameter is added and the user values are untouched; otherwise the user values take the parsed entries, and the merge completes exactly when no model parameter name has equal min and max; then there is exactly one parameter per model parameter name, in order, each lmfit's Parameter for the user's value where there is one and the guess elsewhere; a ValueError keeps the parameters added before it |
| Kfit.App.SetXLims | kfit/kfit.py:462-464 | for numpy arrays, the limits are the x range padded by 2% of its width on each side, and they enclose every x value; there are none for an empty or incomplete array |
| Kfit.App.SetXRangeToZoom | kfit/kfit.py:466-470 | for arrays of equal length, `x` and `y` become exactly the rows with `xmin ≤ x ≤ xmax`, in order; for unequal arrays, `x` is masked and the `y` mask raises |
| Kfit.App.FilterNan | kfit/kfit.py:472-476 | for numpy arrays of equal length, `x` and `y` become exactly the rows where neither value is missing, in order; arrays left unchanged when nothing is missing; for other lengths it raises, after masking `x` when `y` has one entry (all of `x`'s present entries, or none when that entry is NaN) and with nothing changed otherwise |
| Kfit.App.SetXYRange | kfit/kfit_old.py:658-664 | both arrays read afresh from the selected columns and cut to exactly the rows with `xmin ≤ x ≤ xmax`, in order and of equal length; a missing column raises at the read that names it (same code at kfit/application.py:523-529) |
| Kfit.App.GetColumnIndex | kfit/kfit_old.py:687-725 | `column_index_set` (and GTK `get_column_index`) moves the view as `SelectColumns` says; the result is cleared once both texts parse, and kept otherwise |
| Kfit.App.ReadColumns | kfit/kfit.py:758-775 | the two `iloc` reads in sequence; the view becomes `LoadColumns` of the old view |
| Kfit.App.XSetClick | kfit/application.py:552-568 | the view moves as `SelectX` says; with unparseable text, neither `xcol_idx` nor the result changes; with valid text, the result is cleared |
| Kfit.App.YSetClick | kfit/application.py:569-585 | the view moves as `SelectY` says; the result is cleared exactly when the text parses |
| Kfit.App.ToggleEditMode | kfit/application.py:586-592 | `edit_mode` equals the button's checked state |
| Kfit.App.RebuildModel | kfit/kfit.py:298-375 | `init_param_widgets`: the model is rebuilt from the counts; the fresh blank entries leave the user values unchanged; with no result, parameters and guesses are untouched; with a result, guesses and parameters are set again as `set_params` does, including its stop at equal bounds |
| Kfit.App.ClearFit | kfit/kfit.py:522-535 | parameters, result, `params_df`, `curves_df`, guesses and user values are all cleared |
| Kfit.App.HardReset | kfit/kfit.py:515-542 | counts back to (0, 0, 0, 1), the model rebuilt, result and tables cleared, guesses and user values emptied; then the column selection of `get_column_index` |
| Kfit.App.HardResetQt | kfit/kfit_old.py:960-983 | counts back to (0, 0, 0, 1), the model rebuilt, result, tables, guesses and user values cleared |
| Kfit.App.ProcessResults | kfit/kfit_old.py:450-466 | without a result nothing changes and nothing is raised; with one, `params_df` holds the best values and `curves_df` is `Process` of the old state: unchanged when `from_dict` raises on curves of different lengths, indexed by row numbers when `x` has another length and the index assignment raises, and otherwise indexed by `x` with `data`, `total_fit` and each component under its label (same code at kfit/kfit.py:710-732) |
| Kfit.App.ExportData | kfit/kfit.py:670-709 | a cancelled dialog changes and writes nothing; otherwise the tables become what `process_results` leaves, and stay as an earlier fit left them when there is no result; the curves file, the chosen name with `.csv` ensured, is written exactly when `process_results` did not raise and a curves table exists; the parameters file, `CurvesFile`'s stem plus `.params.csv`, exactly when also a parameters table exists |
| Kfit.App.ExportResultsQt | kfit/kfit_old.py:422-449 | the tables become what one `process_results` leaves (the second call changes nothing more), and stay as an earlier fit left them without a result; the curves file, the chosen name verbatim, is written exactly when the name is not empty, `process_results` did not raise and a curves table exists; the corrected `<stem>.params.csv` exactly when also a parameters table exists |
| Kfit.App.RunSettingsDialog | kfit/kfit.py:785-824 | not applied: nothing changes; applied: the settings and fit method are `ApplyDialog` of the entries, including the partial update when `int()` raises |
| Kfit.App.SetImportSettingsQt | kfit/kfit_old.py:898-913 | the Qt import settings become `SetImportSettings` of the entries |
| Models.Composite | kfit/models.py:9-20 | the loop yields the components numbered 1 to `N` of one shape, in order, and exactly one component when `N ≤ 1` |
| Models.GaussX | kfit/models.py:9-20 | `gaussx(N)`: Gaussian components `gau1_` … `gauN_`, in order |
| Models.LorX | kfit/models.py:22-33 | `lorx(N)`: Lorentzian components `lor1_` … `lorN_`, in order |
| Models.VoigtX | kfit/models.py:35-46 | `voigtx(N)`: pseudo-Voigt components `voi1_` … `voiN_`, in order |
| Models.LineX | kfit/models.py:48-59 | `linex(N)`: linear components `lin1_` … `linN_`, in order |
| Models.PrefixShape | kfit/models.py:17-19 | every prefix starts with its three-letter stem and ends with `_`, which is its first `_` |
| Models.PrefixInjective | kfit/models.py:16-19 | two components with the same prefix are the same component |
| Models.NumberedPrefixesDistinct | kfit/models.py:16-19 | the prefixes made by one call are pairwise distinct |
| Models.NumberedSingle | kfit/models.py:14-19 | for `N ≤ 1`, the result is the single component `<stem>1_`, because `range(N-1)` is empty |
| Models.StemInPrefix | kfit/kfit.py:407-409 | a prefix contains a stem exactly when the component has that shape |
| Models.PeakPrefixIffPeak | kfit/kfit.py:407-409 | `guess_params` routes a component to its peak branch exactly when it is not a line, and to the Voigt fraction exactly when it is a pseudo-Voigt |
| Models.ParamNames | kfit/kfit.py:412-415 | a component's parameter names are its prefix followed by each of its shape's parameter names |
| Models.ParamNameSplit | kfit/kfit_old.py:462-463 | a parameter name's first `_` ends the component's name |
| Models.ParamNameInjective | kfit/kfit.py:412-415 | different components or different base names give different parameter names |
| Models.ParamNamesDistinct | kfit/kfit.py:412-415 | one component's parameter names are pairwise distinct |
| Models.InModelParamNames | kfit/kfit.py:451 | every model parameter name belongs to one of the model's components |
| Models.ModelParamNamesCover | kfit/kfit.py:451 | every parameter name of every component is a model parameter name |
| Models.ModelParamNamesDistinct | kfit/kfit.py:451 | a model without repeated components has no repeated parameter names |
| Models.ComposedModelNoDup | kfit/kfit.py:283-291 | the model of `init_model` has no repeated component |
| Models.ComposedModelDistinct | kfit/kfit.py:283-291 | the model of `init_model` has no repeated component and no repeated parameter name |
| Params.SeedComponentFrame | kfit/kfit.py:406-441 | seeding a component writes no key outside the component's own parameter names |
| Params.SeedComponentOk | kfit/kfit.py:406-441 | seeding a component gets through exactly when the columns it reads exist: the y column, and the x column for a peak |
| Params.SeedComponentSets | kfit/kfit.py:406-441 | once its columns exist, every parameter of a component holds its seed in every field |
| Params.LineSeedSets | kfit/kfit.py:435-441 | the line branch stores each line parameter's seed: the y mean as value, no min, no max |
| Params.PeakSeedSets | kfit/kfit.py:412-433 | the peak branch stores each peak parameter's seed in every field, the fraction only for a pseudo-Voigt |
| Params.SeedAllOk | kfit/kfit.py:406-441 | `guess_params` completes exactly when every component's columns exist |
| Params.SeedAllFrame | kfit/kfit.py:406-441 | keys that are not parameter names of the model keep what they held |
| Params.SeedAllSets | kfit/kfit.py:406-441 | after a complete `guess_params` over a model without repeated components, every parameter holds its seed |
| Params.SeedAllStops | kfit/kfit.py:406-441 | once a component's seeding raises, no later component is seeded |
| Params.GuessedPeakBounds | kfit/kfit.py:423-428 | each peak's amplitude and sigma have min 0 and no max; its center has neither min nor max |
| Params.GuessedVoigtFraction | kfit/kfit_old.py:622-625 | a pseudo-Voigt's fraction is 0.5 with min 0 and max 1 |
| Params.GuessedPeakValues | kfit/kfit.py:417-422 | a peak's center is the mean and its sigma the std of the x column; its amplitude is the mean of the y column |
| Params.GuessedLine | kfit/kfit_old.py:626-633 | a line's slope and intercept have equal values, the mean of the y column, with no bounds |
| Params.SeedAllCovers | kfit/application.py:462-498 | after a complete `guess_params`, every model parameter name has a guess in every field |
| Params.OverlayBy | kfit/kfit.py:377-385 | no entry is removed; a key gains an entry exactly when its text parses; a text that parses sets the parsed number; any other entry keeps its value |
| Params.OverlaidKeeps | kfit/application.py:434-442 | within each of `value`, `min` and `max`, `update_usr_vals` never removes an entry; an entry whose text parses takes the parsed number; any other entry keeps its previous value |
| Params.OverlayBlank | kfit/kfit.py:377-385 | an all-blank dictionary of entries leaves the user values unchanged |
| Params.BlankEntries | kfit/kfit.py:320-329 | `init_param_widgets` makes one blank entry per parameter name in each field |
| Params.OverlaidBlank | kfit/kfit.py:373-374 | the `set_params` run by `init_param_widgets` reads only fresh blank entries, so the user values are unchanged |
| Params.OverlayEntries | kfit/kfit.py:380-385 | the loop over one entry dictionary, visited in any order, computes its overlay |
| Params.OverlayStep | kfit/kfit.py:380-385 | visiting one more entry overwrites it exactly when its text parses |
| Params.Pick | kfit/kfit.py:453-457 | a field is the user's value where one exists, the guess otherwise, and a KeyError exactly when neither exists |
| Params.AddParam | kfit/kfit.py:457-460 | `Parameters.add` raises ValueError exactly when min and max are given and equal; otherwise the Parameter keeps the name, has min strictly below max and its value between them |
| Params.AddParamBounds | kfit/kfit.py:457-460 | the stored bounds are the two given bounds, swapped when reversed; the value is the given one when it lies between them and the nearer bound when it does not |
| Params.AddParamStable | kfit/kfit.py:457-460 | adding a Parameter's own value and bounds again gives the same Parameter |
| Params.MakeParamKnown | kfit/kfit.py:451-460 | for a name every field knows, the parameter made is `Parameters.add` of the user's value or else the guess, field by field |
| Params.BuildParamsMade | kfit/kfit.py:451-460 | the loop completes exactly when every name makes a parameter, and then holds those parameters in name order |
| Params.BuildParamsStep | kfit/kfit.py:451-460 | one more name appends its parameter, unless the loop already stopped or that name raises |
| Params.BuildParamsPrefix | kfit/kfit.py:451-460 | the parameters added carry the leading names, one each, and every name when nothing raised |
| Params.BuildParamsPicks | kfit/kfit.py:451-460 | when every name is known, the loop completes exactly when no name has equal min and max; then there is exactly one parameter per name, in order, each lmfit's Parameter for the user's value where there is one, else the guess |
| Params.BuildParamsMissing | kfit/kfit.py:456-457 | a name no field knows stops `set_params` with a KeyError |
| Params.BuildParamsDistinct | kfit/kfit.py:451-460 | distinct names give parameters of distinct names, however far the loop got, so `Parameters.add` never replaces one added earlier |
| Params.BuildParamsStops | kfit/kfit.py:451-460 | once a name raises KeyError or ValueError, no later name is added |
| Params.MergeComplete | kfit/kfit_old.py:643-656 | after a complete `guess_params`, `set_params` completes exactly when no model parameter name has equal min and max, whatever else the user typed; then there is one parameter per model parameter name, each lmfit's Parameter for the user's value over the guess in each field |
| Names.FindAppendedCsv | kfit/kfit.py:690-691 | after appending `.csv` to a name that lacks it, the first `.csv` is the appended one |
| Names.StemLacksCsv | kfit/kfit.py:694-698 | the stem before the first `.csv` contains no `.csv` |
| Names.CurvesFile | kfit/kfit.py:690-691 | the curves file always contains `.csv`: it is the chosen name when that has one, else the name followed by `.csv` |
| Names.ParamsFileStem | kfit/kfit.py:694-698 | the GTK parameters file is the chosen name up to its first `.csv`, or the whole name, followed by `.params.csv` |
| Names.ExportQt | kfit/kfit_old.py:425-439 | the empty name (a cancelled dialog) exports nothing; any other name gives the curves file verbatim and the corrected parameters file |
| Names.ParamsFileQtStem | kfit/kfit_old.py:435-439 | for a name containing `.csv`, the parameters file as written is the text before the first `.csv`, then `.params.csv` |
| Names.ParamsFileQtAsWrittenDropsLast | kfit/kfit_old.py:435-439 | for a name without `.csv`, the code as written drops the name's last character |
| Names.ParamsFileQtAsWrittenExample | kfit/kfit_old.py:425-439 | the name `fit_results` gives `fit_result.params.csv` |
| Names.ParamsFileQtAgrees | kfit/kfit_old.py:435-439 | the corrected Qt parameters file equals the GTK one for every chosen name |
| Names.LabelSplit | kfit/kfit_old.py:462-463 | a name with `_` is its label, `_` and the rest, and the label has no `_`; a non-empty name without `_` loses its last character |
| Names.LabelOfPrefix | kfit/kfit_old.py:462-463 | the curve of a component with prefix `gau1_` is labelled `gau1` |
| Results.DictPut | kfit/kfit_old.py:463 | assigning a key of a Python dictionary: an existing key keeps its place and takes the new value, a new key goes last, other entries are unchanged, and keys stay distinct |
| Results.PutAllFresh | kfit/kfit_old.py:457-463 | storing pairs whose keys are new and distinct appends them in order |
| Results.CurveColumnsStep | kfit/kfit_old.py:462-463 | one more component puts its curve under its label into the columns built so far |
| Results.CurveColumnsLabelled | kfit/kfit_old.py:457-466 | with fresh labels, `curves_df` holds `data`, `total_fit`, then each component under its label, in component order |
| Results.ModelLabelsFresh | kfit/kfit_old.py:462-463 | the component curves of a model without repeated components have distinct labels, none of them `data` or `total_fit` |
| Results.DictPutRows | kfit/kfit_old.py:463 | storing a column of `n` entries in a dictionary of `n`-entry columns keeps every column `n` long |
| Results.PutAllRows | kfit/kfit_old.py:457-463 | storing `n`-entry columns keeps every column `n` long |
| Results.CurveColumnsRows | kfit/kfit_old.py:457-464 | the curves all have the data's length when the total fit and every component have it; with fresh labels, only then |
| Results.ProcessCompletes | kfit/kfit_old.py:452-466 | with fresh labels, `process_results` completes exactly when `x`, `y`, the total fit and every component have one length; the curves table then holds `data`, `total_fit` and each labelled component, one entry per x value, and `params_df` the best values |
| Results.ProcessRaises | kfit/kfit_old.py:464 | with fresh labels, a total fit or component of another length than the data makes `from_dict` raise, and `curves_df` keeps the table an earlier call left |
| Results.ProcessIdempotent | kfit/kfit_old.py:422-430 | running `process_results` a second time on the same state changes nothing more |
| Data.ColumnAt | kfit/kfit.py:759 | `iloc[:, idx]` gives a column exactly when `-n ≤ idx < n`, counting negative indices from the end |
| Data.MaskedZip | kfit/kfit.py:468-470 | masking `x` and `y` with one mask keeps them equally long and masks their rows |
| Data.MaskedIsFilter | kfit/kfit.py:468-470 | a mask computed row by row from a condition keeps exactly the rows that satisfy it, in order |
| Data.KeepInRange | kfit/kfit.py:466-470 | the masked arrays are equally long and their rows are the input rows with x in `[xmin, xmax]`, in order |
| Data.KeepInRangeRows | kfit/kfit_old.py:658-664 | a row survives the range filter exactly when it is an input row whose x lies in the closed interval |
| Data.DropMissing | kfit/kfit.py:472-476 | the result's rows are exactly the complete input rows, in order; when nothing is missing, the arrays are returned unchanged |
| Data.DropMissingRows | kfit/kfit.py:472-476 | a row survives `filter_nan` exactly when it is an input row with both values present |
| Data.BroadcastMask | kfit/kfit.py:474 | numpy broadcasting of `~np.isnan(x) & ~np.isnan(y)`: defined exactly when the lengths agree or one is 1, as long as the longer array, each row combining the entries the broadcast lines up |
| Data.StretchedMasked | kfit/kfit.py:474-475 | masking `x` against a one-entry `y` keeps the present entries of `x` when that entry is present, and none when it is NaN |
| Data.MinOf | kfit/kfit.py:463 | `np.min` is a lower bound of the column and one of its values |
| Data.MaxOf | kfit/kfit.py:463 | `np.max` is an upper bound of the column and one of its values |
| Data.PaddedLimits | kfit/kfit.py:462-464 | finite limits exist exactly when the array is non-empty and has no missing entry |
| Data.PaddedLimitsEnclose | kfit/kfit.py:462-464 | the padded limits enclose every x value, each 2% of the data width beyond an extreme value |
| Settings.NoneOr | kfit/kfit_old.py:901-913 | the text `None` becomes Python's `None`; any other text is kept verbatim |
| Settings.ParseHeader | kfit/kfit.py:800-803 | `infer` stays `infer`; other text becomes `int()` of it, or raises |
| Settings.ParseSkip | kfit/kfit.py:804-807 | `None` becomes Python's `None`; other text becomes `int()` of it, or raises |
| Settings.ApplyDialog | kfit/kfit.py:799-819 | the handler completes exactly when both integer entries parse; the separator is always stored; the header is stored when it parses; if the handler raises, the later fields and the fit method keep their old values |
| Settings.ParseHeaderText | kfit/kfit.py:800-803 | the header entry reads back the header setting it displays |
| Settings.ParseSkipText | kfit/kfit.py:804-807 | the skip-rows entry reads back the setting it displays |
| Settings.ApplyDisplayed | kfit/kfit.py:799-819 | applying the dialog to the texts that display some settings gives those settings back, unless a dtype or encoding is the string `None` |
| Settings.SetImportSettings | kfit/kfit_old.py:898-913 | separator and header are kept verbatim; skip rows, dtype and encoding become `None` exactly for the text `None`, and are otherwise the text |
| Settings.QtTextsRoundTrip | kfit/kfit_old.py:898-913 | storing the Qt entries and displaying them gives back the texts typed |
| Settings.QtSettingsRoundTrip | kfit/kfit_old.py:898-913 | displaying Qt settings and storing them again gives them back exactly when none of them is the string `None` |
| Text.ParseIntOfIntToString | kfit/kfit.py:737 | `int()` reads back every printed integer |
| Text.ParseFloatOfEmpty | kfit/kfit.py:381-385 | `float()` of a blank entry raises, so the `except` keeps the old user value |
| Text.NatToStringInjective | kfit/models.py:18 | different component numbers print differently |
| Notebook.SplitHeaderRebuilds | kfit_old.py:112-114 | for a header containing `_`, prefix + `_` + parameter rebuilds the header, split at its first `_`, and the prefix has no `_` |
| Notebook.Enumerate | kfit_old.py:116-121 | iterating a set visits each member exactly once |
| Notebook.CreateTable | kfit_old.py:106-130 | rows and columns enumerate exactly the distinct prefixes and parameters; the table exists exactly when every (prefix, parameter) combination is a key, and then each parameter's cluster has one value per prefix, in row order |
| Notebook.SliderRange | kfit_old.py:204-209 | the slider is centred on the value and as wide as the value, so start ≤ end holds exactly when the value is not negative (the known issue noted at kfit_old.py:13) |
| Notebook.SliderValuesOrdered | kfit_old.py:201-216 | there is one slider per constrainable parameter, ordered exactly when its value is not negative |
| Notebook.Session.constructor | kfit_old.py:197-216 | sliders for the best-value names, made from the parameters and snapshotted as the initial slider values |
| Notebook.Session.MoveSlider | kfit_old.py:201-213 | moving one `RangeSlider` stores its new `(low, high)` and leaves every other slider where it was |
| Notebook.Session.UpdateFit | kfit_old.py:134-160 | every constrained parameter takes its slider's `(low, high)` as `(min, max)`; the others are untouched; the table is rebuilt from the refit's values |
| Notebook.Session.ResetFit | kfit_old.py:164-187 | parameters replaced by the fresh fit's, every slider restored to its snapshot, and the table rebuilt |

## Left out

- Widgets, layouts, signals, accelerators, plotting, status-bar messages, file dialogs and the clipboard. This covers `plot`, `display_data`, `update_param_widgets`, `clear_layout`, `clear_param_viewports`, `get_coord_click` and `toggle_copy_mode`. They are GUI and I/O. Clearing an entry after a parse error is part of this.
- `fit`: the lmfit least-squares solver and its report. A fit result is an input, the `result` field. `eval_components`, `best_fit` and `best_values` are its opaque parts.
- `get_data` and `kfit/tools.py`: reading a CSV file. The DataFrame is an input to the constructor.
- The statistics `mean` and `std`: uninterpreted functions (`Params.Stats`). `np.min` and `np.max` are computed on exact reals.
- Floating point: numbers are exact reals and NaN is an explicit missing value. `float()` of `inf` or `nan` text is not modelled; such text counts as rejected.
- Column names: `curves_df`'s index name and `params_df`'s column label are not modelled. `params_df` is the map of best values.
- File contents: the export methods yield the file names; what `to_csv` writes is left out.
- `index_col`: an import setting that no dialog changes.
- The `xmin` and `xmax` fields of all three versions, and the Qt `reset_xy_range` (kfit/kfit_old.py:666-668, kfit/application.py:531-533): outside the range masks, they only feed the plot.
- `toggle_edit_mode` in kfit/kfit_old.py: its tri-state checkbox connects a cursor, and it stores only GUI state (`mpl_cursor`, `cid`).
- Kfit.App.FilterNan: `x` and `y` are modelled as numpy arrays, as `__init__` and `get_data` make them (kfit/kfit.py:103-104, 636-637). After a GTK column selection (kfit/kfit.py:759, 768) they are pandas Series. `True in np.isnan(self.x)` then tests the Series' index labels, that is whether label 1 is present, not its values. So NaN rows that `filter_nan` leaves in place for a Series are not captured.
- Kfit.App.SetXLims: for a pandas Series `x`, `np.min` and `np.max` skip NaN, so there are finite limits where the model, for arrays, gives none.
- Kfit.App.ProcessResults: for a pandas Series `y`, the frame left behind when the index assignment raises is indexed by `y`'s labels, not by row numbers.
- Params.AddParam: it follows lmfit's `Parameter._init_bounds`, which is not part of this repository. lmfit compares min and max with `isclose` at a tolerance of 1e-13; the model compares them exactly.
- Notebook.Session.UpdateFit: `Parameter.set(min=..., max=...)` stores the slider's bounds as given; lmfit's own handling of the new bounds is not modelled.
- Text.ParseInt and Text.ParseFloat: only ASCII digits are accepted. Python also accepts the other Unicode decimal digits (`int('٣') == 3`). Whitespace is Python's full `str.isspace` set.
- `PandasModel`, `kfit/fit.py`, `kfit/app.py` and `setup.py`: Qt adapters, demo scaffolding and packaging.
- The notebook's Bokeh document, its figure, `initial_fit` (an lmfit call), the tkinter prompt and `ks.wire2array`: I/O and code not shown.
- Notebook.CreateTable: Python's set iteration order is unspecified, so the rows and columns are some enumeration of the sets, not a particular one.
- Notebook.Session.ResetFit: keeps the names of the constrainable parameters. The fresh fit uses the same model, so `best_values` has the same names.

## Findings

| source | as written | input that shows it | evidently intended | confidence | as-written member | corrected member |
|---|---|---|---|---|---|---|
| kfit/kfit_old.py:435-439 | the parameters file is `exp_file_name[:exp_file_name.find('.csv')] + '.params.csv'`; when the name has no `.csv`, `find` gives -1 and the slice drops the last character | the name `fit_results` gives `fit_result.params.csv` | `fit_results.params.csv`: the whole name as the stem, as the GTK exporter does | not executed | Names.ParamsFileQtAsWrittenExample | Names.ParamsFileQtAgrees |
