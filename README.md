# impreproc in Dafny

A verified model of the bookkeeping core of impreproc, a Python toolkit for
preprocessing drone and camera images and legacy survey files. The model covers
these parts:

- **The DJI marker-log pipeline** (`dji.py`, with the older copies in `djimrk.py`):
  - `mrkread` parses a `.mrk` log into records keyed by point id;
  - `get_images` keys image records by the progressive id in each file name;
  - `merge_mrk_exif_data` left-joins the log to the images;
  - three `project_to_utm` drivers add easting and northing to the joined rows. The
    one in dji.py works in place or on a deep copy, with a field suffix. The one in
    djimrk.py returns after the first row. The one in `transformations.py` works in
    place;
  - `get_epsg_from_utm_zone` maps a zone name to an EPSG code;
  - `dji2csv` selects the coordinate source, scales the standard deviations by
    quality, and writes the CSV lines.
- **Raster helpers** (`transformations.py`): `xy2rc` and `rc2xy` over an affine map
  and its inverse, and `bilinear_interpolate` with its index clamping. These are
  modelled over `real`.
- **Legacy survey readers** (`utils/rwutils.py`):
  - `fileextchecker`, `mrkread`, `mm2read` and `rw5readline`;
  - the line-dispatch state machine of `rw5read`;
  - the row cleaning and grouping of `tabulaxlsread`.
- **File and image bookkeeping:**
  - the resettable `ImageList` cursor and the extension patterns of `read_image_list`
    (`images.py`; main.py's copy is the same code, modelled once);
  - `process_resize`, and the length dispatch of `read_opencv_calibration`;
  - the rule-based file organiser (`files.py`);
  - EXIF-based renaming (`renaming.py`, `rename.py`, main.py), with the
    `ImageRenamer` loop and the `overlay_text` colour and clamp rules;
  - the RawTherapee command line and the directory-tree mirroring of `conversion.py`,
    with the failure policy of `RawConverter.convert`.

## How the model is built

There is one module per source file. Some modules are shared:

- `Outcomes`: Python exceptions become `Raise(e)` values.
- `Text`, `Paths`, `Sorting`, `ODicts`: the parts of `str`, `re`, `pathlib`,
  `sorted` and insertion-ordered `dict` that the code relies on.
- `Values`: dynamic row values and the in-place row loop.
- `ExifData`: the decoded EXIF fields.
- `Actions`: the file operations and processes a run performs, in order.

**How state and I/O are represented:**

- Code that mutates state is modelled with classes whose methods declare what they
  modify:
  - `ImageList`, `ImageRenamer`, `Organizer` and `RawConverter`;
  - `RowStore`, the joined dict the projection drivers rewrite in place.
- Loops are modelled as methods with invariants. Each one is proved equal to a
  specification function, and the properties are proved about that function.
- The file system is a set of existing names plus file contents given as lines.
- Directory listings and glob results are parameters.
- Number parsing (`float`, `np.float_`, `int` of a float) is a parameter.
- The decoded EXIF of each image is a parameter.
- The pyproj transform is an uninterpreted function, and the CRS kinds are a registry
  map.
- The RawTherapee exit code, `find_rawtherapee`, `platform.system()` and
  `Path.resolve` are fields of an environment value.
- Side effects are returned as a list of actions, for example `MakeDir`, `Copy`,
  `Unlink` and `Execute(argv)`. The file-system calls behind them (`mkdir`,
  `os.rename`, `shutil.copy`, `unlink`) are taken to succeed. The model records what
  the code asks for; it does not decide whether the file system accepts it. Only the
  RawTherapee process has an outcome, its exit code.

**Where the code does something other than its documentation says, the model follows
the code:**

- `fileextchecker` says the existing candidate extension wins. In the code each
  candidate that exists extends the name reached so far, so later candidates are tried
  on the already-extended name (`Rwutils.ExtendChains`).
- `copy_and_rename` is documented as returning a bool. It returns the record dict.
- `main` never passes `case_sensitive` on to `read_image_list`, so the `-cs` option
  has no effect (`MainScript.MainIgnoresCaseSensitive`).
- In `main`, the `try` around `img.exif` cannot fail once the image is open.
- In `main`, the `if not rename_image(...)` test can never be true.
- `organize_files` has two mismatches:
  - It creates `rule.lower()` but moves into `rule` as written
    (`Files.MoveTargetVerbatim`). On a case-sensitive file system, that move fails
    for any rule key that is not lower case.
  - A sub-folder whose name looks like it has a suffix is moved like a file. It is
    copied like one too, which `shutil.copy` refuses.
- With `keep_dir_tree`, `rebuild_dir_tree` iterates the `ImageList` and so leaves its
  cursor at 0. The `zip` that follows therefore pairs destinations computed from the
  cursor onwards with files taken from the first one (`Conversion.TreeSpec`).
- `rebuild_dir_tree` on an unknown system raises UnboundLocalError, and on an empty
  list raises ValueError.
- dji.py's `project_to_utm` reports an unusable transformer with `None`. A caller
  cannot tell that from a completed in-place run
  (`Projection.CrsFailureLooksLikeInPlaceSuccess`).

## Model

| member | source | states |
|---|---|---|
| Text.SplitOn | src/impreproc/dji.py:105 | `re.split` on single-character delimiters yields one more field than there are delimiters, and no field holds a delimiter |
| Text.JoinSplit | src/impreproc/dji.py:105 | joining the fields with one separator gives back the text with every delimiter replaced by it |
| Text.SplitJoinRoundTrip | src/impreproc/dji.py:81 | with a single delimiter, `sep.join(s.split(sep)) == s` |
| Text.SplitLastField | src/impreproc/dji.py:81 | `s.split("_")[-1]` is the text after the last `_` |
| Text.Lower | src/impreproc/images.py:470 | ASCII `lower()` keeps the length and maps each character |
| Text.Upper | src/impreproc/images.py:471 | ASCII `upper()` keeps the length and maps each character |
| Text.ReplaceChar | src/impreproc/renaming.py:245 | `replace(" ", "_")` keeps the length and changes exactly the matching characters |
| Text.RemoveChar | src/impreproc/utils/rwutils.py:295 | `replace("\n", "")` leaves no newline |
| Text.RemoveCharCount | src/impreproc/utils/rwutils.py:457 | dropping the newlines of a `--DT` line keeps every `-` of its date |
| Text.NonEmpty | src/impreproc/utils/rwutils.py:555 | the non-empty fields, each one taken from the input |
| Text.Words | src/impreproc/utils/rwutils.py:555 | `s.split()` gives non-empty words without whitespace |
| Text.Without | src/impreproc/utils/rwutils.py:555 | the text with the delimiters dropped holds none of them |
| Text.WordsKeepText | src/impreproc/utils/rwutils.py:555 | the words of `s.split()`, put back together, are `s` without its whitespace: splitting loses nothing else |
| Text.TakeLast | src/impreproc/utils/rwutils.py:43 | `s[-n:]` has n characters, or all of `s` when shorter |
| Text.Digits | src/impreproc/renaming.py:263 | `str(n)` of a natural number is a non-empty digit string |
| Text.DigitsRoundTrip | src/impreproc/renaming.py:263 | reading back `str(n)` gives n |
| Text.ZeroPad | src/impreproc/renaming.py:263 | `zfill(w)` pads to at least w characters |
| Text.ZeroPadValue | src/impreproc/renaming.py:263 | zero padding never changes the number the digits denote |
| Text.FormatInt | src/impreproc/dji.py:109 | `"%0wd" % i` is at least w characters long |
| Text.FormatIntWidth | src/impreproc/dji.py:109 | `"%0wd"` of a number with at most w digits is exactly w characters |
| Text.ParseInt | src/impreproc/dji.py:81 | `int(s)` fails only with ValueError |
| Text.ParseFormatInt | src/impreproc/dji.py:109 | `int("%03d" % i) == i` for every integer: formatting pads and never wraps |
| Text.Trunc | src/impreproc/dji.py:109 | `int(x)` of a float truncates toward zero |
| Paths.LastIndexOf | src/impreproc/files.py:25 | `rfind`: -1, or a position that holds the character |
| Paths.LastIndexOfLast | src/impreproc/files.py:25 | no position after the one `rfind` returns holds the character |
| Paths.NameSlashFree | src/impreproc/dji.py:152 | `Path.name` holds no `/` |
| Paths.SuffixDot | src/impreproc/files.py:25 | the suffix dot is neither the first nor the last character of the name |
| Paths.StemSuffix | src/impreproc/files.py:25 | name == stem + suffix, and a non-empty suffix is a dot and at least one character with no further dot |
| Paths.StemSuffixOf | src/impreproc/dji.py:80-81 | `base.ext` without dots or slashes in its parts has stem `base` and suffix `.ext` |
| Paths.PathJoinInjective | src/impreproc/renaming.py:320 | joining different names onto one folder gives different paths |
| Sorting.Insert | src/impreproc/images.py:486 | inserting into a sorted list keeps it sorted and adds exactly the element |
| Sorting.Sort | src/impreproc/images.py:486 | `sorted` returns an ordered permutation of its input |
| ODicts.Put | src/impreproc/dji.py:125 | `d[k] = v`: a new key is appended to the order, an existing key keeps its place |
| ODicts.PutSame | src/impreproc/dji.py:125 | writing back the value a key holds changes nothing |
| ODicts.Empty | src/impreproc/dji.py:107 | `{}` is a valid empty dict |
| ODicts.PutAll | src/impreproc/dji.py:107-127 | the keying loop keeps the dict valid |
| ODicts.PutAllOk | src/impreproc/dji.py:108-125 | the keying loop finishes exactly when no entry raises; otherwise it raises the error of the first entry that raises |
| ODicts.PutAllKeys | src/impreproc/dji.py:108-125 | the keys are those of the start dict and of the entries |
| ODicts.PutAllHas | src/impreproc/dji.py:108-125 | a key is in the finished dict exactly when the start dict or some entry carries it |
| ODicts.PutAllKeep | src/impreproc/dji.py:108-125 | a key no entry carries keeps its value |
| ODicts.PutAllLastWins | src/impreproc/dji.py:108-125 | the last entry carrying a key is that key's final value |
| ODicts.PutAllFresh | src/impreproc/dji.py:107-127 | filling an empty dict succeeds only when every entry is Ok; its keys are the entries' keys, each holding the last entry carrying it |
| ODicts.PutEach | src/impreproc/dji.py:183-213 | the per-key loop keeps the dict valid |
| ODicts.PutEachStep | src/impreproc/dji.py:184-210 | one iteration writes one key and goes on with the rest |
| ODicts.PutEachOk | src/impreproc/dji.py:183-213 | the loop finishes exactly when no value raises; otherwise the error is that of some key |
| ODicts.PutEachOrder | src/impreproc/dji.py:183-213 | a finished loop appends the fresh keys in loop order |
| ODicts.PutEachKeep | src/impreproc/dji.py:183-213 | keys the loop does not visit keep their values |
| ODicts.PutEachAt | src/impreproc/dji.py:183-213 | over distinct keys, every key holds its own value |
| Values.Get | src/impreproc/dji.py:352-358 | `row[f]` succeeds exactly when the key is present, and raises KeyError otherwise |
| Values.RowPass | src/impreproc/dji.py:271-300 | a row loop keeps the dict valid and its keys unchanged |
| Values.PutKeepsLater | src/impreproc/dji.py:271-300 | writing at one position leaves every later position as it was |
| Values.RowPassFinishes | src/impreproc/dji.py:271-300 | the row loop finishes exactly when no row from the start position on raises |
| Values.UpdatedStep | src/impreproc/dji.py:271-300 | one position of a finished loop: the written row is settled, the others come from the rest of the loop |
| Values.RowPassResult | src/impreproc/dji.py:271-300 | a finished loop maps every visited row to its new value and leaves None rows alone |
| Values.RowPassKeeps | src/impreproc/dji.py:273-277 | a row that is None is skipped and stays None, whether or not the loop finishes |
| Values.RowPassVisit | src/impreproc/dji.py:271-300 | one iteration leaves a None row's key as it was and either stops on the written dict or goes on from it |
| Values.RowPassError | src/impreproc/dji.py:271-300 | when every row can only raise e, a stopped loop raises e |
| Values.AgreeAfterPut | src/impreproc/dji.py:271-300 | two dicts that agree from position i on still agree from i + 1 on after both write position i |
| Values.Scale | src/impreproc/dji.py:377-387 | `s * v` is a float for a number and TypeError otherwise |
| Values.RowStore.constructor | src/impreproc/dji.py:344 | the store holds the given dict |
| Values.RowStore.ForEachRow | src/impreproc/dji.py:347-358 | the in-place loop over the rows ends in the state, and with the exception, of the row-loop specification |
| ExifData.CameraModel | src/impreproc/renaming.py:243-248 | spaces in the model tag become `_`, nothing else changes, and a missing tag gives "" |
| ExifData.StampLength | src/impreproc/renaming.py:267 | `strftime("%Y%m%d_%H%M%S")` is 15 characters |
| ExifData.StampFields | src/impreproc/renaming.py:267 | each digit group of the stamp reads back as the date-time field it was written from |
| ExifData.StampGroups | src/impreproc/renaming.py:267 | the stamp is the year, month and day digits, `_`, then the hour, minute and second digits, at fixed positions |
| Dji.GetDjiIdFromName | src/impreproc/dji.py:71-81 | the id parse fails only with ValueError |
| Dji.DjiIdOfName | src/impreproc/dji.py:80-81 | the id of `prefix_digits.ext` is the value of the digits after the last `_` of the stem |
| Dji.DjiIdExampleDji0001 | test/test_djimrk.py:55 | `DJI_0001.JPG` gives 1 |
| Dji.DjiIdExampleDji0123 | test/test_djimrk.py:56 | `DJI_0123.JPG` gives 123 |
| Dji.DjiIdExampleImg0123 | test/test_djimrk.py:57 | `IMG_0123.JPG` gives 123 |
| Dji.DjiIdExampleLower0001 | test/test_djimrk.py:58 | `dji_0001.JPG` gives 1 |
| Dji.Field | src/impreproc/dji.py:112-123 | `np.float_(line[i])` is IndexError for a short line, ValueError for non-numbers, and the parsed number otherwise |
| Dji.ParseMrkLineFields | src/impreproc/dji.py:108-125 | a line parses exactly when it has 20 fields whose numeric ones parse. The id is the truncated field 0; dE, dN, dV come from 3, 5, 7; lat, lon, ellh from 9, 11, 13; stdE, stdN, stdV from 15, 16, 17; Qual from 18; Flag is field 19 verbatim |
| Dji.LineRecords | src/impreproc/dji.py:104-109 | one parse result per line |
| Dji.LineRecordsAt | src/impreproc/dji.py:104-109 | entry `i` is the parse of line `i`, in file order |
| Dji.MrkRead | src/impreproc/dji.py:84-127 | the parsing loop gives the `mrkread` result over the file's lines |
| Dji.MrkReadOk | src/impreproc/dji.py:99-125 | a log is read exactly when the file exists, its suffix lower-cased is `.mrk`, and every line parses; otherwise AssertionError, or the error of the first line that does not parse |
| Dji.MrkReadLastWins | src/impreproc/dji.py:107-127 | one entry per distinct id, holding the record of the last line with that id |
| Dji.ImageStep | src/impreproc/dji.py:145-163 | one iteration of the image loop keeps the dict valid |
| Dji.ImagesLoop | src/impreproc/dji.py:144-165 | the image loop keeps the dict valid |
| Dji.GetImages | src/impreproc/dji.py:130-165 | the loop gives the `get_images` result over the listed files |
| Dji.ReadImage | src/impreproc/dji.py:146-163 | the `try` body for one file, or its `except` branch |
| Dji.ImagesLoopWitnessed | src/impreproc/dji.py:144-165 | every entry is keyed by the id of a listed file, and every stored record is the record of a listed file with that id |
| Dji.GetImagesKeys | src/impreproc/dji.py:144-165 | keys are ids of listed files, and each stored record belongs to a file carrying that id |
| Dji.GetImagesStaleId | src/impreproc/dji.py:160-163 | a failed read stores None under the id last assigned, overwriting the previous good record |
| Dji.GetImagesFirstUnreadable | src/impreproc/dji.py:146-163 | when the first image cannot be read, the `except` branch itself raises UnboundLocalError |
| Dji.MergeEntryFails | src/impreproc/dji.py:185-211 | the join raises TypeError exactly for a log key whose image entry is None |
| Dji.MergeMrkExifData | src/impreproc/dji.py:168-213 | the join loop gives the `merge_mrk_exif_data` result |
| Dji.JoinEntry | src/impreproc/dji.py:185-210 | the body of the join loop for one key is the entry the join specification stores |
| Dji.MergeFails | src/impreproc/dji.py:183-213 | the join fails, with TypeError, exactly when some log key's image entry is None |
| Dji.MergeAt | src/impreproc/dji.py:184-211 | the value stored under one log key: None without an image entry, the joined row otherwise |
| Dji.MergeKeys | src/impreproc/dji.py:183-213 | keys are the log's, in log order; image-only keys are dropped; a matched key holds the row of 1 id, 12 `_mrk` and 7 `_exif` fields |
| Projection.ProjectSpec | src/impreproc/dji.py:241-305 | keys are kept. Equal codes or a field count other than 2 or 3 give AssertionError. An unusable transformer gives None with nothing touched. An in-place success returns None. A copy-mode failure leaves the copy unreturned |
| Projection.ProjectRow | src/impreproc/dji.py:273-300 | one row's iteration: the input row after it, and the copy's row in copy mode |
| Projection.ProjectToUtm | src/impreproc/dji.py:216-305 | the driver ends in the state, and returns the value, of the `project_to_utm` specification |
| Projection.ProjectRows | src/impreproc/dji.py:271-300 | the loop over the rows matches the row-loop specification for the input and, in copy mode, for the copy |
| Projection.ProjectKey | src/impreproc/dji.py:271-300 | one iteration advances the row loop by one position, or stops it with the row's error |
| Projection.NewNamesDistinct | src/impreproc/dji.py:292-300 | `E{suffix}`, `N{suffix}` and `h{suffix}` are pairwise distinct for every suffix |
| Projection.InputStepOk | src/impreproc/dji.py:280-289 | a row gets through exactly when its coordinate fields (and the height field with three fields) are present; the only error is KeyError, since the `continue` only leaves the inner loop |
| Projection.InPlaceStepShape | src/impreproc/dji.py:291-295 | in place, the coordinates are added, then with three fields the height is read back from the updated row |
| Projection.ProjectCompletes | src/impreproc/dji.py:271-305 | a stopped run raises KeyError; with usable arguments a run completes exactly when every non-None row can be projected |
| Projection.ProjectInPlaceRows | src/impreproc/dji.py:291-295 | in-place success: each non-None row holds its projection (and height with three fields), nothing else changes, and None rows stay |
| Projection.ProjectCopyRows | src/impreproc/dji.py:296-300 | copy-mode success: the copy holds the coordinates, and the input rows get only `h{suffix}` |
| Projection.CopyStepsShape | src/impreproc/dji.py:296-300 | what a copying iteration does to the copy and to the input row |
| Projection.ProjectKeepsNoneRows | src/impreproc/dji.py:273-277 | None rows are never touched, in either mode |
| Projection.CrsFailureLooksLikeInPlaceSuccess | src/impreproc/dji.py:262-266 | the CRS failure value equals the value of a completed in-place run |
| DjiCsv.GetEpsgFromUtmZone | src/impreproc/dji.py:308-314 | an empty zone is IndexError, and the code exists exactly when the text before the last character parses |
| DjiCsv.EpsgOfZone | src/impreproc/dji.py:308-314 | a zone `zzH` maps to 32600 + zz for `N` and 32700 + zz for any other letter, with no range check |
| DjiCsv.EpsgExampleNorth | src/impreproc/dji.py:321 | the default "32N" is EPSG:32632 |
| DjiCsv.EpsgExampleLowerCase | src/impreproc/dji.py:311 | "32n" is EPSG:32732: only a capital N selects the north |
| DjiCsv.EpsgExampleNoNumber | src/impreproc/dji.py:309-310 | "N" is ValueError and "" is IndexError |
| DjiCsv.SelectStepShape | src/impreproc/dji.py:351-358 | a row with the three source fields gets lat, lon and ellh copied from them and nothing else; otherwise KeyError |
| DjiCsv.FirstMatch | src/impreproc/dji.py:376-389 | the position of the first quality flag equal to the row's quality, or none |
| DjiCsv.ScaleStepShape | src/impreproc/dji.py:376-389 | standard deviations are scaled by the factor of the first matching flag; an unmatched quality leaves the row as it was |
| DjiCsv.ScaleStdShape | src/impreproc/dji.py:377-380 | scaling by one factor writes the three scaled fields and changes nothing else |
| DjiCsv.CsvLine | src/impreproc/dji.py:418-443 | a line fails only with KeyError or TypeError and otherwise has 11 values, or 14 with UTM |
| DjiCsv.CsvLineWidth | src/impreproc/dji.py:392-443 | every line has one value per header column |
| DjiCsv.CsvLineNeedsStd | src/impreproc/dji.py:436-442 | a row without `stdE` cannot be written |
| DjiCsv.CsvLinesFail | src/impreproc/dji.py:415-444 | writing fails at the first non-None row that lacks a field |
| DjiCsv.CsvLinesAt | src/impreproc/dji.py:415-444 | one row's worth of the writing loop |
| DjiCsv.WriteCsv | src/impreproc/dji.py:413-444 | the writing loop produces the lines of the non-None rows in dict order |
| DjiCsv.PreparedSpec | src/impreproc/dji.py:344-389 | the prepared copy keeps the input's keys |
| DjiCsv.Dji2CsvSpec | src/impreproc/dji.py:392-414 | the file starts with the header, with UTM columns only when projecting |
| DjiCsv.Dji2Csv | src/impreproc/dji.py:317-448 | the selection, projection and scaling loops, then the writer, give the `dji2csv` specification |
| DjiCsv.Prepare | src/impreproc/dji.py:343-389 | the selection, projection and scaling loops over the copy give the prepared dict |
| DjiCsv.SelectPass | src/impreproc/dji.py:347-358 | after selection every non-None row carries the coordinates of the chosen source |
| DjiCsv.SelectKeepsStdMissing | src/impreproc/dji.py:347-358 | selection keeps a row's quality and adds no `stdE` |
| DjiCsv.ProjectKeepsStdMissing | src/impreproc/dji.py:361-370 | projection keeps a row's quality and adds no `stdE` |
| DjiCsv.ScaleKeepsStdMissing | src/impreproc/dji.py:373-389 | scaling adds no `stdE` to a row whose quality matches no flag |
| DjiCsv.UnmatchedQualityFails | src/impreproc/dji.py:373-442 | a row whose quality matches no flag and that has no `stdE` makes `dji2csv` raise KeyError |
| DjiCsv.PreparedKeepsStdMissing | src/impreproc/dji.py:343-389 | the three loops keep such a row without `stdE` and with its quality |
| DjiMrk.FirstRow | src/impreproc/djimrk.py:229-232 | the position of the first non-None row from i on, with only None rows before it |
| DjiMrk.MrkProjectSpec | src/impreproc/djimrk.py:210-246 | keys are kept. Equal codes or a field count other than 2 give AssertionError. An unusable transformer gives False. Copy mode and failures leave the input as it was |
| DjiMrk.MrkProjectToUtm | src/impreproc/djimrk.py:187-246 | the driver ends in the state, and returns the value, of its specification |
| DjiMrk.ThreeFieldsRejected | djiimg_preproc.py:12-17 | the preprocessing script's three-field call fails the two-field assertion and leaves the dict as it was |
| DjiMrk.LaterRowsUntouched | src/impreproc/djimrk.py:229-246 | every row after the first non-None one is unchanged, in the input and in a returned copy |
| DjiMrk.FirstRowProjected | src/impreproc/djimrk.py:238-246 | the first non-None row gets E and N: in the input and returning None in place, or in a returned copy otherwise |
| DjiMrk.NoRowToProject | src/impreproc/djimrk.py:229-246 | an empty or all-None dict comes back unchanged with None |
| DjiMrk.CrsFailureIsFalse | src/impreproc/djimrk.py:223-227 | a transformer failure returns False, which differs from every successful outcome |
| Transformations.TfProjectSpec | src/impreproc/transformations.py:30-59 | keys are kept. Equal codes or a field count other than 3 give AssertionError. A failed CRS check gives False. A completed run gives True |
| Transformations.TfProjectToUtm | src/impreproc/transformations.py:8-59 | the driver ends in the state, and returns the value, of its specification |
| Transformations.TfStepShape | src/impreproc/transformations.py:51-56 | a row with the three fields gets E and N and nothing else; otherwise KeyError |
| Transformations.TfProjectCompletes | src/impreproc/transformations.py:46-59 | a usable transformer returns True exactly when every non-None row has the three fields, and raises KeyError otherwise |
| Transformations.TfProjectRows | src/impreproc/transformations.py:46-59 | on success every non-None row holds its projected E and N, no height is written, and None rows stay |
| Transformations.TfCrsFailure | src/impreproc/transformations.py:34-44 | a failed CRS check returns False before any row is touched |
| Transformations.Invert | src/impreproc/transformations.py:74 | `~t` exists exactly when the determinant is non-zero, and otherwise raises TransformNotInvertibleError |
| Transformations.Xy2Rc | src/impreproc/transformations.py:73-75 | `xy2rc` is defined exactly for invertible maps |
| Transformations.InverseRight | src/impreproc/transformations.py:74 | `t * (~t * p) == p` |
| Transformations.InverseLeft | src/impreproc/transformations.py:74 | `~t * (t * p) == p` |
| Transformations.WorldRoundTrip | src/impreproc/transformations.py:73-91 | `rc2xy(t, *xy2rc(t, x, y)) == (x, y)` for an invertible t |
| Transformations.PixelRoundTrip | src/impreproc/transformations.py:73-91 | `xy2rc(t, *rc2xy(t, r, c)) == (r, c)` for an invertible t |
| Transformations.Xy2RcTestCase | test/test_transformations.py:21-24 | the unit test's `xy2rc` expectation holds within its tolerance |
| Transformations.Rc2XyTestCase | test/test_transformations.py:27-32 | the unit test's `rc2xy` expectation holds within its tolerance |
| Transformations.ClampedCell | src/impreproc/transformations.py:107-115 | on a non-empty raster every clamped index is in range, and each pair is at most one apart |
| Transformations.BilinearInterpolate | src/impreproc/transformations.py:94-127 | an empty raster with queries raises IndexError; otherwise there is one value per query, each the interpolation at that point |
| Transformations.WeightSum | src/impreproc/transformations.py:122-125 | the four weights sum to (x1-x0)*(y1-y0) on the clamped indices |
| Transformations.InteriorWeights | src/impreproc/transformations.py:107-125 | inside the last row and column clamping changes nothing and the weights sum to 1 |
| Transformations.ZeroOutsideColumns | src/impreproc/transformations.py:112-127 | on the last column and left or right of the raster the value is 0 |
| Transformations.ZeroOutsideRows | src/impreproc/transformations.py:114-127 | on the last row and above or below the raster the value is 0 |
| Transformations.GridNode | src/impreproc/transformations.py:117-127 | at a grid node away from the last row and column the raster value comes back |
| Rwutils.Exts | src/impreproc/utils/rwutils.py:37-40 | a string extension is wrapped into a one-element list |
| Rwutils.FileExtCheckerSpec | src/impreproc/utils/rwutils.py:37-57 | a name that is returned exists |
| Rwutils.FileExtCheckerNoExtend | src/impreproc/utils/rwutils.py:41-57 | an existing name is returned as is; a missing name that already has one of the extensions gives -1 |
| Rwutils.FileExtChecker | src/impreproc/utils/rwutils.py:29-57 | the two loops give the `fileextchecker` specification |
| Rwutils.TestExts | src/impreproc/utils/rwutils.py:41-43 | `test` is true exactly when no extension ends the name, in any letter case |
| Rwutils.ExtendName | src/impreproc/utils/rwutils.py:45-51 | the candidate loop extends the name by each extension whose file exists, in order |
| Rwutils.ExtendChains | src/impreproc/utils/rwutils.py:49-51 | candidates chain: after `fname.e0` is taken, the next candidate tried is `fname.e0.e1` |
| Rwutils.SingleCandidate | src/impreproc/utils/rwutils.py:45-57 | with one extension the result is `fname.ext` when that exists, and -1 otherwise |
| Rwutils.MrkRows | src/impreproc/utils/rwutils.py:847-860 | a successful parse has one row per line |
| Outcomes.Gather | src/impreproc/utils/rwutils.py:847-860 | collecting the first n parsed lines in order succeeds with exactly n items |
| Outcomes.GatherFails | src/impreproc/utils/rwutils.py:847-860 | once a line fails, reading more lines keeps that failure |
| Outcomes.GatherAt | src/impreproc/utils/rwutils.py:847-860 | item i of a successful collection is line i's parse |
| Rwutils.MrkRowsStep | src/impreproc/utils/rwutils.py:847-860 | one more line adds one row, or stops with its error |
| Rwutils.MrkRowsFails | src/impreproc/utils/rwutils.py:847-860 | the first failing line decides the error |
| Rwutils.Open | src/impreproc/utils/rwutils.py:825-829 | a file is read only when `fileextchecker` found a name that exists; `open(-1)` is ValueError |
| Rwutils.RwMrkRead | src/impreproc/utils/rwutils.py:821-862 | the loop gives the `mrkread` specification |
| Rwutils.ParseMrkRows | src/impreproc/utils/rwutils.py:847-860 | the loop that fills the preallocated lists gives the row-by-row specification |
| Rwutils.MrkRowsAt | src/impreproc/utils/rwutils.py:847-860 | row i of a successful read comes from line i, with no de-duplication |
| Rwutils.RwMrkReadShape | src/impreproc/utils/rwutils.py:821-862 | the lists hold one entry per line of the file found |
| Rwutils.RwMrkReadLines | src/impreproc/utils/rwutils.py:848-860 | entry `i` comes from line `i`: Name is `'%03d'` of field 0; dN, dE, stdN, stdE come from fields 3, 5, 15, 16 |
| Rwutils.ReadersSwapEastNorth | src/impreproc/utils/rwutils.py:853-857 | on the same line this reader's dN, dE, stdN, stdE are dji.py's dE, dN, stdE, stdN |
| Rwutils.FloatOrNaN | src/impreproc/utils/rwutils.py:257-268 | `try: float(tok) except: nan` is a number exactly when the token exists and parses |
| Rwutils.SurveyLoopAppend | src/impreproc/utils/rwutils.py:247-270 | running the loop over one more line is one more step |
| Rwutils.SurveyLoopConsistent | src/impreproc/utils/rwutils.py:247-270 | the loop keeps stations numbered and observations pointing at the last station |
| Rwutils.SurveyLoopExtends | src/impreproc/utils/rwutils.py:247-270 | the loop only appends stations and observations |
| Rwutils.Mm2Fields | src/impreproc/utils/rwutils.py:228 | one row of fields per line |
| Rwutils.Mm2Read | src/impreproc/utils/rwutils.py:203-271 | the reader gives the `mm2read` specification |
| Rwutils.Mm2Loop | src/impreproc/utils/rwutils.py:237-271 | the counter loop over preallocated lists gives the appending specification |
| Rwutils.Mm2Line | src/impreproc/utils/rwutils.py:247-269 | one line fills the next station or observation slot, with the station in force, as the appending step does, or raises the same error |
| Rwutils.Mm2StepObservation | src/impreproc/utils/rwutils.py:253-270 | a `P|` line gives one observation with the last station's name, height and index; an unreadable angle or distance is NaN, an unreadable target height raises |
| Rwutils.Mm2StepConsistent | src/impreproc/utils/rwutils.py:248-270 | one step keeps the numbering consistent |
| Rwutils.Mm2ReadNumbered | src/impreproc/utils/rwutils.py:241-270 | each observation names the station most recently defined before it (None, None, -1 before any), and stations are numbered from 0 |
| Rwutils.Mm2LoopCounts | src/impreproc/utils/rwutils.py:247-270 | the loop adds one station per `S|` line and one observation per `P|` line |
| Rwutils.Mm2ReadCounts | src/impreproc/utils/rwutils.py:232-238 | the result has exactly the preallocated sizes: the `S|` and `P|` counts |
| Rwutils.Mm2NameFallback | src/impreproc/utils/rwutils.py:223-224 | `.mm2` is appended to a missing name only when it does not already end in it, in any case |
| Rwutils.DropHeaderRows | src/impreproc/utils/rwutils.py:711-717 | the reverse pop loop gives the downward cleaning specification |
| Rwutils.DropDownKept | src/impreproc/utils/rwutils.py:711-717 | the cleaning loop keeps exactly the kept rows, in order |
| Rwutils.KeptRows | src/impreproc/utils/rwutils.py:711-717 | the kept rows of a sheet are built row by row |
| Rwutils.DropHeaderRowsKeeps | src/impreproc/utils/rwutils.py:711-717 | cleaning raises exactly for a lone `punto` row; otherwise it keeps, in order, the rows that are not empty, not titles and not the column header |
| Rwutils.TabulaXlsRead | src/impreproc/utils/rwutils.py:674-754 | the reader gives the `tabulaxlsread` specification |
| Rwutils.TabulaStepConsistent | src/impreproc/utils/rwutils.py:722-753 | one step keeps the numbering consistent |
| Rwutils.TabulaReadNumbered | src/impreproc/utils/rwutils.py:719-753 | each observation names the station most recently defined above it, and stations are numbered from 0 |
| Rwutils.TabulaNoOrphans | src/impreproc/utils/rwutils.py:731 | no observation comes before the first station |
| Rwutils.TabulaLeadingRowsIgnored | src/impreproc/utils/rwutils.py:722-731 | rows above the first `stazione` row produce nothing |
| Rwutils.NoStationRows | src/impreproc/utils/rwutils.py:731 | a sheet without a station row produces nothing |
| Rwutils.DotDecimals | src/impreproc/utils/rwutils.py:738-746 | the comma-to-dot rewrite keeps the row's length |
| Rwutils.TabulaDecimalComma | src/impreproc/utils/rwutils.py:738-746 | decimal commas in angles and distances read as points |
| Rwutils.TabulaStepObservation | src/impreproc/utils/rwutils.py:731-753 | an observation row gives one observation; its code is the 6th token only when there are exactly six |
| Rw5.CastField | src/impreproc/utils/rwutils.py:294-297 | a `str` field drops newlines; a `float` field parses or raises ValueError; no cast raises anything else |
| Rw5.Blank | src/impreproc/utils/rwutils.py:290 | the start dict maps exactly the keys to None |
| Rw5.ScanKeys | src/impreproc/utils/rwutils.py:292-297 | the inner loop keeps the key set |
| Rw5.ScanTokens | src/impreproc/utils/rwutils.py:291-297 | the outer loop keeps the key set |
| Rw5.ReadLineSpec | src/impreproc/utils/rwutils.py:290-298 | the result holds exactly the keys of `strlist`; the reader raises only ValueError or IndexError |
| Rw5.ReadLine | src/impreproc/utils/rwutils.py:273-298 | the nested loops give the `rw5readline` specification |
| Rw5.LastMatch | src/impreproc/utils/rwutils.py:291-293 | the last token of the first n that starts with the key, or none |
| Rw5.ScanKeysAt | src/impreproc/utils/rwutils.py:292-297 | the inner loop writes the value of each key the token starts with |
| Rw5.ScanTokensAt | src/impreproc/utils/rwutils.py:291-297 | after n tokens a key holds the cast of its last match, or None |
| Rw5.ReadLineLastWins | src/impreproc/utils/rwutils.py:290-298 | a key with no matching token stays None; otherwise it holds the cast of the remainder of the last matching token |
| Rw5.Sub | src/impreproc/utils/rwutils.py:377 | `a - b` is defined exactly on numbers |
| Rw5.Number | src/impreproc/utils/rwutils.py:377 | a value is usable in arithmetic exactly when it is a number |
| Rw5.HasUhf | src/impreproc/utils/rwutils.py:387 | `'UHF' in dev` raises exactly when the device is not text |
| Rw5.LastDigits | src/impreproc/utils/rwutils.py:423 | `re.findall('\d+', s)[-1]` is a non-empty run of digits |
| Rw5.TrailingDigits | src/impreproc/utils/rwutils.py:423 | the trailing digit run is non-empty and all digits |
| Rw5.CommaFields | src/impreproc/utils/rwutils.py:357 | one row per line, each with at least one field |
| Rw5.Rw5Read | src/impreproc/utils/rwutils.py:325-586 | the reader gives the `rw5read` dispatch specification |
| Rw5.Dispatch | src/impreproc/utils/rwutils.py:369-586 | one pass of the dispatch on a line |
| Rw5.Rw5LoopGpsCount | src/impreproc/utils/rwutils.py:369-586 | the loop adds exactly one rover record per `GPS` line |
| Rw5.Rw5ReadGpsCount | src/impreproc/utils/rwutils.py:369-371 | a successful read has one rover record per `GPS` line |
| Rw5.Rw5GpsLine | src/impreproc/utils/rwutils.py:370-395 | a `GPS` line appends a record whose height is EL less the rover height in force, shifted when the device is UHF or unknown |
| Rw5.LsWithoutHrBreaksGps | src/impreproc/utils/rwutils.py:445-447 | an `LS` line without `HR` leaves the rover height None, so the next `GPS` line raises |
| Rw5.ReadLineNoHr | src/impreproc/utils/rwutils.py:446 | reading `HR` from a line without it gives None |
| Rw5.Rw5BpLine | src/impreproc/utils/rwutils.py:417-443 | a `BP` line adds a base record unless it follows a method line, whose record it fills instead |
| Rw5.Rw5G0Line | src/impreproc/utils/rwutils.py:472-487 | a `G0` line in a rover block sets BProw to len(bp)-1 on the last rover record and touches no other record |
| Rw5.DetailLine | src/impreproc/utils/rwutils.py:449-586 | a detail line in a rover block changes nothing but the last rover record, and keeps the rover list's length |
| Rw5.Drop | src/impreproc/utils/rwutils.py:457 | `s[4:]` has four characters fewer, or none |
| Rw5.FloatAt | src/impreproc/utils/rwutils.py:460-462 | `float(parts[n])` succeeds exactly when the field exists and parses; IndexError past the end, ValueError otherwise |
| Rw5.IntAt | src/impreproc/utils/rwutils.py:574 | `int(parts[n])`: IndexError past the end, otherwise `int()` of the field |
| Rw5.DateFields | src/impreproc/utils/rwutils.py:456-462 | a `--DT` date is read exactly when it has three '-'-separated fields that parse; fewer fields raise IndexError |
| Rw5.ClockFields | src/impreproc/utils/rwutils.py:464-470 | a `--TM` time is read exactly when it has three ':'-separated fields that parse; an hour that does not parse raises ValueError |
| Rw5.Covariance | src/impreproc/utils/rwutils.py:508-518 | a `G2`/`G3` line gives three non-None terms; a term it lacks is TypeError, and the line reader's errors pass through |
| Rw5.UnkeptDetail | src/impreproc/utils/rwutils.py:508-586 | the detail lines from `G2` on raise only IndexError, ValueError or TypeError |
| Rw5.DateWithoutDay | src/impreproc/utils/rwutils.py:456-460 | a `--DT` line in a rover block with fewer than two '-' (for instance `--DT 2023`) raises IndexError |
| Rw5.CovarianceMissingTerm | src/impreproc/utils/rwutils.py:508-510 | a `G2` line without a `VX` term raises TypeError |
| Rw5.RmsWithoutValue | src/impreproc/utils/rwutils.py:554-555 | an `--ERMS` line with fewer than three words raises IndexError, unless an earlier tag claimed it |
| Rw5.Rw5DetailOutsideGps | src/impreproc/utils/rwutils.py:449 | detail lines are read only while `last == 'GPS'`; elsewhere they change nothing |
| Rw5.MethodLastLine | src/impreproc/utils/rwutils.py:400-401 | a method line that ends the file outside a base block raises IndexError |
| Rw5.MethodGapOverwritesBase | src/impreproc/utils/rwutils.py:400-422 | a `BP` line two lines after a method line still sees `last == 'Method'`, so it fills the previous base record |
| Images.PyIndex | src/impreproc/images.py:75-76 | a list index is valid exactly in -len..len-1, and negative indices count from the end |
| Images.PyIndexNegative | src/impreproc/images.py:75-76 | index -k names the same item as len-k |
| Images.ImageList.constructor | src/impreproc/images.py:64-70 | the list holds the found files with its cursor at 0 |
| Images.ImageList.Length | src/impreproc/images.py:72-73 | `len` is the number of stored files |
| Images.ImageList.GetItem | src/impreproc/images.py:75-76 | `image_list[idx]` is Python list indexing of the stored files |
| Images.ImageList.Next | src/impreproc/images.py:81-87 | the next file and a cursor one further on, or StopIteration with the cursor reset to 0 |
| Images.ImageList.Drain | src/impreproc/images.py:78-87 | a loop over the list yields the files from the cursor on, in order, and leaves the cursor at 0 |
| Images.Lowered | src/impreproc/images.py:470 | each extension lower-cased, in order |
| Images.Uppered | src/impreproc/images.py:471 | each extension upper-cased, in order |
| Images.PatternsChecked | src/impreproc/images.py:461-476 | the argument is rejected with AssertionError exactly when it is not None, a string or a list, or an item is not three characters; None gives `[""]` |
| Images.PatternsShape | src/impreproc/images.py:464-474 | an accepted string counts as a one-item list; there is one dotted suffix per extension, and case-insensitive patterns are the lower-case variants followed by the upper-case ones |
| Images.MatchesStep | src/impreproc/images.py:479-484 | one more pattern appends its matches |
| Images.ReadImageList | src/impreproc/images.py:429-488 | the pattern loop gives the `read_image_list` specification |
| Images.GlobAll | src/impreproc/images.py:478-484 | the pattern loop collects the matches of each pattern in pattern order |
| Images.ReadImageListSorted | src/impreproc/images.py:478-488 | the result is sorted and holds every match of every pattern, with multiplicity |
| Images.RoundHalfEven | src/impreproc/images.py:548 | `round` is within one half of its argument, and a tie goes to the even neighbour, so `round(0.5)` is 0 |
| Images.ProcessResizeTie | src/impreproc/images.py:546-548 | a 4x1 image resized to 2 becomes 2x0, because the height `round(0.5)` ties to the even 0 |
| Images.ProcessResizeErrors | src/impreproc/images.py:545-552 | a length outside 1..2 is AssertionError; `[-1]` keeps (w, h); a single entry below -1 is IndexError |
| Images.ProcessResizeLongerSide | src/impreproc/images.py:546-548 | for a wide image a single size makes the width exactly that size and the height proportional within half a pixel |
| Images.ProcessResizeTaller | src/impreproc/images.py:546-548 | the same for a tall image |
| Images.CalibrationLayout | src/impreproc/images.py:578-603 | a missing file is ValueError; w and h are the first two numbers, K is the next nine row-major, dist is the rest for 15, 16 or 19 numbers; fewer than two numbers is IndexError at `data[0]`/`data[1]`, and any other length is ValueError |
| Files.GetExtensionSuffix | src/impreproc/files.py:23-25 | the extension is empty exactly when there is no suffix, and otherwise is the lower-cased suffix without its dot |
| Files.GetExtensionOf | src/impreproc/files.py:23-25 | `base.ext` has extension `ext` lower-cased |
| Files.OrganizeFiles | src/impreproc/files.py:28-59 | the two loops give the `organize_files` specification |
| Files.MakeRuleDirs | src/impreproc/files.py:38-44 | the first loop creates the folders of the rules the directory needs |
| Files.RuleFolder | src/impreproc/files.py:42-44 | a rule creates its folder `dir/rule.lower()` exactly when one of its extensions is present |
| Files.MoveEntries | src/impreproc/files.py:46-59 | the second loop produces the moves or copies of the specification |
| Files.Relocate | src/impreproc/files.py:47-59 | one entry's move or copy, or nothing |
| Files.FindRule | src/impreproc/files.py:51-59 | the rule loop stops at the first rule that lists the extension |
| Files.TargetFirst | src/impreproc/files.py:51-59 | a file goes to the first rule in dict order that lists its extension, and to none when no rule lists it |
| Files.FileActionUntouched | src/impreproc/files.py:47-59 | an entry is left alone exactly when its extension is empty or no rule lists it |
| Files.MovesSources | src/impreproc/files.py:46-59 | every move or copy starts from an entry, and a left-alone entry is moved by none |
| Files.MakeDirsIff | src/impreproc/files.py:38-44 | with list rules, `dir/rule.lower()` is created exactly when some entry's extension is listed, and nothing raises |
| Files.TypeErrorBeforeMoves | src/impreproc/files.py:38-40 | a non-list rule raises TypeError in the first loop, after only folder creations |
| Files.TypeErrorNoMoves | src/impreproc/files.py:38-46 | with a non-list rule nothing is moved or copied |
| Files.MoveTargetVerbatim | src/impreproc/files.py:43-55 | the folder is created lower-cased, but the move the code asks for goes into the rule key as written |
| Files.SingleRuleFolder | src/impreproc/files.py:42-44 | one listed entry creates exactly its rule's folder |
| Files.SingleRuleMove | src/impreproc/files.py:51-55 | one listed entry is moved into its rule's folder |
| Files.SubdirsOf | src/impreproc/files.py:85-87 | the sub-folders are exactly the entries that are directories |
| Files.Organizer.constructor | src/impreproc/files.py:63-75 | the organizer keeps its rules, mode and recursion flag |
| Files.Organizer.Organize | src/impreproc/files.py:77-93 | `organize` performs the actions of its specification and returns True or the exception |
| Files.OrganizeFolders | src/impreproc/files.py:88-89 | the sub-folder loop organizes each folder in turn, stopping at the first exception |
| Files.OrganizeNotADirectory | src/impreproc/files.py:81-82 | a path that is not a directory raises ValueError before anything is done |
| Files.OrganizeEachOk | src/impreproc/files.py:88-89 | organizing several folders succeeds exactly when each does, and its actions are then the actions of each folder's `organize_files`, concatenated in folder order |
| Files.RecursiveFolders | src/impreproc/files.py:84-89 | recursive mode organizes the sorted sub-folders and not the directory itself |
| Files.SubdirsNotSelf | src/impreproc/files.py:84-86 | the directory is never among its own sub-folders |
| Actions.SequencedOk | main.py:245-255 | a batch succeeds, with True and every step's actions, exactly when every step returns True |
| Actions.SequencedStops | main.py:245-252 | a failing batch stops at the first step that raises or returns False, with that step's exception or RuntimeError |
| Renaming.NameFromExif | src/impreproc/renaming.py:232-284 | an EXIF read error propagates; a missing date-time is RuntimeError; otherwise the name and the record with id, old name, the EXIF date and time, camera, focal, no classification, and latitude, longitude and height from the GPS read or None in all three when it fails |
| Renaming.IdRoundTrip | src/impreproc/renaming.py:262-263 | the id written into a name reads back as the id: zero-filling pads and never truncates |
| Renaming.NameLayout | src/impreproc/renaming.py:262-268 | a name is base, id part, `_`, the 15-character stamp, `_`, camera model and suffix |
| Renaming.NameKeepsSuffix | src/impreproc/renaming.py:268 | with no `/` in base name or model, the new name keeps the original suffix |
| Renaming.NoSlash | src/impreproc/renaming.py:268 | a name built from slash-free parts holds no `/` |
| Renaming.FileOutcomes | src/impreproc/renaming.py:157-162 | one outcome per file |
| Renaming.CollectKeys | src/impreproc/renaming.py:157-162 | a successful run keys the results 0..n-1 in list order |
| Renaming.CollectFails | src/impreproc/renaming.py:157-162 | a failed run stops at the first failing file, with its error and the actions of every file up to it |
| Renaming.CollectStops | src/impreproc/renaming.py:157-162 | after a failure later files change nothing |
| Renaming.RenameIds | src/impreproc/renaming.py:159-162 | with progressive ids file k is named with id k, and otherwise with none; its record names the original file |
| Renaming.CopyAndRenameRecord | src/impreproc/renaming.py:309-327 | the copy succeeds exactly when `name_from_exif` does, and then returns its record after the folder creation, the copy under the record's new name and, when asked, the unlink; a failure leaves only the folder creation and raises the naming error |
| Renaming.ImageRenamer.constructor | src/impreproc/renaming.py:101-112 | progressive ids switch parallel renaming off |
| Renaming.ImageRenamer.Rename | src/impreproc/renaming.py:132-162 | the files from the cursor on are renamed in order, keyed by position; on success the cursor is back at 0; on failure it raises the first failing file's error and the cursor is one past that file |
| Renaming.FontColor | src/impreproc/renaming.py:434-439 | black on white, white on black, the requested colour otherwise |
| Renaming.RectClamped | src/impreproc/renaming.py:444-445 | the rectangle's corners stay within 0..(w, h) |
| Renaming.RectCoversText | src/impreproc/renaming.py:441-445 | a text box inside the image is covered by the rectangle |
| Renaming.OverlayText | src/impreproc/renaming.py:415-446 | the colour is the font-colour rule and the rectangle is the clamped one, drawn only with a background |
| Rename.NameFromExif | src/impreproc/rename.py:27-48 | an EXIF read error propagates, a missing date-time is RuntimeError, and otherwise a name is built |
| Rename.NameWithoutId | src/impreproc/rename.py:45-46 | the name is renaming.py's name without a progressive id: base, `_`, stamp, `_`, model, suffix |
| Rename.NameIgnoresFocal | src/impreproc/rename.py:39-46 | the focal length and GPS do not affect the name |
| Rename.RenameImage | src/impreproc/rename.py:51-86 | `rename_image` returns True on success and raises exactly when naming fails |
| Rename.RenameImageAsCopyAndRename | src/impreproc/rename.py:72-86 | the same actions and error as renaming.py's `copy_and_rename` without an id |
| MainScript.RenameImage | main.py:187-223 | an EXIF error propagates and a missing date-time is RuntimeError, each after only the folder creation |
| MainScript.RenameImageAgrees | main.py:166-223 | main.py's `rename_image` does exactly what rename.py's does |
| MainScript.RenameImageTrue | main.py:223 | `rename_image` raises or returns True |
| MainScript.RenameSteps | main.py:245-252 | one outcome per file |
| MainScript.RunMain | main.py:226-255 | `main` performs the actions, and returns the result, of its specification |
| MainScript.RenameFiles | main.py:244-253 | the loop renames the files in order, stopping at the first exception |
| MainScript.RenameFile | main.py:246-251 | the loop body is `rename_image` on file k, which returns True when it returns |
| MainScript.MainIgnoresCaseSensitive | main.py:72-78 | `main`'s result does not depend on `case_sensitive` |
| MainScript.RenameFilesOk | main.py:244-255 | the loop succeeds exactly when every file renames, returning True, and its actions are then those of `rename_image` on each file, in list order |
| Conversion.CommandLayout | src/impreproc/conversion.py:165-187 | the vector is exe, `-o`, output, optional `-p` profile, the options, `-c`, file, in that order |
| Conversion.Executable | src/impreproc/conversion.py:157-160 | no path means `find_rawtherapee()`; a given path must exist, or AssertionError |
| Conversion.ConvertRaw | src/impreproc/conversion.py:115-198 | the appending loop gives the `convert_raw` specification |
| Conversion.ConvertRawTrue | src/impreproc/conversion.py:157-198 | True exactly when the executable and profile exist and the exit code is 0; it then created the folder and ran the command |
| Conversion.CommonPrefix | src/impreproc/conversion.py:219 | a common prefix of both paths that cannot be extended |
| Conversion.CommonPrefixLongest | src/impreproc/conversion.py:219 | every common prefix is a prefix of it |
| Conversion.CommonPath | src/impreproc/conversion.py:219 | `commonpath` is a prefix of every path |
| Conversion.CommonPathLongest | src/impreproc/conversion.py:219 | every shared prefix is a prefix of `commonpath` |
| Conversion.Resolved | src/impreproc/conversion.py:214-218 | one resolved path per file |
| Conversion.RebuildDirTree | src/impreproc/conversion.py:201-221 | an unknown system is UnboundLocalError; an empty list, or on Windows files on different drives, is ValueError; otherwise one destination per file |
| Conversion.RebuildDirTreeDrives | src/impreproc/conversion.py:214-219 | two files on different drives raise ValueError exactly on Windows |
| Conversion.RebuildDirTreeMirrors | src/impreproc/conversion.py:219-220 | the common path prefixes every file (so `relative_to` never fails) and is the longest such prefix; each destination is `dest_dir` joined with the parent of the relative path |
| Conversion.RebuildDirTreeSameFolder | src/impreproc/conversion.py:219-220 | files in one folder all get `dest_dir` |
| Conversion.RebuildDirTreeSingle | src/impreproc/conversion.py:219-220 | a single file gets `dest_dir` |
| Conversion.FlatSteps | src/impreproc/conversion.py:96-103 | one outcome per file |
| Conversion.TreeSteps | src/impreproc/conversion.py:106-111 | one outcome per pair |
| Conversion.RawConverter.constructor | src/impreproc/conversion.py:67-71 | the converter keeps its settings |
| Conversion.RawConverter.Convert | src/impreproc/conversion.py:80-112 | without `keep_dir_tree` the files from the cursor on are converted into the output folder; with it, the tree specification; the first exception or False stops the run; the cursor ends as `ConvertFlat` and `ConvertTree` state |
| Conversion.RawConverter.ConvertFlat | src/impreproc/conversion.py:95-103 | the flat loop gives the sequenced flat steps; a finished run leaves the cursor at 0, a stopped one one past the first file that failed |
| Conversion.RawConverter.ConvertFile | src/impreproc/conversion.py:97-103 | `convert_raw` on file k |
| Conversion.RawConverter.ConvertTree | src/impreproc/conversion.py:104-111 | `rebuild_dir_tree` then the zip loop give the tree specification; an unknown system leaves the cursor, a failing `rebuild_dir_tree` leaves it at 0, its iteration having run the list out, a finished zip leaves it at 0 from cursor 0 and at len-cursor+1 otherwise, a stopped zip one past the failing pair |
| Conversion.RawConverter.ZipConvert | src/impreproc/conversion.py:106-111 | the zip loop stops when either side runs out, or at the first failure; finished, the cursor is 0 when the destinations cover every file and one past the last destination otherwise; stopped, one past the failing pair |
| Conversion.RawConverter.TreeFile | src/impreproc/conversion.py:107-111 | the folder creation and `convert_raw` for pair k |
| Conversion.ConvertStops | src/impreproc/conversion.py:95-103 | `convert` stops at the first file that raises or returns False, with its error or RuntimeError, and its actions are those of the files up to and including that one |
| Conversion.ConvertAllTrue | src/impreproc/conversion.py:95-112 | `convert` returns True exactly when every file converts with exit code 0 |

## Left out

- The pyproj transform and CRS numerics are parameters: an uninterpreted map and a
  registry of CRS kinds. Whether pyproj's `Transformer` accepts the keyword
  arguments dji.py passes it is not modelled.
- EXIF decoding, `Image` construction and `latlonalt_from_exif` are not modelled. The
  decoded EXIF of each file is an input, and reading it can fail.
- All cv2 work is left out: image reading, resizing, undistortion,
  `make_previews`, text drawing and `getTextSize`. `overlay_text` is modelled
  only for its colour and rectangle, with the text size as an input.
- The geodesy of `rw5read` is a parameter (`sex2dec`, and the `geo2cart` /
  shift / `cart2geo` chain). Its covariance and DX post-processing is left out.
- Among the `rw5read` detail lines, only `--GS`, `G0` and `G1` store their values
  on the rover record of the model. The other detail lines (`--DT`, `--TM`, `G2`,
  `G3`, `--GT`, `--HSDV:`, `--ERMS`, `--NRMS`, `--VSDV`, `--Fixed Readings`,
  `--Number of Satellites`, `--HDOP`, `--VDOP`, `--PDOP` and `--Depth Measurement
  Quality:`) are dispatched in the source's order and every cast they make can
  raise, but the values they store are left out, because only the covariance
  post-processing reads them.
- A `--HSDV:` line is tested without `len(gps) > 0` in the source. In the model a
  detail line is read only when the rover list is non-empty, which always holds
  while `last == 'GPS'`.
- The following readers and writers are left out, because they are numpy, xlrd or
  xlsxwriter file I/O: `ptsread`, `ptsreadb`, `ptswrite`, `tabulacoordxlsread` and
  `dji2xlsx`. `tabulaxlsread` is modelled from the sheet's rows onwards.
- `DjiCsv.CsvLine`: the float formatting (`:0.8f`, `:0.3f`, `:.4f`) is left out, and
  line values are kept as values. Its own errors go with it. At dji.py:424-441
  a format spec raises TypeError on a None value and ValueError on a str, as the
  line is built. The model writes such a value without error. Where a later field
  is missing, it reports that field's KeyError instead.
- `Transformations.BilinearInterpolate`: the query coordinates are two sequences of
  equal length. numpy also broadcasts a scalar against an array there, and that
  case is not modelled.
- The RawTherapee process is not modelled: its exit code is a function of the
  argument vector. `find_rawtherapee` is an input, and raw_conversion.py is not part
  of this model.
- `Path(output).mkdir(exist_ok=True)` failing for a missing parent is not modelled.
- `Files.MoveTargetVerbatim`: the move into `dir/RAW` is recorded as it is asked for,
  and the run ends without an exception. On a case-sensitive file system, `os.rename`
  into the folder that was never created (only `dir/raw` was) raises
  FileNotFoundError, and `organize` then raises. Likewise, with `inplace=False` a
  sub-folder whose name looks like a listed suffix is recorded as a clean `Copy`.
  `shutil.copy` raises IsADirectoryError on it. Failing file-system calls are left out,
  because the model has no file-system state for them to fail against.
- `Path.resolve` is an input, and paths in conversion are component lists.
- The constructors' folder creation is left out. This covers `RawConverter` and
  `ImageRenamer`.
- The prior-class merge of `ImageRenamer.rename`, and its DataFrame conversion, are
  left out: pandas I/O.
- The `multiprocessing.Pool` branches of renaming.py and main.py are modelled as the
  sequential loop or left out.
- The GUI, the command-line parser (`parse_command_line`), logging, and the driver
  scripts are not modelled. The `-cs` flag's definition is cited only for its
  default.
- `get_geoid_undulation` is an empty stub.
- Integers are unbounded and reals exact. Floating-point rounding and NaN arithmetic
  are not modelled; NaN appears only as an explicit `NaN` value.
- `Text.ParseInt`: Python `int()` also accepts surrounding whitespace,
  underscores and non-ASCII Unicode decimal digits. The model accepts only an
  optional sign followed by ASCII digits.
- `Text.Lower`: maps ASCII letters only. Python's `str.lower()` also maps other
  Unicode letters, and for a few of them changes the length.
- `Text.Upper`: maps ASCII letters only. Python's `str.upper()` also maps other
  Unicode letters, and for some (such as 'ß') changes the length.
- `Text.Words`: splits on ASCII whitespace only. Python's `str.split()` also
  splits on Unicode whitespace.
- `Rw5.LastDigits`: `\d` is taken to match ASCII digits. Python's `re` also
  matches other Unicode decimal digits in a `str` pattern.
- `Paths.Name`: the path is not normalised. `pathlib` drops a trailing `/`, so
  `Path("a/b/").name` is "b" where the model gives "". The modelled code
  takes the names of files, which have no trailing `/`.
- `Conversion.RebuildDirTree`: on Windows, `os.path.commonpath` compares paths
  case-insensitively and raises ValueError for paths on different drives. The model
  raises for different drives, taking a drive to be a path's first component, and
  compares the other components case-sensitively.
- `Projection.ProjectCompletes` and `Transformations.TfProjectCompletes`: pyproj's
  `transform` is taken never to raise, because it is a parameter of the model.
- `Sorting.Sort`: `Path` objects compare by their parts. The model sorts the path
  strings by code point.
- `Images.ProcessResizeLongerSide`: the other side is stated to within half a pixel
  of the ratio, not as its exact rounded value.
- `Renaming.NameKeepsSuffix`: proved only for base names and camera models that hold
  no `/`.
- `Rwutils.DotDecimals`: states only that the row length is kept. The effect on
  parsing is stated by `Rwutils.TabulaDecimalComma`.
- `ExifData.StampLength`: years below 1000 are written zero-padded to four digits.
  This is the model's choice. glibc's `%Y` does not pad, so year 999 gives "999"
  and a shorter stamp there. Only recent CPython versions pad `%Y` themselves.
