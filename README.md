# STAR pipeline core, modelled in Dafny

This project models the data-handling core of the STAR neuroimaging
pipeline. That core covers four steps:

- **Deriving behavioural onsets.** Each of the four task tables (Emotion,
  Guessing, CARIT go/no-go and Working Memory) becomes condition groups of
  onset, duration and amplitude lines. Each group is written to its own
  file; an empty group goes to a `-EMPTY` file instead.
- **Filtering fMRIPrep confounds.** The nine nuisance regressors are written
  out, together with the framewise-displacement outlier positions and the
  DVARS outlier positions above the upper Tukey fence.
- **Naming files in the fetch step.** This covers where a downloaded
  behavioural file is saved and how a scan's series description becomes a
  NIfTI path. It also covers how the phase-encoding direction is read back
  and swapped, and how the scan loop numbers the runs of each description.
- **Handling subject ids at the entry point.** This covers which CBS ids
  are accepted and how a CBS id becomes a BIDS subject id.

Modules:

| file | module | models |
|---|---|---|
| `wrappers.dfy` | `Wrappers` | `Option`, `Result`, and `Outcome` (the files a step wrote before it raised); chaining steps that stop at the first exception |
| `strings.dfy` | `Strings` | the Python `str` operations used: `find`, `in`, `split`, `join`, `replace`, `upper`, `lower`, `endswith`, `str(int)` |
| `seqs.dfy` | `Seqs` | boolean-mask selection, mapping, `dropna` and positional indices over sequences |
| `paths.dfy` | `Paths` | `os.path.join` with two parts, `os.path.basename`, and the subject's `sourcedata` path |
| `behavioral.dfy` | `Behavioral` | `preprocessing/behavioral/__init__.py` |
| `fmriprep.dfy` | `Fmriprep` | `filter_confounds` and the derivative directories of `preprocessing/fmriprep/__init__.py` |
| `fetch.dfy` | `Fetch` | the naming logic and the scan loop of `fetch/__init__.py` |
| `pipeline.dfy` | `Pipeline` | `get_subject_cbs_id` and `get_subject_bids_id` of `run.py`; how the names the fetch step saves line up with the names the onset step reads |

## How the model is built

- **Tables and cells.** A pandas table becomes a sequence of typed rows. A
  cell is an `Option`, and `None` stands for NaN. A comparison with NaN is
  false, and a difference involving NaN is NaN.
- **Inputs.** Reading a file is a parameter: `loaded` maps every readable
  path to its table, and a path outside it is a read failure. For the
  confound step, `glob` is also a parameter: it maps a pattern to the files
  that match it.
- **Outputs.** Writing is modelled as the sequence of files written, each
  with its path and its lines, plus the exception that ended the step, if
  one did. Files written before an exception stay written.
- **Loops.** Where the source builds a list in a loop, the model has a
  method with a loop. Each such method is proved equal to a specification
  function, and the lemmas are stated about that function. This covers:
  - the tuple lists of the Emotion, Guessing and CARIT tasks;
  - the run loops of the Guessing and CARIT tasks;
  - the run counter of `get_scan_data`;
  - the id loop of `get_subject_cbs_id`;
  - the file loop of `filter_confounds`.
- **`np.percentile`.** It is linear interpolation over the sorted values,
  numpy's default method.

## Deviations from the source

- **Syntax errors.** `preprocessing/behavioral/__init__.py:87` and `:89`
  use `=` where `==` is meant. `fetch/__init__.py:229` lacks the colon of
  its `def`. Neither module can be imported as written. The model takes the
  evident reading: the phase tests compare, and `get_fmri_filepath` is the
  function its body describes.
- **Semantic defects** are listed under "## Findings". In each case the
  model has the code as written next to a corrected version, and the rest
  of the model uses the corrected one.
- **Guessing durations are not sign-checked.** `guessing_onsets` computes
  each duration as end minus start and keeps the record unless a value is
  missing (`preprocessing/behavioral/__init__.py:68-75`). A negative
  duration is therefore kept, and so it is in the model
  (`Behavioral.GuessingRecordOf`).
- **Working Memory rows are paired by position.** `wm_onsets` puts the kept
  cue rows and the kept fixation rows side by side with `pd.concat`
  (`preprocessing/behavioral/__init__.py:149-153`) and does not check that
  they are equally many. `pd.concat` pads the shorter frame with NaN, and
  the model does the same (`Behavioral.WmPairing`).
- **Frames built from no tuples.** A group is written to its `-EMPTY` file
  when it is empty but the run's frame has columns: some tuple was built,
  and `dropna` or the group's mask removed it.
  - When no tuple is built at all, `pd.DataFrame.from_records([])` has no
    columns, and naming its columns raises. The model records this as
    `ColumnCountMismatch` for the Emotion, Guessing and CARIT steps.
  - For Working Memory with no kept row in either frame, the model takes
    the reading in which computing the `duration` column with
    `DataFrame.apply` on a frame without rows returns a frame rather than a
    column, so assigning it raises. It records this as `EmptyFrame`. What
    `apply` returns on a frame without rows depends on the pandas version.
- **Exceptions.** The model does not track Python exception types. Each
  error constructor names the condition that ends the step: an
  incompatible direction, an unknown name, a missing column and so on.
  - A bare `raise` outside any `except` block has no exception to
    re-raise, so Python raises `RuntimeError` after the logged message:
    `fetch/__init__.py:114`, `:138` and `:269`,
    `preprocessing/fmriprep/__init__.py:76` and
    `preprocessing/behavioral/__init__.py:93`. The one at
    `fetch/__init__.py:269` is inside a `try`, so that `RuntimeError` is
    logged and raised again at `:273`.
  - A bare `raise` inside an `except` block re-raises the caught exception
    after logging it: `fetch/__init__.py:146` and `:273`, `run.py:138`,
    `preprocessing/behavioral/__init__.py:15` and `:34`, and
    `preprocessing/fmriprep/__init__.py:104`.
- **A `cond` column without strings.** When no row of a Guessing run has a
  `trialCondition`, every `cond` value that `from_records` receives is the
  `NaN` that reading the CSV gives for an empty cell. The column is then a
  float column, and `data['cond'].str` raises `AttributeError` at
  `preprocessing/behavioral/__init__.py:97`. This happens in the first
  phase, `cue`, so the run writes nothing. The model records this as
  `StrAccessor("cond")` (`Behavioral.CondHoldsText`,
  `Behavioral.GuessingRunCases`). It rests on pandas inferring a float
  column from values that are all `NaN`.
- **Missing columns.** `df[params]` with missing columns raises a
  `KeyError`. The model reports the first of the nine regressors that is
  missing.

## Model

| member | source | states |
|---|---|---|
| Behavioral.WriteGroupCases | preprocessing/behavioral/__init__.py:23-30 | a non-empty group whose headers are all columns is written to its path with its lines; a header the frame lacks raises; an empty group goes to the `-EMPTY` path with no lines |
| Behavioral.SaveAllWritesEveryGroup | preprocessing/behavioral/__init__.py:23-34 | when every chosen header is a column, the groups are written in call order, each to its path or its `-EMPTY` path, and nothing raises |
| Behavioral.EmptyPathOfStem | preprocessing/behavioral/__init__.py:29 | for `<p>.txt` with no other `.txt` in it, the empty group goes to `<p>-EMPTY.txt` |
| Behavioral.OnsetHeadersFor | preprocessing/behavioral/__init__.py:17-21 | a file whose base name cannot hold `WM_Run_1` gets the onset headers |
| Behavioral.BlockCueHeadersFor | preprocessing/behavioral/__init__.py:17-21 | a file whose base name starts with `WM_Run_1` gets the block-cue headers |
| Behavioral.BuildEmotionTuples | preprocessing/behavioral/__init__.py:41-44 | the loop yields one tuple for each row with a positive cue start time, in row order |
| Behavioral.EmotionOnsets | preprocessing/behavioral/__init__.py:36-52 | the whole Emotion task equals its specification: read failure, column error, or the two groups saved in turn |
| Behavioral.EmotionRecordSound | preprocessing/behavioral/__init__.py:43-47 | every record comes from a row with a positive cue start time; its onset is that row's trial start, its condition the row's condition, its duration 18 and its amplitude 1 |
| Behavioral.EmotionRecordComplete | preprocessing/behavioral/__init__.py:43-47 | every row with a positive cue start, a condition and a trial start yields its record; only rows with a missing cell are dropped |
| Behavioral.EmotionGroupMembers | preprocessing/behavioral/__init__.py:49-52 | the `shape` and `face` groups each hold exactly the records with that condition; a record with any other condition is in neither |
| Behavioral.EmotionSavesBothGroups | preprocessing/behavioral/__init__.py:49-52 | the two Emotion groups are written in turn, `shape` then `face`, each to its path or its `-EMPTY` path, without raising |
| Behavioral.EmotionOutcomeFiles | preprocessing/behavioral/__init__.py:36-52 | without the file the Emotion step raises a read failure; without any valid cue it raises on naming the columns; otherwise it writes the `shape` then the `face` group and raises nothing |
| Behavioral.EmotionExample | preprocessing/behavioral/__init__.py:36-52 | a `face` row with cue 5 and trial start 10 and a `shape` row with cue 0 write an empty `shape` group to its `-EMPTY` path and the one `face` line (10, 18, 1) |
| Behavioral.BuildGuessingTuples | preprocessing/behavioral/__init__.py:64-73 | the nested row and phase loops yield the three phase tuples of every row, row after row |
| Behavioral.GuessingRunOnsets | preprocessing/behavioral/__init__.py:61-79 | one run equals its specification: read failure, column error, or the `cue`, `guess` and `feedback` groups saved in turn until one raises |
| Behavioral.GuessingOnsets | preprocessing/behavioral/__init__.py:54-79 | the run loop does run 1, then run 2, and stops at the first that raises |
| Behavioral.GuessingTuplesAt | preprocessing/behavioral/__init__.py:65-73 | there are three tuples per row, and tuple `3i+k` is phase `k` (cue, guess, feedback) of row `i`, with onset the phase start and duration end minus start |
| Behavioral.GuessingRecordOf | preprocessing/behavioral/__init__.py:65-76 | a phase with a condition, a start and an end yields its record whatever the sign of end minus start |
| Behavioral.GuessingRecordSound | preprocessing/behavioral/__init__.py:65-76 | every record is one phase of one row, with that phase's start as onset, end minus start as duration and amplitude 1 |
| Behavioral.LabelGroupMembers | preprocessing/behavioral/__init__.py:95-98 | a record is in a label group exactly when it has that phase and its condition contains the label, case-sensitively |
| Behavioral.FeedbackLabelsSeparate | preprocessing/behavioral/__init__.py:90 | each of the four feedback labels contains itself and none of the other three |
| Behavioral.FeedbackLabelsCue | preprocessing/behavioral/__init__.py:88-90 | the `low` feedback labels contain `low` and not `high`, and the `high` ones the reverse |
| Behavioral.FeedbackRecordInOneGroup | preprocessing/behavioral/__init__.py:95-98 | a feedback record whose condition is a feedback label lands in exactly one feedback group, its own |
| Behavioral.UnknownPhaseRaises | preprocessing/behavioral/__init__.py:91-93 | a phase other than cue, guess or feedback raises and writes nothing |
| Behavioral.GuessingRequestHeaders | preprocessing/behavioral/__init__.py:83-96 | every Guessing group file gets the onset headers |
| Behavioral.GuessingSavesPhase | preprocessing/behavioral/__init__.py:81-98 | saving a phase writes its groups, one for `guess` and one per label for `cue` and `feedback`, in label order, without raising; `cue` and `feedback` instead raise the `.str` error, writing nothing, when the `cond` column holds no strings |
| Behavioral.GuessingRunCases | preprocessing/behavioral/__init__.py:60-97 | a run raises a read failure without its file, a column error for an empty table, and the `.str` error, writing nothing, when no row has a trial condition; otherwise it writes all its groups and raises nothing |
| Behavioral.GuessingOutcomeFiles | preprocessing/behavioral/__init__.py:54-97 | the Guessing step raises nothing exactly when both run files are readable and each has a row with a trial condition, and then writes run 1's groups followed by run 2's |
| Behavioral.GetCaritRow | preprocessing/behavioral/__init__.py:100-112 | the loop yields one tuple per row with that response message and that correct answer, in row order |
| Behavioral.CaritRowsMembers | preprocessing/behavioral/__init__.py:100-112 | a tuple is selected exactly when some row matches the accuracy and the trial type and yields it; it carries that accuracy and trial type, and a go tuple has an empty no-go condition |
| Behavioral.BuildCaritTuples | preprocessing/behavioral/__init__.py:123-127 | the four selections are appended in the order correct go, correct no-go, incorrect go, incorrect no-go |
| Behavioral.CaritRunOnsets | preprocessing/behavioral/__init__.py:120-135 | one run, with its columns named, equals its specification |
| Behavioral.CaritOnsets | preprocessing/behavioral/__init__.py:114-135 | the run loop does run 1, then run 2, and stops at the first that raises |
| Behavioral.CaritRecordOrigin | preprocessing/behavioral/__init__.py:123-129 | every record has an accuracy of correct or incorrect and a trial type of go or no-go, comes from a matching row with that onset and outcome, and an empty no-go condition when it is a go record |
| Behavioral.CaritGroupsSeparate | preprocessing/behavioral/__init__.py:137-141 | every file holds only records of its accuracy; go records never land in a no-go file, and no-go records never in the go file |
| Behavioral.CaritAsWrittenWritesNothing | preprocessing/behavioral/__init__.py:129-140 | as written, a readable run raises a `KeyError` on `acc` before writing, so no CARIT file is ever written |
| Behavioral.CaritSavesRun | preprocessing/behavioral/__init__.py:132-141 | the six groups of a run, `<f>_<cond>_<acc>.txt`, get the onset headers and are written in turn |
| Behavioral.CaritRunCases | preprocessing/behavioral/__init__.py:119-135 | a run raises a read failure without its file and a column error when no row is selected; otherwise it writes its six groups |
| Behavioral.CaritOutcomeFiles | preprocessing/behavioral/__init__.py:114-135 | the CARIT step raises nothing exactly when both runs are readable and select some row, and then writes run 1's six groups and run 2's |
| Behavioral.WmStartsFromRows | preprocessing/behavioral/__init__.py:149-150 | a block cue is kept exactly when its row has positive image and cue start times |
| Behavioral.WmPairing | preprocessing/behavioral/__init__.py:149-154 | the side-by-side frame is as long as the longer part; position `i` pairs the `i`-th cue with the `i`-th fixation, with duration fixation minus cue; past either end the cells are missing |
| Behavioral.WmGroupMembers | preprocessing/behavioral/__init__.py:157-161 | a Working Memory group holds exactly the lines of the cues of that category and condition, each at its cue start with amplitude 1 |
| Behavioral.WmTagHeaders | preprocessing/behavioral/__init__.py:17-21 | every Working Memory group file gets the block-cue headers |
| Behavioral.WmSavesAll | preprocessing/behavioral/__init__.py:157-161 | the four groups, for each category `0back` then `2back`, are written in turn without raising |
| Behavioral.WmOutcomeFiles | preprocessing/behavioral/__init__.py:143-161 | the Working Memory step raises a read failure without its file and a frame error when no row is kept; otherwise it writes its four groups |
| Behavioral.WmAsWrittenWritesNothing | preprocessing/behavioral/__init__.py:159 | as written, the Working Memory step never writes a file; a readable, non-empty table raises a `NameError` on `p` |
| Behavioral.WmHeadersAsWritten | preprocessing/behavioral/__init__.py:18 | as spelled, the header test does not recognise a Working Memory file: it gets the onset headers |
| Behavioral.WmGroupAsWrittenRaises | preprocessing/behavioral/__init__.py:17-27 | with that spelling, every non-empty Working Memory group raises a `KeyError` on `onset` |
| Fmriprep.DerivativeDirsShape | preprocessing/fmriprep/__init__.py:8-18 | the four directories are `<study>/derivatives/fmriprep[-work\|-log\|-sbatch]-<version>` |
| Fmriprep.DerivativeDirsDistinct | preprocessing/fmriprep/__init__.py:8-18 | the four directories of one study and version are pairwise different |
| Fmriprep.NinePRows | preprocessing/fmriprep/__init__.py:82-84 | the regressor matrix has one row per table row and the nine columns in fixed order; a missing regressor raises `KeyError` on one of them |
| Fmriprep.NinePRowsIgnoresOtherColumns | preprocessing/fmriprep/__init__.py:82-84 | the matrix depends only on the nine regressor columns, whatever other columns exist |
| Fmriprep.NinePPathOf | preprocessing/fmriprep/__init__.py:84 | the regressors of `<stem>.tsv` go to `<stem>-9p.txt` when the stem holds no `.tsv` of its own (`replace` rewrites every occurrence) |
| Fmriprep.FdOutliersMeaning | preprocessing/fmriprep/__init__.py:87-89 | a row is listed exactly when its displacement is a number above 0.5; the list is ascending; only a missing column raises |
| Fmriprep.FdThresholdIsStrict | preprocessing/fmriprep/__init__.py:87 | a displacement of exactly 0.5 or NaN is not listed, and 0.50001 is |
| Fmriprep.FdPathOf | preprocessing/fmriprep/__init__.py:88 | the FD list of `<p>confounds_regressors.tsv` goes to `<p>fd_outliers_0pt5.txt` when `p` holds no `confounds_regressors.tsv` of its own |
| Fmriprep.Sort | preprocessing/fmriprep/__init__.py:93 | the values in ascending order, as a permutation of the input |
| Fmriprep.PercentileWithin | preprocessing/fmriprep/__init__.py:93 | a percentile lies between the least and the greatest value |
| Fmriprep.PercentileMonotone | preprocessing/fmriprep/__init__.py:93 | a higher percentile is never smaller |
| Fmriprep.QuartilesOfSix | preprocessing/fmriprep/__init__.py:93 | the quartiles of six ascending values interpolate a quarter of the way from the second to the third, and three quarters of the way from the fourth to the fifth |
| Fmriprep.FenceOrdered | preprocessing/fmriprep/__init__.py:94-96 | lower fence <= q25 <= q75 <= upper fence |
| Fmriprep.FenceExample | preprocessing/fmriprep/__init__.py:93-96 | for 1, 2, 3, 4, 5, 100 the quartiles are 2.25 and 4.75, and the fences -1.5 and 8.5 |
| Fmriprep.DvarsOutliersFailure | preprocessing/fmriprep/__init__.py:92-97 | the DVARS list raises exactly when the column is missing or has no row after the first, the latter as an empty percentile |
| Fmriprep.DvarsNaNFlagsNothing | preprocessing/fmriprep/__init__.py:92-97 | a NaN in the sample makes the fence NaN and no row is listed |
| Fmriprep.DvarsOutliersAboveFence | preprocessing/fmriprep/__init__.py:92-99 | without NaN in the sample, a row, the first included, is listed exactly when its value is above the upper fence of the rows after the first; the list is ascending, and every listed value is above q75 |
| Fmriprep.DvarsExample | preprocessing/fmriprep/__init__.py:92-99 | DVARS of NaN, 1, 2, 3, 4, 5, 100 flags only the last row |
| Fmriprep.DvarsPathOf | preprocessing/fmriprep/__init__.py:98 | the DVARS list of `<p>confounds_regressors.tsv` goes to `<p>dvars_outliers.txt` when `p` holds no `confounds_regressors.tsv` of its own |
| Fmriprep.ConfoundOutputsDistinct | preprocessing/fmriprep/__init__.py:84-98 | the three outputs of `<p>confounds_regressors.tsv` are three different files, none of them the input, when `p` holds no `.tsv` |
| Fmriprep.FmriprepDirWithoutTsv | preprocessing/fmriprep/__init__.py:8-9 | the fMRIPrep directory holds no `.tsv` when neither the study directory nor the version does, so a dotted version such as `20.2.1` is allowed |
| Fmriprep.ConfoundPathsUnderVersion | preprocessing/fmriprep/__init__.py:67-98 | for a confound file under the fMRIPrep directory of any version without `.tsv`, the regressors, FD list and DVARS list go to `-9p.txt`, `fd_outliers_0pt5.txt` and `dvars_outliers.txt` beside it, and the four paths differ |
| Fmriprep.ConfoundFileSucceeds | preprocessing/fmriprep/__init__.py:79-99 | a confound file raises nothing exactly when it has the nine regressors, the displacement and a dvars column with a second row |
| Fmriprep.ConfoundFileWritesInOrder | preprocessing/fmriprep/__init__.py:79-99 | the files written are a prefix of regressors, FD list and DVARS list, all three when nothing raises |
| Fmriprep.ConfoundFileRegressorsFirst | preprocessing/fmriprep/__init__.py:84-87 | the regressors are written as soon as the nine columns are there, even when a later column is missing |
| Fmriprep.FilterConfounds | preprocessing/fmriprep/__init__.py:67-104 | an empty glob raises with no outputs; otherwise the files are handled in glob order and the loop stops at the first that raises |
| Fmriprep.ConfoundsOutcomeError | preprocessing/fmriprep/__init__.py:78-104 | the subject's run raises exactly when some file raises, and with the error of the first such file |
| Fmriprep.ConfoundsOutcomeWritesAll | preprocessing/fmriprep/__init__.py:78-99 | when no file raises, every file's outputs are written, in glob order |
| Fetch.GetOppDirection | fetch/__init__.py:127-138 | it succeeds exactly on ap, pa, AP and PA, giving another of the four; anything else raises |
| Fetch.OppDirectionInvolution | fetch/__init__.py:127-138 | swapping twice gives the direction back |
| Fetch.OppDirectionKeepsCase | fetch/__init__.py:127-138 | the swap keeps the case of the direction |
| Fetch.ConvertBasenameBehavioral | fetch/__init__.py:98-114 | it succeeds exactly when the upper-cased name is in the table, and then gives one of the table's values; an unknown name raises |
| Fetch.ReferenceEntries | fetch/__init__.py:99-106 | the six entries of the conversion table |
| Fetch.BehavioralNames | fetch/__init__.py:99-106 | the six names a behavioural file can be saved under |
| Fetch.ConvertIgnoresCase | fetch/__init__.py:107-110 | names that upper-case alike convert alike |
| Fetch.ConvertLowerCase | fetch/__init__.py:107-110 | every table name converts in upper and in lower case |
| Fetch.UriBasename | fetch/__init__.py:88 | the text after the last `files/` of the URI, or the whole URI when it has none |
| Fetch.GetFileName | fetch/__init__.py:87-96 | other file types keep their name under the source path; a behavioural file succeeds exactly when its name is in the table |
| Fetch.BehavioralFileName | fetch/__init__.py:87-96 | a behavioural file is saved as `<source>/behavioral_files/<converted name>`, whose base name is one of the six table values |
| Fetch.GetNiiPath | fetch/__init__.py:239-273 | which descriptions convert (fMRI with enough fields, or dMRI), and that any other prefix raises an incompatible type |
| Fetch.FmriNiiPath | fetch/__init__.py:243-254 | an fMRI path is the one of the task field (third from last before `sbref`, else second from last), the direction field (the one before `sbref`, else the last), all lower-cased, and the scan type `sbref` when the last field is `sbref` in any case, `bold` otherwise |
| Fetch.DmriNiiPath | fetch/__init__.py:256-265 | a path for a series that is not fMRI is the dMRI one of the direction field and the scan type `sbref` when the last field is `sbref` in any case, `dwi` otherwise |
| Fetch.DescribedClean | fetch/__init__.py:247-262 | the task and direction fields hold no `_`, nor `/` when the description holds none |
| Fetch.FmriNameFields | fetch/__init__.py:229-231 | an fMRI name built from parts without `_` splits on `_` into the subject, `task-<t>`, `dir-<d>`, `run-<r>` and `<st>.nii.gz` |
| Fetch.DmriNameFields | fetch/__init__.py:234-236 | a dMRI name built from parts without `_` splits on `_` into the subject, `dir-<d>`, `run-<r>` and `<st>.nii.gz` |
| Fetch.NiiPathFieldsFmri | fetch/__init__.py:229-254 | the base name of the fMRI path splits on `_` into the subject, `task-` and the described task, `dir-` and the described direction, `run-` and the run, and `sbref.nii.gz` or `bold.nii.gz` |
| Fetch.NiiPathFieldsDmri | fetch/__init__.py:234-265 | the base name of the dMRI path splits on `_` into the subject, `dir-` and the described direction, `run-` and the run, and `sbref.nii.gz` or `dwi.nii.gz` |
| Fetch.NiiPathFolderFmri | fetch/__init__.py:243-254 | every fMRI path lies in `<study>/<sub>/func` |
| Fetch.NiiPathFolderDmri | fetch/__init__.py:256-265 | every dMRI path lies in `<study>/<sub>/dwi` |
| Fetch.FmriFolder | fetch/__init__.py:229-232 | the fMRI file name is placed in the subject's `func` folder |
| Fetch.DmriFolder | fetch/__init__.py:234-237 | the dMRI file name is placed in the subject's `dwi` folder |
| Fetch.GetDirection | fetch/__init__.py:140-146 | it raises exactly when the base name holds no `_dir-`; otherwise it gives the text of the base name that starts right after its first `_dir-` and runs up to the next `_` or to the end, so it holds no `_` |
| Fetch.FmriDirectionRoundTrip | fetch/__init__.py:229-232 | the direction written into an fMRI name is the one `get_direction` reads back |
| Fetch.DmriDirectionRoundTrip | fetch/__init__.py:234-237 | the direction written into a dMRI name is the one `get_direction` reads back |
| Fetch.NiiPathDirection | fetch/__init__.py:239-273 | the path built for a description carries the direction the description names, and `get_direction` reads exactly that back |
| Fetch.RunOf | fetch/__init__.py:121-123 | a run number is at least 1 |
| Fetch.GetScanData | fetch/__init__.py:116-125 | the counter loop handles the rows in order, with each row's run being how many rows up to it share its description, and stops at the first that raises |
| Fetch.RunsCountUp | fetch/__init__.py:117-123 | for each description, the runs of its rows are 1, 2, 3, and so on in row order, as many as the rows |
| Fetch.ScanDataJobs | fetch/__init__.py:119-124 | when every row converts, each row yields one conversion, in order, with its run and its path |
| Fetch.ScanDataError | fetch/__init__.py:119-124 | the loop raises exactly when some row does not convert, and with the error of the first such row |
| Fetch.FirstRun | fetch/__init__.py:117-123 | the first row of the table is always run 1 |
| Fetch.ScanDataAsWrittenStops | fetch/__init__.py:119-125 | as written, an empty table does nothing, and otherwise the loop ends after the first row: its conversion as run 1, then the `NameError` of `save_fmap`, or the conversion's own error |
| Fetch.ScanDataAsWrittenLosesRows | fetch/__init__.py:3-10 | on two or more rows that all convert, the loop as written requests one conversion and raises `NameError`, while the intended loop requests one per row |
| Paths.SourcePathShape | fetch/__init__.py:275-276 | the source path is `<study>/sourcedata/<sub>`, and its base name is the subject |
| Pipeline.KeepCbsId | run.py:93-105 | an id without `_` raises an `IndexError`; otherwise it is kept exactly when it is a STAR id with four fields |
| Pipeline.GetSubjectCbsId | run.py:89-106 | the loop equals the selection of the ids in order |
| Pipeline.CbsIdsFailure | run.py:92-98 | the selection raises exactly when some id holds no `_`, and with the first such id |
| Pipeline.CbsIdsKept | run.py:98-105 | the ids kept are exactly the STAR ids with four fields, in input order |
| Pipeline.CbsIdsSubsequence | run.py:90-105 | the selection is an order-preserving subsequence of the input, holding exactly its STAR ids |
| Pipeline.StarIdWithoutNumber | run.py:101-104 | a three-field STAR id raises a `NameError` as written, and is skipped by the corrected selection |
| Pipeline.GetSubjectBidsId | run.py:131-138 | it succeeds exactly when the id has at least four fields; otherwise it raises an `IndexError` |
| Pipeline.KeptIdsConvert | run.py:131-138 | every kept id converts, to `sub-` followed by its third and fourth fields |
| Pipeline.CbsIdRoundTrip | run.py:133-134 | an id built from parts without `_` is accepted and converts to `sub-<bids><num>` |
| Pipeline.FetchedInBehavioralDir | fetch/__init__.py:87-96 | a fetched behavioural file is saved in the subject's behavioural directory under its converted name |
| Pipeline.FetchedEmotionAndWm | fetch/__init__.py:99-106 | the Emotion and Working Memory files the fetch step saves are the files their onset tasks read |
| Pipeline.FetchedGuessingRuns | preprocessing/behavioral/__init__.py:56-62 | the two Guessing files the fetch step saves are the run files the Guessing task reads |
| Pipeline.FetchedCaritRuns | preprocessing/behavioral/__init__.py:116-121 | the two CARIT files the fetch step saves are the run files the CARIT task reads |
| Pipeline.EmotionAsWrittenNotAName | preprocessing/behavioral/__init__.py:38 | `EMOTION_RUN_1` is none of the six names the fetch step saves under |
| Pipeline.EmotionAsWrittenNeverFetched | preprocessing/behavioral/__init__.py:38 | no fetched file has the Emotion path as the onset step spells it |

## Left out

- Network access to the imaging repository is not modelled, because it is I/O. This covers `yaxil` sessions, downloads, `get_scan_metadata`, `save_scan_metadata`, `get_behavioral_data` of the fetch step and `save_behavioral_data`. The scan loop returns the conversions it would request instead of downloading.
- Foreign tools are not modelled: `convert_dcm_to_nii` (Dcm2niix), `save_fmap` (ExtractROI) and `util/__init__.py`. The scan loop calls `save_fmap` after each conversion. As written that call raises `NameError` because `glob` is never imported; see "## Findings" (`Fetch.ScanDataAsWrittenStops`). The corrected loop (`Fetch.GetScanData`) leaves the call out, as if it always succeeded.
- JSON sidecars (`get_phase_encoding_direction`, `save_phase_encoding_direction`) are file I/O and are not modelled.
- The job plumbing is not modelled. This covers `get_singularity_command` and `run_sbatch` of both preprocessing modules, and `preprocessing/xcpengine/__init__.py` entirely. They are shell command templates, file writes and `os.path.exists` checks.
- `run.py`'s `main`, the other argument checks (`get_study_dir`, `get_container_dir`, `get_fmriprep_ver`, `get_xcpengine_ver`), logging, `download`, `run_fmriprep`, `process_fmriprep_confounds`, `process_onsets` and `run_xcpengine` are orchestration and are not modelled.
- CSV parsing and formatting, and `glob`, are not modelled; they are parameters. Output files carry their lines, not their text.
- Missing input columns: the four behavioural input tables (`EmotionRow`, `GuessingRow`, `CaritRow` and `WmRow`) and the scan metadata rows (`ScanRow`) are typed rows, so every column a task reads from its input is present. The `KeyError` that an input file without such a column raises is not modelled, for instance `b['cueStartTime']` at preprocessing/behavioral/__init__.py:43 or `row[p + 'StartTime']` at :68. The columns of the frames built from tuples, the headers `save_onsets` selects and the confound table's columns are modelled by name, and a missing one raises `KeyError` in the model.
- Behavioral.WmOutcome: a Working Memory run with no kept row in either frame raises `EmptyFrame`. Pandas versions whose `DataFrame.apply` returns an empty column there would instead write the four groups to `-EMPTY` files; that behaviour is not modelled.
- Behavioral.Line: the amplitude strings `'18'` and `'1'` of the Emotion and CARIT tuples are modelled as the numbers they print as.
- Fmriprep.Percentile: numbers are exact reals. Floating-point rounding and `float()` conversion are not modelled. NaN is modelled only as a missing cell that makes the fence NaN.
- Fmriprep.FdOutliersMeaning: the `index` column that `reset_index` adds is modelled as the 0-based row position it holds.
- Strings.Upper / Strings.Lower: case mapping covers ASCII letters only.

## Findings

| source | as written | input that shows it | evidently intended | confidence | as-written member | corrected member |
|---|---|---|---|---|---|---|
| preprocessing/behavioral/__init__.py:18 | tests `'WM_RUN_1' in basename`, but the file is stored as `WM_Run_1` (line 145) | any non-empty Working Memory group, e.g. `<dir>/WM_Run_1_0back_faces.txt` | recognise `WM_Run_1` so the block-cue headers are used | not executed | Behavioral.WmGroupAsWrittenRaises | Behavioral.WmTagHeaders |
| preprocessing/behavioral/__init__.py:130 | assigns the names to `data.colums`, so the columns keep their positions as labels and `data['acc']` raises | any readable CARIT run file | name the columns, `data.columns` | not executed | Behavioral.CaritAsWrittenWritesNothing | Behavioral.CaritOutcomeFiles |
| preprocessing/behavioral/__init__.py:159 | builds the output name from the undefined `p` | any readable Working Memory file with a kept row | the category `c` of the loop | not executed | Behavioral.WmAsWrittenWritesNothing | Behavioral.WmOutcomeFiles |
| run.py:102 | the message interpolates the undefined `YYMMDD`, so a STAR id of the wrong length raises instead of being skipped | `["200101_STAR_001"]` | log the invalid id and skip it | not executed | Pipeline.StarIdWithoutNumber | Pipeline.CbsIdsKept |
| fetch/__init__.py:179 | `save_fmap` calls `glob.glob`, but the module never imports `glob` (lines 3-10), so the call at line 125 raises `NameError` after the first row is converted | a scan metadata table of two fMRI rows that both convert | import `glob`, so every row of the table is converted | not executed | Fetch.ScanDataAsWrittenLosesRows | Fetch.ScanDataJobs |
| preprocessing/behavioral/__init__.py:38 | reads `EMOTION_RUN_1`, while the fetch step saves `EMOTION_Run_1` (fetch/__init__.py:102) | any subject whose Emotion file was fetched, on a case-sensitive file system | read `EMOTION_Run_1` | not executed | Pipeline.EmotionAsWrittenNeverFetched | Pipeline.FetchedEmotionAndWm |
