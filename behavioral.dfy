/** Behavioural onset extraction. For each task (Emotion, Guessing, CARIT
    go/no-go, Working Memory) a per-run event table is turned into condition
    groups of (onset, duration, amplitude) lines, and each group is written to
    its own file; an empty group goes to a `-EMPTY` file instead.

    An event table is a sequence of typed rows whose cells are `Option`s
    (`None` is an empty cell, which pandas reads as NaN). Reading the CSV
    files is a parameter: `loaded` maps every path that can be read to its
    table, and a path outside it is a read failure. */
module Behavioral {
  import opened Wrappers
  import opened Strings
  import opened Seqs
  import opened Paths

  /** A numeric cell; `None` is NaN. */
  type Num = Option<real>

  /** A text cell; `None` is NaN. */
  type Text = Option<string>

  /** pandas `cell > 0`: NaN compares false. */
  predicate Positive(x: Num) {
    x.Some? && x.value > 0.0
  }

  /** pandas `end - start` on two cells: NaN when either is NaN. */
  function Minus(end: Num, start: Num): Num {
    if end.Some? && start.Some? then Some(end.value - start.value) else None
  }

  // =====================================================================
  // The onset writer

  /** One line of an onset file: its three columns. The first column is the
      onset, or for the working-memory files the block cue start time; only a
      working-memory duration can be missing (it is then written empty). */
  datatype Line = Line(onset: real, duration: Num, amplitude: real)

  /** A file written by the onset writer: its path and its lines. */
  datatype FileWrite = FileWrite(path: string, lines: seq<Line>)

  datatype Error =
    | LoadFailure(path: string)   // the behavioural file could not be read
    | ColumnCountMismatch         // naming the columns of a frame built from no tuples
    | EmptyFrame                  // computing a per-row column of an empty frame
    | KeyError(column: string)    // selecting a column the frame does not have
    | UnknownPhase(phase: string) // a Guessing phase with no condition labels
    | NameError(name: string)     // a name the source never defines
    | StrAccessor(column: string) // `.str` on a column that holds no strings

  /** The files a task writes and the exception that ends it, if any. */
  type TaskOutcome = Outcome<FileWrite, Error>

  const OnsetHeaders: seq<string> := ["onset", "duration", "amplitude"]
  const BlockCueHeaders: seq<string> := ["blockCueStartTime", "duration", "amplitude"]

  /** The columns an onset file is cut to: the block cue start time leads the
      working-memory files, recognised by `WM_Run_1` in their base name, and
      the onset leads every other file. */
  function GetOutputHeaders(outputPath: string): (r: seq<string>)
    ensures r == BlockCueHeaders <==> Contains(Basename(outputPath), "WM_Run_1")
    ensures r != BlockCueHeaders ==> r == OnsetHeaders
  {
    if Contains(Basename(outputPath), "WM_Run_1") then BlockCueHeaders else OnsetHeaders
  }

  /** The same test as the source spells it, on `WM_RUN_1`, which no
      working-memory file name contains. */
  function GetOutputHeadersAsWritten(outputPath: string): (r: seq<string>)
    ensures r == BlockCueHeaders <==> Contains(Basename(outputPath), "WM_RUN_1")
    ensures r != BlockCueHeaders ==> r == OnsetHeaders
  {
    if Contains(Basename(outputPath), "WM_RUN_1") then BlockCueHeaders else OnsetHeaders
  }

  /** Where an empty group is written: every `.txt` becomes `-EMPTY.txt`. */
  function EmptyPath(outputPath: string): string {
    ReplaceAll(outputPath, ".txt", "-EMPTY.txt")
  }

  /** `save_onsets` with the header choice made: a non-empty group is cut to
      `headers`, each of which must be a column of the frame, and written to
      `outputPath`; an empty group is written, with no lines, to the `-EMPTY`
      path. */
  function WriteGroup(outputPath: string, headers: seq<string>, columns: set<string>,
                      lines: seq<Line>): Result<FileWrite, Error>
  {
    if |lines| > 0 then
      match FirstMissing(headers, columns)
      case Some(h) => Failure(KeyError(h))
      case None => Success(FileWrite(outputPath, lines))
    else
      Success(FileWrite(EmptyPath(outputPath), []))
  }

  /** `save_onsets(output_path, subset)` on a frame with the given columns. */
  function SaveOnsets(outputPath: string, columns: set<string>, lines: seq<Line>): Result<FileWrite, Error> {
    WriteGroup(outputPath, GetOutputHeaders(outputPath), columns, lines)
  }

  /** One call of `save_onsets`: the path and the group's lines. */
  datatype Request = Request(path: string, lines: seq<Line>)

  /** The calls of `save_onsets` a task makes, in order, stopping at the first
      that raises. */
  function SaveAll(columns: set<string>, requests: seq<Request>): TaskOutcome
    decreases |requests|
  {
    if requests == [] then Outcome([], None)
    else
      match SaveOnsets(requests[0].path, columns, requests[0].lines)
      case Failure(e) => Outcome([], Some(e))
      case Success(w) => Then(Outcome([w], None), SaveAll(columns, requests[1..]))
  }

  /** The file a request produces when its headers are columns of the frame. */
  function Expected(r: Request): FileWrite {
    if |r.lines| > 0 then FileWrite(r.path, r.lines) else FileWrite(EmptyPath(r.path), [])
  }

  /** The headers chosen for every request are columns of the frame. */
  predicate HeadersPresent(columns: set<string>, requests: seq<Request>) {
    forall k :: 0 <= k < |requests| ==>
      forall h :: h in GetOutputHeaders(requests[k].path) ==> h in columns
  }

  /** When every chosen header is a column, each group is written in turn: a
      non-empty group to its path, an empty one to its `-EMPTY` path, and
      nothing raises. */
  lemma {:induction false} SaveAllWritesEveryGroup(columns: set<string>, requests: seq<Request>)
    requires HeadersPresent(columns, requests)
    ensures SaveAll(columns, requests) == Outcome(Map(Expected, requests), None)
    decreases |requests|
  {
    if requests != [] {
      assert HeadersPresent(columns, requests[1..]) by {
        forall k | 0 <= k < |requests[1..]|
          ensures forall h :: h in GetOutputHeaders(requests[1..][k].path) ==> h in columns
        {
          assert requests[1..][k] == requests[k + 1];
        }
      }
      SaveAllWritesEveryGroup(columns, requests[1..]);
      assert Map(Expected, requests) == [Expected(requests[0])] + Map(Expected, requests[1..]);
    }
  }

  /** A non-empty group is written to its path with exactly its lines, cut to
      the chosen headers; an empty group goes to the `-EMPTY` path; a header
      the frame lacks raises before anything is written. */
  lemma WriteGroupCases(outputPath: string, headers: seq<string>, columns: set<string>, lines: seq<Line>)
    ensures |lines| > 0 && (forall h :: h in headers ==> h in columns) ==>
      WriteGroup(outputPath, headers, columns, lines) == Success(FileWrite(outputPath, lines))
    ensures |lines| > 0 && (exists h :: h in headers && h !in columns) ==>
      WriteGroup(outputPath, headers, columns, lines).Failure?
    ensures |lines| == 0 ==>
      WriteGroup(outputPath, headers, columns, lines) == Success(FileWrite(EmptyPath(outputPath), []))
  {
  }

  /** For an output path `p + ".txt"` whose stem holds no other `.txt`, the
      empty group goes to `p + "-EMPTY.txt"`. */
  lemma EmptyPathOfStem(p: string)
    requires !Contains(p, ".txt")
    ensures EmptyPath(p + ".txt") == p + "-EMPTY.txt"
  {
    assert ".txt"[1..] == "txt";
    ReplaceOnlySuffix(p, ".txt", "-EMPTY.txt");
  }

  /** A file name whose base name cannot hold `WM_Run_1` gets the onset headers. */
  lemma OnsetHeadersFor(dir: string, name: string, suffix: string)
    requires '/' !in name && '/' !in suffix
    requires |name + suffix| < 8 || 'W' !in (name + suffix)[..|name + suffix| - 7]
    ensures GetOutputHeaders(PathJoin(dir, name) + suffix) == OnsetHeaders
  {
    BasenameOfJoin(dir, name, suffix);
    NotContainedByFirstChar(name + suffix, "WM_Run_1");
  }

  /** The same, when the name holds no `W` and the suffix can hold one only
      in its last seven characters. */
  lemma OnsetHeadersForSuffix(dir: string, name: string, suffix: string)
    requires '/' !in name && '/' !in suffix && 'W' !in name
    requires |suffix| >= 7 && 'W' !in suffix[..|suffix| - 7]
    ensures GetOutputHeaders(PathJoin(dir, name) + suffix) == OnsetHeaders
  {
    var s := name + suffix;
    assert s[..|s| - 7] == name + suffix[..|suffix| - 7];
    OnsetHeadersFor(dir, name, suffix);
  }

  /** A file name whose base name starts with `WM_Run_1` gets the block-cue headers. */
  lemma BlockCueHeadersFor(dir: string, name: string, suffix: string)
    requires '/' !in name && '/' !in suffix
    requires |name + suffix| >= 8 && (name + suffix)[..8] == "WM_Run_1"
    ensures GetOutputHeaders(PathJoin(dir, name) + suffix) == BlockCueHeaders
  {
    BasenameOfJoin(dir, name, suffix);
    ContainsAt(name + suffix, "WM_Run_1", 0);
  }

  /** The directory every behavioural file of a subject lives in. */
  function BehavioralDir(studyDir: string, subjectBidsId: string): string {
    PathJoin(GetSourcePath(studyDir, subjectBidsId), "behavioral_files")
  }

  // =====================================================================
  // Emotion

  datatype EmotionRow = EmotionRow(cueStartTime: Num, trialStartTime: Num, trialCondition: Text)

  /** The tuple appended for a row: condition, onset, the fixed duration 18
      and the amplitude 1. */
  datatype EmotionTuple = EmotionTuple(cond: Text, onset: Num, duration: real, amplitude: real)

  /** A tuple that survived `dropna`. */
  datatype EmotionRecord = EmotionRecord(cond: string, onset: real, duration: real, amplitude: real)

  const EmotionColumns: set<string> := {"cond", "onset", "duration", "amplitude"}
  const EmotionConditions: seq<string> := ["shape", "face"]

  /** A trial counts when its cue start time is positive. */
  predicate EmotionCueValid(row: EmotionRow) {
    Positive(row.cueStartTime)
  }

  function EmotionTupleOf(row: EmotionRow): EmotionTuple {
    EmotionTuple(row.trialCondition, row.trialStartTime, 18.0, 1.0)
  }

  /** The tuples of the rows with a valid cue, in row order. */
  function EmotionTuples(rows: seq<EmotionRow>): seq<EmotionTuple> {
    Map(EmotionTupleOf, Filter(EmotionCueValid, rows))
  }

  /** The loop of `emotion_onsets` that appends one tuple per valid row. */
  method BuildEmotionTuples(rows: seq<EmotionRow>) returns (data: seq<EmotionTuple>)
    ensures data == EmotionTuples(rows)
  {
    data := [];
    for i := 0 to |rows|
      invariant data == EmotionTuples(rows[..i])
    {
      assert rows[..i + 1] == rows[..i] + [rows[i]];
      FilterConcat(EmotionCueValid, rows[..i], [rows[i]]);
      MapConcat(EmotionTupleOf, Filter(EmotionCueValid, rows[..i]), Filter(EmotionCueValid, [rows[i]]));
      if EmotionCueValid(rows[i]) {
        data := data + [EmotionTupleOf(rows[i])];
      }
    }
    assert rows[..|rows|] == rows;
  }

  /** `dropna` on one tuple. */
  function EmotionComplete(t: EmotionTuple): Option<EmotionRecord> {
    if t.cond.Some? && t.onset.Some? then Some(EmotionRecord(t.cond.value, t.onset.value, t.duration, t.amplitude))
    else None
  }

  /** The frame of records, or the error of naming the columns of a frame
      built from no tuples at all. */
  function EmotionData(rows: seq<EmotionRow>): Result<seq<EmotionRecord>, Error> {
    var tuples := EmotionTuples(rows);
    if |tuples| == 0 then Failure(ColumnCountMismatch) else Success(FilterMap(EmotionComplete, tuples))
  }

  function EmotionLine(r: EmotionRecord): Line {
    Line(r.onset, Some(r.duration), r.amplitude)
  }

  /** The records whose condition equals `cond`. */
  function EmotionGroup(data: seq<EmotionRecord>, cond: string): seq<EmotionRecord> {
    Filter((r: EmotionRecord) => r.cond == cond, data)
  }

  function EmotionRequest(file: string, data: seq<EmotionRecord>, cond: string): Request {
    Request(file + ("_" + cond + ".txt"), Map(EmotionLine, EmotionGroup(data, cond)))
  }

  /** The Emotion file of a subject. The source reads `EMOTION_RUN_1`; the
      fetch step stores the file as `EMOTION_Run_1`, and this is the name used. */
  function EmotionFile(studyDir: string, subjectBidsId: string): string {
    PathJoin(BehavioralDir(studyDir, subjectBidsId), "EMOTION_Run_1")
  }

  /** The file name as the source spells it. */
  function EmotionFileAsWritten(studyDir: string, subjectBidsId: string): string {
    PathJoin(BehavioralDir(studyDir, subjectBidsId), "EMOTION_RUN_1")
  }

  /** `emotion_onsets` on the table `loaded` holds for the Emotion file. */
  function EmotionOutcome(studyDir: string, subjectBidsId: string, loaded: map<string, seq<EmotionRow>>): TaskOutcome {
    var file := EmotionFile(studyDir, subjectBidsId);
    if file !in loaded then Outcome([], Some(LoadFailure(file)))
    else
      match EmotionData(loaded[file])
      case Failure(e) => Outcome([], Some(e))
      case Success(data) =>
        SaveAll(EmotionColumns, [EmotionRequest(file, data, "shape"), EmotionRequest(file, data, "face")])
  }

  /** `emotion_onsets(study_dir, subject_bids_id)`. */
  method EmotionOnsets(studyDir: string, subjectBidsId: string, loaded: map<string, seq<EmotionRow>>)
    returns (out: TaskOutcome)
    ensures out == EmotionOutcome(studyDir, subjectBidsId, loaded)
  {
    var file := EmotionFile(studyDir, subjectBidsId);
    if file !in loaded {
      return Outcome([], Some(LoadFailure(file)));
    }
    var tuples := BuildEmotionTuples(loaded[file]);
    if |tuples| == 0 {
      return Outcome([], Some(ColumnCountMismatch));
    }
    var data := FilterMap(EmotionComplete, tuples);
    out := SaveAll(EmotionColumns, [EmotionRequest(file, data, "shape"), EmotionRequest(file, data, "face")]);
  }

  // ---------------------------------------------------------------------
  // Emotion properties

  /** Every record comes from a row with a positive cue start time: its onset
      is that row's trial start time, its condition the row's condition, its
      duration 18 and its amplitude 1. */
  lemma EmotionRecordSound(rows: seq<EmotionRow>, r: EmotionRecord)
    requires EmotionData(rows).Success? && r in EmotionData(rows).value
    ensures exists row :: (row in rows && Positive(row.cueStartTime)
      && row.trialStartTime == Some(r.onset) && row.trialCondition == Some(r.cond))
    ensures r.duration == 18.0 && r.amplitude == 1.0
  {
    var t :| t in EmotionTuples(rows) && EmotionComplete(t) == Some(r);
    var kept := Filter(EmotionCueValid, rows);
    var i :| 0 <= i < |kept| && EmotionTupleOf(kept[i]) == t;
    assert kept[i] in kept;
  }

  /** Conversely, every row with a positive cue start time and both a condition
      and a trial start time yields a record. */
  lemma EmotionRecordComplete(rows: seq<EmotionRow>, row: EmotionRow)
    requires row in rows && Positive(row.cueStartTime)
    requires row.trialCondition.Some? && row.trialStartTime.Some?
    ensures EmotionData(rows).Success?
    ensures EmotionRecord(row.trialCondition.value, row.trialStartTime.value, 18.0, 1.0) in EmotionData(rows).value
  {
    var kept := Filter(EmotionCueValid, rows);
    assert row in kept;
    var i :| 0 <= i < |kept| && kept[i] == row;
    var t := EmotionTupleOf(row);
    assert EmotionTuples(rows)[i] == t;
    assert t in EmotionTuples(rows);
    assert EmotionComplete(t) == Some(EmotionRecord(row.trialCondition.value, row.trialStartTime.value, 18.0, 1.0));
  }

  /** The `shape` and `face` groups each hold exactly the records with that
      condition; a record with any other condition is in neither. */
  lemma EmotionGroupMembers(data: seq<EmotionRecord>, r: EmotionRecord)
    ensures r in EmotionGroup(data, "shape") <==> r in data && r.cond == "shape"
    ensures r in EmotionGroup(data, "face") <==> r in data && r.cond == "face"
    ensures r.cond !in EmotionConditions ==> r !in EmotionGroup(data, "shape") && r !in EmotionGroup(data, "face")
  {
  }

  /** Requests whose paths all get the onset headers, on a frame that has
      those columns, are all written and nothing raises. */
  lemma SaveAllOnsetRequests(columns: set<string>, requests: seq<Request>)
    requires forall h :: h in OnsetHeaders ==> h in columns
    requires forall k :: 0 <= k < |requests| ==> GetOutputHeaders(requests[k].path) == OnsetHeaders
    ensures SaveAll(columns, requests) == Outcome(Map(Expected, requests), None)
  {
    SaveAllWritesEveryGroup(columns, requests);
  }

  /** Requests whose paths all get the block-cue headers, on a frame that has
      those columns, are all written and nothing raises. */
  lemma SaveAllBlockCueRequests(columns: set<string>, requests: seq<Request>)
    requires forall h :: h in BlockCueHeaders ==> h in columns
    requires forall k :: 0 <= k < |requests| ==> GetOutputHeaders(requests[k].path) == BlockCueHeaders
    ensures SaveAll(columns, requests) == Outcome(Map(Expected, requests), None)
  {
    SaveAllWritesEveryGroup(columns, requests);
  }

  /** The path of an Emotion group, `<file>_<cond>.txt`, gets the onset headers. */
  lemma EmotionGroupHeaders(dir: string, data: seq<EmotionRecord>, cond: string)
    requires cond in EmotionConditions
    ensures GetOutputHeaders(EmotionRequest(PathJoin(dir, "EMOTION_Run_1"), data, cond).path) == OnsetHeaders
  {
    OnsetHeadersFor(dir, "EMOTION_Run_1", "_" + cond + ".txt");
  }

  /** Both Emotion groups get the onset headers, which the frame has, so each
      is written in turn and nothing raises. */
  lemma EmotionSavesBothGroups(dir: string, data: seq<EmotionRecord>)
    ensures var file := PathJoin(dir, "EMOTION_Run_1");
      SaveAll(EmotionColumns, [EmotionRequest(file, data, "shape"), EmotionRequest(file, data, "face")])
        == Outcome([Expected(EmotionRequest(file, data, "shape")), Expected(EmotionRequest(file, data, "face"))], None)
  {
    var file := PathJoin(dir, "EMOTION_Run_1");
    var reqs := [EmotionRequest(file, data, "shape"), EmotionRequest(file, data, "face")];
    EmotionGroupHeaders(dir, data, "shape");
    EmotionGroupHeaders(dir, data, "face");
    SaveAllOnsetRequests(EmotionColumns, reqs);
    assert Map(Expected, reqs) == [Expected(reqs[0]), Expected(reqs[1])];
  }

  /** The Emotion outputs: without the file the Emotion step raises a read failure,
      without any valid cue it raises on naming the columns, and otherwise it
      writes the `shape` group and then the `face` group, each to its path or,
      when empty, to its `-EMPTY` path, and raises nothing. */
  lemma EmotionOutcomeFiles(studyDir: string, subjectBidsId: string, loaded: map<string, seq<EmotionRow>>)
    ensures var file := EmotionFile(studyDir, subjectBidsId);
      var out := EmotionOutcome(studyDir, subjectBidsId, loaded);
      && (file !in loaded ==> out == Outcome([], Some(LoadFailure(file))))
      && (file in loaded && EmotionTuples(loaded[file]) == [] ==> out == Outcome([], Some(ColumnCountMismatch)))
      && (file in loaded && EmotionTuples(loaded[file]) != [] ==>
            var data := EmotionData(loaded[file]).value;
            out == Outcome([Expected(EmotionRequest(file, data, "shape")),
                            Expected(EmotionRequest(file, data, "face"))], None))
  {
    var file := EmotionFile(studyDir, subjectBidsId);
    if file in loaded && EmotionTuples(loaded[file]) != [] {
      EmotionSavesBothGroups(BehavioralDir(studyDir, subjectBidsId), EmotionData(loaded[file]).value);
    }
  }

  /** A worked case: a `face` trial with a positive cue and a `shape` trial
      whose cue start is 0. The `shape` group is empty and goes to its
      `-EMPTY` path; the `face` group holds the one line (10, 18, 1). */
  lemma EmotionExample(studyDir: string, subjectBidsId: string)
    ensures var file := EmotionFile(studyDir, subjectBidsId);
      var rows := [EmotionRow(Some(5.0), Some(10.0), Some("face")), EmotionRow(Some(0.0), Some(20.0), Some("shape"))];
      EmotionOutcome(studyDir, subjectBidsId, map[file := rows])
        == Outcome([FileWrite(EmptyPath(file + "_shape.txt"), []),
                    FileWrite(file + "_face.txt", [Line(10.0, Some(18.0), 1.0)])], None)
  {
    var file := EmotionFile(studyDir, subjectBidsId);
    var rows := [EmotionRow(Some(5.0), Some(10.0), Some("face")), EmotionRow(Some(0.0), Some(20.0), Some("shape"))];
    EmotionExampleData(rows);
    EmotionExampleRequests(file);
    EmotionOutcomeFiles(studyDir, subjectBidsId, map[file := rows]);
  }

  lemma EmotionExampleData(rows: seq<EmotionRow>)
    requires rows == [EmotionRow(Some(5.0), Some(10.0), Some("face")), EmotionRow(Some(0.0), Some(20.0), Some("shape"))]
    ensures EmotionTuples(rows) != []
    ensures EmotionData(rows) == Success([EmotionRecord("face", 10.0, 18.0, 1.0)])
  {
    assert Filter(EmotionCueValid, rows) == [rows[0]] by {
      assert rows[1..][1..] == [];
    }
    var t := EmotionTupleOf(rows[0]);
    assert EmotionTuples(rows) == [t];
    assert EmotionComplete(t) == Some(EmotionRecord("face", 10.0, 18.0, 1.0));
    assert FilterMap(EmotionComplete, [t][1..]) == [];
    assert FilterMap(EmotionComplete, [t]) == [EmotionRecord("face", 10.0, 18.0, 1.0)];
  }

  lemma EmotionExampleRequests(file: string)
    ensures var data := [EmotionRecord("face", 10.0, 18.0, 1.0)];
      Expected(EmotionRequest(file, data, "shape")) == FileWrite(EmptyPath(file + "_shape.txt"), [])
      && Expected(EmotionRequest(file, data, "face")) == FileWrite(file + "_face.txt", [Line(10.0, Some(18.0), 1.0)])
  {
    var r := EmotionRecord("face", 10.0, 18.0, 1.0);
    assert EmotionGroup([r], "shape") == [] by {
      assert [r][1..] == [];
    }
    assert EmotionGroup([r], "face") == [r] by {
      assert [r][1..] == [];
    }
    assert "_" + "shape" + ".txt" == "_shape.txt";
    assert "_" + "face" + ".txt" == "_face.txt";
  }

  // =====================================================================
  // Guessing

  datatype GuessingRow = GuessingRow(
    trialCondition: Text,
    cueStartTime: Num, cueEndTime: Num,
    guessStartTime: Num, guessEndTime: Num,
    feedbackStartTime: Num, feedbackEndTime: Num)

  const GuessingPhases: seq<string> := ["cue", "guess", "feedback"]
  const GuessingColumns: set<string> := {"phase", "cond", "onset", "duration", "amplitude"}
  const CueLabels: seq<string> := ["low", "high"]
  const FeedbackLabels: seq<string> := ["lowWin", "lowLose", "highWin", "highLose"]

  /** The `<phase>StartTime` cell of a row. */
  function PhaseStart(row: GuessingRow, phase: string): Num
    requires phase in GuessingPhases
  {
    if phase == "cue" then row.cueStartTime
    else if phase == "guess" then row.guessStartTime
    else row.feedbackStartTime
  }

  /** The `<phase>EndTime` cell of a row. */
  function PhaseEnd(row: GuessingRow, phase: string): Num
    requires phase in GuessingPhases
  {
    if phase == "cue" then row.cueEndTime
    else if phase == "guess" then row.guessEndTime
    else row.feedbackEndTime
  }

  /** The tuple appended for one phase of a row: phase, condition, start,
      end minus start, and the amplitude 1. */
  datatype GuessingTuple = GuessingTuple(phase: string, cond: Text, onset: Num, duration: Num, amplitude: real)

  function PhaseTuple(row: GuessingRow, phase: string): GuessingTuple
    requires phase in GuessingPhases
  {
    GuessingTuple(phase, row.trialCondition, PhaseStart(row, phase), Minus(PhaseEnd(row, phase), PhaseStart(row, phase)), 1.0)
  }

  /** The three tuples of a row, one per phase, in phase order. */
  function RowTuples(row: GuessingRow): seq<GuessingTuple> {
    [PhaseTuple(row, "cue"), PhaseTuple(row, "guess"), PhaseTuple(row, "feedback")]
  }

  /** The tuples of every row, row after row. */
  function GuessingTuples(rows: seq<GuessingRow>): seq<GuessingTuple>
    decreases |rows|
  {
    if rows == [] then [] else GuessingTuples(rows[..|rows| - 1]) + RowTuples(rows[|rows| - 1])
  }

  /** The nested loop of `guessing_onsets`: for every row, for every phase,
      append that phase's tuple. */
  method BuildGuessingTuples(rows: seq<GuessingRow>) returns (data: seq<GuessingTuple>)
    ensures data == GuessingTuples(rows)
  {
    data := [];
    for i := 0 to |rows|
      invariant data == GuessingTuples(rows[..i])
    {
      var row := rows[i];
      ghost var before := data;
      for k := 0 to |GuessingPhases|
        invariant data == before + RowTuples(row)[..k]
      {
        assert RowTuples(row)[k] == PhaseTuple(row, GuessingPhases[k]);
        assert RowTuples(row)[..k + 1] == RowTuples(row)[..k] + [RowTuples(row)[k]];
        data := data + [PhaseTuple(row, GuessingPhases[k])];
      }
      assert RowTuples(row)[..3] == RowTuples(row);
      assert rows[..i + 1][..i] == rows[..i];
    }
    assert rows[..|rows|] == rows;
  }

  /** A tuple that survived `dropna`. */
  datatype GuessingRecord = GuessingRecord(phase: string, cond: string, onset: real, duration: real, amplitude: real)

  function GuessingComplete(t: GuessingTuple): Option<GuessingRecord> {
    if t.cond.Some? && t.onset.Some? && t.duration.Some? then
      Some(GuessingRecord(t.phase, t.cond.value, t.onset.value, t.duration.value, t.amplitude))
    else None
  }

  /** The frame of records of one run, or the error of naming the columns of
      a frame built from no tuples (a table without rows). */
  function GuessingData(rows: seq<GuessingRow>): Result<seq<GuessingRecord>, Error> {
    var tuples := GuessingTuples(rows);
    if |tuples| == 0 then Failure(ColumnCountMismatch) else Success(FilterMap(GuessingComplete, tuples))
  }

  function GuessingLine(r: GuessingRecord): Line {
    Line(r.onset, Some(r.duration), r.amplitude)
  }

  /** The records of a phase. */
  function PhaseGroup(data: seq<GuessingRecord>, phase: string): seq<GuessingRecord> {
    Filter((r: GuessingRecord) => r.phase == phase, data)
  }

  /** The records of a phase whose condition contains `tag`. */
  function LabelGroup(data: seq<GuessingRecord>, phase: string, tag: string): seq<GuessingRecord> {
    Filter((r: GuessingRecord) => r.phase == phase && Contains(r.cond, tag), data)
  }

  function LabelRequest(file: string, phase: string, data: seq<GuessingRecord>, tag: string): Request {
    Request(file + ("_" + phase + "_" + tag + ".txt"), Map(GuessingLine, LabelGroup(data, phase, tag)))
  }

  /** The groups `save_guessing_onsets` writes for a phase: the whole phase for
      `guess`, one group per tag for `cue` and `feedback`. */
  function GuessingRequests(file: string, phase: string, data: seq<GuessingRecord>): seq<Request>
    requires phase in GuessingPhases
  {
    if phase == "guess" then [Request(file + ("_" + phase + ".txt"), Map(GuessingLine, PhaseGroup(data, phase)))]
    else Map((tag: string) => LabelRequest(file, phase, data, tag), if phase == "cue" then CueLabels else FeedbackLabels)
  }

  /** Whether the `cond` column of a run's frame holds strings. `from_records`
      gives the column object values when some row has a trial condition, and
      only float `NaN`s, on which `.str` raises, when no row has one. */
  predicate CondHoldsText(rows: seq<GuessingRow>) {
    exists i :: 0 <= i < |rows| && rows[i].trialCondition.Some?
  }

  /** `save_guessing_onsets(output_path, phase, data)`, where `condText` says
      whether the frame's `cond` column holds strings. A phase without labels
      raises; so does the first label mask of `cue` or `feedback` when the
      column holds none. */
  function SaveGuessingOnsets(file: string, phase: string, data: seq<GuessingRecord>, condText: bool): TaskOutcome {
    if phase !in GuessingPhases then Outcome([], Some(UnknownPhase(phase)))
    else if phase != "guess" && !condText then Outcome([], Some(StrAccessor("cond")))
    else SaveAll(GuessingColumns, GuessingRequests(file, phase, data))
  }

  /** The Guessing file of a run. */
  function GuessingRunFile(studyDir: string, subjectBidsId: string, run: string): string {
    PathJoin(BehavioralDir(studyDir, subjectBidsId), "GUESSING_Run_") + run
  }

  /** One run of `guessing_onsets`: read, build the frame, then save the
      `cue`, `guess` and `feedback` groups. */
  function GuessingRun(file: string, loaded: map<string, seq<GuessingRow>>): TaskOutcome {
    if file !in loaded then Outcome([], Some(LoadFailure(file)))
    else
      match GuessingData(loaded[file])
      case Failure(e) => Outcome([], Some(e))
      case Success(data) =>
        var text := CondHoldsText(loaded[file]);
        Then(Then(SaveGuessingOnsets(file, "cue", data, text), SaveGuessingOnsets(file, "guess", data, text)),
             SaveGuessingOnsets(file, "feedback", data, text))
  }

  /** `guessing_onsets`: run 1, then run 2. */
  function GuessingOutcome(studyDir: string, subjectBidsId: string, loaded: map<string, seq<GuessingRow>>): TaskOutcome {
    Then(GuessingRun(GuessingRunFile(studyDir, subjectBidsId, "1"), loaded),
         GuessingRun(GuessingRunFile(studyDir, subjectBidsId, "2"), loaded))
  }

  /** One run, computed with the tuple-building loop. */
  method GuessingRunOnsets(file: string, loaded: map<string, seq<GuessingRow>>) returns (out: TaskOutcome)
    ensures out == GuessingRun(file, loaded)
  {
    if file !in loaded {
      return Outcome([], Some(LoadFailure(file)));
    }
    var tuples := BuildGuessingTuples(loaded[file]);
    if |tuples| == 0 {
      return Outcome([], Some(ColumnCountMismatch));
    }
    var data := FilterMap(GuessingComplete, tuples);
    var text := CondHoldsText(loaded[file]);
    out := Outcome([], None);
    for k := 0 to |GuessingPhases|
      invariant k == 0 ==> out == Outcome([], None)
      invariant k == 1 ==> out == SaveGuessingOnsets(file, "cue", data, text)
      invariant k == 2 ==> out == Then(SaveGuessingOnsets(file, "cue", data, text), SaveGuessingOnsets(file, "guess", data, text))
      invariant k == 3 ==> out == GuessingRun(file, loaded)
    {
      if out.error.None? {
        out := Then(out, SaveGuessingOnsets(file, GuessingPhases[k], data, text));
      }
    }
  }

  /** `guessing_onsets(study_dir, subject_bids_id)`: the runs `1` and `2` in
      turn, stopping at the first that raises. */
  method GuessingOnsets(studyDir: string, subjectBidsId: string, loaded: map<string, seq<GuessingRow>>)
    returns (out: TaskOutcome)
    ensures out == GuessingOutcome(studyDir, subjectBidsId, loaded)
  {
    var runs := ["1", "2"];
    out := Outcome([], None);
    for i := 0 to |runs|
      invariant i == 0 ==> out == Outcome([], None)
      invariant i == 1 ==> out == GuessingRun(GuessingRunFile(studyDir, subjectBidsId, "1"), loaded)
      invariant i == 2 ==> out == GuessingOutcome(studyDir, subjectBidsId, loaded)
    {
      if out.error.None? {
        var run := GuessingRunOnsets(GuessingRunFile(studyDir, subjectBidsId, runs[i]), loaded);
        out := Then(out, run);
      }
    }
  }

  // ---------------------------------------------------------------------
  // Guessing properties

  /** Every row yields three tuples, in phase order: tuple `3 * i + k` is
      phase `k` of row `i`, with the row's start time as onset and end minus
      start as duration. */
  lemma {:induction false} GuessingTuplesAt(rows: seq<GuessingRow>)
    ensures |GuessingTuples(rows)| == 3 * |rows|
    ensures forall i, k :: 0 <= i < |rows| && 0 <= k < 3 ==>
      GuessingTuples(rows)[3 * i + k] == PhaseTuple(rows[i], GuessingPhases[k])
    decreases |rows|
  {
    if rows != [] {
      var front := rows[..|rows| - 1];
      GuessingTuplesAt(front);
      var n := |front|;
      forall i, k | 0 <= i < |rows| && 0 <= k < 3
        ensures GuessingTuples(rows)[3 * i + k] == PhaseTuple(rows[i], GuessingPhases[k])
      {
        if i < n {
          assert front[i] == rows[i];
          assert GuessingTuples(rows)[3 * i + k] == GuessingTuples(front)[3 * i + k];
        } else {
          assert GuessingTuples(rows)[3 * i + k] == RowTuples(rows[n])[k];
        }
      }
    }
  }

  /** Tuple `3 * i + k` is phase `k` of row `i`. */
  lemma GuessingTupleAt(rows: seq<GuessingRow>, i: nat, k: nat)
    requires i < |rows| && k < 3
    ensures 3 * i + k < |GuessingTuples(rows)|
    ensures GuessingTuples(rows)[3 * i + k] == PhaseTuple(rows[i], GuessingPhases[k])
  {
    GuessingTuplesAt(rows);
  }

  /** A phase with both times and a condition yields its record, whatever the
      sign of end minus start. */
  lemma GuessingRecordOf(rows: seq<GuessingRow>, i: nat, phase: string)
    requires i < |rows| && phase in GuessingPhases
    requires rows[i].trialCondition.Some? && PhaseStart(rows[i], phase).Some? && PhaseEnd(rows[i], phase).Some?
    ensures GuessingData(rows).Success?
    ensures GuessingRecord(phase, rows[i].trialCondition.value, PhaseStart(rows[i], phase).value,
                           PhaseEnd(rows[i], phase).value - PhaseStart(rows[i], phase).value, 1.0)
            in GuessingData(rows).value
  {
    var k := if phase == "cue" then 0 else if phase == "guess" then 1 else 2;
    assert GuessingPhases[k] == phase;
    GuessingTupleAt(rows, i, k);
    var tuples := GuessingTuples(rows);
    var t := tuples[3 * i + k];
    assert t == PhaseTuple(rows[i], phase);
    var rec := GuessingRecord(phase, rows[i].trialCondition.value, PhaseStart(rows[i], phase).value,
                              PhaseEnd(rows[i], phase).value - PhaseStart(rows[i], phase).value, 1.0);
    assert GuessingComplete(t) == Some(rec);
    RecordInData(rows, t, rec);
  }

  /** The record of a complete tuple of the run is in its frame. */
  lemma RecordInData(rows: seq<GuessingRow>, t: GuessingTuple, rec: GuessingRecord)
    requires t in GuessingTuples(rows) && GuessingComplete(t) == Some(rec)
    ensures GuessingData(rows).Success? && rec in GuessingData(rows).value
  {
    FilterMapKeeps(GuessingComplete, GuessingTuples(rows), t);
  }

  /** Every record comes from one phase of one row: its onset is that phase's
      start time and its duration end minus start. */
  lemma GuessingRecordSound(rows: seq<GuessingRow>, r: GuessingRecord)
    requires GuessingData(rows).Success? && r in GuessingData(rows).value
    ensures exists i, phase :: (0 <= i < |rows| && phase in GuessingPhases
      && rows[i].trialCondition == Some(r.cond) && r.phase == phase
      && PhaseStart(rows[i], phase) == Some(r.onset)
      && Minus(PhaseEnd(rows[i], phase), PhaseStart(rows[i], phase)) == Some(r.duration))
    ensures r.amplitude == 1.0
  {
    var tuples := GuessingTuples(rows);
    var t :| t in tuples && GuessingComplete(t) == Some(r);
    var m :| 0 <= m < |tuples| && tuples[m] == t;
    GuessingTuplesAt(rows);
    var i, k := m / 3, m % 3;
    assert 3 * i + k == m;
    var phase := GuessingPhases[k];
    assert t == PhaseTuple(rows[i], phase);
    assert t.cond.Some? && t.onset.Some? && t.duration.Some?;
    assert r == GuessingRecord(t.phase, t.cond.value, t.onset.value, t.duration.value, t.amplitude);
    assert 0 <= i < |rows| && phase in GuessingPhases;
    assert rows[i].trialCondition == Some(r.cond) && r.phase == phase;
    assert PhaseStart(rows[i], phase) == Some(r.onset);
    assert Minus(PhaseEnd(rows[i], phase), PhaseStart(rows[i], phase)) == Some(r.duration);
  }

  /** Label groups select by substring: a record is in the group of a tag
      exactly when it is of that phase and its condition contains the tag. */
  lemma LabelGroupMembers(data: seq<GuessingRecord>, phase: string, tag: string, r: GuessingRecord)
    ensures r in LabelGroup(data, phase, tag) <==> r in data && r.phase == phase && Contains(r.cond, tag)
  {
  }

  /** Which labels `lowWin` contains. */
  lemma LowWinTags()
    ensures Contains("lowWin", "lowWin") && Contains("lowWin", "low")
    ensures !Contains("lowWin", "lowLose") && !Contains("lowWin", "highWin")
    ensures !Contains("lowWin", "highLose") && !Contains("lowWin", "high")
  {
    ContainsAt("lowWin", "lowWin", 0);
    assert "lowWin"[0..3] == "low";
    ContainsAt("lowWin", "low", 0);
    NotContainedByFirstChar("lowWin", "lowLose");
    NotContainedByFirstChar("lowWin", "highWin");
    NotContainedByFirstChar("lowWin", "highLose");
    NotContainedByFirstChar("lowWin", "high");
  }

  /** Which labels `lowLose` contains. */
  lemma LowLoseTags()
    ensures Contains("lowLose", "lowLose") && Contains("lowLose", "low")
    ensures !Contains("lowLose", "lowWin") && !Contains("lowLose", "highWin")
    ensures !Contains("lowLose", "highLose") && !Contains("lowLose", "high")
  {
    ContainsAt("lowLose", "lowLose", 0);
    assert "lowLose"[0..3] == "low";
    ContainsAt("lowLose", "low", 0);
    assert "lowLose"[..6][3] != "lowWin"[3];
    NotContainedPastFirst("lowLose", "lowWin");
    NotContainedByFirstChar("lowLose", "highWin");
    NotContainedByFirstChar("lowLose", "highLose");
    NotContainedByFirstChar("lowLose", "high");
  }

  /** Which labels `highWin` contains. */
  lemma HighWinTags()
    ensures Contains("highWin", "highWin") && Contains("highWin", "high")
    ensures !Contains("highWin", "lowWin") && !Contains("highWin", "lowLose")
    ensures !Contains("highWin", "highLose") && !Contains("highWin", "low")
  {
    ContainsAt("highWin", "highWin", 0);
    assert "highWin"[0..4] == "high";
    ContainsAt("highWin", "high", 0);
    NotContainedByFirstChar("highWin", "lowWin");
    NotContainedByFirstChar("highWin", "lowLose");
    NotContainedByFirstChar("highWin", "highLose");
    NotContainedByFirstChar("highWin", "low");
  }

  /** Which labels `highLose` contains. */
  lemma HighLoseTags()
    ensures Contains("highLose", "highLose") && Contains("highLose", "high")
    ensures !Contains("highLose", "lowWin") && !Contains("highLose", "lowLose")
    ensures !Contains("highLose", "highWin") && !Contains("highLose", "low")
  {
    ContainsAt("highLose", "highLose", 0);
    assert "highLose"[0..4] == "high";
    ContainsAt("highLose", "high", 0);
    NotContainedByFirstChar("highLose", "lowWin");
    NotContainedByFirstChar("highLose", "lowLose");
    assert "highLose"[..7][4] != "highWin"[4];
    NotContainedPastFirst("highLose", "highWin");
    NotContainedByFirstChar("highLose", "low");
  }

  /** Each feedback label contains itself and none of the other three. */
  lemma FeedbackLabelsSeparate()
    ensures forall l, m :: l in FeedbackLabels && m in FeedbackLabels ==> (Contains(l, m) <==> l == m)
  {
    forall l | l in FeedbackLabels
      ensures forall m :: m in FeedbackLabels ==> (Contains(l, m) <==> l == m)
    {
      if l == "lowWin" { LowWinTags(); }
      else if l == "lowLose" { LowLoseTags(); }
      else if l == "highWin" { HighWinTags(); }
      else { HighLoseTags(); }
    }
  }

  /** The `low` feedback labels contain the cue label `low` and not `high`;
      the `high` ones contain `high` and not `low`. */
  lemma FeedbackLabelsCue()
    ensures forall l :: l in FeedbackLabels ==> (Contains(l, "low") <==> l in ["lowWin", "lowLose"])
    ensures forall l :: l in FeedbackLabels ==> (Contains(l, "high") <==> l in ["highWin", "highLose"])
  {
    forall l | l in FeedbackLabels
      ensures Contains(l, "low") <==> l in ["lowWin", "lowLose"]
      ensures Contains(l, "high") <==> l in ["highWin", "highLose"]
    {
      if l == "lowWin" { LowWinTags(); }
      else if l == "lowLose" { LowLoseTags(); }
      else if l == "highWin" { HighWinTags(); }
      else { HighLoseTags(); }
    }
  }

  /** A feedback record whose condition is one of the feedback labels lands in
      exactly one feedback group, that of its own tag. */
  lemma FeedbackRecordInOneGroup(data: seq<GuessingRecord>, r: GuessingRecord, tag: string)
    requires r in data && r.phase == "feedback" && r.cond in FeedbackLabels && tag in FeedbackLabels
    ensures r in LabelGroup(data, "feedback", tag) <==> tag == r.cond
  {
    FeedbackLabelsSeparate();
  }

  /** A phase that is not one of the three raises and writes nothing. */
  lemma UnknownPhaseRaises(file: string, phase: string, data: seq<GuessingRecord>, condText: bool)
    requires phase !in GuessingPhases
    ensures SaveGuessingOnsets(file, phase, data, condText) == Outcome([], Some(UnknownPhase(phase)))
  {
  }

  /** The group file of a Guessing phase and tag gets the onset headers when
      the tag can hold a `W` only in its last three characters. */
  lemma GuessingTagHeaders(dir: string, name: string, phase: string, tag: string)
    requires '/' !in name && 'W' !in name
    requires phase in GuessingPhases
    requires PlainTag(tag)
    ensures GetOutputHeaders(PathJoin(dir, name) + ("_" + phase + "_" + tag + ".txt")) == OnsetHeaders
  {
    var suffix := "_" + phase + "_" + tag + ".txt";
    assert suffix[..|suffix| - 7] == "_" + phase + "_" + tag[..|tag| - 3];
    assert '/' !in suffix;
    OnsetHeadersForSuffix(dir, name, suffix);
  }

  /** A tag with no `/`, and with a `W` at most in its last three characters. */
  predicate PlainTag(tag: string) {
    |tag| >= 3 && '/' !in tag && 'W' !in tag[..|tag| - 3]
  }

  /** Every Guessing tag is plain. */
  lemma GuessingTagsPlain()
    ensures forall k :: 0 <= k < |CueLabels| ==> PlainTag(CueLabels[k])
    ensures forall k :: 0 <= k < |FeedbackLabels| ==> PlainTag(FeedbackLabels[k])
  {
    assert PlainTag(CueLabels[0]) && PlainTag(CueLabels[1]);
    assert PlainTag(FeedbackLabels[0]) && PlainTag(FeedbackLabels[1]);
    assert PlainTag(FeedbackLabels[2]) && PlainTag(FeedbackLabels[3]);
  }

  /** Every Guessing group file gets the onset headers. */
  lemma GuessingRequestHeaders(dir: string, run: string, phase: string, data: seq<GuessingRecord>)
    requires run == "1" || run == "2"
    requires phase in GuessingPhases
    ensures var reqs := GuessingRequests(PathJoin(dir, "GUESSING_Run_") + run, phase, data);
      forall k :: 0 <= k < |reqs| ==> GetOutputHeaders(reqs[k].path) == OnsetHeaders
  {
    var name := "GUESSING_Run_" + run;
    assert 'W' !in name && '/' !in name;
    PathJoinAppend(dir, "GUESSING_Run_", run);
    var file := PathJoin(dir, "GUESSING_Run_") + run;
    assert file == PathJoin(dir, name);
    var reqs := GuessingRequests(file, phase, data);
    if phase == "guess" {
      OnsetHeadersForSuffix(dir, name, "_" + phase + ".txt");
    } else {
      var tags := if phase == "cue" then CueLabels else FeedbackLabels;
      GuessingTagsPlain();
      forall k | 0 <= k < |reqs| ensures GetOutputHeaders(reqs[k].path) == OnsetHeaders {
        assert reqs[k] == LabelRequest(file, phase, data, tags[k]);
        GuessingTagHeaders(dir, name, phase, tags[k]);
      }
    }
  }

  /** Saving one of the three phases of a Guessing run writes every group of
      that phase, in label order, and raises nothing, unless the phase is
      `cue` or `feedback` and the `cond` column holds no strings: then it
      raises before writing anything. */
  lemma GuessingSavesPhase(dir: string, run: string, phase: string, data: seq<GuessingRecord>, condText: bool)
    requires run == "1" || run == "2"
    requires phase in GuessingPhases
    ensures var file := PathJoin(dir, "GUESSING_Run_") + run;
      && (phase == "guess" || condText ==>
            SaveGuessingOnsets(file, phase, data, condText) == Outcome(Map(Expected, GuessingRequests(file, phase, data)), None))
      && (phase != "guess" && !condText ==>
            SaveGuessingOnsets(file, phase, data, condText) == Outcome([], Some(StrAccessor("cond"))))
  {
    GuessingRequestHeaders(dir, run, phase, data);
    var file := PathJoin(dir, "GUESSING_Run_") + run;
    SaveAllOnsetRequests(GuessingColumns, GuessingRequests(file, phase, data));
  }

  /** The files one readable, non-empty Guessing run writes: the `cue` groups,
      the `guess` group, then the `feedback` groups. */
  function GuessingRunFiles(file: string, data: seq<GuessingRecord>): seq<FileWrite> {
    Map(Expected, GuessingRequests(file, "cue", data)) + Map(Expected, GuessingRequests(file, "guess", data))
      + Map(Expected, GuessingRequests(file, "feedback", data))
  }

  /** A Guessing run raises a read failure without its file, a column error
      for an empty table, and the `.str` error, writing nothing, for rows
      none of which has a trial condition; otherwise it writes all its groups
      and raises nothing. */
  lemma GuessingRunCases(studyDir: string, subjectBidsId: string, run: string, loaded: map<string, seq<GuessingRow>>)
    requires run == "1" || run == "2"
    ensures var file := GuessingRunFile(studyDir, subjectBidsId, run);
      var out := GuessingRun(file, loaded);
      && (file !in loaded ==> out == Outcome([], Some(LoadFailure(file))))
      && (file in loaded && loaded[file] == [] ==> out == Outcome([], Some(ColumnCountMismatch)))
      && (file in loaded && loaded[file] != [] && !CondHoldsText(loaded[file]) ==>
            out == Outcome([], Some(StrAccessor("cond"))))
      && (file in loaded && CondHoldsText(loaded[file]) ==>
            out == Outcome(GuessingRunFiles(file, GuessingData(loaded[file]).value), None))
  {
    var file := GuessingRunFile(studyDir, subjectBidsId, run);
    if file in loaded {
      GuessingTuplesAt(loaded[file]);
      if loaded[file] != [] {
        var data := GuessingData(loaded[file]).value;
        var dir := BehavioralDir(studyDir, subjectBidsId);
        var text := CondHoldsText(loaded[file]);
        GuessingSavesPhase(dir, run, "cue", data, text);
        GuessingSavesPhase(dir, run, "guess", data, text);
        GuessingSavesPhase(dir, run, "feedback", data, text);
      }
    }
  }

  /** `guessing_onsets` raises nothing exactly when both run files are
      readable and each has a row with a trial condition, and then writes run
      1's groups followed by run 2's. */
  lemma GuessingOutcomeFiles(studyDir: string, subjectBidsId: string, loaded: map<string, seq<GuessingRow>>)
    ensures var f1 := GuessingRunFile(studyDir, subjectBidsId, "1");
      var f2 := GuessingRunFile(studyDir, subjectBidsId, "2");
      var out := GuessingOutcome(studyDir, subjectBidsId, loaded);
      && (out.error.None? <==> f1 in loaded && CondHoldsText(loaded[f1]) && f2 in loaded && CondHoldsText(loaded[f2]))
      && (out.error.None? ==>
            out.files == GuessingRunFiles(f1, GuessingData(loaded[f1]).value)
                         + GuessingRunFiles(f2, GuessingData(loaded[f2]).value))
  {
    GuessingRunCases(studyDir, subjectBidsId, "1", loaded);
    GuessingRunCases(studyDir, subjectBidsId, "2", loaded);
  }

  // =====================================================================
  // CARIT (go/no-go)

  datatype CaritRow = CaritRow(
    corrRespMsg: Text, corrAns: Text,
    shapeStartTime: Num, shapeEndTime: Num,
    trialOutcome: Text, nogoCondition: Text)

  /** The tuple `get_carrit_row` builds: trial type, outcome, no-go condition
      (empty for go trials), accuracy, onset, duration and the amplitude 1. */
  datatype CaritTuple = CaritTuple(cond: string, trialOutcome: Text, nogoCond: Text, acc: string,
                                   onset: Num, duration: Num, amplitude: real)

  const CaritColumns: set<string> := {"cond", "trial_outcome", "nogo_cond", "acc", "onset", "duration", "amplitude"}
  const CaritAccuracies: seq<string> := ["correct", "incorrect"]
  const CaritConditions: seq<string> := ["go", "prevRewNogo", "neutralNogo"]

  /** The rows `get_carrit_row(acc, cond, data)` selects. */
  predicate CaritSelected(acc: string, cond: string, row: CaritRow) {
    row.corrRespMsg == Some(acc) && row.corrAns == Some(cond)
  }

  function CaritTupleOf(acc: string, cond: string, row: CaritRow): CaritTuple {
    CaritTuple(cond, row.trialOutcome, if cond == "nogo" then row.nogoCondition else Some(""), acc,
               row.shapeStartTime, Minus(row.shapeEndTime, row.shapeStartTime), 1.0)
  }

  /** The tuples of the selected rows, in row order. */
  function CaritRows(acc: string, cond: string, rows: seq<CaritRow>): seq<CaritTuple>
    decreases |rows|
  {
    if rows == [] then []
    else
      var last := rows[|rows| - 1];
      CaritRows(acc, cond, rows[..|rows| - 1]) + (if CaritSelected(acc, cond, last) then [CaritTupleOf(acc, cond, last)] else [])
  }

  /** `get_carrit_row(acc, cond, data)`. */
  method GetCaritRow(acc: string, cond: string, rows: seq<CaritRow>) returns (tuples: seq<CaritTuple>)
    ensures tuples == CaritRows(acc, cond, rows)
  {
    tuples := [];
    for i := 0 to |rows|
      invariant tuples == CaritRows(acc, cond, rows[..i])
    {
      assert rows[..i + 1][..i] == rows[..i];
      if CaritSelected(acc, cond, rows[i]) {
        tuples := tuples + [CaritTupleOf(acc, cond, rows[i])];
      }
    }
    assert rows[..|rows|] == rows;
  }

  /** The four selections of a run, in the order they are appended. */
  function CaritTuples(rows: seq<CaritRow>): seq<CaritTuple> {
    CaritRows("correct", "go", rows) + CaritRows("correct", "nogo", rows)
      + CaritRows("incorrect", "go", rows) + CaritRows("incorrect", "nogo", rows)
  }

  method BuildCaritTuples(rows: seq<CaritRow>) returns (data: seq<CaritTuple>)
    ensures data == CaritTuples(rows)
  {
    var correctGo := GetCaritRow("correct", "go", rows);
    var correctNogo := GetCaritRow("correct", "nogo", rows);
    var incorrectGo := GetCaritRow("incorrect", "go", rows);
    var incorrectNogo := GetCaritRow("incorrect", "nogo", rows);
    data := [];
    data := data + correctGo;
    data := data + correctNogo;
    data := data + incorrectGo;
    data := data + incorrectNogo;
  }

  /** A tuple that survived `dropna`. */
  datatype CaritRecord = CaritRecord(cond: string, trialOutcome: string, nogoCond: string, acc: string,
                                     onset: real, duration: real, amplitude: real)

  function CaritComplete(t: CaritTuple): Option<CaritRecord> {
    if t.trialOutcome.Some? && t.nogoCond.Some? && t.onset.Some? && t.duration.Some? then
      Some(CaritRecord(t.cond, t.trialOutcome.value, t.nogoCond.value, t.acc, t.onset.value, t.duration.value, t.amplitude))
    else None
  }

  /** The frame of records of one run, with its columns named, or the error of
      naming the columns of a frame built from no tuples. */
  function CaritData(rows: seq<CaritRow>): Result<seq<CaritRecord>, Error> {
    var tuples := CaritTuples(rows);
    if |tuples| == 0 then Failure(ColumnCountMismatch) else Success(FilterMap(CaritComplete, tuples))
  }

  function CaritLine(r: CaritRecord): Line {
    Line(r.onset, Some(r.duration), r.amplitude)
  }

  /** The records `save_carrit_onsets(_, data, acc, cond)` keeps: of that
      accuracy, and of trial type `go` for the go file, of that no-go
      condition otherwise. */
  predicate CaritKept(acc: string, cond: string, r: CaritRecord) {
    r.acc == acc && (if cond == "go" then r.cond == cond else r.nogoCond == cond)
  }

  function CaritGroup(data: seq<CaritRecord>, acc: string, cond: string): seq<CaritRecord> {
    Filter((r: CaritRecord) => CaritKept(acc, cond, r), data)
  }

  function CaritRequest(file: string, data: seq<CaritRecord>, acc: string, cond: string): Request {
    Request(file + ("_" + cond + "_" + acc + ".txt"), Map(CaritLine, CaritGroup(data, acc, cond)))
  }

  /** The six groups of a run: for each accuracy, go, then the two no-go conditions. */
  function CaritRequests(file: string, data: seq<CaritRecord>): seq<Request> {
    seq(6, k requires 0 <= k < 6 => CaritRequest(file, data, CaritAccuracies[k / 3], CaritConditions[k % 3]))
  }

  function CaritRunFile(studyDir: string, subjectBidsId: string, run: string): string {
    PathJoin(BehavioralDir(studyDir, subjectBidsId), "CARIT_Run_") + run
  }

  /** One run of `carrit_onsets` with its columns named. */
  function CaritRun(file: string, loaded: map<string, seq<CaritRow>>): TaskOutcome {
    if file !in loaded then Outcome([], Some(LoadFailure(file)))
    else
      match CaritData(loaded[file])
      case Failure(e) => Outcome([], Some(e))
      case Success(data) => SaveAll(CaritColumns, CaritRequests(file, data))
  }

  /** `carrit_onsets`: run 1, then run 2. */
  function CaritOutcome(studyDir: string, subjectBidsId: string, loaded: map<string, seq<CaritRow>>): TaskOutcome {
    Then(CaritRun(CaritRunFile(studyDir, subjectBidsId, "1"), loaded),
         CaritRun(CaritRunFile(studyDir, subjectBidsId, "2"), loaded))
  }

  /** One run as the source has it: the column names are assigned to a
      misspelt attribute, so the frame keeps its positional column labels and
      the first selection of the `acc` column raises. */
  function CaritRunAsWritten(file: string, loaded: map<string, seq<CaritRow>>): TaskOutcome {
    if file !in loaded then Outcome([], Some(LoadFailure(file))) else Outcome([], Some(KeyError("acc")))
  }

  function CaritOutcomeAsWritten(studyDir: string, subjectBidsId: string, loaded: map<string, seq<CaritRow>>): TaskOutcome {
    Then(CaritRunAsWritten(CaritRunFile(studyDir, subjectBidsId, "1"), loaded),
         CaritRunAsWritten(CaritRunFile(studyDir, subjectBidsId, "2"), loaded))
  }

  method CaritRunOnsets(file: string, loaded: map<string, seq<CaritRow>>) returns (out: TaskOutcome)
    ensures out == CaritRun(file, loaded)
  {
    if file !in loaded {
      return Outcome([], Some(LoadFailure(file)));
    }
    var tuples := BuildCaritTuples(loaded[file]);
    if |tuples| == 0 {
      return Outcome([], Some(ColumnCountMismatch));
    }
    var data := FilterMap(CaritComplete, tuples);
    out := SaveAll(CaritColumns, CaritRequests(file, data));
  }

  /** `carrit_onsets(study_dir, subject_bids_id)`, with the columns named. */
  method CaritOnsets(studyDir: string, subjectBidsId: string, loaded: map<string, seq<CaritRow>>)
    returns (out: TaskOutcome)
    ensures out == CaritOutcome(studyDir, subjectBidsId, loaded)
  {
    var runs := ["1", "2"];
    out := Outcome([], None);
    for i := 0 to |runs|
      invariant i == 0 ==> out == Outcome([], None)
      invariant i == 1 ==> out == CaritRun(CaritRunFile(studyDir, subjectBidsId, "1"), loaded)
      invariant i == 2 ==> out == CaritOutcome(studyDir, subjectBidsId, loaded)
    {
      if out.error.None? {
        var run := CaritRunOnsets(CaritRunFile(studyDir, subjectBidsId, runs[i]), loaded);
        out := Then(out, run);
      }
    }
  }

  // ---------------------------------------------------------------------
  // CARIT properties

  /** `get_carrit_row` keeps exactly the rows with that response message and
      that correct answer, one tuple each, tagged with that accuracy and
      trial type; a go tuple's no-go condition is empty. */
  lemma {:induction false} CaritRowsMembers(acc: string, cond: string, rows: seq<CaritRow>, t: CaritTuple)
    ensures |CaritRows(acc, cond, rows)| <= |rows|
    ensures t in CaritRows(acc, cond, rows) <==>
      exists row :: row in rows && CaritSelected(acc, cond, row) && t == CaritTupleOf(acc, cond, row)
    ensures t in CaritRows(acc, cond, rows) ==>
      t.acc == acc && t.cond == cond && (cond != "nogo" ==> t.nogoCond == Some(""))
    decreases |rows|
  {
    if rows != [] {
      var front := rows[..|rows| - 1];
      var last := rows[|rows| - 1];
      CaritRowsMembers(acc, cond, front, t);
      assert rows == front + [last];
      if t in CaritRows(acc, cond, rows) && t !in CaritRows(acc, cond, front) {
        assert CaritSelected(acc, cond, last) && t == CaritTupleOf(acc, cond, last);
      }
      forall row | row in rows && CaritSelected(acc, cond, row) && t == CaritTupleOf(acc, cond, row)
        ensures t in CaritRows(acc, cond, rows)
      {
        if row != last {
          assert row in front;
        }
      }
    }
  }

  /** Every record of a run carries the accuracy and trial type it was
      selected with, and a go record has an empty no-go condition. */
  lemma CaritRecordOrigin(rows: seq<CaritRow>, r: CaritRecord)
    requires CaritData(rows).Success? && r in CaritData(rows).value
    ensures r.acc in CaritAccuracies && r.cond in ["go", "nogo"]
    ensures r.cond == "go" ==> r.nogoCond == ""
    ensures exists row :: (row in rows && row.corrRespMsg == Some(r.acc) && row.corrAns == Some(r.cond)
      && row.shapeStartTime == Some(r.onset) && row.trialOutcome == Some(r.trialOutcome))
  {
    var tuples := CaritTuples(rows);
    var t :| t in tuples && CaritComplete(t) == Some(r);
    var pick :=
      if t in CaritRows("correct", "go", rows) then ("correct", "go")
      else if t in CaritRows("correct", "nogo", rows) then ("correct", "nogo")
      else if t in CaritRows("incorrect", "go", rows) then ("incorrect", "go")
      else ("incorrect", "nogo");
    CaritRowsMembers(pick.0, pick.1, rows, t);
  }

  /** A go trial never lands in a no-go file and a no-go trial never in a go
      file; every file holds only records of its accuracy. */
  lemma CaritGroupsSeparate(rows: seq<CaritRow>, r: CaritRecord, acc: string, cond: string)
    requires CaritData(rows).Success? && r in CaritData(rows).value
    requires cond in CaritConditions
    ensures r in CaritGroup(CaritData(rows).value, acc, cond) ==> r.acc == acc
    ensures r.cond == "go" && cond != "go" ==> r !in CaritGroup(CaritData(rows).value, acc, cond)
    ensures r.cond == "nogo" && cond == "go" ==> r !in CaritGroup(CaritData(rows).value, acc, cond)
    ensures r.cond == "go" ==> (r in CaritGroup(CaritData(rows).value, acc, "go") <==> r.acc == acc)
  {
    CaritRecordOrigin(rows, r);
  }

  /** As the source is written, a run that can be read raises before it writes
      anything, so no CARIT file is ever written. */
  lemma CaritAsWrittenWritesNothing(studyDir: string, subjectBidsId: string, loaded: map<string, seq<CaritRow>>)
    ensures CaritOutcomeAsWritten(studyDir, subjectBidsId, loaded).files == []
    ensures var f1 := CaritRunFile(studyDir, subjectBidsId, "1");
      CaritOutcomeAsWritten(studyDir, subjectBidsId, loaded).error
        == Some(if f1 in loaded then KeyError("acc") else LoadFailure(f1))
  {
  }

  /** The group file of a CARIT trial type and accuracy gets the onset headers. */
  lemma CaritTagHeaders(dir: string, name: string, cond: string, acc: string)
    requires '/' !in name && 'W' !in name
    requires cond in CaritConditions && acc in CaritAccuracies
    ensures GetOutputHeaders(PathJoin(dir, name) + ("_" + cond + "_" + acc + ".txt")) == OnsetHeaders
  {
    var suffix := "_" + cond + "_" + acc + ".txt";
    assert 'W' !in suffix && '/' !in suffix;
    OnsetHeadersForSuffix(dir, name, suffix);
  }

  /** All six CARIT groups of a run get the onset headers, so each is written
      and nothing raises. */
  lemma CaritSavesRun(dir: string, run: string, data: seq<CaritRecord>)
    requires run == "1" || run == "2"
    ensures var file := PathJoin(dir, "CARIT_Run_") + run;
      SaveAll(CaritColumns, CaritRequests(file, data)) == Outcome(Map(Expected, CaritRequests(file, data)), None)
  {
    var name := "CARIT_Run_" + run;
    assert 'W' !in name && '/' !in name;
    PathJoinAppend(dir, "CARIT_Run_", run);
    var file := PathJoin(dir, "CARIT_Run_") + run;
    assert file == PathJoin(dir, name);
    var reqs := CaritRequests(file, data);
    forall k | 0 <= k < |reqs| ensures GetOutputHeaders(reqs[k].path) == OnsetHeaders {
      CaritTagHeaders(dir, name, CaritConditions[k % 3], CaritAccuracies[k / 3]);
    }
    SaveAllOnsetRequests(CaritColumns, reqs);
  }

  /** A CARIT run raises a read failure without its file, a column error when
      no row is selected, and otherwise writes its six groups and raises
      nothing. */
  lemma CaritRunCases(studyDir: string, subjectBidsId: string, run: string, loaded: map<string, seq<CaritRow>>)
    requires run == "1" || run == "2"
    ensures var file := CaritRunFile(studyDir, subjectBidsId, run);
      var out := CaritRun(file, loaded);
      && (file !in loaded ==> out == Outcome([], Some(LoadFailure(file))))
      && (file in loaded && CaritTuples(loaded[file]) == [] ==> out == Outcome([], Some(ColumnCountMismatch)))
      && (file in loaded && CaritTuples(loaded[file]) != [] ==>
            out == Outcome(Map(Expected, CaritRequests(file, CaritData(loaded[file]).value)), None))
  {
    var file := CaritRunFile(studyDir, subjectBidsId, run);
    if file in loaded && CaritTuples(loaded[file]) != [] {
      CaritSavesRun(BehavioralDir(studyDir, subjectBidsId), run, CaritData(loaded[file]).value);
    }
  }

  /** `carrit_onsets` raises nothing exactly when both runs are readable and
      select some row, and then writes run 1's six groups and run 2's. */
  lemma CaritOutcomeFiles(studyDir: string, subjectBidsId: string, loaded: map<string, seq<CaritRow>>)
    ensures var f1 := CaritRunFile(studyDir, subjectBidsId, "1");
      var f2 := CaritRunFile(studyDir, subjectBidsId, "2");
      var out := CaritOutcome(studyDir, subjectBidsId, loaded);
      && (out.error.None? <==> f1 in loaded && CaritTuples(loaded[f1]) != [] && f2 in loaded && CaritTuples(loaded[f2]) != [])
      && (out.error.None? ==>
            out.files == Map(Expected, CaritRequests(f1, CaritData(loaded[f1]).value))
                         + Map(Expected, CaritRequests(f2, CaritData(loaded[f2]).value)))
  {
    CaritRunCases(studyDir, subjectBidsId, "1", loaded);
    CaritRunCases(studyDir, subjectBidsId, "2", loaded);
  }

  // =====================================================================
  // Working memory

  datatype WmRow = WmRow(trialImageStartTime: Num, blockCueStartTime: Num,
                         condition: Text, category: Text, blockFixStartTime: Num)

  /** A row of the `start` frame: a block cue. */
  datatype WmBlock = WmBlock(cue: real, condition: Text, category: Text)

  /** A row of the two frames concatenated side by side: the block cue at that
      position and the fixation start at that position, either of which may
      be missing when one frame is longer. */
  datatype WmRecord = WmRecord(block: Option<WmBlock>, fix: Num)

  const WmColumns: set<string> := {"blockCueStartTime", "condition", "category", "blockFixStartTime", "duration", "amplitude"}
  const WmCategories: seq<string> := ["faces", "objects"]
  const WmConditions: seq<string> := ["0back", "2back"]

  /** The rows kept for `start`: a positive image start and a positive cue start. */
  function WmStartOf(row: WmRow): Option<WmBlock> {
    if Positive(row.trialImageStartTime) && Positive(row.blockCueStartTime) then
      Some(WmBlock(row.blockCueStartTime.value, row.condition, row.category))
    else None
  }

  /** The rows kept for `end`: a positive fixation start. */
  function WmEndOf(row: WmRow): Option<real> {
    if Positive(row.blockFixStartTime) then Some(row.blockFixStartTime.value) else None
  }

  function WmStarts(rows: seq<WmRow>): seq<WmBlock> {
    FilterMap(WmStartOf, rows)
  }

  function WmEnds(rows: seq<WmRow>): seq<real> {
    FilterMap(WmEndOf, rows)
  }

  /** `pd.concat([start, end], axis=1)` after both are renumbered from 0:
      position `i` pairs the `i`-th cue with the `i`-th fixation, and the
      shorter frame is padded with missing cells. */
  function WmConcat(starts: seq<WmBlock>, ends: seq<real>): seq<WmRecord> {
    var n := if |starts| >= |ends| then |starts| else |ends|;
    seq(n, i requires 0 <= i < n =>
      WmRecord(if i < |starts| then Some(starts[i]) else None, if i < |ends| then Some(ends[i]) else None))
  }

  function WmData(rows: seq<WmRow>): seq<WmRecord> {
    WmConcat(WmStarts(rows), WmEnds(rows))
  }

  /** The `duration` column: fixation start minus cue start, missing when
      either is. */
  function WmDuration(r: WmRecord): Num {
    if r.block.Some? then Minus(r.fix, Some(r.block.value.cue)) else None
  }

  /** The line a record contributes to the file of category `c` and
      condition `cond`, if it belongs there. */
  function WmSelect(c: string, cond: string, r: WmRecord): Option<Line> {
    if r.block.Some? && r.block.value.category == Some(c) && r.block.value.condition == Some(cond) then
      Some(Line(r.block.value.cue, WmDuration(r), 1.0))
    else None
  }

  function WmGroup(data: seq<WmRecord>, c: string, cond: string): seq<Line> {
    FilterMap((r: WmRecord) => WmSelect(c, cond, r), data)
  }

  function WmRequest(file: string, data: seq<WmRecord>, c: string, cond: string): Request {
    Request(file + ("_" + cond + "_" + c + ".txt"), WmGroup(data, c, cond))
  }

  /** The four groups, for each category, `0back` then `2back`. */
  function WmRequests(file: string, data: seq<WmRecord>): seq<Request> {
    seq(4, k requires 0 <= k < 4 => WmRequest(file, data, WmCategories[k / 2], WmConditions[k % 2]))
  }

  function WmFile(studyDir: string, subjectBidsId: string): string {
    PathJoin(BehavioralDir(studyDir, subjectBidsId), "WM_Run_1")
  }

  /** `wm_onsets` with the output name built from the category. Computing the
      per-row `duration` of a frame without rows raises. */
  function WmOutcome(studyDir: string, subjectBidsId: string, loaded: map<string, seq<WmRow>>): TaskOutcome {
    var file := WmFile(studyDir, subjectBidsId);
    if file !in loaded then Outcome([], Some(LoadFailure(file)))
    else
      var data := WmData(loaded[file]);
      if |data| == 0 then Outcome([], Some(EmptyFrame))
      else SaveAll(WmColumns, WmRequests(file, data))
  }

  /** `wm_onsets` as the source has it: the output name uses a name that is
      never defined, which raises before the first file is written. */
  function WmOutcomeAsWritten(studyDir: string, subjectBidsId: string, loaded: map<string, seq<WmRow>>): TaskOutcome {
    var file := WmFile(studyDir, subjectBidsId);
    if file !in loaded then Outcome([], Some(LoadFailure(file)))
    else if |WmData(loaded[file])| == 0 then Outcome([], Some(EmptyFrame))
    else Outcome([], Some(NameError("p")))
  }

  // ---------------------------------------------------------------------
  // Working-memory properties

  /** The side-by-side frame pairs by position: it is as long as the longer
      frame; while both frames have a row, position `i` holds the `i`-th cue
      and the `i`-th fixation and its duration is their difference; past the
      end of the fixations the duration is missing; past the end of the cues
      the position has no block. */
  lemma WmPairing(starts: seq<WmBlock>, ends: seq<real>)
    ensures |WmConcat(starts, ends)| == (if |starts| >= |ends| then |starts| else |ends|)
    ensures forall i :: 0 <= i < |starts| && i < |ends| ==>
      WmConcat(starts, ends)[i] == WmRecord(Some(starts[i]), Some(ends[i]))
      && WmDuration(WmConcat(starts, ends)[i]) == Some(ends[i] - starts[i].cue)
    ensures forall i :: |ends| <= i < |starts| ==> WmDuration(WmConcat(starts, ends)[i]) == None
    ensures forall i :: |starts| <= i < |WmConcat(starts, ends)| ==> WmConcat(starts, ends)[i].block == None
  {
  }

  /** The lines of a working-memory group are exactly those of the blocks of
      that category and condition, each at its cue start with amplitude 1. */
  lemma WmGroupMembers(rows: seq<WmRow>, c: string, cond: string, l: Line)
    ensures l in WmGroup(WmData(rows), c, cond) <==>
      exists i :: 0 <= i < |WmStarts(rows)| && WmStarts(rows)[i].category == Some(c)
        && WmStarts(rows)[i].condition == Some(cond)
        && l == Line(WmStarts(rows)[i].cue, WmDuration(WmData(rows)[i]), 1.0)
  {
    var data := WmData(rows);
    var starts := WmStarts(rows);
    if l in WmGroup(data, c, cond) {
      var r :| r in data && WmSelect(c, cond, r) == Some(l);
      var i :| 0 <= i < |data| && data[i] == r;
      assert i < |starts|;
    }
    if exists i :: 0 <= i < |starts| && starts[i].category == Some(c) && starts[i].condition == Some(cond)
        && l == Line(starts[i].cue, WmDuration(data[i]), 1.0) {
      var i :| 0 <= i < |starts| && starts[i].category == Some(c) && starts[i].condition == Some(cond)
        && l == Line(starts[i].cue, WmDuration(data[i]), 1.0);
      assert data[i] in data && WmSelect(c, cond, data[i]) == Some(l);
    }
  }

  /** Every block cue comes from a row with positive image and cue start
      times, and every such row gives a block cue. */
  lemma WmStartsFromRows(rows: seq<WmRow>, b: WmBlock)
    ensures b in WmStarts(rows) <==>
      exists row :: row in rows && Positive(row.trialImageStartTime) && Positive(row.blockCueStartTime)
        && b == WmBlock(row.blockCueStartTime.value, row.condition, row.category)
  {
  }

  /** The group file of a working-memory condition and category gets the
      block-cue headers. */
  lemma WmTagHeaders(dir: string, cond: string, c: string)
    requires cond in WmConditions && c in WmCategories
    ensures GetOutputHeaders(PathJoin(dir, "WM_Run_1") + ("_" + cond + "_" + c + ".txt")) == BlockCueHeaders
  {
    var suffix := "_" + cond + "_" + c + ".txt";
    assert '/' !in suffix;
    assert ("WM_Run_1" + suffix)[..8] == "WM_Run_1";
    BlockCueHeadersFor(dir, "WM_Run_1", suffix);
  }

  /** All four working-memory groups get the block-cue headers, which the
      frame has, so each is written and nothing raises. */
  lemma WmSavesAll(dir: string, data: seq<WmRecord>)
    ensures var file := PathJoin(dir, "WM_Run_1");
      SaveAll(WmColumns, WmRequests(file, data)) == Outcome(Map(Expected, WmRequests(file, data)), None)
  {
    var file := PathJoin(dir, "WM_Run_1");
    var reqs := WmRequests(file, data);
    forall k | 0 <= k < |reqs| ensures GetOutputHeaders(reqs[k].path) == BlockCueHeaders {
      WmTagHeaders(dir, WmConditions[k % 2], WmCategories[k / 2]);
    }
    SaveAllBlockCueRequests(WmColumns, reqs);
  }

  /** `wm_onsets` raises a read failure without its file and a frame error
      when no row is kept for either frame; otherwise it writes the four
      groups, cut to the block-cue headers, and raises nothing. */
  lemma WmOutcomeFiles(studyDir: string, subjectBidsId: string, loaded: map<string, seq<WmRow>>)
    ensures var file := WmFile(studyDir, subjectBidsId);
      var out := WmOutcome(studyDir, subjectBidsId, loaded);
      && (file !in loaded ==> out == Outcome([], Some(LoadFailure(file))))
      && (file in loaded && WmStarts(loaded[file]) == [] && WmEnds(loaded[file]) == [] ==>
            out == Outcome([], Some(EmptyFrame)))
      && (file in loaded && (WmStarts(loaded[file]) != [] || WmEnds(loaded[file]) != []) ==>
            out == Outcome(Map(Expected, WmRequests(file, WmData(loaded[file]))), None))
  {
    var file := WmFile(studyDir, subjectBidsId);
    if file in loaded {
      WmPairing(WmStarts(loaded[file]), WmEnds(loaded[file]));
      WmSavesAll(BehavioralDir(studyDir, subjectBidsId), WmData(loaded[file]));
    }
  }

  /** As the source is written, `wm_onsets` never writes a file. */
  lemma WmAsWrittenWritesNothing(studyDir: string, subjectBidsId: string, loaded: map<string, seq<WmRow>>)
    ensures WmOutcomeAsWritten(studyDir, subjectBidsId, loaded).files == []
    ensures var file := WmFile(studyDir, subjectBidsId);
      file in loaded && |WmData(loaded[file])| > 0 ==>
        WmOutcomeAsWritten(studyDir, subjectBidsId, loaded).error == Some(NameError("p"))
  {
  }

  /** As the source spells the test, a working-memory group file is not
      recognised: it gets the onset headers. */
  lemma WmHeadersAsWritten(dir: string, suffix: string)
    requires '/' !in suffix && 'W' !in suffix
    ensures GetOutputHeadersAsWritten(PathJoin(dir, "WM_Run_1") + suffix) == OnsetHeaders
  {
    BasenameOfJoin(dir, "WM_Run_1", suffix);
    WmNameTail(suffix);
    NotUpperRun("WM_Run_1" + suffix);
  }

  lemma WmNameTail(suffix: string)
    requires 'W' !in suffix
    ensures var s := "WM_Run_1" + suffix; |s| >= 8 && s[..8] == "WM_Run_1" && 'W' !in s[1..]
  {
    var s := "WM_Run_1" + suffix;
    assert s[1..] == "M_Run_" + ['1'] + suffix;
    CharNotInConcat("M_Run_", suffix, '1', 'W');
  }

  /** A name that starts `WM_Run_1` and holds no other `W` does not hold
      `WM_RUN_1`. */
  lemma NotUpperRun(s: string)
    requires |s| >= 8 && s[..8] == "WM_Run_1" && 'W' !in s[1..]
    ensures !Contains(s, "WM_RUN_1")
  {
    assert s[..8][4] != "WM_RUN_1"[4];
    assert forall i :: 0 <= i < |s| - 8 ==> s[1..|s| - 7][i] == s[1..][i];
    NotContainedPastFirst(s, "WM_RUN_1");
  }

  /** With that spelling, every non-empty working-memory group raises: the
      frame has no `onset` column to cut it to. */
  lemma WmGroupAsWrittenRaises(dir: string, data: seq<WmRecord>, c: string, cond: string)
    requires c in WmCategories && cond in WmConditions
    ensures var r := WmRequest(PathJoin(dir, "WM_Run_1"), data, c, cond);
      |r.lines| > 0 ==>
        WriteGroup(r.path, GetOutputHeadersAsWritten(r.path), WmColumns, r.lines) == Failure(KeyError("onset"))
  {
    var suffix := "_" + cond + "_" + c + ".txt";
    assert '/' !in suffix && 'W' !in suffix;
    WmHeadersAsWritten(dir, suffix);
    OnsetNotWmColumn();
  }

  lemma OnsetNotWmColumn()
    ensures "onset" !in WmColumns
  {
    assert forall col :: col in WmColumns ==> |col| != 5;
  }
}
