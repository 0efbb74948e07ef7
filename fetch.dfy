/** The fetch step's naming logic: where a downloaded behavioural file or a
    converted scan is stored, how the phase-encoding direction is read back
    from a NIfTI file name and swapped, and which run number each scan of
    the metadata table is given. Downloads and DICOM conversion are not
    modelled: the scan loop yields the conversions it would request. */
module Fetch {
  import opened Wrappers
  import opened Strings
  import opened Seqs
  import opened Paths

  /** Why a fetch function raises. The source logs the cause and raises with
      a bare `raise` (or lets an `IndexError` escape); the constructor records
      the cause. */
  datatype Error =
    | IncompatibleDirection(direction: string) // not one of ap, pa, AP, PA
    | UnknownBehavioralName(basename: string)  // not in the conversion table
    | NoDirection(niiPath: string)             // no `_dir-` in the file name
    | MissingField(description: string)        // too few `_`-separated fields
    | IncompatibleType(prefix: string)         // neither an fMRI nor a dMRI series
    | NameError(name: string)                  // a name the module never defines

  // =====================================================================
  // Phase-encoding directions

  const Directions: set<string> := {"ap", "pa", "AP", "PA"}

  /** `get_opp_direction`: the opposite phase-encoding direction, in the same
      case. */
  function GetOppDirection(direction: string): (r: Result<string, Error>)
    ensures r.Success? <==> direction in Directions
    ensures r.Success? ==> r.value in Directions && r.value != direction
    ensures r.Failure? ==> r.error == IncompatibleDirection(direction)
  {
    if direction == "ap" then Success("pa")
    else if direction == "AP" then Success("PA")
    else if direction == "PA" then Success("AP")
    else if direction == "pa" then Success("ap")
    else Failure(IncompatibleDirection(direction))
  }

  /** Swapping twice gives the direction back. */
  lemma OppDirectionInvolution(direction: string)
    requires direction in Directions
    ensures GetOppDirection(GetOppDirection(direction).value) == Success(direction)
  {
  }

  /** The swap keeps the case: lower-case directions map to lower-case ones. */
  lemma OppDirectionKeepsCase(direction: string)
    requires direction in Directions
    ensures Lower(GetOppDirection(direction).value) == GetOppDirection(direction).value
      <==> Lower(direction) == direction
  {
    var r := GetOppDirection(direction).value;
    if direction == "AP" || direction == "PA" {
      assert Lower(direction)[0] != direction[0];
      assert Lower(r)[0] != r[0];
    }
  }

  // =====================================================================
  // Behavioural files

  /** The upper-cased names under which the repository stores the
      behavioural files, and the names they are saved under. */
  const BehavioralReference: map<string, string> := map[
    "CARIT_RUN1" := "CARIT_Run_1",
    "CARIT_RUN2" := "CARIT_Run_2",
    "EMOTION" := "EMOTION_Run_1",
    "GUESSING_RUN1" := "GUESSING_Run_1",
    "GUESSING_RUN2" := "GUESSING_Run_2",
    "WORKING_MEMORY" := "WM_Run_1"]

  /** `convert_basename_behavioral`: looks the upper-cased name up in the
      table; a name the table lacks raises. */
  function ConvertBasenameBehavioral(basename: string): (r: Result<string, Error>)
    ensures r.Success? <==> Upper(basename) in BehavioralReference
    ensures r.Success? ==> r.value in BehavioralReference.Values
    ensures r.Failure? ==> r.error == UnknownBehavioralName(basename)
  {
    var b := Upper(basename);
    if b in BehavioralReference then Success(BehavioralReference[b])
    else Failure(UnknownBehavioralName(basename))
  }

  /** The table's entries, one by one. */
  lemma ReferenceEntries()
    ensures "CARIT_RUN1" in BehavioralReference && BehavioralReference["CARIT_RUN1"] == "CARIT_Run_1"
    ensures "CARIT_RUN2" in BehavioralReference && BehavioralReference["CARIT_RUN2"] == "CARIT_Run_2"
    ensures "EMOTION" in BehavioralReference && BehavioralReference["EMOTION"] == "EMOTION_Run_1"
    ensures "GUESSING_RUN1" in BehavioralReference && BehavioralReference["GUESSING_RUN1"] == "GUESSING_Run_1"
    ensures "GUESSING_RUN2" in BehavioralReference && BehavioralReference["GUESSING_RUN2"] == "GUESSING_Run_2"
    ensures "WORKING_MEMORY" in BehavioralReference && BehavioralReference["WORKING_MEMORY"] == "WM_Run_1"
  {
    assert "CARIT_RUN1"[9] != "CARIT_RUN2"[9];
    assert "GUESSING_RUN1"[12] != "GUESSING_RUN2"[12];
  }

  /** The six names a behavioural file can be saved under. */
  lemma BehavioralNames()
    ensures BehavioralReference.Values ==
      {"CARIT_Run_1", "CARIT_Run_2", "EMOTION_Run_1", "GUESSING_Run_1", "GUESSING_Run_2", "WM_Run_1"}
  {
    ReferenceEntries();
  }

  /** No saved name is empty or holds a `/`. */
  lemma ValuePlain(v: string)
    requires v in BehavioralReference.Values
    ensures v != "" && '/' !in v
  {
    BehavioralNames();
    if v == "CARIT_Run_1" || v == "CARIT_Run_2" {
    } else if v == "GUESSING_Run_1" || v == "GUESSING_Run_2" {
    } else if v == "EMOTION_Run_1" {
    } else {
      assert v == "WM_Run_1";
    }
  }

  /** The conversion ignores case: names that upper-case alike convert alike. */
  lemma ConvertIgnoresCase(a: string, b: string)
    requires Upper(a) == Upper(b)
    ensures ConvertBasenameBehavioral(a).Success? <==> ConvertBasenameBehavioral(b).Success?
    ensures ConvertBasenameBehavioral(a).Success? ==>
      ConvertBasenameBehavioral(a).value == ConvertBasenameBehavioral(b).value
  {
  }

  /** Every table name converts, whatever its case: in particular its
      lower-case spelling does. */
  lemma ConvertLowerCase(key: string)
    requires key in BehavioralReference
    ensures ConvertBasenameBehavioral(key) == Success(BehavioralReference[key])
    ensures ConvertBasenameBehavioral(Lower(key)) == Success(BehavioralReference[key])
  {
    assert NoLowerCase(key) by {
      if key == "CARIT_RUN1" || key == "CARIT_RUN2" {
      } else if key == "GUESSING_RUN1" || key == "GUESSING_RUN2" {
      } else if key == "EMOTION" {
      } else {
        assert key == "WORKING_MEMORY";
      }
    }
    UpperOfLower(key);
    UpperKeeps(key);
  }

  predicate NoLowerCase(s: string) {
    forall i :: 0 <= i < |s| ==> !('a' <= s[i] <= 'z')
  }

  const BehavioralFolder := "behavioral_files"

  /** The name of a repository file: the text after the last `files/` of its
      URI (the whole URI when it has none). */
  function UriBasename(uri: string): (b: string)
    ensures EndsWith(uri, b) && !Contains(b, "files/")
    ensures Contains(uri, "files/") ==> EndsWith(uri, "files/" + b)
    ensures !Contains(uri, "files/") ==> b == uri
  {
    LastPiece(uri, "files/");
    Last(Split(uri, "files/"))
  }

  /** `get_file_name(uri, source_path, file_type)`: behavioural files go
      under `behavioral_files` with their converted name; any other file
      keeps its repository name directly under `source_path`. */
  function GetFileName(uri: string, sourcePath: string, fileType: string): (r: Result<string, Error>)
    ensures fileType != "behavioral" ==> r == Success(PathJoin(sourcePath, UriBasename(uri)))
    ensures fileType == "behavioral" ==> (r.Success? <==> Upper(UriBasename(uri)) in BehavioralReference)
  {
    var basename := UriBasename(uri);
    if fileType == "behavioral" then
      var b :- ConvertBasenameBehavioral(basename);
      Success(PathJoin(PathJoin(sourcePath, BehavioralFolder), b))
    else
      Success(PathJoin(sourcePath, basename))
  }

  /** A behavioural file is saved as `<source>/behavioral_files/<name>`, with
      `<name>` the table's conversion of its repository name, and so its
      base name is one of the six table values. */
  lemma BehavioralFileName(uri: string, sourcePath: string)
    requires sourcePath != "" && sourcePath[|sourcePath| - 1] != '/'
    ensures var r := GetFileName(uri, sourcePath, "behavioral");
      r.Success? ==>
        var v := BehavioralReference[Upper(UriBasename(uri))];
        r.value == sourcePath + "/" + BehavioralFolder + "/" + v &&
        v in BehavioralReference.Values && Basename(r.value) == v
  {
    var r := GetFileName(uri, sourcePath, "behavioral");
    if r.Success? {
      var v := BehavioralReference[Upper(UriBasename(uri))];
      BehavioralNames();
      var dir := PathJoin(sourcePath, BehavioralFolder);
      JoinRelative(sourcePath, BehavioralFolder);
      assert dir[|dir| - 1] == 's';
      ValuePlain(v);
      JoinRelative(dir, v);
      BasenameJoin(dir, v);
    }
  }

  // =====================================================================
  // NIfTI file names

  /** The part of a NIfTI name from the direction on, shared by fMRI and
      dMRI names: `_dir-<d>_run-<r>_<st>.nii.gz`. */
  function DirectionTail(direction: string, run: nat, scanType: string): string {
    "_dir-" + (direction + "_run-" + NatToString(run) + "_" + scanType + ".nii.gz")
  }

  /** `<sub>_task-<t>_dir-<d>_run-<r>_<st>.nii.gz`. */
  function FmriFileName(subjectBidsId: string, task: string, direction: string, run: nat, scanType: string): string {
    subjectBidsId + "_task-" + task + DirectionTail(direction, run, scanType)
  }

  /** `<sub>_dir-<d>_run-<r>_<st>.nii.gz`. */
  function DmriFileName(subjectBidsId: string, direction: string, run: nat, scanType: string): string {
    subjectBidsId + DirectionTail(direction, run, scanType)
  }

  /** `get_fmri_filepath`: the fMRI name under `<study>/<sub>/func`. */
  function GetFmriFilepath(studyDir: string, subjectBidsId: string, task: string, direction: string,
                           run: nat, scanType: string): string
  {
    PathJoin(PathJoin(PathJoin(studyDir, subjectBidsId), "func"),
             FmriFileName(subjectBidsId, task, direction, run, scanType))
  }

  /** `get_dmri_filepath`: the dMRI name under `<study>/<sub>/dwi`. */
  function GetDmriFilepath(studyDir: string, subjectBidsId: string, direction: string,
                           run: nat, scanType: string): string
  {
    PathJoin(PathJoin(PathJoin(studyDir, subjectBidsId), "dwi"),
             DmriFileName(subjectBidsId, direction, run, scanType))
  }

  /** A series description whose last field is `sbref` in any case names a
      single-band reference image. */
  predicate IsSbref(fields: seq<string>)
    requires |fields| > 0
  {
    Lower(Last(fields)) == "sbref"
  }

  /** `get_nii_path(study_dir, subject_bids_id, run, description)`: the
      description is split on `_`; an fMRI series (first field ending in
      `fMRI`) takes its task and direction from the fields before the scan
      type, a dMRI series its direction; fields are lower-cased, and a
      negative index past the first field raises. */
  function GetNiiPath(studyDir: string, subjectBidsId: string, run: nat, description: string): (r: Result<string, Error>)
    ensures var d := Split(description, "_");
      r.Success? <==>
        (EndsWith(d[0], "fMRI") && |d| >= (if IsSbref(d) then 3 else 2)) ||
        (!EndsWith(d[0], "fMRI") && EndsWith(d[0], "dMRI") && (IsSbref(d) ==> |d| >= 2))
    ensures var d := Split(description, "_");
      !EndsWith(d[0], "fMRI") && !EndsWith(d[0], "dMRI") ==> r == Failure(IncompatibleType(d[0]))
  {
    var d := Split(description, "_");
    var n := |d|;
    if EndsWith(d[0], "fMRI") then
      if IsSbref(d) then
        if n < 3 then Failure(MissingField(description))
        else Success(GetFmriFilepath(studyDir, subjectBidsId, Lower(d[n - 3]), Lower(d[n - 2]), run, Lower(d[n - 1])))
      else
        if n < 2 then Failure(MissingField(description))
        else Success(GetFmriFilepath(studyDir, subjectBidsId, Lower(d[n - 2]), Lower(d[n - 1]), run, "bold"))
    else if EndsWith(d[0], "dMRI") then
      if IsSbref(d) then
        if n < 2 then Failure(MissingField(description))
        else Success(GetDmriFilepath(studyDir, subjectBidsId, Lower(d[n - 2]), run, Lower(d[n - 1])))
      else
        Success(GetDmriFilepath(studyDir, subjectBidsId, Lower(d[n - 1]), run, "dwi"))
    else
      Failure(IncompatibleType(d[0]))
  }

  /** The field of a series description that names its phase-encoding
      direction, lower-cased: the one before `sbref`, or the last one. */
  function DescribedDirection(description: string): string {
    var d := Split(description, "_");
    var n := |d|;
    if IsSbref(d) && n >= 2 then Lower(d[n - 2]) else Lower(d[n - 1])
  }

  /** The field of a series description that names the task of an fMRI
      series, lower-cased: the one before its direction field (empty when
      there is none). */
  function DescribedTask(description: string): string {
    var d := Split(description, "_");
    var n := |d|;
    var k := if IsSbref(d) then 3 else 2;
    if n >= k then Lower(d[n - k]) else ""
  }

  /** The scan type a series description names: `sbref` when its last field
      is `sbref` in any case, and `plain` (`bold` for fMRI, `dwi` for dMRI)
      otherwise. */
  function DescribedScanType(description: string, plain: string): string {
    if IsSbref(Split(description, "_")) then "sbref" else plain
  }

  /** The fields of a NIfTI name from the direction on. */
  function TailFields(direction: string, run: nat, scanType: string): seq<string> {
    ["dir-" + direction, "run-" + NatToString(run), scanType + ".nii.gz"]
  }

  /** The direction part of a NIfTI name is `_` followed by its fields joined
      with `_`, and none of them holds `_` when the direction and the scan
      type do not. */
  lemma TailJoin(direction: string, run: nat, scanType: string)
    requires '_' !in direction && '_' !in scanType
    ensures DirectionTail(direction, run, scanType) == "_" + Join(TailFields(direction, run, scanType), "_")
    ensures forall k :: 0 <= k < 3 ==> '_' !in TailFields(direction, run, scanType)[k]
  {
    var f := TailFields(direction, run, scanType);
    assert '_' !in NatToString(run);
    assert Join(f[2..], "_") == f[2];
    assert Join(f[1..], "_") == f[1] + "_" + f[2] by { assert f[1..][1..] == f[2..]; }
  }

  /** The fields of an fMRI name: subject, `task-<t>`, `dir-<d>`, `run-<r>`
      and `<st>.nii.gz`. */
  lemma FmriNameFields(subjectBidsId: string, task: string, direction: string, run: nat, scanType: string)
    requires '_' !in subjectBidsId && '_' !in task && '_' !in direction && '_' !in scanType
    ensures Split(FmriFileName(subjectBidsId, task, direction, run, scanType), "_")
      == [subjectBidsId, "task-" + task, "dir-" + direction, "run-" + NatToString(run), scanType + ".nii.gz"]
  {
    var t := TailFields(direction, run, scanType);
    var b := "task-" + task;
    var f := [subjectBidsId] + ([b] + t);
    TailJoin(direction, run, scanType);
    assert Join(f, "_") == FmriFileName(subjectBidsId, task, direction, run, scanType) by {
      JoinCons(b, t, "_");
      JoinCons(subjectBidsId, [b] + t, "_");
    }
    assert forall k :: 0 <= k < |f| ==> '_' !in f[k];
    SplitJoin(f, '_');
    assert f == [subjectBidsId, "task-" + task, "dir-" + direction, "run-" + NatToString(run), scanType + ".nii.gz"];
  }

  /** The fields of a dMRI name: subject, `dir-<d>`, `run-<r>` and
      `<st>.nii.gz`. */
  lemma DmriNameFields(subjectBidsId: string, direction: string, run: nat, scanType: string)
    requires '_' !in subjectBidsId && '_' !in direction && '_' !in scanType
    ensures Split(DmriFileName(subjectBidsId, direction, run, scanType), "_")
      == [subjectBidsId, "dir-" + direction, "run-" + NatToString(run), scanType + ".nii.gz"]
  {
    var t := TailFields(direction, run, scanType);
    var f := [subjectBidsId] + t;
    TailJoin(direction, run, scanType);
    assert Join(f, "_") == DmriFileName(subjectBidsId, direction, run, scanType) by {
      JoinCons(subjectBidsId, t, "_");
    }
    SplitJoin(f, '_');
  }

  /** `get_nii_path` builds the fMRI path of the task, direction and scan
      type the description names. */
  lemma FmriNiiPath(studyDir: string, subjectBidsId: string, run: nat, description: string)
    requires EndsWith(Split(description, "_")[0], "fMRI")
    ensures GetNiiPath(studyDir, subjectBidsId, run, description).Success? ==>
      GetNiiPath(studyDir, subjectBidsId, run, description).value
        == GetFmriFilepath(studyDir, subjectBidsId, DescribedTask(description), DescribedDirection(description),
                           run, DescribedScanType(description, "bold"))
  {
  }

  /** `get_nii_path` builds the dMRI path of the direction and scan type the
      description names for a series that is not fMRI. */
  lemma DmriNiiPath(studyDir: string, subjectBidsId: string, run: nat, description: string)
    requires !EndsWith(Split(description, "_")[0], "fMRI")
    ensures GetNiiPath(studyDir, subjectBidsId, run, description).Success? ==>
      GetNiiPath(studyDir, subjectBidsId, run, description).value
        == GetDmriFilepath(studyDir, subjectBidsId, DescribedDirection(description),
                           run, DescribedScanType(description, "dwi"))
  {
    var d := Split(description, "_");
    if EndsWith(d[0], "dMRI") {
      if IsSbref(d) {
        assert DescribedScanType(description, "dwi") == Lower(d[|d| - 1]);
      } else {
        assert DescribedDirection(description) == Lower(d[|d| - 1]);
      }
    }
  }

  /** The task and direction fields of a description hold no `_`, nor `/`
      when the description holds none. */
  lemma DescribedClean(description: string)
    requires '/' !in description
    ensures '_' !in DescribedTask(description) && '/' !in DescribedTask(description)
    ensures '_' !in DescribedDirection(description) && '/' !in DescribedDirection(description)
  {
    var d := Split(description, "_");
    var n := |d|;
    var k := if IsSbref(d) then 3 else 2;
    if n >= k {
      FieldClean(description, n - k);
    }
    if IsSbref(d) && n >= 2 {
      FieldClean(description, n - 2);
    } else {
      FieldClean(description, n - 1);
    }
  }

  /** The base name of the path `get_nii_path` builds for an fMRI series
      carries, field by field, the subject, the task and direction the
      description names, the run, and the scan type `sbref` or `bold`. */
  lemma NiiPathFieldsFmri(studyDir: string, subjectBidsId: string, run: nat, description: string)
    requires '_' !in subjectBidsId && '/' !in subjectBidsId && '/' !in description
    requires EndsWith(Split(description, "_")[0], "fMRI")
    ensures GetNiiPath(studyDir, subjectBidsId, run, description).Success? ==>
      Split(Basename(GetNiiPath(studyDir, subjectBidsId, run, description).value), "_")
        == [subjectBidsId, "task-" + DescribedTask(description), "dir-" + DescribedDirection(description),
            "run-" + NatToString(run), DescribedScanType(description, "bold") + ".nii.gz"]
  {
    FmriNiiPath(studyDir, subjectBidsId, run, description);
    DescribedClean(description);
    FmriPathFields(studyDir, subjectBidsId, DescribedTask(description), DescribedDirection(description),
                   run, DescribedScanType(description, "bold"));
  }

  /** The base name of the path `get_nii_path` builds for a dMRI series
      carries, field by field, the subject, the direction the description
      names, the run, and the scan type `sbref` or `dwi`. */
  lemma NiiPathFieldsDmri(studyDir: string, subjectBidsId: string, run: nat, description: string)
    requires '_' !in subjectBidsId && '/' !in subjectBidsId && '/' !in description
    requires !EndsWith(Split(description, "_")[0], "fMRI")
    ensures GetNiiPath(studyDir, subjectBidsId, run, description).Success? ==>
      Split(Basename(GetNiiPath(studyDir, subjectBidsId, run, description).value), "_")
        == [subjectBidsId, "dir-" + DescribedDirection(description),
            "run-" + NatToString(run), DescribedScanType(description, "dwi") + ".nii.gz"]
  {
    DmriNiiPath(studyDir, subjectBidsId, run, description);
    DescribedClean(description);
    DmriPathFields(studyDir, subjectBidsId, DescribedDirection(description),
                   run, DescribedScanType(description, "dwi"));
  }

  /** The base name of an fMRI path, field by field. */
  lemma FmriPathFields(studyDir: string, subjectBidsId: string, task: string, direction: string, run: nat, scanType: string)
    requires '_' !in subjectBidsId && '_' !in task && '_' !in direction && '_' !in scanType
    requires '/' !in subjectBidsId && '/' !in task && '/' !in direction && '/' !in scanType
    ensures Split(Basename(GetFmriFilepath(studyDir, subjectBidsId, task, direction, run, scanType)), "_")
      == [subjectBidsId, "task-" + task, "dir-" + direction, "run-" + NatToString(run), scanType + ".nii.gz"]
  {
    NameWithout('/', subjectBidsId, task, direction, run, scanType);
    BasenameJoin(PathJoin(PathJoin(studyDir, subjectBidsId), "func"), FmriFileName(subjectBidsId, task, direction, run, scanType));
    FmriNameFields(subjectBidsId, task, direction, run, scanType);
  }

  /** The base name of a dMRI path, field by field. */
  lemma DmriPathFields(studyDir: string, subjectBidsId: string, direction: string, run: nat, scanType: string)
    requires '_' !in subjectBidsId && '_' !in direction && '_' !in scanType
    requires '/' !in subjectBidsId && '/' !in direction && '/' !in scanType
    ensures Split(Basename(GetDmriFilepath(studyDir, subjectBidsId, direction, run, scanType)), "_")
      == [subjectBidsId, "dir-" + direction, "run-" + NatToString(run), scanType + ".nii.gz"]
  {
    NameWithout('/', subjectBidsId, "", direction, run, scanType);
    BasenameJoin(PathJoin(PathJoin(studyDir, subjectBidsId), "dwi"), DmriFileName(subjectBidsId, direction, run, scanType));
    DmriNameFields(subjectBidsId, direction, run, scanType);
  }

  // =====================================================================
  // Reading the direction back

  /** `get_direction(nii_path)`: the text of the base name between the first
      `_dir-` and the next `_`. */
  function GetDirection(niiPath: string): (r: Result<string, Error>)
    ensures r.Failure? <==> !Contains(Basename(niiPath), "_dir-")
    ensures r.Failure? ==> r.error == NoDirection(niiPath)
    ensures r.Success? ==> '_' !in r.value
    ensures r.Success? ==>
      var b := Basename(niiPath);
      var i := IndexOf(b, "_dir-", 0).value + 5;
      i + |r.value| <= |b| && b[i..i + |r.value|] == r.value && (i + |r.value| == |b| || b[i + |r.value|] == '_')
  {
    var parts := Split(Basename(niiPath), "_dir-");
    SplitSingle(Basename(niiPath), "_dir-");
    if |parts| < 2 then Failure(NoDirection(niiPath))
    else
      var direction := Split(parts[1], "_")[0];
      NoCharPiece(direction, '_');
      DirectionPiece(Basename(niiPath), IndexOf(Basename(niiPath), "_dir-", 0).value, direction);
      Success(direction)
  }

  /** The direction piece of a base name holding `_dir-` is the text right
      after its first `_dir-`, ending at the next `_` or at the end. */
  lemma DirectionPiece(b: string, k: nat, direction: string)
    requires IndexOf(b, "_dir-", 0) == Some(k)
    requires |Split(b, "_dir-")| >= 2 && direction == Split(Split(b, "_dir-")[1], "_")[0]
    ensures k + 5 + |direction| <= |b| && b[k + 5..k + 5 + |direction|] == direction
    ensures k + 5 + |direction| == |b| || b[k + 5 + |direction|] == '_'
  {
    FirstPieceOf(Split(b, "_dir-")[1], "_", direction);
    PieceThenPrefix(b, "_dir-", k, Split(b, "_dir-")[1], direction, '_');
  }

  /** `_dir-` does not start within the direction or the `_r` after it. */
  lemma NoDirBeforeRun(direction: string, rest: string)
    requires '_' !in direction
    ensures forall j :: 0 <= j < |direction| + 2 ==> !OccursAt(direction + "_run-" + rest, "_dir-", j)
  {
    var t := direction + "_run-" + rest;
    var m := |direction|;
    forall j | 0 <= j < m + 2 ensures !OccursAt(t, "_dir-", j) {
      if j < m {
        assert t[j] == direction[j];
        NotAtByChar(t, "_dir-", j, 0);
      } else if j == m {
        assert t[m + 1] == 'r';
        NotAtByChar(t, "_dir-", j, 1);
      } else {
        assert t[m + 1] == 'r';
        NotAtByChar(t, "_dir-", j, 0);
      }
    }
  }

  /** In `<d>_run-...`, no `_dir-` starts before the `run`, so the first
      `_dir-` piece begins with `<d>_` and its first `_` piece is `<d>`. */
  lemma DirectionOfTail(direction: string, rest: string)
    requires '_' !in direction
    ensures Split(Split(direction + "_run-" + rest, "_dir-")[0], "_")[0] == direction
  {
    var t := direction + "_run-" + rest;
    var m := |direction|;
    NoDirBeforeRun(direction, rest);
    FirstPieceKeepsPrefix(t, "_dir-", m + 2);
    var p := Split(t, "_dir-")[0];
    assert p[..m + 2] == t[..m + 2];
    assert p[m] == '_' && p[..m] == direction;
    FirstPieceAt(p, '_', m);
  }

  /** The first `_dir-` of `<stem><tail>` is the one that starts the tail
      when the stem holds none. */
  lemma FirstDirAt(stem: string, tail: string)
    requires forall j :: 0 <= j < |stem| ==> !OccursAt(stem + "_dir-" + tail, "_dir-", j)
    ensures Split(stem + "_dir-" + tail, "_dir-") == [stem] + Split(tail, "_dir-")
  {
    var s := stem + "_dir-" + tail;
    assert s[|stem|..|stem| + 5] == "_dir-";
    SplitAt(s, "_dir-", |stem|);
    assert s[..|stem|] == stem;
    assert s[|stem| + 5..] == tail;
  }

  /** `<sub>_task-<t>` holds no `_dir-`, nor does one straddle its end, when
      neither the subject nor the task label holds `_`. */
  lemma TaskStemClear(subjectBidsId: string, task: string, tail: string)
    requires '_' !in subjectBidsId && '_' !in task
    ensures var stem := subjectBidsId + "_task-" + task;
      forall j :: 0 <= j < |stem| ==> !OccursAt(stem + "_dir-" + tail, "_dir-", j)
  {
    var stem := subjectBidsId + "_task-" + task;
    var s := stem + "_dir-" + tail;
    var m := |subjectBidsId|;
    forall j | 0 <= j < |stem| ensures !OccursAt(s, "_dir-", j) {
      if j < m {
        assert s[j] == subjectBidsId[j];
        NotAtByChar(s, "_dir-", j, 0);
      } else if j == m {
        assert s[m + 1] == 't';
        NotAtByChar(s, "_dir-", j, 1);
      } else if j < m + 6 {
        assert s[j] == "_task-"[j - m];
        NotAtByChar(s, "_dir-", j, 0);
      } else {
        assert s[j] == task[j - m - 6];
        NotAtByChar(s, "_dir-", j, 0);
      }
    }
  }

  /** The characters of a NIfTI name are those of its parts. */
  lemma NameWithout(x: char, subjectBidsId: string, task: string, direction: string, run: nat, scanType: string)
    requires x != '_' && x != '.' && x !in "taskdirun-gz" && !('0' <= x <= '9')
    requires x !in subjectBidsId && x !in task && x !in direction && x !in scanType
    ensures x !in FmriFileName(subjectBidsId, task, direction, run, scanType)
    ensures x !in DmriFileName(subjectBidsId, direction, run, scanType)
  {
    assert x !in NatToString(run);
  }

  /** The direction written into an fMRI name is the one read back from its
      path. */
  lemma FmriDirectionRoundTrip(studyDir: string, subjectBidsId: string, task: string, direction: string,
                               run: nat, scanType: string)
    requires '_' !in subjectBidsId && '_' !in task && '_' !in direction
    requires '/' !in subjectBidsId && '/' !in task && '/' !in direction && '/' !in scanType
    ensures GetDirection(GetFmriFilepath(studyDir, subjectBidsId, task, direction, run, scanType)) == Success(direction)
  {
    var name := FmriFileName(subjectBidsId, task, direction, run, scanType);
    var rest := NatToString(run) + "_" + scanType + ".nii.gz";
    var stem := subjectBidsId + "_task-" + task;
    var t := direction + "_run-" + rest;
    assert name == stem + "_dir-" + t;
    NameWithout('/', subjectBidsId, task, direction, run, scanType);
    var dir := PathJoin(PathJoin(studyDir, subjectBidsId), "func");
    BasenameJoin(dir, name);
    TaskStemClear(subjectBidsId, task, t);
    FirstDirAt(stem, t);
    DirectionOfTail(direction, rest);
    DirectionAfter(PathJoin(dir, name), stem, t);
  }

  /** The direction written into a dMRI name is the one read back from its
      path. */
  lemma DmriDirectionRoundTrip(studyDir: string, subjectBidsId: string, direction: string,
                               run: nat, scanType: string)
    requires '_' !in subjectBidsId && '_' !in direction
    requires '/' !in subjectBidsId && '/' !in direction && '/' !in scanType
    ensures GetDirection(GetDmriFilepath(studyDir, subjectBidsId, direction, run, scanType)) == Success(direction)
  {
    var name := DmriFileName(subjectBidsId, direction, run, scanType);
    var rest := NatToString(run) + "_" + scanType + ".nii.gz";
    var t := direction + "_run-" + rest;
    assert name == subjectBidsId + "_dir-" + t;
    NameWithout('/', subjectBidsId, "", direction, run, scanType);
    var dir := PathJoin(PathJoin(studyDir, subjectBidsId), "dwi");
    BasenameJoin(dir, name);
    SplitAfter(subjectBidsId, "_dir-", t);
    DirectionOfTail(direction, rest);
    DirectionAfter(PathJoin(dir, name), subjectBidsId, t);
  }

  /** The direction read from a path whose base name's first `_dir-` follows
      `stem`. */
  lemma DirectionAfter(niiPath: string, stem: string, t: string)
    requires Basename(niiPath) == stem + "_dir-" + t
    requires Split(stem + "_dir-" + t, "_dir-") == [stem] + Split(t, "_dir-")
    ensures GetDirection(niiPath) == Success(Split(Split(t, "_dir-")[0], "_")[0])
  {
  }

  /** A lower-cased field of a description holds neither `_` nor, when the
      description has none, `/`. */
  lemma FieldClean(description: string, k: nat)
    requires k < |Split(description, "_")| && '/' !in description
    ensures '_' !in Lower(Split(description, "_")[k]) && '/' !in Lower(Split(description, "_")[k])
  {
    var f := Split(description, "_")[k];
    NoCharPiece(f, '_');
    SplitPiecesWithout(description, "_", '/');
    LowerKeepsChar(f, '_');
    LowerKeepsChar(f, '/');
  }

  /** The path `get_nii_path` builds carries the direction its description
      names, and `get_direction` reads exactly that direction back. */
  lemma NiiPathDirection(studyDir: string, subjectBidsId: string, run: nat, description: string)
    requires '_' !in subjectBidsId && '/' !in subjectBidsId && '/' !in description
    ensures var r := GetNiiPath(studyDir, subjectBidsId, run, description);
      r.Success? ==> GetDirection(r.value) == Success(DescribedDirection(description))
  {
    var d := Split(description, "_");
    var task, direction := DescribedTask(description), DescribedDirection(description);
    DescribedClean(description);
    assert '_' !in task && '/' !in task && '_' !in direction && '/' !in direction;
    if EndsWith(d[0], "fMRI") {
      var scanType := DescribedScanType(description, "bold");
      assert '/' !in scanType;
      FmriNiiPath(studyDir, subjectBidsId, run, description);
      FmriDirectionRoundTrip(studyDir, subjectBidsId, task, direction, run, scanType);
    } else {
      var scanType := DescribedScanType(description, "dwi");
      assert '/' !in scanType;
      DmriNiiPath(studyDir, subjectBidsId, run, description);
      DmriDirectionRoundTrip(studyDir, subjectBidsId, direction, run, scanType);
    }
  }

  /** `path` is a file directly in the `folder` folder of the subject's
      directory in the study directory. */
  ghost predicate InFolder(path: string, studyDir: string, subjectBidsId: string, folder: string) {
    exists name :: path == studyDir + "/" + subjectBidsId + "/" + folder + "/" + name
  }

  /** Every fMRI path `get_nii_path` builds lies in the subject's `func`
      folder of the study directory. */
  lemma NiiPathFolderFmri(studyDir: string, subjectBidsId: string, run: nat, description: string)
    requires studyDir != "" && studyDir[|studyDir| - 1] != '/'
    requires subjectBidsId != "" && '/' !in subjectBidsId
    requires EndsWith(Split(description, "_")[0], "fMRI")
    ensures var r := GetNiiPath(studyDir, subjectBidsId, run, description);
      r.Success? ==> InFolder(r.value, studyDir, subjectBidsId, "func")
  {
    var d := Split(description, "_");
    var n := |d|;
    if IsSbref(d) && n >= 3 {
      FmriFolder(studyDir, subjectBidsId, Lower(d[n - 3]), Lower(d[n - 2]), run, Lower(d[n - 1]));
    } else if !IsSbref(d) && n >= 2 {
      FmriFolder(studyDir, subjectBidsId, Lower(d[n - 2]), Lower(d[n - 1]), run, "bold");
    }
  }

  /** Every path `get_nii_path` builds for a series that is not fMRI is a
      dMRI path and lies in the subject's `dwi` folder of the study
      directory. */
  lemma NiiPathFolderDmri(studyDir: string, subjectBidsId: string, run: nat, description: string)
    requires studyDir != "" && studyDir[|studyDir| - 1] != '/'
    requires subjectBidsId != "" && '/' !in subjectBidsId
    requires !EndsWith(Split(description, "_")[0], "fMRI")
    ensures var r := GetNiiPath(studyDir, subjectBidsId, run, description);
      r.Success? ==> InFolder(r.value, studyDir, subjectBidsId, "dwi")
  {
    forall direction, scanType
      ensures InFolder(GetDmriFilepath(studyDir, subjectBidsId, direction, run, scanType), studyDir, subjectBidsId, "dwi")
    {
      DmriFolder(studyDir, subjectBidsId, direction, run, scanType);
    }
  }

  lemma FmriFolder(studyDir: string, subjectBidsId: string, task: string, direction: string, run: nat, scanType: string)
    requires studyDir != "" && studyDir[|studyDir| - 1] != '/'
    requires subjectBidsId != "" && '/' !in subjectBidsId
    ensures InFolder(GetFmriFilepath(studyDir, subjectBidsId, task, direction, run, scanType), studyDir, subjectBidsId, "func")
  {
    var name := FmriFileName(subjectBidsId, task, direction, run, scanType);
    assert name[0] == subjectBidsId[0];
    FolderJoin(studyDir, subjectBidsId, "func", name);
    assert GetFmriFilepath(studyDir, subjectBidsId, task, direction, run, scanType)
      == studyDir + "/" + subjectBidsId + "/" + "func" + "/" + name;
  }

  lemma DmriFolder(studyDir: string, subjectBidsId: string, direction: string, run: nat, scanType: string)
    requires studyDir != "" && studyDir[|studyDir| - 1] != '/'
    requires subjectBidsId != "" && '/' !in subjectBidsId
    ensures InFolder(GetDmriFilepath(studyDir, subjectBidsId, direction, run, scanType), studyDir, subjectBidsId, "dwi")
  {
    var name := DmriFileName(subjectBidsId, direction, run, scanType);
    assert name[0] == subjectBidsId[0];
    FolderJoin(studyDir, subjectBidsId, "dwi", name);
    assert GetDmriFilepath(studyDir, subjectBidsId, direction, run, scanType)
      == studyDir + "/" + subjectBidsId + "/" + "dwi" + "/" + name;
  }

  /** `join(join(join(study, sub), folder), name)` spelled out. */
  lemma FolderJoin(studyDir: string, subjectBidsId: string, folder: string, name: string)
    requires studyDir != "" && studyDir[|studyDir| - 1] != '/'
    requires subjectBidsId != "" && subjectBidsId[0] != '/' && subjectBidsId[|subjectBidsId| - 1] != '/'
    requires folder != "" && folder[0] != '/' && folder[|folder| - 1] != '/'
    requires name != "" && name[0] != '/'
    ensures PathJoin(PathJoin(PathJoin(studyDir, subjectBidsId), folder), name)
      == studyDir + "/" + subjectBidsId + "/" + folder + "/" + name
  {
    var a := PathJoin(studyDir, subjectBidsId);
    JoinRelative(studyDir, subjectBidsId);
    assert a[|a| - 1] == subjectBidsId[|subjectBidsId| - 1];
    var b := PathJoin(a, folder);
    JoinRelative(a, folder);
    assert b[|b| - 1] == folder[|folder| - 1];
    JoinRelative(b, name);
  }

  // =====================================================================
  // The scan loop

  /** A row of the scan metadata table: the scan id and its series
      description. */
  datatype ScanRow = ScanRow(id: string, description: string)

  /** A conversion the scan loop requests: the scan, its description, the
      run number it was given and the NIfTI path it is converted to. */
  datatype ScanJob = ScanJob(scanId: string, description: string, run: nat, niiPath: string)

  /** How many rows carry the description `d`. */
  function Tally(d: string, rows: seq<ScanRow>): nat
    decreases |rows|
  {
    if rows == [] then 0
    else Tally(d, rows[..|rows| - 1]) + (if rows[|rows| - 1].description == d then 1 else 0)
  }

  /** The run number of row `k`: how many of the rows up to and including it
      share its description. */
  function RunOf(rows: seq<ScanRow>, k: nat): (r: nat)
    requires k < |rows|
    ensures r >= 1
  {
    assert rows[..k + 1][..k] == rows[..k];
    Tally(rows[k].description, rows[..k + 1])
  }

  /** One iteration of `get_scan_data`: the scan is saved and converted to
      the path its description and run give, or the loop raises. */
  function ScanStep(studyDir: string, subjectBidsId: string, row: ScanRow, run: nat): Outcome<ScanJob, Error> {
    match GetNiiPath(studyDir, subjectBidsId, run, row.description)
    case Failure(e) => Outcome([], Some(e))
    case Success(p) => Outcome([ScanJob(row.id, row.description, run, p)], None)
  }

  function ScanSteps(studyDir: string, subjectBidsId: string, rows: seq<ScanRow>): seq<Outcome<ScanJob, Error>> {
    seq(|rows|, k requires 0 <= k < |rows| => ScanStep(studyDir, subjectBidsId, rows[k], RunOf(rows, k)))
  }

  /** `get_scan_data` on the metadata table `rows`: each row in turn, until
      one raises. */
  function ScanDataOutcome(studyDir: string, subjectBidsId: string, rows: seq<ScanRow>): Outcome<ScanJob, Error> {
    Chain(ScanSteps(studyDir, subjectBidsId, rows))
  }

  /** Bumping the counter of row `k`'s description keeps the counters equal
      to the tallies of the rows seen so far, and yields the row's run. */
  lemma TallyStep(rows: seq<ScanRow>, k: nat, runs: map<string, nat>)
    requires k < |rows|
    requires forall d :: Tally(d, rows[..k]) == (if d in runs then runs[d] else 0)
    ensures var e := rows[k].description;
      var bumped := runs[e := (if e in runs then runs[e] else 0) + 1];
      (forall d :: Tally(d, rows[..k + 1]) == (if d in bumped then bumped[d] else 0)) &&
      bumped[e] == RunOf(rows, k)
  {
    assert rows[..k + 1][..k] == rows[..k];
  }

  /** The step row `k` takes with its run number extends the chain of the
      steps before it. */
  lemma ScanStepChains(studyDir: string, subjectBidsId: string, rows: seq<ScanRow>, k: nat,
                       out: Outcome<ScanJob, Error>, run: nat, step: Outcome<ScanJob, Error>)
    requires k < |rows|
    requires out == Chain(ScanSteps(studyDir, subjectBidsId, rows)[..k])
    requires run == RunOf(rows, k) && step == ScanStep(studyDir, subjectBidsId, rows[k], run)
    ensures Then(out, step) == Chain(ScanSteps(studyDir, subjectBidsId, rows)[..k + 1])
  {
    ChainStep(ScanSteps(studyDir, subjectBidsId, rows), k);
  }

  /** Once every row is done or one has raised, the outcome of the rows
      so far is the outcome of the whole table. */
  lemma ScanDataStopped(studyDir: string, subjectBidsId: string, rows: seq<ScanRow>, k: nat,
                        out: Outcome<ScanJob, Error>)
    requires k <= |rows| && out == Chain(ScanSteps(studyDir, subjectBidsId, rows)[..k])
    requires k == |rows| || out.error.Some?
    ensures out == ScanDataOutcome(studyDir, subjectBidsId, rows)
  {
    ChainStopped(ScanSteps(studyDir, subjectBidsId, rows), k);
  }

  /** `get_scan_data`: a per-description counter numbers the runs. */
  method GetScanData(studyDir: string, subjectBidsId: string, metadata: seq<ScanRow>)
    returns (out: Outcome<ScanJob, Error>)
    ensures out == ScanDataOutcome(studyDir, subjectBidsId, metadata)
  {
    ghost var steps := ScanSteps(studyDir, subjectBidsId, metadata);
    var runs: map<string, nat> := map[];
    out := Outcome([], None);
    var k := 0;
    while k < |metadata|
      invariant 0 <= k <= |metadata|
      invariant out == Chain(steps[..k])
      invariant forall d :: Tally(d, metadata[..k]) == (if d in runs then runs[d] else 0)
    {
      if out.error.Some? {
        break;
      }
      var description := metadata[k].description;
      TallyStep(metadata, k, runs);
      runs := runs[description := (if description in runs then runs[description] else 0) + 1];
      var run := runs[description];
      var step;
      match GetNiiPath(studyDir, subjectBidsId, run, description) {
        case Failure(e) =>
          step := Outcome([], Some(e));
        case Success(niiPath) =>
          step := Outcome([ScanJob(metadata[k].id, description, run, niiPath)], None);
      }
      ScanStepChains(studyDir, subjectBidsId, metadata, k, out, run, step);
      out := Then(out, step);
      k := k + 1;
    }
    ScanDataStopped(studyDir, subjectBidsId, metadata, k, out);
  }

  /** The rows carrying description `d`. */
  function HasDescription(d: string): ScanRow -> bool {
    (row: ScanRow) => row.description == d
  }

  /** The run number of a row depends only on the rows up to it. */
  lemma RunOfPrefix(rows: seq<ScanRow>, n: nat, j: nat)
    requires j < n <= |rows|
    ensures RunOf(rows[..n], j) == RunOf(rows, j)
  {
    assert rows[..n][..j + 1] == rows[..j + 1];
  }

  /** Per description the runs count up from 1: the m-th row carrying a
      description is run m + 1, and there are as many runs as rows. */
  lemma {:induction false} RunsCountUp(rows: seq<ScanRow>, d: string)
    ensures var idx := Indices(HasDescription(d), rows);
      |idx| == Tally(d, rows) && forall m :: 0 <= m < |idx| ==> RunOf(rows, idx[m]) == m + 1
    decreases |rows|
  {
    if rows != [] {
      var n := |rows| - 1;
      var front := rows[..n];
      RunsCountUp(front, d);
      var idx := Indices(HasDescription(d), rows);
      var idx0 := Indices(HasDescription(d), front);
      assert idx == idx0 + (if rows[n].description == d then [n] else []);
      forall m | 0 <= m < |idx0| ensures RunOf(rows, idx0[m]) == m + 1 {
        RunOfPrefix(rows, n, idx0[m]);
      }
      if rows[n].description == d {
        assert rows[..n + 1] == rows;
      }
    }
  }

  /** A row that fails to convert stops the loop; otherwise each row yields
      one conversion, numbered by its run. */
  lemma ScanDataJobs(studyDir: string, subjectBidsId: string, rows: seq<ScanRow>)
    requires forall k :: 0 <= k < |rows| ==> GetNiiPath(studyDir, subjectBidsId, RunOf(rows, k), rows[k].description).Success?
    ensures var out := ScanDataOutcome(studyDir, subjectBidsId, rows);
      out.error.None? && |out.files| == |rows| &&
      forall k :: 0 <= k < |rows| ==>
        out.files[k] == ScanJob(rows[k].id, rows[k].description, RunOf(rows, k),
                                GetNiiPath(studyDir, subjectBidsId, RunOf(rows, k), rows[k].description).value)
  {
    var steps := ScanSteps(studyDir, subjectBidsId, rows);
    ChainAllSucceed(steps);
    AllFilesSingle(steps);
  }

  /** A step raises exactly when `get_nii_path` does, with its error. */
  lemma StepError(studyDir: string, subjectBidsId: string, row: ScanRow, run: nat)
    ensures var p := GetNiiPath(studyDir, subjectBidsId, run, row.description);
      var step := ScanStep(studyDir, subjectBidsId, row, run);
      (step.error.None? <==> p.Success?) && (p.Failure? ==> step.error == Some(p.error))
  {
  }

  /** The loop raises exactly when some row's description does not convert,
      with the error of the first such row. */
  lemma ScanDataError(studyDir: string, subjectBidsId: string, rows: seq<ScanRow>)
    ensures var out := ScanDataOutcome(studyDir, subjectBidsId, rows);
      (out.error.None? <==> forall k :: 0 <= k < |rows| ==>
         GetNiiPath(studyDir, subjectBidsId, RunOf(rows, k), rows[k].description).Success?) &&
      (out.error.Some? ==> exists k :: (0 <= k < |rows| &&
         Failure(out.error.value) == GetNiiPath(studyDir, subjectBidsId, RunOf(rows, k), rows[k].description) &&
         forall j :: 0 <= j < k ==> GetNiiPath(studyDir, subjectBidsId, RunOf(rows, j), rows[j].description).Success?))
  {
    var steps := ScanSteps(studyDir, subjectBidsId, rows);
    ChainError(steps);
    var out := Chain(steps);
    forall k | 0 <= k < |rows|
      ensures var p := GetNiiPath(studyDir, subjectBidsId, RunOf(rows, k), rows[k].description);
        (steps[k].error.None? <==> p.Success?) && (p.Failure? ==> steps[k].error == Some(p.error))
    {
      StepError(studyDir, subjectBidsId, rows[k], RunOf(rows, k));
    }
    if out.error.Some? {
      var k :| 0 <= k < |steps| && out.error == steps[k].error
        && forall j :: 0 <= j < k ==> steps[j].error.None?;
      assert Failure(out.error.value) == GetNiiPath(studyDir, subjectBidsId, RunOf(rows, k), rows[k].description);
    }
  }

  // ---------------------------------------------------------------------
  // The scan loop as written

  /** `save_fmap` as the module has it: it calls `glob.glob`, but `glob` is
      never imported, so the call raises before anything is written. */
  const FmapStepAsWritten: Outcome<ScanJob, Error> := Outcome([], Some(NameError("glob")))

  /** `get_scan_data` as written: each row is converted, then `save_fmap`
      runs. */
  function ScanStepsAsWritten(studyDir: string, subjectBidsId: string, rows: seq<ScanRow>): seq<Outcome<ScanJob, Error>> {
    seq(|rows|, k requires 0 <= k < |rows| => Then(ScanStep(studyDir, subjectBidsId, rows[k], RunOf(rows, k)), FmapStepAsWritten))
  }

  function ScanDataOutcomeAsWritten(studyDir: string, subjectBidsId: string, rows: seq<ScanRow>): Outcome<ScanJob, Error> {
    Chain(ScanStepsAsWritten(studyDir, subjectBidsId, rows))
  }

  /** The first row is always run 1. */
  lemma FirstRun(rows: seq<ScanRow>)
    requires rows != []
    ensures RunOf(rows, 0) == 1
  {
    var front := rows[..1];
    var d := rows[0].description;
    assert front[..|front| - 1] == [];
    assert Tally(d, front) == Tally(d, []) + 1;
  }

  /** As written, the loop never gets past the first row: an empty table
      does nothing, and otherwise the first row is converted as run 1 and
      then `save_fmap` raises, or its conversion raises first. */
  lemma ScanDataAsWrittenStops(studyDir: string, subjectBidsId: string, rows: seq<ScanRow>)
    ensures var out := ScanDataOutcomeAsWritten(studyDir, subjectBidsId, rows);
      && (rows == [] ==> out == Outcome([], None))
      && (rows != [] ==> out == Then(ScanStep(studyDir, subjectBidsId, rows[0], 1), FmapStepAsWritten))
  {
    var steps := ScanStepsAsWritten(studyDir, subjectBidsId, rows);
    if rows != [] {
      FirstRun(rows);
      ChainStep(steps, 0);
      assert steps[..0] == [];
      ChainStopped(steps, 1);
    }
  }

  /** The discrepancy: on a table of two or more rows that all convert, the
      loop as written requests one conversion and raises `NameError`, where
      the intended loop requests one per row. */
  lemma ScanDataAsWrittenLosesRows(studyDir: string, subjectBidsId: string, rows: seq<ScanRow>)
    requires |rows| >= 2
    requires forall k :: 0 <= k < |rows| ==> GetNiiPath(studyDir, subjectBidsId, RunOf(rows, k), rows[k].description).Success?
    ensures var written := ScanDataOutcomeAsWritten(studyDir, subjectBidsId, rows);
      written.error == Some(NameError("glob")) && |written.files| == 1 <
      |ScanDataOutcome(studyDir, subjectBidsId, rows).files| == |rows|
  {
    FirstRun(rows);
    assert GetNiiPath(studyDir, subjectBidsId, 1, rows[0].description).Success?;
    ScanDataAsWrittenStops(studyDir, subjectBidsId, rows);
    ScanDataJobs(studyDir, subjectBidsId, rows);
  }
}
