/** The subject identifiers of the pipeline's entry point: which CBS ids it
    accepts and how a CBS id (`<date>_STAR_<bids>_<num>`) becomes a BIDS
    subject id; and the agreement between the names the fetch step saves
    behavioural files under and the names the onset step reads. */
module Pipeline {
  import opened Wrappers
  import opened Strings
  import opened Seqs
  import opened Paths
  import Fetch
  import Behavioral

  datatype Error =
    | IndexError(id: string)   // a field index past the end of the split id
    | NameError(name: string)  // a name the source never defines

  /** The `_`-separated fields of an id. */
  function Fields(id: string): (c: seq<string>)
    ensures |c| >= 1
  {
    Split(id, "_")
  }

  /** An id the pipeline accepts: `STAR` in its second field and exactly four
      fields. */
  predicate IsStarId(id: string) {
    var c := Fields(id);
    |c| == 4 && c[1] == "STAR"
  }

  // =====================================================================
  // Selecting CBS ids

  /** How `get_subject_cbs_id` treats one id: reading the second field of an
      id without `_` raises; an id is kept when it is a STAR id and skipped
      otherwise. */
  function KeepCbsId(id: string): (r: Result<bool, Error>)
    ensures r.Failure? <==> !Contains(id, "_")
    ensures r.Failure? ==> r.error == IndexError(id)
    ensures r.Success? ==> (r.value <==> IsStarId(id))
  {
    var c := Fields(id);
    SplitSingle(id, "_");
    if |c| < 2 then Failure(IndexError(id))
    else if c[1] != "STAR" then Success(false)
    else if |c| != 4 then Success(false)
    else Success(true)
  }

  /** The same test as the source spells it: the message for a STAR id of the
      wrong length interpolates the undefined `YYMMDD`, which raises. */
  function KeepCbsIdAsWritten(id: string): Result<bool, Error> {
    var c := Fields(id);
    if |c| < 2 then Failure(IndexError(id))
    else if c[1] != "STAR" then Success(false)
    else if |c| != 4 then Failure(NameError("YYMMDD"))
    else Success(true)
  }

  /** The ids `keep` accepts, in order; the first id on which it raises ends
      the selection. */
  function Select(keep: string -> Result<bool, Error>, ids: seq<string>): Result<seq<string>, Error>
    decreases |ids|
  {
    if ids == [] then Success([])
    else
      var n := |ids| - 1;
      var kept :- Select(keep, ids[..n]);
      var k :- keep(ids[n]);
      Success(kept + (if k then [ids[n]] else []))
  }

  function SelectCbsIds(ids: seq<string>): Result<seq<string>, Error> {
    Select(KeepCbsId, ids)
  }

  function SelectCbsIdsAsWritten(ids: seq<string>): Result<seq<string>, Error> {
    Select(KeepCbsIdAsWritten, ids)
  }

  /** Once a prefix of the ids has raised, the later ids change nothing. */
  lemma {:induction false} SelectStopped(keep: string -> Result<bool, Error>, ids: seq<string>, k: nat)
    requires k <= |ids| && Select(keep, ids[..k]).Failure?
    ensures Select(keep, ids) == Select(keep, ids[..k])
    decreases |ids|
  {
    if k < |ids| {
      var n := |ids| - 1;
      assert ids[..n][..k] == ids[..k];
      SelectStopped(keep, ids[..n], k);
    } else {
      assert ids[..k] == ids;
    }
  }

  /** One more id extends the selection of a prefix. */
  lemma SelectStep(keep: string -> Result<bool, Error>, ids: seq<string>, k: nat, kept: seq<string>)
    requires k < |ids| && Select(keep, ids[..k]) == Success(kept)
    ensures keep(ids[k]).Failure? ==> Select(keep, ids[..k + 1]) == Failure(keep(ids[k]).error)
    ensures keep(ids[k]).Success? ==>
      Select(keep, ids[..k + 1]) == Success(kept + (if keep(ids[k]).value then [ids[k]] else []))
  {
    assert ids[..k + 1][..k] == ids[..k];
    assert ids[..k + 1][k] == ids[k];
  }

  /** `get_subject_cbs_id(cbs_ids)`. */
  method GetSubjectCbsId(cbsIds: seq<string>) returns (r: Result<seq<string>, Error>)
    ensures r == SelectCbsIds(cbsIds)
  {
    var arr := [];
    for k := 0 to |cbsIds|
      invariant Select(KeepCbsId, cbsIds[..k]) == Success(arr)
    {
      var c := Split(cbsIds[k], "_");
      SelectStep(KeepCbsId, cbsIds, k, arr);
      assert |c| >= 2 ==> KeepCbsId(cbsIds[k]) == Success(c[1] == "STAR" && |c| == 4);
      if |c| < 2 {
        SelectStopped(KeepCbsId, cbsIds, k + 1);
        return Failure(IndexError(cbsIds[k]));
      }
      if c[1] == "STAR" && |c| == 4 {
        arr := arr + [cbsIds[k]];
      } else {
        assert arr + [] == arr;
      }
    }
    assert cbsIds[..|cbsIds|] == cbsIds;
    return Success(arr);
  }

  /** The selection raises exactly when some id holds no `_`, and then with
      the first such id. */
  lemma {:induction false} CbsIdsFailure(ids: seq<string>)
    ensures SelectCbsIds(ids).Success? <==> forall k :: 0 <= k < |ids| ==> Contains(ids[k], "_")
    ensures SelectCbsIds(ids).Failure? ==> exists k :: (0 <= k < |ids| && !Contains(ids[k], "_")
      && SelectCbsIds(ids).error == IndexError(ids[k])
      && forall j :: 0 <= j < k ==> Contains(ids[j], "_"))
    decreases |ids|
  {
    if ids != [] {
      var n := |ids| - 1;
      var front := ids[..n];
      CbsIdsFailure(front);
      assert forall k :: 0 <= k < n ==> front[k] == ids[k];
      if SelectCbsIds(front).Failure? {
        var k :| 0 <= k < n && !Contains(front[k], "_")
          && SelectCbsIds(front).error == IndexError(front[k])
          && forall j :: 0 <= j < k ==> Contains(front[j], "_");
        assert SelectCbsIds(ids).error == IndexError(ids[k]);
      }
    }
  }

  /** The ids kept are exactly the STAR ids, in their input order. */
  lemma {:induction false} CbsIdsKept(ids: seq<string>)
    requires SelectCbsIds(ids).Success?
    ensures SelectCbsIds(ids).value == Filter(IsStarId, ids)
    decreases |ids|
  {
    if ids != [] {
      var n := |ids| - 1;
      CbsIdsKept(ids[..n]);
      FilterSnoc(IsStarId, ids);
    }
  }

  /** Hence the selection is an order-preserving subsequence of its input,
      and holds an id exactly when the input does and it is a STAR id. */
  lemma CbsIdsSubsequence(ids: seq<string>)
    requires SelectCbsIds(ids).Success?
    ensures Subsequence(SelectCbsIds(ids).value, ids)
    ensures forall x :: x in SelectCbsIds(ids).value <==> x in ids && IsStarId(x)
  {
    CbsIdsKept(ids);
    FilterSubsequence(IsStarId, ids);
  }

  // =====================================================================
  // BIDS ids

  /** `get_subject_bids_id(subject_cbs_id)`: `sub-` followed by the third and
      fourth fields; an id with fewer than four fields raises. */
  function GetSubjectBidsId(subjectCbsId: string): (r: Result<string, Error>)
    ensures r.Success? <==> |Fields(subjectCbsId)| >= 4
    ensures r.Failure? ==> r.error == IndexError(subjectCbsId)
  {
    var s := Fields(subjectCbsId);
    if |s| < 4 then Failure(IndexError(subjectCbsId))
    else Success("sub-" + s[2] + s[3])
  }

  /** Every id the selection keeps converts to a BIDS id. */
  lemma KeptIdsConvert(ids: seq<string>)
    requires SelectCbsIds(ids).Success?
    ensures forall x :: x in SelectCbsIds(ids).value ==>
      |Fields(x)| == 4 && GetSubjectBidsId(x) == Success("sub-" + Fields(x)[2] + Fields(x)[3])
  {
    CbsIdsSubsequence(ids);
  }

  /** A CBS id built from its parts. */
  function CbsId(date: string, bids: string, num: string): string {
    date + "_" + ("STAR" + "_" + (bids + "_" + num))
  }

  /** A CBS id whose parts hold no `_` has them as its fields: it is
      accepted, and its BIDS id joins the subject and session parts. */
  lemma CbsIdRoundTrip(date: string, bids: string, num: string)
    requires '_' !in date && '_' !in bids && '_' !in num
    ensures Fields(CbsId(date, bids, num)) == [date, "STAR", bids, num]
    ensures IsStarId(CbsId(date, bids, num))
    ensures KeepCbsId(CbsId(date, bids, num)) == Success(true)
    ensures GetSubjectBidsId(CbsId(date, bids, num)) == Success("sub-" + bids + num)
  {
    NotContainedWithChar(num, "_", 0);
    SplitWithout(num, "_");
    SplitAfter(bids, "_", num);
    SplitAfter("STAR", "_", bids + "_" + num);
    SplitAfter(date, "_", "STAR" + "_" + (bids + "_" + num));
    ContainsAt(CbsId(date, bids, num), "_", |date|);
  }

  /** A STAR id with only three fields: the source raises on it, while the
      evident intent is to skip it. */
  lemma StarIdWithoutNumber(date: string, bids: string)
    requires '_' !in date && '_' !in bids
    ensures var id := date + "_" + ("STAR" + "_" + bids);
      SelectCbsIdsAsWritten([id]) == Failure(NameError("YYMMDD")) &&
      SelectCbsIds([id]) == Success([])
  {
    var id := date + "_" + ("STAR" + "_" + bids);
    assert Fields(id) == [date, "STAR", bids] by {
      NotContainedWithChar(bids, "_", 0);
      SplitWithout(bids, "_");
      SplitAfter("STAR", "_", bids);
      SplitAfter(date, "_", "STAR" + "_" + bids);
    }
    assert KeepCbsIdAsWritten(id) == Failure(NameError("YYMMDD"));
    assert KeepCbsId(id) == Success(false);
    var ids := [id];
    assert ids[..0] == [] && ids[..1] == ids && ids[0] == id;
    assert Select(KeepCbsIdAsWritten, ids[..0]) == Success([]);
    assert Select(KeepCbsId, ids[..0]) == Success([]);
    SelectStep(KeepCbsIdAsWritten, ids, 0, []);
    assert Select(KeepCbsIdAsWritten, ids) == Failure(NameError("YYMMDD"));
    SelectStep(KeepCbsId, ids, 0, []);
    assert Select(KeepCbsId, ids) == Success([]);
  }

  // =====================================================================
  // Fetched names are the names read

  /** The behavioural directory holds the fetched files: naming a fetched
      file joins its saved name to that directory. */
  lemma FetchedInBehavioralDir(studyDir: string, subjectBidsId: string, uri: string)
    ensures var r := Fetch.GetFileName(uri, GetSourcePath(studyDir, subjectBidsId), "behavioral");
      r.Success? ==> r.value == PathJoin(Behavioral.BehavioralDir(studyDir, subjectBidsId),
                                         Fetch.BehavioralReference[Upper(Fetch.UriBasename(uri))])
  {
  }

  /** The Emotion and Working Memory files the fetch step saves are the
      files their onset tasks read. */
  lemma FetchedEmotionAndWm(studyDir: string, subjectBidsId: string, uri: string)
    ensures var r := Fetch.GetFileName(uri, GetSourcePath(studyDir, subjectBidsId), "behavioral");
      var key := Upper(Fetch.UriBasename(uri));
      (key == "EMOTION" ==> r == Success(Behavioral.EmotionFile(studyDir, subjectBidsId))) &&
      (key == "WORKING_MEMORY" ==> r == Success(Behavioral.WmFile(studyDir, subjectBidsId)))
  {
    var key := Upper(Fetch.UriBasename(uri));
    Fetch.ReferenceEntries();
    if key == "EMOTION" {
      FetchedAs(studyDir, subjectBidsId, uri, key, "EMOTION_Run_1");
    } else if key == "WORKING_MEMORY" {
      FetchedAs(studyDir, subjectBidsId, uri, key, "WM_Run_1");
    }
  }

  /** The two Guessing files the fetch step saves are the run files the
      Guessing task reads. */
  lemma FetchedGuessingRuns(studyDir: string, subjectBidsId: string, uri: string)
    ensures var r := Fetch.GetFileName(uri, GetSourcePath(studyDir, subjectBidsId), "behavioral");
      var key := Upper(Fetch.UriBasename(uri));
      (key == "GUESSING_RUN1" ==> r == Success(Behavioral.GuessingRunFile(studyDir, subjectBidsId, "1"))) &&
      (key == "GUESSING_RUN2" ==> r == Success(Behavioral.GuessingRunFile(studyDir, subjectBidsId, "2")))
  {
    var key := Upper(Fetch.UriBasename(uri));
    Fetch.ReferenceEntries();
    if key == "GUESSING_RUN1" {
      FetchedRun(studyDir, subjectBidsId, uri, key, "GUESSING_Run_", "1");
    } else if key == "GUESSING_RUN2" {
      FetchedRun(studyDir, subjectBidsId, uri, key, "GUESSING_Run_", "2");
    }
  }

  /** The two CARIT files the fetch step saves are the run files the CARIT
      task reads. */
  lemma FetchedCaritRuns(studyDir: string, subjectBidsId: string, uri: string)
    ensures var r := Fetch.GetFileName(uri, GetSourcePath(studyDir, subjectBidsId), "behavioral");
      var key := Upper(Fetch.UriBasename(uri));
      (key == "CARIT_RUN1" ==> r == Success(Behavioral.CaritRunFile(studyDir, subjectBidsId, "1"))) &&
      (key == "CARIT_RUN2" ==> r == Success(Behavioral.CaritRunFile(studyDir, subjectBidsId, "2")))
  {
    var key := Upper(Fetch.UriBasename(uri));
    Fetch.ReferenceEntries();
    if key == "CARIT_RUN1" {
      FetchedRun(studyDir, subjectBidsId, uri, key, "CARIT_Run_", "1");
    } else if key == "CARIT_RUN2" {
      FetchedRun(studyDir, subjectBidsId, uri, key, "CARIT_Run_", "2");
    }
  }

  /** A fetched file whose converted name is `name` lies in the behavioural
      directory under that name. */
  lemma FetchedAs(studyDir: string, subjectBidsId: string, uri: string, key: string, name: string)
    requires Upper(Fetch.UriBasename(uri)) == key
    requires key in Fetch.BehavioralReference && Fetch.BehavioralReference[key] == name
    ensures Fetch.GetFileName(uri, GetSourcePath(studyDir, subjectBidsId), "behavioral")
      == Success(PathJoin(Behavioral.BehavioralDir(studyDir, subjectBidsId), name))
  {
    FetchedInBehavioralDir(studyDir, subjectBidsId, uri);
  }

  /** A fetched run file whose converted name is `stem + run` is the file
      named by appending the run to the joined stem. */
  lemma FetchedRun(studyDir: string, subjectBidsId: string, uri: string, key: string, stem: string, run: string)
    requires Upper(Fetch.UriBasename(uri)) == key
    requires key in Fetch.BehavioralReference && Fetch.BehavioralReference[key] == stem + run
    requires stem != "" && stem[0] != '/'
    ensures Fetch.GetFileName(uri, GetSourcePath(studyDir, subjectBidsId), "behavioral")
      == Success(PathJoin(Behavioral.BehavioralDir(studyDir, subjectBidsId), stem) + run)
  {
    FetchedAs(studyDir, subjectBidsId, uri, key, stem + run);
    PathJoinAppend(Behavioral.BehavioralDir(studyDir, subjectBidsId), stem, run);
  }

  /** The Emotion name as the onset step spells it is none of the names the
      fetch step saves under. */
  lemma EmotionAsWrittenNotAName()
    ensures "EMOTION_RUN_1" !in Fetch.BehavioralReference.Values
  {
    Fetch.BehavioralNames();
    assert "EMOTION_RUN_1"[9] != "EMOTION_Run_1"[9];
  }

  /** No fetched file has the Emotion name as the onset step spells it. */
  lemma EmotionAsWrittenNeverFetched(studyDir: string, subjectBidsId: string, uri: string)
    ensures var r := Fetch.GetFileName(uri, GetSourcePath(studyDir, subjectBidsId), "behavioral");
      r.Success? ==> r.value != Behavioral.EmotionFileAsWritten(studyDir, subjectBidsId)
  {
    var r := Fetch.GetFileName(uri, GetSourcePath(studyDir, subjectBidsId), "behavioral");
    if r.Success? {
      var dir := Behavioral.BehavioralDir(studyDir, subjectBidsId);
      var v := Fetch.BehavioralReference[Upper(Fetch.UriBasename(uri))];
      FetchedInBehavioralDir(studyDir, subjectBidsId, uri);
      assert EndsWith(dir, "behavioral_files");
      assert dir[|dir| - 1] == 's';
      Fetch.ValuePlain(v);
      EmotionAsWrittenNotAName();
      JoinDistinct(dir, v, "EMOTION_RUN_1");
    }
  }
}
