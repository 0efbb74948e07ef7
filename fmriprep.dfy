/** Confound filtering after fMRIPrep: for every confound table of a subject,
    the nine nuisance regressors are written out, and the positions of the
    framewise-displacement outliers and of the DVARS outliers (above the
    upper Tukey fence) are written as index lists. Also the four derivative
    directories of an fMRIPrep version.

    A confound table is rectangular: every named column has one cell per
    row, and `None` is an empty cell (NaN). Globbing and reading are
    parameters: `glob` maps a pattern to the files it matches and `loaded`
    maps every path that can be read to its table. */
module Fmriprep {
  import opened Wrappers
  import opened Strings
  import opened Seqs
  import opened Paths

  /** A numeric cell; `None` is NaN. */
  type Num = Option<real>

  // =====================================================================
  // Derivative directories

  function GetFmriprepDir(studyDir: string, version: string): string {
    PathJoin(PathJoin(studyDir, "derivatives"), "fmriprep-" + version)
  }

  function GetWorkDir(studyDir: string, version: string): string {
    PathJoin(PathJoin(studyDir, "derivatives"), "fmriprep-work-" + version)
  }

  function GetLogDir(studyDir: string, version: string): string {
    PathJoin(PathJoin(studyDir, "derivatives"), "fmriprep-log-" + version)
  }

  function GetSbatchDir(studyDir: string, version: string): string {
    PathJoin(PathJoin(studyDir, "derivatives"), "fmriprep-sbatch-" + version)
  }

  /** The derivative directories spelled out, for a study directory without a
      trailing slash. */
  lemma DerivativeDirsShape(studyDir: string, version: string)
    requires studyDir != "" && studyDir[|studyDir| - 1] != '/'
    ensures GetFmriprepDir(studyDir, version) == studyDir + "/" + "derivatives" + "/" + ("fmriprep-" + version)
    ensures GetWorkDir(studyDir, version) == studyDir + "/" + "derivatives" + "/" + ("fmriprep-work-" + version)
    ensures GetLogDir(studyDir, version) == studyDir + "/" + "derivatives" + "/" + ("fmriprep-log-" + version)
    ensures GetSbatchDir(studyDir, version) == studyDir + "/" + "derivatives" + "/" + ("fmriprep-sbatch-" + version)
  {
    var d := PathJoin(studyDir, "derivatives");
    JoinRelative(studyDir, "derivatives");
    assert d[|d| - 1] == 's';
    JoinRelative(d, "fmriprep-" + version);
    JoinRelative(d, "fmriprep-work-" + version);
    JoinRelative(d, "fmriprep-log-" + version);
    JoinRelative(d, "fmriprep-sbatch-" + version);
  }

  /** The four directories of one study and version are pairwise different,
      whatever the study directory and the version. */
  lemma DerivativeDirsDistinct(studyDir: string, version: string)
    ensures var dirs := [GetFmriprepDir(studyDir, version), GetWorkDir(studyDir, version),
                         GetLogDir(studyDir, version), GetSbatchDir(studyDir, version)];
      forall i, j :: 0 <= i < j < 4 ==> dirs[i] != dirs[j]
  {
    var d := PathJoin(studyDir, "derivatives");
    var front := if d == "" || d[|d| - 1] == '/' then d else d + "/";
    var names := ["fmriprep-" + version, "fmriprep-work-" + version, "fmriprep-log-" + version, "fmriprep-sbatch-" + version];
    var dirs := [GetFmriprepDir(studyDir, version), GetWorkDir(studyDir, version),
                 GetLogDir(studyDir, version), GetSbatchDir(studyDir, version)];
    forall k | 0 <= k < 4 ensures dirs[k] == front + names[k] && |names[k]| == [9, 14, 13, 16][k] + |version| {
    }
  }

  // =====================================================================
  // Confound tables

  datatype ConfoundTable = ConfoundTable(length: nat, columns: map<string, seq<Num>>)

  /** Every column has one cell per row. */
  predicate Rectangular(t: ConfoundTable) {
    forall c :: c in t.columns ==> |t.columns[c]| == t.length
  }

  datatype Error =
    | NoConfounds(subject: string) // the glob matched no confound file
    | LoadFailure(path: string)    // a confound file could not be read
    | KeyError(column: string)     // a column the table does not have
    | EmptyPercentile              // a percentile of no values

  /** The nine nuisance regressors, in the order they are written. */
  const NineP: seq<string> := ["trans_x", "trans_y", "trans_z", "rot_x", "rot_y", "rot_z",
                               "csf", "white_matter", "global_signal"]

  /** Framewise displacement above this, in millimetres, flags a volume. */
  const FdThreshold: real := 0.5

  /** The Tukey fence lies this many interquartile ranges beyond the quartiles. */
  const FenceFactor: real := 1.5

  function Column(t: ConfoundTable, name: string): Result<seq<Num>, Error> {
    if name in t.columns then Success(t.columns[name]) else Failure(KeyError(name))
  }

  /** pandas `cell > bound` when either may be NaN: false if either is. */
  predicate Above(x: Num, bound: Num) {
    x.Some? && bound.Some? && x.value > bound.value
  }

  /** The row test `cell > bound`, as a predicate on cells. */
  function Exceeds(bound: Num): Num -> bool {
    (x: Num) => Above(x, bound)
  }

  /** `df[params]`: the nine regressor columns of every row, in `NineP` order,
      or the error for the first of them the table lacks. */
  function NinePRows(t: ConfoundTable): (r: Result<seq<seq<Num>>, Error>)
    requires Rectangular(t)
    ensures r.Failure? <==> exists k :: 0 <= k < |NineP| && NineP[k] !in t.columns
    ensures r.Failure? ==> r.error.KeyError? && r.error.column in NineP && r.error.column !in t.columns
    ensures r.Success? ==> |r.value| == t.length
    ensures r.Success? ==> forall i :: 0 <= i < t.length ==> |r.value[i]| == |NineP|
    ensures r.Success? ==> forall i, j :: 0 <= i < t.length && 0 <= j < |NineP| ==>
      r.value[i][j] == t.columns[NineP[j]][i]
  {
    match FirstMissing(NineP, t.columns.Keys)
    case Some(c) => Failure(KeyError(c))
    case None =>
      Success(seq(t.length, i requires 0 <= i < t.length =>
        seq(|NineP|, j requires 0 <= j < |NineP| => t.columns[NineP[j]][i])))
  }

  /** The row positions whose framewise displacement exceeds the threshold. */
  function FdOutliers(t: ConfoundTable): Result<seq<nat>, Error> {
    var fd :- Column(t, "framewise_displacement");
    Success(Indices(Exceeds(Some(FdThreshold)), fd))
  }

  // =====================================================================
  // Percentiles and the Tukey fence

  predicate SortedReals(s: seq<real>) {
    forall i, j :: 0 <= i <= j < |s| ==> s[i] <= s[j]
  }

  /** `x` placed into a sorted sequence. */
  function Insert(x: real, s: seq<real>): (r: seq<real>)
    requires SortedReals(s)
    ensures SortedReals(r) && multiset(r) == multiset(s) + multiset{x} && |r| == |s| + 1
    ensures r[0] == if s == [] || x <= s[0] then x else s[0]
    decreases |s|
  {
    if s == [] || x <= s[0] then [x] + s
    else
      var rest := Insert(x, s[1..]);
      assert s == [s[0]] + s[1..];
      assert s[0] <= rest[0];
      [s[0]] + rest
  }

  /** The values in ascending order. */
  function Sort(s: seq<real>): (r: seq<real>)
    ensures SortedReals(r) && multiset(r) == multiset(s) && |r| == |s|
    decreases |s|
  {
    if s == [] then []
    else
      assert s == [s[0]] + s[1..];
      Insert(s[0], Sort(s[1..]))
  }

  /** The point a fraction `f` of the way from `a` to `b`. */
  function Lerp(a: real, b: real, f: real): real {
    a + (b - a) * f
  }

  /** For a fraction between zero and one the point lies between the ends. */
  lemma LerpWithin(a: real, b: real, f: real)
    requires a <= b && 0.0 <= f <= 1.0
    ensures a <= Lerp(a, b, f) <= b
  {
    var d := b - a;
    MulNonNegative(d, f);
    MulNonNegative(d, 1.0 - f);
    assert d * (1.0 - f) == d - d * f;
  }

  /** The value at fractional position `h` of a sorted sequence, by linear
      interpolation between its two neighbours. */
  function Interpolate(s: seq<real>, h: real): real
    requires |s| > 0 && 0.0 <= h <= (|s| - 1) as real
  {
    var lo := h.Floor;
    var frac := h - lo as real;
    if lo + 1 < |s| then Lerp(s[lo], s[lo + 1], frac) else s[lo]
  }

  /** A fraction of a non-negative length lies between zero and that length. */
  lemma ScaleWithin(n: real, f: real)
    requires 0.0 <= n && 0.0 <= f <= 1.0
    ensures 0.0 <= n * f <= n
  {
    MulNonNegative(n, f);
    MulNonNegative(n, 1.0 - f);
    assert n * (1.0 - f) == n - n * f;
  }

  lemma MulNonNegative(x: real, y: real)
    requires 0.0 <= x && 0.0 <= y
    ensures 0.0 <= x * y
  {
  }

  /** The fractional position of the `q`-th percentile among `n` sorted values. */
  function Rank(n: nat, q: real): (h: real)
    requires n > 0 && 0.0 <= q <= 100.0
    ensures 0.0 <= h <= (n - 1) as real
  {
    var len := (n - 1) as real;
    var f := q / 100.0;
    ScaleWithin(len, f);
    len * f
  }

  /** `np.percentile(values, q)` with numpy's default linear method. */
  function Percentile(values: seq<real>, q: real): real
    requires |values| > 0 && 0.0 <= q <= 100.0
  {
    Interpolate(Sort(values), Rank(|values|, q))
  }

  /** The quartiles and the two fences. */
  datatype Fence = Fence(q25: real, q75: real, lower: real, upper: real)

  function TukeyFence(values: seq<real>): Fence
    requires |values| > 0
  {
    var q25 := Percentile(values, 25.0);
    var q75 := Percentile(values, 75.0);
    var cutOff := (q75 - q25) * FenceFactor;
    Fence(q25, q75, q25 - cutOff, q75 + cutOff)
  }

  /** The dvars values the quartiles are taken over: all but the first row's. */
  function DvarsSample(dvars: seq<Num>): seq<Num> {
    if |dvars| == 0 then [] else dvars[1..]
  }

  predicate AllPresent(xs: seq<Num>) {
    forall i :: 0 <= i < |xs| ==> xs[i].Some?
  }

  function Values(xs: seq<Num>): (r: seq<real>)
    requires AllPresent(xs)
    ensures |r| == |xs| && forall i :: 0 <= i < |xs| ==> xs[i] == Some(r[i])
  {
    seq(|xs|, i requires 0 <= i < |xs| => xs[i].value)
  }

  /** The upper fence over the sample: NaN when a sample value is NaN (numpy
      propagates it), an error when the sample is empty. */
  function DvarsUpper(dvars: seq<Num>): Result<Num, Error> {
    var sample := DvarsSample(dvars);
    if |sample| == 0 then Failure(EmptyPercentile)
    else if !AllPresent(sample) then Success(None)
    else Success(Some(TukeyFence(Values(sample)).upper))
  }

  /** The row positions, the first row included, whose dvars exceeds the
      upper fence. */
  function DvarsOutliers(t: ConfoundTable): Result<seq<nat>, Error> {
    var dvars :- Column(t, "dvars");
    var upper :- DvarsUpper(dvars);
    Success(Indices(Exceeds(upper), dvars))
  }

  // =====================================================================
  // Writing the outputs

  /** A regressor matrix or an index list written to a path. */
  datatype ConfoundWrite =
    | Regressors(path: string, rows: seq<seq<Num>>)
    | IndexList(path: string, indices: seq<nat>)

  type ConfoundOutcome = Outcome<ConfoundWrite, Error>

  function NinePPath(confoundFile: string): string {
    ReplaceAll(confoundFile, ".tsv", "-9p.txt")
  }

  function FdPath(confoundFile: string): string {
    ReplaceAll(confoundFile, "confounds_regressors.tsv", "fd_outliers_0pt5.txt")
  }

  function DvarsPath(confoundFile: string): string {
    ReplaceAll(confoundFile, "confounds_regressors.tsv", "dvars_outliers.txt")
  }

  /** One confound file: the regressors, then the FD list, then the DVARS
      list, each written before the next is computed. */
  function ConfoundFileOutcome(confoundFile: string, t: ConfoundTable): ConfoundOutcome
    requires Rectangular(t)
  {
    match NinePRows(t)
    case Failure(e) => Outcome([], Some(e))
    case Success(rows) =>
      var params := Regressors(NinePPath(confoundFile), rows);
      match FdOutliers(t)
      case Failure(e) => Outcome([params], Some(e))
      case Success(fd) =>
        var fdList := IndexList(FdPath(confoundFile), fd);
        match DvarsOutliers(t)
        case Failure(e) => Outcome([params, fdList], Some(e))
        case Success(dv) => Outcome([params, fdList, IndexList(DvarsPath(confoundFile), dv)], None)
  }

  predicate AllRectangular(loaded: map<string, ConfoundTable>) {
    forall c :: c in loaded ==> Rectangular(loaded[c])
  }

  function FileRun(confoundFile: string, loaded: map<string, ConfoundTable>): ConfoundOutcome
    requires AllRectangular(loaded)
  {
    if confoundFile !in loaded then Outcome([], Some(LoadFailure(confoundFile)))
    else ConfoundFileOutcome(confoundFile, loaded[confoundFile])
  }

  /** What each file yields on its own, in glob order. */
  function FileRuns(files: seq<string>, loaded: map<string, ConfoundTable>): (runs: seq<ConfoundOutcome>)
    requires AllRectangular(loaded)
    ensures |runs| == |files| && forall k :: 0 <= k < |files| ==> runs[k] == FileRun(files[k], loaded)
  {
    seq(|files|, k requires 0 <= k < |files| => FileRun(files[k], loaded))
  }

  /** The files in turn, stopping at the first that raises. */
  function ConfoundsOutcome(files: seq<string>, loaded: map<string, ConfoundTable>): ConfoundOutcome
    requires AllRectangular(loaded)
  {
    Chain(FileRuns(files, loaded))
  }

  /** The glob pattern of a subject's confound files. */
  function ConfoundsPattern(studyDir: string, subjectBidsId: string, version: string): string {
    var subjectDir := PathJoin(PathJoin(GetFmriprepDir(studyDir, version), "fmriprep"), subjectBidsId);
    PathJoin(PathJoin(subjectDir, "func"), "*task*desc-confounds_regressors.tsv")
  }

  /** `filter_confounds(study_dir, subject_bids_id, fmriprep_version)`. */
  method FilterConfounds(studyDir: string, subjectBidsId: string, version: string,
                         glob: string -> seq<string>, loaded: map<string, ConfoundTable>)
    returns (out: ConfoundOutcome)
    requires AllRectangular(loaded)
    ensures var files := glob(ConfoundsPattern(studyDir, subjectBidsId, version));
      out == if files == [] then Outcome([], Some(NoConfounds(subjectBidsId))) else ConfoundsOutcome(files, loaded)
  {
    var files := glob(ConfoundsPattern(studyDir, subjectBidsId, version));
    if files == [] {
      return Outcome([], Some(NoConfounds(subjectBidsId)));
    }
    ghost var runs := FileRuns(files, loaded);
    out := Outcome([], None);
    for i := 0 to |files|
      invariant out == Chain(runs[..i])
    {
      ChainStep(runs, i);
      if out.error.None? {
        var step := FileRun(files[i], loaded);
        out := Outcome(out.files + step.files, step.error);
      }
    }
    assert runs[..|files|] == runs;
  }

  // =====================================================================
  // Properties

  /** The regressor matrix depends on nothing but the nine regressor columns:
      two tables of equal length that agree on them give the same matrix,
      whatever other columns either holds. */
  lemma NinePRowsIgnoresOtherColumns(t: ConfoundTable, u: ConfoundTable)
    requires Rectangular(t) && Rectangular(u) && t.length == u.length
    requires forall k :: 0 <= k < |NineP| ==> (NineP[k] in t.columns <==> NineP[k] in u.columns)
    requires forall k :: 0 <= k < |NineP| && NineP[k] in t.columns ==> t.columns[NineP[k]] == u.columns[NineP[k]]
    ensures NinePRows(t).Success? ==> NinePRows(u) == NinePRows(t)
  {
    if NinePRows(t).Success? {
      var a := NinePRows(t).value;
      var b := NinePRows(u).value;
      assert FirstMissing(NineP, t.columns.Keys).None?;
      assert FirstMissing(NineP, u.columns.Keys).None?;
      assert |a| == |b|;
      forall i | 0 <= i < |a| ensures a[i] == b[i] {
        assert |a[i]| == |b[i]|;
        forall j | 0 <= j < |NineP| ensures a[i][j] == b[i][j] {
          assert a[i][j] == t.columns[NineP[j]][i];
        }
      }
      assert a == b;
    }
  }

  /** A row is listed as an FD outlier exactly when its displacement is a
      number above the threshold; a NaN displacement is never listed. The
      list is in row order, and only a missing column is an error. */
  lemma FdOutliersMeaning(t: ConfoundTable)
    ensures FdOutliers(t).Failure? <==> "framewise_displacement" !in t.columns
    ensures FdOutliers(t).Failure? ==> FdOutliers(t).error == KeyError("framewise_displacement")
    ensures FdOutliers(t).Success? ==>
      var fd := t.columns["framewise_displacement"];
      var r := FdOutliers(t).value;
      (forall i :: i in r <==> 0 <= i < |fd| && fd[i].Some? && fd[i].value > FdThreshold)
      && (forall k, l :: 0 <= k < l < |r| ==> r[k] < r[l])
  {
    if FdOutliers(t).Success? {
      var fd := t.columns["framewise_displacement"];
      var r := FdOutliers(t).value;
      forall i | i in r ensures 0 <= i < |fd| && fd[i].Some? && fd[i].value > FdThreshold {
        var k :| 0 <= k < |r| && r[k] == i;
      }
    }
  }

  /** The threshold is strict: a displacement of exactly 0.5 is not an
      outlier, a NaN is not, and anything above 0.5 is. */
  lemma FdThresholdIsStrict()
    ensures FdOutliers(ConfoundTable(3, map["framewise_displacement" := [Some(0.5), Some(0.50001), None]]))
         == Success([1])
  {
    var col: seq<Num> := [Some(0.5), Some(0.50001), None];
    var p := Exceeds(Some(FdThreshold));
    assert Indices(p, col[..2][..1]) == [];
    assert Indices(p, col[..2]) == [1];
    assert Indices(p, col) == [1];
  }

  /** Sorting leaves an ascending sequence as it is. */
  lemma {:induction false} SortOfSorted(s: seq<real>)
    requires SortedReals(s)
    ensures Sort(s) == s
    decreases |s|
  {
    if s != [] {
      SortOfSorted(s[1..]);
      assert s == [s[0]] + s[1..];
    }
  }

  /** The element at a position of a sorted sequence is at most the one at
      any later position. */
  lemma SortedStep(s: seq<real>, i: int, j: int)
    requires SortedReals(s) && 0 <= i <= j < |s|
    ensures s[i] <= s[j]
  {
  }

  /** Moving further from `a` towards a larger `b` never decreases the point. */
  lemma LerpMonotone(a: real, b: real, f1: real, f2: real)
    requires a <= b && f1 <= f2
    ensures Lerp(a, b, f1) <= Lerp(a, b, f2)
  {
    var d := b - a;
    MulNonNegative(d, f2 - f1);
    assert d * (f2 - f1) == d * f2 - d * f1;
  }

  /** Interpolating in a sorted sequence stays between the neighbours of
      the position, hence between the first and the last element. */
  lemma InterpolateBetween(s: seq<real>, h: real)
    requires |s| > 0 && 0.0 <= h <= (|s| - 1) as real && SortedReals(s)
    ensures s[0] <= s[h.Floor] <= Interpolate(s, h) <= s[|s| - 1]
    ensures h.Floor + 1 < |s| ==> Interpolate(s, h) <= s[h.Floor + 1]
  {
    var lo := h.Floor;
    assert 0 <= lo < |s|;
    var frac := h - lo as real;
    assert 0.0 <= frac < 1.0;
    SortedStep(s, 0, lo);
    if lo + 1 < |s| {
      SortedStep(s, lo, lo + 1);
      SortedStep(s, lo + 1, |s| - 1);
      assert Interpolate(s, h) == Lerp(s[lo], s[lo + 1], frac);
      LerpWithin(s[lo], s[lo + 1], frac);
    } else {
      assert Interpolate(s, h) == s[lo];
    }
  }

  /** Interpolation in a sorted sequence never decreases as the position grows. */
  lemma InterpolateMonotone(s: seq<real>, h1: real, h2: real)
    requires |s| > 0 && 0.0 <= h1 <= h2 <= (|s| - 1) as real && SortedReals(s)
    ensures Interpolate(s, h1) <= Interpolate(s, h2)
  {
    var lo1, lo2 := h1.Floor, h2.Floor;
    assert lo1 <= lo2;
    InterpolateBetween(s, h1);
    InterpolateBetween(s, h2);
    if lo1 == lo2 {
      if lo1 + 1 < |s| {
        SortedStep(s, lo1, lo1 + 1);
        LerpMonotone(s[lo1], s[lo1 + 1], h1 - lo1 as real, h2 - lo1 as real);
      }
    } else {
      SortedStep(s, lo1 + 1, lo2);
    }
  }

  /** `values[i]` is a least value. */
  predicate IsLeast(values: seq<real>, i: int) {
    0 <= i < |values| && forall k :: 0 <= k < |values| ==> values[i] <= values[k]
  }

  /** `values[j]` is a greatest value. */
  predicate IsGreatest(values: seq<real>, j: int) {
    0 <= j < |values| && forall k :: 0 <= k < |values| ==> values[k] <= values[j]
  }

  /** A percentile lies between the least and the greatest value. */
  lemma PercentileWithin(values: seq<real>, q: real)
    requires |values| > 0 && 0.0 <= q <= 100.0
    ensures exists i, j :: (IsLeast(values, i) && IsGreatest(values, j)
      && values[i] <= Percentile(values, q) <= values[j])
  {
    var s := Sort(values);
    InterpolateBetween(s, Rank(|values|, q));
    assert Percentile(values, q) == Interpolate(s, Rank(|values|, q));
    SortExtremes(values);
    var i :| 0 <= i < |values| && values[i] == s[0];
    var j :| 0 <= j < |values| && values[j] == s[|s| - 1];
    assert IsLeast(values, i) && IsGreatest(values, j);
  }

  /** The first and the last element of the sorted values are values, and
      every value lies between them. */
  lemma SortExtremes(values: seq<real>)
    requires |values| > 0
    ensures Sort(values)[0] in values && Sort(values)[|values| - 1] in values
    ensures forall k :: 0 <= k < |values| ==> Sort(values)[0] <= values[k] <= Sort(values)[|values| - 1]
  {
    var s := Sort(values);
    assert s[0] in multiset(s) && s[|s| - 1] in multiset(s);
    forall k | 0 <= k < |values| ensures s[0] <= values[k] <= s[|s| - 1] {
      assert values[k] in multiset(values);
      assert values[k] in multiset(s);
      var m :| 0 <= m < |s| && s[m] == values[k];
      SortedStep(s, 0, m);
      SortedStep(s, m, |s| - 1);
    }
  }

  /** A higher percentile is never smaller. */
  lemma PercentileMonotone(values: seq<real>, q1: real, q2: real)
    requires |values| > 0 && 0.0 <= q1 <= q2 <= 100.0
    ensures Percentile(values, q1) <= Percentile(values, q2)
  {
    var n := (|values| - 1) as real;
    assert n * (q2 / 100.0) - n * (q1 / 100.0) == n * (q2 / 100.0 - q1 / 100.0);
    ScaleWithin(n, q2 / 100.0 - q1 / 100.0);
    InterpolateMonotone(Sort(values), Rank(|values|, q1), Rank(|values|, q2));
  }

  /** The fences enclose the quartiles: lower <= q25 <= q75 <= upper. */
  lemma FenceOrdered(values: seq<real>)
    requires |values| > 0
    ensures var f := TukeyFence(values); f.lower <= f.q25 <= f.q75 <= f.upper
  {
    PercentileMonotone(values, 25.0, 75.0);
  }

  /** DVARS outliers are an error exactly when the column is missing or has
      no row after the first. */
  lemma DvarsOutliersFailure(t: ConfoundTable)
    ensures DvarsOutliers(t).Failure? <==> "dvars" !in t.columns || |t.columns["dvars"]| < 2
    ensures DvarsOutliers(t).Failure? ==>
      DvarsOutliers(t).error == if "dvars" in t.columns then EmptyPercentile else KeyError("dvars")
  {
    if "dvars" in t.columns {
      var dvars := t.columns["dvars"];
      assert |DvarsSample(dvars)| == if |dvars| == 0 then 0 else |dvars| - 1;
    }
  }

  /** A NaN anywhere in the sample makes the fence NaN, and no row compares
      above it. */
  lemma DvarsNaNFlagsNothing(t: ConfoundTable)
    requires "dvars" in t.columns && |t.columns["dvars"]| >= 2
    requires !AllPresent(t.columns["dvars"][1..])
    ensures DvarsOutliers(t) == Success([])
  {
    var dvars := t.columns["dvars"];
    assert DvarsSample(dvars) == dvars[1..];
    assert DvarsUpper(dvars) == Success(None);
    IndicesNone(Exceeds(None), dvars);
  }

  /** Without NaN in the sample, a row, the first included, is listed exactly
      when its value is a number above the upper fence of the sample, and
      every listed value lies above the sample's third quartile. */
  lemma DvarsOutliersAboveFence(t: ConfoundTable)
    requires "dvars" in t.columns && |t.columns["dvars"]| >= 2
    requires AllPresent(t.columns["dvars"][1..])
    ensures DvarsOutliers(t).Success?
    ensures var dvars := t.columns["dvars"];
      var fence := TukeyFence(Values(dvars[1..]));
      var r := DvarsOutliers(t).value;
      (forall i :: i in r <==> 0 <= i < |dvars| && dvars[i].Some? && dvars[i].value > fence.upper)
      && (forall k, l :: 0 <= k < l < |r| ==> r[k] < r[l])
      && (forall i :: i in r ==> dvars[i].value > fence.q75)
  {
    var dvars := t.columns["dvars"];
    assert DvarsSample(dvars) == dvars[1..];
    var fence := TukeyFence(Values(dvars[1..]));
    assert DvarsUpper(dvars) == Success(Some(fence.upper));
    var p := Exceeds(Some(fence.upper));
    var r := Indices(p, dvars);
    assert DvarsOutliers(t) == Success(r);
    FenceOrdered(Values(dvars[1..]));
    forall i | i in r ensures 0 <= i < |dvars| && dvars[i].Some? && dvars[i].value > fence.upper {
      var k :| 0 <= k < |r| && r[k] == i;
    }
  }

  lemma FloorIs(h: real, k: int)
    requires k as real <= h < (k + 1) as real
    ensures h.Floor == k
  {
  }

  /** The quartiles of six ascending values: a quarter of the way from the
      second to the third, and three quarters of the way from the fourth to
      the fifth. */
  lemma QuartilesOfSix(s: seq<real>)
    requires |s| == 6 && SortedReals(s)
    ensures Percentile(s, 25.0) == Lerp(s[1], s[2], 0.25)
    ensures Percentile(s, 75.0) == Lerp(s[3], s[4], 0.75)
  {
    SortOfSorted(s);
    assert Rank(6, 25.0) == 1.25;
    FloorIs(1.25, 1);
    assert Rank(6, 75.0) == 3.75;
    FloorIs(3.75, 3);
  }

  /** The fence of the sample 1, 2, 3, 4, 5, 100: quartiles 2.25 and 4.75,
      fences -1.5 and 8.5. */
  lemma FenceExample(sample: seq<real>)
    requires sample == [1.0, 2.0, 3.0, 4.0, 5.0, 100.0]
    ensures TukeyFence(sample) == Fence(2.25, 4.75, -1.5, 8.5)
  {
    assert SortedReals(sample);
    QuartilesOfSix(sample);
  }

  /** The worked case itself: a NaN first row and then that sample; only
      the last row lies above the fence. */
  lemma DvarsExample(dvars: seq<Num>)
    requires dvars == [None, Some(1.0), Some(2.0), Some(3.0), Some(4.0), Some(5.0), Some(100.0)]
    ensures DvarsOutliers(ConfoundTable(7, map["dvars" := dvars])) == Success([6])
  {
    assert DvarsUpper(dvars) == Success(Some(8.5)) by {
      assert DvarsSample(dvars) == dvars[1..];
      assert Values(dvars[1..]) == [1.0, 2.0, 3.0, 4.0, 5.0, 100.0];
      FenceExample(Values(dvars[1..]));
    }
    ExampleAboveFence(dvars);
  }

  lemma ExampleAboveFence(dvars: seq<Num>)
    requires dvars == [None, Some(1.0), Some(2.0), Some(3.0), Some(4.0), Some(5.0), Some(100.0)]
    ensures Indices(Exceeds(Some(8.5)), dvars) == [6]
  {
    var p := Exceeds(Some(8.5));
    var front := dvars[..6];
    assert front == [None, Some(1.0), Some(2.0), Some(3.0), Some(4.0), Some(5.0)];
    forall i | 0 <= i < 6 ensures !p(front[i]) {
      assert front[i].None? || front[i].value <= 5.0;
    }
    IndicesNone(p, front);
  }

  /** The regressors of `<stem>.tsv` go to `<stem>-9p.txt` when the stem
      holds no `.tsv` of its own. */
  lemma NinePPathOf(stem: string)
    requires !Contains(stem, ".tsv")
    ensures NinePPath(stem + ".tsv") == stem + "-9p.txt"
  {
    assert ".tsv"[1..] == "tsv";
    ReplaceOnlySuffix(stem, ".tsv", "-9p.txt");
  }

  /** The first character of the confound file suffix does not recur in it. */
  lemma ConfoundsSuffixFirstOnce()
    ensures "confounds_regressors.tsv"[0] !in "confounds_regressors.tsv"[1..]
  {
    var a, b, c := "onfounds", "_regress", "ors.tsv";
    assert 'c' !in a && 'c' !in b && 'c' !in c;
    assert 'c' !in a + b + c;
    assert "confounds_regressors.tsv"[1..] == a + b + c;
  }

  /** A prefix without `.tsv` gives a confound file whose stem has no `.tsv`
      and whose prefix has no earlier `confounds_regressors.tsv`. */
  lemma ConfoundsName(p: string)
    requires !Contains(p, ".tsv")
    ensures p + "confounds_regressors.tsv" == (p + "confounds_regressors") + ".tsv"
    ensures !Contains(p + "confounds_regressors", ".tsv")
    ensures !Contains(p, "confounds_regressors.tsv")
  {
    assert !Contains(p + "confounds_regressors", ".tsv") by {
      var a, b, c := "confou", "nds_re", "gressors";
      assert '.' !in a && '.' !in b && '.' !in c;
      assert a + b + c == "confounds_regressors";
      assert 'c' !in ".tsv"[1..];
      NotContainedWithChar("confounds_regressors", ".tsv", 0);
      NoOccurrenceJoined(p, "confounds_regressors", ".tsv");
    }
    assert !Contains(p, "confounds_regressors.tsv") by {
      assert "confounds_regressors.tsv"[20..24] == ".tsv";
      NotContainedForSlice(p, "confounds_regressors.tsv", 20, 24);
    }
    assert "confounds_regressors" + ".tsv" == "confounds_regressors.tsv";
  }

  /** The FD list goes to `<p>fd_outliers_0pt5.txt` when `p` holds no
      `confounds_regressors.tsv` of its own. */
  lemma FdPathOf(p: string)
    requires !Contains(p, "confounds_regressors.tsv")
    ensures FdPath(p + "confounds_regressors.tsv") == p + "fd_outliers_0pt5.txt"
  {
    ConfoundsSuffixFirstOnce();
    ReplaceOnlySuffix(p, "confounds_regressors.tsv", "fd_outliers_0pt5.txt");
  }

  /** The DVARS list goes to `<p>dvars_outliers.txt` when `p` holds no
      `confounds_regressors.tsv` of its own. */
  lemma DvarsPathOf(p: string)
    requires !Contains(p, "confounds_regressors.tsv")
    ensures DvarsPath(p + "confounds_regressors.tsv") == p + "dvars_outliers.txt"
  {
    ConfoundsSuffixFirstOnce();
    ReplaceOnlySuffix(p, "confounds_regressors.tsv", "dvars_outliers.txt");
  }

  /** The three outputs of a confound file are three different files, none
      of them the input, when `.tsv` occurs in the file name only at its end. */
  lemma ConfoundOutputsDistinct(p: string)
    requires !Contains(p, ".tsv")
    ensures var c := p + "confounds_regressors.tsv";
      |{c, NinePPath(c), FdPath(c), DvarsPath(c)}| == 4
  {
    var c := p + "confounds_regressors.tsv";
    assert |NinePPath(c)| == |p| + 27 && |FdPath(c)| == |p| + 20 && |DvarsPath(c)| == |p| + 18 by {
      ConfoundsName(p);
      NinePPathOf(p + "confounds_regressors");
      FdPathOf(p);
      DvarsPathOf(p);
    }
    FourLengths(c, NinePPath(c), FdPath(c), DvarsPath(c));
  }

  /** Four strings of four different lengths are four different strings. */
  lemma FourLengths(a: string, b: string, c: string, d: string)
    requires |a| != |b| && |a| != |c| && |a| != |d| && |b| != |c| && |b| != |d| && |c| != |d|
    ensures |{a, b, c, d}| == 4
  {
  }

  /** The fMRIPrep directory holds no `.tsv` when neither the study
      directory nor the version does. */
  lemma FmriprepDirWithoutTsv(studyDir: string, version: string)
    requires studyDir != "" && studyDir[|studyDir| - 1] != '/'
    requires !Contains(studyDir, ".tsv") && !Contains(version, ".tsv")
    ensures !Contains(GetFmriprepDir(studyDir, version), ".tsv")
  {
    FmriprepDirAround(studyDir, version);
    FmriprepMidClean();
    NoOccurrenceAround(studyDir, FmriprepMid, version, ".tsv");
  }

  /** The text `get_fmriprep_dir` puts between the study directory and the
      version. */
  const FmriprepMid: string := "/" + "derivatives" + "/" + "fmriprep-"

  lemma FmriprepDirAround(studyDir: string, version: string)
    requires studyDir != "" && studyDir[|studyDir| - 1] != '/'
    ensures GetFmriprepDir(studyDir, version) == studyDir + FmriprepMid + version
  {
    var d := studyDir + "/" + "derivatives";
    JoinRelative(studyDir, "derivatives");
    assert d[|d| - 1] == 's';
    JoinRelative(d, "fmriprep-" + version);
    assert d + "/" + ("fmriprep-" + version) == studyDir + FmriprepMid + version;
  }

  /** The middle text holds no `.`, is longer than three characters and
      starts with `/`, which `.tsv` holds nowhere. */
  lemma FmriprepMidClean()
    ensures FmriprepMid != [] && |FmriprepMid| >= 3 && '.' !in FmriprepMid
    ensures FmriprepMid[0] !in ".tsv"[1..]
  {
    assert '.' !in "derivatives" && '.' !in "fmriprep-";
    assert ".tsv"[1..] == "tsv";
  }

  /** A confound file that `filter_confounds` globs under the fMRIPrep
      directory: when neither the study directory, nor the version, nor the
      rest of the path up to the suffix holds `.tsv` (a dotted version such
      as `20.2.1` does not), its three outputs sit beside it under their own
      names and are three different files. */
  lemma ConfoundPathsUnderVersion(studyDir: string, version: string, rest: string)
    requires studyDir != "" && studyDir[|studyDir| - 1] != '/'
    requires !Contains(studyDir, ".tsv") && !Contains(version, ".tsv")
    requires rest != "" && rest[0] == '/' && !Contains(rest, ".tsv")
    ensures var p := GetFmriprepDir(studyDir, version) + rest;
      var c := p + "confounds_regressors.tsv";
      && NinePPath(c) == p + "confounds_regressors" + "-9p.txt"
      && FdPath(c) == p + "fd_outliers_0pt5.txt"
      && DvarsPath(c) == p + "dvars_outliers.txt"
      && |{c, NinePPath(c), FdPath(c), DvarsPath(c)}| == 4
  {
    var base := GetFmriprepDir(studyDir, version);
    var p := base + rest;
    assert !Contains(p, ".tsv") by {
      FmriprepDirWithoutTsv(studyDir, version);
      assert ".tsv"[1..] == "tsv";
      NoOccurrenceJoined(base, rest, ".tsv");
    }
    var c := p + "confounds_regressors.tsv";
    assert NinePPath(c) == p + "confounds_regressors" + "-9p.txt" by {
      ConfoundsName(p);
      NinePPathOf(p + "confounds_regressors");
    }
    assert FdPath(c) == p + "fd_outliers_0pt5.txt" && DvarsPath(c) == p + "dvars_outliers.txt" by {
      ConfoundsName(p);
      FdPathOf(p);
      DvarsPathOf(p);
    }
    ConfoundOutputsDistinct(p);
  }

  /** Whether every column one confound file needs is usable: the nine
      regressors, the displacement and a dvars column with a second row. */
  predicate ConfoundsUsable(t: ConfoundTable) {
    (forall k :: 0 <= k < |NineP| ==> NineP[k] in t.columns)
    && "framewise_displacement" in t.columns
    && "dvars" in t.columns && |t.columns["dvars"]| >= 2
  }

  /** One confound file raises nothing exactly when its table is usable. */
  lemma ConfoundFileSucceeds(c: string, t: ConfoundTable)
    requires Rectangular(t)
    ensures ConfoundFileOutcome(c, t).error.None? <==> ConfoundsUsable(t)
  {
    FdOutliersMeaning(t);
    DvarsOutliersFailure(t);
  }

  /** Whatever fails, the outputs already written stay written: they are a
      prefix of the regressors, the FD list and the DVARS list, all three
      when nothing fails. */
  lemma ConfoundFileWritesInOrder(c: string, t: ConfoundTable)
    requires Rectangular(t)
    ensures var out := ConfoundFileOutcome(c, t);
      |out.files| <= 3
      && (forall k :: 0 <= k < |out.files| ==> out.files[k].path == [NinePPath(c), FdPath(c), DvarsPath(c)][k])
      && (out.error.None? ==> |out.files| == 3)
  {
    var paths := [NinePPath(c), FdPath(c), DvarsPath(c)];
    var out := ConfoundFileOutcome(c, t);
    if NinePRows(t).Success? && FdOutliers(t).Success? {
      if DvarsOutliers(t).Success? {
        assert out.files == [Regressors(paths[0], NinePRows(t).value), IndexList(paths[1], FdOutliers(t).value),
                             IndexList(paths[2], DvarsOutliers(t).value)];
      } else {
        assert out.files == [Regressors(paths[0], NinePRows(t).value), IndexList(paths[1], FdOutliers(t).value)];
      }
    }
  }

  /** The regressors are written as soon as the nine columns are there,
      even when a later column is missing. */
  lemma ConfoundFileRegressorsFirst(c: string, t: ConfoundTable)
    requires Rectangular(t) && NinePRows(t).Success?
    ensures var out := ConfoundFileOutcome(c, t);
      |out.files| >= 1 && out.files[0] == Regressors(NinePPath(c), NinePRows(t).value)
  {
  }

  /** A subject's run stops at the first confound file that fails, and yields
      that file's error; it yields no error exactly when no file fails. */
  lemma ConfoundsOutcomeError(files: seq<string>, loaded: map<string, ConfoundTable>)
    requires AllRectangular(loaded)
    ensures var out := ConfoundsOutcome(files, loaded);
      (out.error.None? <==> forall k :: 0 <= k < |files| ==> FileRun(files[k], loaded).error.None?)
      && (out.error.Some? ==> exists k :: (0 <= k < |files| && out.error == FileRun(files[k], loaded).error
            && forall j :: 0 <= j < k ==> FileRun(files[j], loaded).error.None?))
  {
    var runs := FileRuns(files, loaded);
    ChainError(runs);
    if Chain(runs).error.Some? {
      var k :| 0 <= k < |runs| && Chain(runs).error == runs[k].error
        && forall j :: 0 <= j < k ==> runs[j].error.None?;
      assert FileRun(files[k], loaded) == runs[k];
    }
  }

  /** When no file fails, every file's outputs are written, in glob order. */
  lemma ConfoundsOutcomeWritesAll(files: seq<string>, loaded: map<string, ConfoundTable>)
    requires AllRectangular(loaded)
    requires forall k :: 0 <= k < |files| ==> FileRun(files[k], loaded).error.None?
    ensures ConfoundsOutcome(files, loaded) == Outcome(AllFiles(FileRuns(files, loaded)), None)
  {
    ChainAllSucceed(FileRuns(files, loaded));
  }
}
