/** POSIX path helpers (`os.path.join` with two parts, `os.path.basename`)
    and the one path both the fetch step and the behavioural step derive:
    a subject's `sourcedata` directory. */
module Paths {
  import opened Strings

  /** `os.path.join(a, b)`: an absolute `b` replaces `a`; otherwise a `/` is
      inserted unless `a` is empty or already ends with one. */
  function PathJoin(a: string, b: string): (r: string)
    ensures EndsWith(r, b)
    ensures (|b| > 0 && b[0] == '/') || (|a| <= |r| && r[..|a|] == a)
  {
    if |b| > 0 && b[0] == '/' then b
    else if a == "" || a[|a| - 1] == '/' then a + b
    else a + "/" + b
  }

  /** `os.path.basename(p)`: the text after the last `/`. */
  function Basename(p: string): string {
    Last(Split(p, "/"))
  }

  /** `<study>/sourcedata/<subject>`, where the downloaded DICOMs, the scan
      metadata table and the behavioural files of a subject live. */
  function GetSourcePath(studyDir: string, subjectBidsId: string): string {
    PathJoin(PathJoin(studyDir, "sourcedata"), subjectBidsId)
  }

  // ---------------------------------------------------------------------

  /** A slash-free name appended to a joined path is that path's basename:
      `basename(join(a, b) + c) == b + c` when neither `b` nor `c` holds `/`. */
  lemma BasenameOfJoin(a: string, b: string, c: string)
    requires '/' !in b && '/' !in c
    ensures Basename(PathJoin(a, b) + c) == b + c
  {
    CharNotInConcat(b, c, 'x', '/');
    assert '/' !in b + c by {
      assert forall i :: 0 <= i < |b + c| ==> (b + c)[i] == (b + ['x'] + c)[if i < |b| then i else i + 1];
    }
    if a == "" {
      assert PathJoin(a, b) + c == b + c;
      LastSplitWithout(b + c, '/');
    } else if a[|a| - 1] == '/' {
      var front := a[..|a| - 1];
      assert PathJoin(a, b) + c == front + ['/'] + (b + c);
      LastSplitChar(front, '/', b + c);
      LastSplitWithout(b + c, '/');
    } else {
      assert PathJoin(a, b) + c == a + ['/'] + (b + c);
      LastSplitChar(a, '/', b + c);
      LastSplitWithout(b + c, '/');
    }
  }

  /** The basename of a join is its slash-free second part. */
  lemma BasenameJoin(a: string, b: string)
    requires '/' !in b
    ensures Basename(PathJoin(a, b)) == b
  {
    BasenameOfJoin(a, b, "");
    assert PathJoin(a, b) + "" == PathJoin(a, b);
    assert b + "" == b;
  }

  /** Joining a relative part to a directory without a trailing slash
      inserts exactly one slash. */
  lemma JoinRelative(a: string, b: string)
    requires a != "" && a[|a| - 1] != '/'
    requires b != "" && b[0] != '/'
    ensures PathJoin(a, b) == a + "/" + b
  {
  }

  /** Joining different relative names to the same directory gives
      different paths. */
  lemma JoinDistinct(a: string, b: string, c: string)
    requires a != "" && a[|a| - 1] != '/'
    requires b != "" && b[0] != '/' && c != "" && c[0] != '/'
    requires b != c
    ensures PathJoin(a, b) != PathJoin(a, c)
  {
    JoinRelative(a, b);
    JoinRelative(a, c);
    assert PathJoin(a, b)[|a| + 1..] == b;
    assert PathJoin(a, c)[|a| + 1..] == c;
  }

  /** Appending to a join appends to its relative second part. */
  lemma PathJoinAppend(a: string, b: string, c: string)
    requires |b| > 0 && b[0] != '/'
    ensures PathJoin(a, b) + c == PathJoin(a, b + c)
  {
    assert (b + c)[0] == b[0];
  }

  /** The source path, spelled out for a study directory without a trailing
      slash and a relative subject id, and its last component is the subject. */
  lemma SourcePathShape(studyDir: string, subjectBidsId: string)
    requires studyDir != "" && studyDir[|studyDir| - 1] != '/'
    requires '/' !in subjectBidsId
    ensures GetSourcePath(studyDir, subjectBidsId) == studyDir + "/sourcedata/" + subjectBidsId
    ensures Basename(GetSourcePath(studyDir, subjectBidsId)) == subjectBidsId
  {
    var parent := PathJoin(studyDir, "sourcedata");
    assert parent == studyDir + "/sourcedata";
    assert parent[|parent| - 1] == 'a';
    var r := GetSourcePath(studyDir, subjectBidsId);
    assert r == parent + "/" + subjectBidsId;
    assert r == studyDir + "/sourcedata/" + subjectBidsId;
    BasenameOfJoin(parent, subjectBidsId, "");
    assert r + "" == r;
  }
}
