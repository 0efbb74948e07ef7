/** The few Python `str` operations the pipeline relies on, on `seq<char>`:
    `find`, `in`, `split`, `join`, `replace`, `upper`, `lower`, `endswith`
    and `str(int)` for non-negative integers. Case mapping is ASCII only. */
module Strings {
  import opened Wrappers

  /** `t` occurs in `s` starting at index `i`. */
  predicate OccursAt(s: string, t: string, i: int) {
    0 <= i && i + |t| <= |s| && s[i..i + |t|] == t
  }

  /** `s.find(t, from)`: the least index at or after `from` where `t` occurs. */
  function IndexOf(s: string, t: string, from: nat): (r: Option<nat>)
    requires from <= |s|
    ensures r.Some? ==> from <= r.value && OccursAt(s, t, r.value)
    ensures forall j :: from <= j && OccursAt(s, t, j) ==> r.Some? && r.value <= j
    decreases |s| - from
  {
    if from + |t| > |s| then None
    else if s[from..from + |t|] == t then Some(from)
    else IndexOf(s, t, from + 1)
  }

  /** Python's `t in s`. */
  predicate Contains(s: string, t: string) {
    IndexOf(s, t, 0).Some?
  }

  /** `s.endswith(t)`. */
  predicate EndsWith(s: string, t: string) {
    |t| <= |s| && s[|s| - |t|..] == t
  }

  /** `sep.join(parts)`. */
  function Join(parts: seq<string>, sep: string): string
    decreases |parts|
  {
    if |parts| == 0 then ""
    else if |parts| == 1 then parts[0]
    else parts[0] + sep + Join(parts[1..], sep)
  }

  /** `s.split(sep)` for a non-empty separator: the pieces between the
      occurrences of `sep`, found left to right without overlap. */
  function Split(s: string, sep: string): (parts: seq<string>)
    requires |sep| > 0
    ensures |parts| >= 1
    ensures Join(parts, sep) == s
    ensures forall k :: 0 <= k < |parts| ==> !Contains(parts[k], sep)
    decreases |s|
  {
    match IndexOf(s, sep, 0)
    case None => [s]
    case Some(k) =>
      var head := s[..k];
      var rest := Split(s[k + |sep|..], sep);
      assert !Contains(head, sep) by {
        forall j | 0 <= j && j + |sep| <= |head| ensures !OccursAt(head, sep, j) {
          SliceOfPrefix(s, k, j, j + |sep|);
          assert !OccursAt(s, sep, j);
        }
      }
      assert s == head + sep + s[k + |sep|..];
      [head] + rest
  }

  /** A slice of a prefix is the same slice of the whole. */
  lemma SliceOfPrefix(s: string, k: nat, a: nat, b: nat)
    requires a <= b <= k <= |s|
    ensures s[..k][a..b] == s[a..b]
  {
  }

  /** The last element of a non-empty sequence (Python's `xs[-1]`). */
  function Last<T>(xs: seq<T>): T
    requires |xs| > 0
  {
    xs[|xs| - 1]
  }

  /** `s.replace(pat, rep)` for a non-empty `pat`: every occurrence, left to right. */
  function ReplaceAll(s: string, pat: string, rep: string): string
    requires |pat| > 0
  {
    Join(Split(s, pat), rep)
  }

  function UpperChar(c: char): char {
    if 'a' <= c <= 'z' then (c as int - 32) as char else c
  }

  function LowerChar(c: char): char {
    if 'A' <= c <= 'Z' then (c as int + 32) as char else c
  }

  /** `s.upper()` on ASCII letters. */
  function Upper(s: string): (r: string)
    ensures |r| == |s|
  {
    seq(|s|, i requires 0 <= i < |s| => UpperChar(s[i]))
  }

  /** `s.lower()` on ASCII letters. */
  function Lower(s: string): (r: string)
    ensures |r| == |s|
  {
    seq(|s|, i requires 0 <= i < |s| => LowerChar(s[i]))
  }

  function DigitChar(d: nat): char
    requires d < 10
  {
    ('0' as int + d) as char
  }

  /** `str(n)` for a non-negative integer. */
  function NatToString(n: nat): (r: string)
    ensures |r| > 0
    ensures forall k :: 0 <= k < |r| ==> '0' <= r[k] <= '9'
  {
    if n < 10 then [DigitChar(n)] else NatToString(n / 10) + [DigitChar(n % 10)]
  }

  // ---------------------------------------------------------------------
  // Lemmas about occurrences

  /** An occurrence anywhere makes `Contains` true. */
  lemma ContainsAt(s: string, t: string, i: int)
    requires OccursAt(s, t, i)
    ensures Contains(s, t)
  {
  }

  /** `t` cannot occur in `s` when its first character does not appear in any
      position of `s` where an occurrence could start. */
  lemma NotContainedByFirstChar(s: string, t: string)
    requires |t| > 0
    requires |s| < |t| || t[0] !in s[..|s| - |t| + 1]
    ensures !Contains(s, t)
  {
    forall j | 0 <= j && j + |t| <= |s| ensures !OccursAt(s, t, j) {
      assert s[..|s| - |t| + 1][j] == s[j];
      assert s[j..j + |t|][0] == s[j];
    }
  }

  /** `t` does not occur in `s` when it does not start `s` and its first
      character appears nowhere else an occurrence could start. */
  lemma NotContainedPastFirst(s: string, t: string)
    requires 0 < |t| <= |s| && s[..|t|] != t
    requires t[0] !in s[1..|s| - |t| + 1]
    ensures !Contains(s, t)
  {
    forall j | 0 <= j && j + |t| <= |s| ensures !OccursAt(s, t, j) {
      if j > 0 {
        assert s[1..|s| - |t| + 1][j - 1] == s[j];
        assert s[j..j + |t|][0] == s[j];
      }
    }
  }

  /** `t` cannot occur in `s` when one of its characters is not in `s`. */
  lemma NotContainedWithChar(s: string, t: string, i: nat)
    requires i < |t| && t[i] !in s
    ensures !Contains(s, t)
  {
    forall j | 0 <= j && j + |t| <= |s| ensures !OccursAt(s, t, j) {
      assert s[j..j + |t|][i] == s[j + i];
    }
  }

  /** A character that is in neither `a` nor `b` is in no piece of `a + [c] + b`. */
  lemma CharNotInConcat(a: string, b: string, c: char, x: char)
    requires x !in a && x !in b && x != c
    ensures x !in a + [c] + b
  {
  }

  /** When `sep` occurs at `k` and nowhere before, splitting yields the text
      before `k` followed by the split of the text after that occurrence. */
  lemma SplitAt(s: string, sep: string, k: nat)
    requires |sep| > 0 && OccursAt(s, sep, k)
    requires forall j :: 0 <= j < k ==> !OccursAt(s, sep, j)
    ensures Split(s, sep) == [s[..k]] + Split(s[k + |sep|..], sep)
  {
    assert IndexOf(s, sep, 0) == Some(k);
  }

  /** A string without `sep` splits into itself. */
  lemma SplitWithout(s: string, sep: string)
    requires |sep| > 0 && !Contains(s, sep)
    ensures Split(s, sep) == [s]
  {
  }

  /** If the first character of `sep` does not occur in `a`, then the first
      piece of `a + sep + b` is `a` and the rest is the split of `b`. */
  lemma SplitAfter(a: string, sep: string, b: string)
    requires |sep| > 0 && sep[0] !in a
    ensures Split(a + sep + b, sep) == [a] + Split(b, sep)
  {
    var s := a + sep + b;
    assert s[|a|..|a| + |sep|] == sep;
    forall j | 0 <= j < |a| ensures !OccursAt(s, sep, j) {
      assert s[j] == a[j];
      assert j + |sep| <= |s| ==> s[j..j + |sep|][0] == s[j];
    }
    SplitAt(s, sep, |a|);
    assert s[..|a|] == a;
    assert s[|a| + |sep|..] == b;
  }

  /** Joining a part in front of at least one more. */
  lemma JoinCons(a: string, rest: seq<string>, sep: string)
    requires |rest| > 0
    ensures Join([a] + rest, sep) == a + sep + Join(rest, sep)
  {
    assert ([a] + rest)[1..] == rest;
  }

  /** Splitting on a one-character separator undoes joining with it, when no
      part holds that character. */
  lemma {:induction false} SplitJoin(parts: seq<string>, x: char)
    requires |parts| > 0 && forall k :: 0 <= k < |parts| ==> x !in parts[k]
    ensures Split(Join(parts, [x]), [x]) == parts
    decreases |parts|
  {
    if |parts| == 1 {
      NotContainedWithChar(parts[0], [x], 0);
      SplitWithout(parts[0], [x]);
    } else {
      SplitJoin(parts[1..], x);
      SplitAfter(parts[0], [x], Join(parts[1..], [x]));
      assert parts == [parts[0]] + parts[1..];
    }
  }

  /** The last piece of a split is the last piece of what follows the first
      occurrence of the separator. */
  lemma LastSplitFrom(s: string, sep: string, k: nat)
    requires |sep| > 0 && IndexOf(s, sep, 0) == Some(k)
    ensures Last(Split(s, sep)) == Last(Split(s[k + |sep|..], sep))
  {
    assert Split(s, sep) == [s[..k]] + Split(s[k + |sep|..], sep);
    LastCons(s[..k], Split(s[k + |sep|..], sep));
  }

  lemma LastCons<T>(x: T, rest: seq<T>)
    requires |rest| > 0
    ensures Last([x] + rest) == Last(rest)
  {
  }

  /** Splitting on a single character: the last piece of `a + [c] + b` is the
      last piece of `b`, whatever `a` holds. */
  lemma {:induction false} LastSplitChar(a: string, c: char, b: string)
    ensures Last(Split(a + [c] + b, [c])) == Last(Split(b, [c]))
    decreases |a|
  {
    var s := a + [c] + b;
    assert OccursAt(s, [c], |a|) by { assert s[|a|..|a| + 1] == [c]; }
    var k := IndexOf(s, [c], 0).value;
    LastSplitFrom(s, [c], k);
    if k < |a| {
      assert s[k + 1..] == a[k + 1..] + [c] + b;
      LastSplitChar(a[k + 1..], c, b);
    } else {
      assert s[k + 1..] == b;
    }
  }

  /** A single-character piece-separator that is absent leaves one piece. */
  lemma LastSplitWithout(s: string, c: char)
    requires c !in s
    ensures Last(Split(s, [c])) == s
  {
    forall j | 0 <= j < |s| ensures !OccursAt(s, [c], j) {
      assert s[j..j + 1][0] == s[j];
    }
  }

  /** Replacing a suffix `pat` that is the only occurrence of `pat` in `p + pat`. */
  lemma ReplaceSuffix(p: string, pat: string, rep: string)
    requires |pat| > 0
    requires forall j :: 0 <= j < |p| ==> !OccursAt(p + pat, pat, j)
    ensures ReplaceAll(p + pat, pat, rep) == p + rep
  {
    var s := p + pat;
    assert OccursAt(s, pat, |p|) by { assert s[|p|..|p| + |pat|] == pat; }
    SplitAt(s, pat, |p|);
    assert s[..|p|] == p;
    assert s[|p| + |pat|..] == "";
    assert Split("", pat) == [""];
    assert Split(s, pat) == [p, ""];
    assert Join([p, ""], rep) == p + rep + Join([""], rep);
  }

  /** When the first character of `pat` does not recur in `pat`, an occurrence of
      `pat` in `p + pat` that starts inside `p` would have to lie inside `p`. */
  lemma NoEarlyOccurrence(p: string, pat: string)
    requires |pat| > 0 && pat[0] !in pat[1..]
    requires !Contains(p, pat)
    ensures forall j :: 0 <= j < |p| ==> !OccursAt(p + pat, pat, j)
  {
    var s := p + pat;
    forall j | 0 <= j < |p| ensures !OccursAt(s, pat, j) {
      if j + |pat| <= |p| {
        assert p[j..j + |pat|] == s[j..j + |pat|];
        assert !OccursAt(p, pat, j);
      } else {
        var d := |p| - j;
        assert s[|p|] == pat[0];
        assert pat[1..][d - 1] == pat[d];
        assert j + |pat| <= |s| ==> s[j..j + |pat|][d] == s[|p|];
      }
    }
  }

  /** A string that does not hold a slice of `t` does not hold `t`. */
  lemma NotContainedForSlice(s: string, t: string, i: nat, j: nat)
    requires i <= j <= |t| && !Contains(s, t[i..j])
    ensures !Contains(s, t)
  {
    forall k | 0 <= k && k + |t| <= |s| ensures !OccursAt(s, t, k) {
      var w := s[k..k + |t|];
      assert !OccursAt(s, t[i..j], k + i);
      forall m | 0 <= m < j - i ensures s[k + i..k + j][m] == w[i..j][m] {
        assert w[i..j][m] == w[i + m] == s[k + i + m];
      }
      assert s[k + i..k + j] == w[i..j];
    }
  }

  /** Joining two strings without `t` makes no occurrence of `t` when the
      second starts with a character `t` holds only at its start, if at all. */
  lemma NoOccurrenceJoined(p: string, q: string, t: string)
    requires |t| > 0 && q != [] && q[0] !in t[1..]
    requires !Contains(p, t) && !Contains(q, t)
    ensures !Contains(p + q, t)
  {
    var s := p + q;
    forall j | 0 <= j && j + |t| <= |s| ensures !OccursAt(s, t, j) {
      if j + |t| <= |p| {
        assert p[j..j + |t|] == s[j..j + |t|];
        assert !OccursAt(p, t, j);
      } else if j < |p| {
        var d := |p| - j;
        assert s[j..j + |t|][d] == q[0];
        assert t[1..][d - 1] == t[d];
      } else {
        assert q[j - |p|..j - |p| + |t|] == s[j..j + |t|];
        assert !OccursAt(q, t, j - |p|);
      }
    }
  }

  /** Joining two strings without `t` makes no occurrence of `t` when the
      first character of `t` is absent from the last `|t| - 1` characters of
      the first string. */
  lemma NoOccurrenceJoinedAfter(p: string, q: string, t: string)
    requires 0 < |t| <= |p| + 1 && t[0] !in p[|p| - |t| + 1..]
    requires !Contains(p, t) && !Contains(q, t)
    ensures !Contains(p + q, t)
  {
    var s := p + q;
    var k := |p| - |t| + 1;
    forall j | 0 <= j && j + |t| <= |s| ensures !OccursAt(s, t, j) {
      if j + |t| <= |p| {
        assert p[j..j + |t|] == s[j..j + |t|];
        assert !OccursAt(p, t, j);
      } else if j < |p| {
        assert p[k..][j - k] == p[j];
        assert s[j..j + |t|][0] == p[j];
      } else {
        assert q[j - |p|..j - |p| + |t|] == s[j..j + |t|];
        assert !OccursAt(q, t, j - |p|);
      }
    }
  }

  /** Putting a middle part between two strings without `t` makes no
      occurrence of `t` when the middle part lacks the first character of
      `t`, is no shorter than `t` less one, and starts with a character `t`
      holds only at its start, if at all. */
  lemma NoOccurrenceAround(p: string, m: string, q: string, t: string)
    requires |t| > 0 && m != [] && |m| >= |t| - 1 && t[0] !in m && m[0] !in t[1..]
    requires !Contains(p, t) && !Contains(q, t)
    ensures !Contains(p + m + q, t)
  {
    NotContainedWithChar(m, t, 0);
    NoOccurrenceJoined(p, m, t);
    var pm := p + m;
    assert pm[|pm| - |t| + 1..] == m[|m| - |t| + 1..];
    NoOccurrenceJoinedAfter(pm, q, t);
  }

  /** Replacing the final, only occurrence of a suffix whose first character
      does not recur in it. */
  lemma ReplaceOnlySuffix(p: string, pat: string, rep: string)
    requires |pat| > 0 && pat[0] !in pat[1..]
    requires !Contains(p, pat)
    ensures ReplaceAll(p + pat, pat, rep) == p + rep
  {
    NoEarlyOccurrence(p, pat);
    ReplaceSuffix(p, pat, rep);
  }

  /** The last piece of a split is the text after the last occurrence of the
      separator: it ends the string and, when the separator occurs at all, it
      is preceded by one; with no occurrence it is the whole string. */
  lemma {:induction false} LastPiece(s: string, sep: string)
    requires |sep| > 0
    ensures EndsWith(s, Last(Split(s, sep)))
    ensures Contains(s, sep) ==> EndsWith(s, sep + Last(Split(s, sep)))
    ensures !Contains(s, sep) ==> Last(Split(s, sep)) == s
    decreases |s|
  {
    match IndexOf(s, sep, 0)
    case None =>
    case Some(k) =>
      var rest := s[k + |sep|..];
      LastSplitFrom(s, sep, k);
      LastPiece(rest, sep);
      var l := Last(Split(rest, sep));
      SuffixAfter(s, sep, k);
      EndsWithTrans(s, rest, l);
      if Contains(rest, sep) {
        EndsWithTrans(s, rest, sep + l);
      }
  }

  /** What follows an occurrence of `sep` ends the string, and so does that
      occurrence followed by it. */
  lemma SuffixAfter(s: string, sep: string, k: nat)
    requires OccursAt(s, sep, k)
    ensures EndsWith(s, s[k + |sep|..]) && EndsWith(s, sep + s[k + |sep|..])
  {
    var rest := s[k + |sep|..];
    assert s[k..] == s[k..k + |sep|] + rest;
    assert s[|s| - |sep + rest|..] == s[k..];
  }

  /** A suffix of a suffix is a suffix. */
  lemma EndsWithTrans(s: string, t: string, u: string)
    requires EndsWith(s, t) && EndsWith(t, u)
    ensures EndsWith(s, u)
  {
    assert s[|s| - |u|..] == t[|t| - |u|..];
  }

  /** A string splits into a single piece exactly when it lacks the separator. */
  lemma SplitSingle(s: string, sep: string)
    requires |sep| > 0
    ensures |Split(s, sep)| == 1 <==> !Contains(s, sep)
  {
    if Contains(s, sep) {
      var k := IndexOf(s, sep, 0).value;
      assert |Split(s[k + |sep|..], sep)| >= 1;
    }
  }

  /** `t` does not occur at `j` when one of its characters differs from the
      character of `s` it would cover. */
  lemma NotAtByChar(s: string, t: string, j: nat, i: nat)
    requires i < |t| && (j + i < |s| ==> s[j + i] != t[i])
    ensures !OccursAt(s, t, j)
  {
    if j + |t| <= |s| {
      assert s[j..j + |t|][i] == s[j + i];
    }
  }

  /** A piece without a one-character separator does not hold that character. */
  lemma NoCharPiece(s: string, c: char)
    requires !Contains(s, [c])
    ensures c !in s
  {
    if c in s {
      var i :| 0 <= i < |s| && s[i] == c;
      assert s[i..i + 1] == [c];
      ContainsAt(s, [c], i);
    }
  }

  /** Every character of a piece is a character of the joined string. */
  lemma {:induction false} JoinHolds(parts: seq<string>, sep: string, k: nat, x: char)
    requires k < |parts| && x in parts[k]
    ensures x in Join(parts, sep)
    decreases |parts|
  {
    if |parts| > 1 && k > 0 {
      JoinHolds(parts[1..], sep, k - 1, x);
    }
  }

  /** A character absent from a string is absent from every piece of its split. */
  lemma SplitPiecesWithout(s: string, sep: string, x: char)
    requires |sep| > 0 && x !in s
    ensures forall k :: 0 <= k < |Split(s, sep)| ==> x !in Split(s, sep)[k]
  {
    var parts := Split(s, sep);
    forall k | 0 <= k < |parts| ensures x !in parts[k] {
      if x in parts[k] {
        JoinHolds(parts, sep, k, x);
      }
    }
  }

  /** When `sep` cannot occur before index `n`, the first piece of the split
      begins with the first `n` characters of the string. */
  lemma FirstPieceKeepsPrefix(s: string, sep: string, n: nat)
    requires |sep| > 0 && n <= |s|
    requires forall j :: 0 <= j < n ==> !OccursAt(s, sep, j)
    ensures n <= |Split(s, sep)[0]| && Split(s, sep)[0][..n] == s[..n]
  {
  }

  /** The first piece of a split is a prefix of the string, and it is the
      whole string or is followed by the separator. */
  lemma FirstPiece(s: string, sep: string)
    requires |sep| > 0
    ensures |Split(s, sep)[0]| <= |s| && s[..|Split(s, sep)[0]|] == Split(s, sep)[0]
    ensures |Split(s, sep)[0]| == |s| || s[|Split(s, sep)[0]|] == sep[0]
  {
    match IndexOf(s, sep, 0)
    case None =>
    case Some(k) =>
      assert Split(s, sep)[0] == s[..k];
      assert s[k..k + |sep|] == sep;
  }

  /** The second piece of the split of a string holding `sep` is the first
      piece of what follows its first occurrence. */
  lemma SecondPiece(s: string, sep: string, k: nat)
    requires |sep| > 0 && IndexOf(s, sep, 0) == Some(k)
    ensures |Split(s, sep)| >= 2 && Split(s, sep)[1] == Split(s[k + |sep|..], sep)[0]
  {
    assert Split(s, sep) == [s[..k]] + Split(s[k + |sep|..], sep);
  }

  /** The second piece `p` of the split of a string holding `sep` starts
      right after the first `sep`, and runs to the end or to the next `sep`. */
  lemma PieceAfter(s: string, sep: string, k: nat, i: nat, p: string)
    requires |sep| > 0 && IndexOf(s, sep, 0) == Some(k) && i == k + |sep|
    requires |Split(s, sep)| >= 2 && p == Split(s, sep)[1]
    ensures i + |p| <= |s| && s[i..i + |p|] == p
    ensures i + |p| == |s| || s[i + |p|] == sep[0]
  {
    SecondPiece(s, sep, k);
    FirstPiece(s[i..], sep);
    PrefixInSuffix(s, i, p, Split(s[i..], sep)[0], sep[0]);
  }

  /** A prefix `d` of the second `sep` piece `p` of `s` that ends `p` or is
      followed there by `x` starts right after the first `sep`, and ends `s`
      or is followed by `x`, when `x` starts `sep`. */
  lemma PieceThenPrefix(s: string, sep: string, k: nat, p: string, d: string, x: char)
    requires |sep| > 0 && x == sep[0] && IndexOf(s, sep, 0) == Some(k)
    requires |Split(s, sep)| >= 2 && p == Split(s, sep)[1]
    requires |d| <= |p| && p[..|d|] == d && (|d| == |p| || p[|d|] == x)
    ensures k + |sep| + |d| <= |s| && s[k + |sep|..k + |sep| + |d|] == d
    ensures k + |sep| + |d| == |s| || s[k + |sep| + |d|] == x
  {
    var i := k + |sep|;
    PieceAfter(s, sep, k, i, p);
    PrefixThenPrefix(s, i, p, d, sep[0], x);
  }

  /** `FirstPiece` for a piece `d` given by name. */
  lemma FirstPieceOf(s: string, sep: string, d: string)
    requires |sep| > 0 && d == Split(s, sep)[0]
    ensures |d| <= |s| && s[..|d|] == d && (|d| == |s| || s[|d|] == sep[0])
  {
    FirstPiece(s, sep);
  }

  /** A prefix `d` of a text `p` that sits at `i` in `s` sits at `i` too, and
      is followed there by what follows it in `p`. */
  lemma PrefixThenPrefix(s: string, i: nat, p: string, d: string, x: char, y: char)
    requires i + |p| <= |s| && s[i..i + |p|] == p
    requires i + |p| == |s| || s[i + |p|] == x
    requires |d| <= |p| && p[..|d|] == d && (|d| == |p| || p[|d|] == y)
    requires x == y
    ensures i + |d| <= |s| && s[i..i + |d|] == d
    ensures i + |d| == |s| || s[i + |d|] == x
  {
    assert s[i..i + |d|] == s[i..i + |p|][..|d|];
    if |d| < |p| {
      assert s[i + |d|] == s[i..i + |p|][|d|];
    }
  }

  /** A prefix `q` of `s[i..]` that ends the string or is followed by `c`
      sits at `i` in `s`, and ends `s` or is followed by `c` there. */
  lemma PrefixInSuffix(s: string, i: nat, p: string, q: string, c: char)
    requires i <= |s| && p == q
    requires |q| <= |s[i..]| && s[i..][..|q|] == q && (|q| == |s[i..]| || s[i..][|q|] == c)
    ensures i + |p| <= |s| && s[i..i + |p|] == p && (i + |p| == |s| || s[i + |p|] == c)
  {
    assert s[i..i + |p|] == s[i..][..|p|];
  }

  /** The first piece of a split on a character is the text before its first
      occurrence. */
  lemma FirstPieceAt(s: string, c: char, n: nat)
    requires n < |s| && s[n] == c && c !in s[..n]
    ensures Split(s, [c])[0] == s[..n]
  {
    assert OccursAt(s, [c], n) by { assert s[n..n + 1] == [c]; }
    forall j | 0 <= j < n ensures !OccursAt(s, [c], j) {
      assert s[..n][j] == s[j];
      assert s[j..j + 1][0] == s[j];
    }
    SplitAt(s, [c], n);
  }

  /** Upper-casing undoes lower-casing on a string without lower-case letters. */
  lemma UpperOfLower(s: string)
    requires forall i :: 0 <= i < |s| ==> !('a' <= s[i] <= 'z')
    ensures Upper(Lower(s)) == s
  {
  }

  /** Lower-casing keeps every character that is not a letter where it was, so
      such a character is in `Lower(s)` exactly when it is in `s`. */
  lemma LowerKeepsChar(s: string, x: char)
    requires !('A' <= x <= 'Z') && !('a' <= x <= 'z')
    ensures x in Lower(s) <==> x in s
  {
    if x in s {
      var i :| 0 <= i < |s| && s[i] == x;
      assert Lower(s)[i] == x;
    }
    if x in Lower(s) {
      var i :| 0 <= i < |s| && Lower(s)[i] == x;
      assert s[i] == x;
    }
  }

  /** Upper-casing leaves a string without lower-case letters unchanged. */
  lemma UpperKeeps(s: string)
    requires forall i :: 0 <= i < |s| ==> !('a' <= s[i] <= 'z')
    ensures Upper(s) == s
  {
  }

  /** Upper-casing twice is upper-casing once. */
  lemma UpperIdempotent(s: string)
    ensures Upper(Upper(s)) == Upper(s)
  {
  }
}
