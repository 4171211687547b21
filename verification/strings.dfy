/**
 * The two library string operations the edit-file tool depends on:
 * strings.ReplaceAll and path.Dir. Characters stand for runes.
 */
module Strings {
  import opened Wrappers

  /** `pattern` occurs in `s` starting at position `i`. */
  predicate OccursAt(s: string, pattern: string, i: nat) {
    i + |pattern| <= |s| && s[i..i + |pattern|] == pattern
  }

  predicate Occurs(s: string, pattern: string) {
    exists i: nat | i <= |s| :: OccursAt(s, pattern, i)
  }

  /** strings.Index from position k on: the first position at or after k where `pattern` occurs. */
  function IndexFrom(s: string, pattern: string, k: nat): (r: Option<nat>)
    requires k <= |s|
    ensures r.Some? ==> k <= r.value && OccursAt(s, pattern, r.value)
    ensures r.Some? ==> forall j | k <= j < r.value :: !OccursAt(s, pattern, j)
    ensures r.None? ==> forall j | k <= j <= |s| :: !OccursAt(s, pattern, j)
    decreases |s| - k
  {
    if OccursAt(s, pattern, k) then Some(k)
    else if k == |s| then None
    else IndexFrom(s, pattern, k + 1)
  }

  /** strings.Index: the first position where `pattern` occurs in `s`, if it does. */
  function Index(s: string, pattern: string): (r: Option<nat>)
    ensures r.Some? ==> OccursAt(s, pattern, r.value) && forall j: nat | j < r.value :: !OccursAt(s, pattern, j)
    ensures r.None? ==> forall j: nat | j <= |s| :: !OccursAt(s, pattern, j)
  {
    IndexFrom(s, pattern, 0)
  }

  /**
   * strings.ReplaceAll: every non-overlapping occurrence of `pattern`, found
   * scanning left to right, is replaced by `replacement`. An empty pattern
   * matches before every character and at the end.
   */
  function ReplaceAll(s: string, pattern: string, replacement: string): (r: string)
    ensures pattern != [] && Index(s, pattern).None? ==> r == s
  {
    if pattern == [] then Interleave(s, replacement) else ReplaceEach(s, pattern, replacement)
  }

  function ReplaceEach(s: string, pattern: string, replacement: string): string
    requires pattern != []
    decreases |s|
  {
    match Index(s, pattern)
    case None => s
    case Some(i) => s[..i] + replacement + ReplaceEach(s[i + |pattern|..], pattern, replacement)
  }

  /** `insert` before every character of `s` and once more at the end. */
  function Interleave(s: string, insert: string): string {
    if s == [] then insert else insert + [s[0]] + Interleave(s[1..], insert)
  }

  lemma {:induction false} InterleaveLength(s: string, insert: string)
    ensures |Interleave(s, insert)| == |s| + (|s| + 1) * |insert|
  {
    if s != [] {
      InterleaveLength(s[1..], insert);
    }
  }

  lemma {:induction false} InterleaveKeeps(s: string, insert: string, k: nat)
    requires k < |s|
    ensures (k + 1) * |insert| + k < |Interleave(s, insert)|
    ensures Interleave(s, insert)[(k + 1) * |insert| + k] == s[k]
  {
    var n := |insert|;
    var rest := Interleave(s[1..], insert);
    var whole := Interleave(s, insert);
    assert whole == insert + [s[0]] + rest;
    if k > 0 {
      var m := k * n + (k - 1);
      InterleaveKeeps(s[1..], insert, k - 1);
      assert (k + 1) * n == k * n + n;
      assert whole[n + 1 + m] == rest[m];
    }
  }

  /** Where the k-th inserted copy starts, when each copy has length n and is followed by one kept character. */
  function Slot(k: nat, n: nat): nat {
    k * (n + 1)
  }

  lemma {:induction false} InterleaveInserts(s: string, insert: string, k: nat)
    requires k <= |s|
    ensures Slot(k, |insert|) + |insert| <= |Interleave(s, insert)|
    ensures Interleave(s, insert)[Slot(k, |insert|) .. Slot(k, |insert|) + |insert|] == insert
  {
    var n := |insert|;
    var whole := Interleave(s, insert);
    if s == [] {
      assert whole == insert;
    } else {
      var rest := Interleave(s[1..], insert);
      assert whole == insert + [s[0]] + rest;
      if k == 0 {
        assert whole[..n] == insert;
      } else {
        var m := Slot(k - 1, n);
        InterleaveInserts(s[1..], insert, k - 1);
        assert Slot(k, n) == (n + 1) + m;
        assert whole[(n + 1) + m .. (n + 1) + m + n] == rest[m .. m + n];
      }
    }
  }

  /**
   * An empty pattern matches before every character and at the end, so the
   * replacement is inserted |s| + 1 times, once before each character of
   * `s` and once at the end, and every character of `s` is kept.
   */
  lemma ReplaceAllEmptyPattern(s: string, replacement: string)
    ensures |ReplaceAll(s, [], replacement)| == |s| + (|s| + 1) * |replacement|
    ensures forall k | 0 <= k < |s| :: ReplaceAll(s, [], replacement)[(k + 1) * |replacement| + k] == s[k]
    ensures forall k | 0 <= k <= |s| ::
      && Slot(k, |replacement|) + |replacement| <= |ReplaceAll(s, [], replacement)|
      && ReplaceAll(s, [], replacement)[Slot(k, |replacement|) .. Slot(k, |replacement|) + |replacement|] == replacement
  {
    InterleaveLength(s, replacement);
    forall k | 0 <= k < |s| ensures ReplaceAll(s, [], replacement)[(k + 1) * |replacement| + k] == s[k] {
      InterleaveKeeps(s, replacement, k);
    }
    forall k | 0 <= k <= |s|
      ensures && Slot(k, |replacement|) + |replacement| <= |ReplaceAll(s, [], replacement)|
              && ReplaceAll(s, [], replacement)[Slot(k, |replacement|) .. Slot(k, |replacement|) + |replacement|] == replacement
    {
      InterleaveInserts(s, replacement, k);
    }
  }

  /** A replacement at least as long as the pattern never shortens the string, and one at most as long never lengthens it. */
  lemma {:induction false} ReplaceAllLength(s: string, pattern: string, replacement: string)
    requires pattern != []
    ensures |replacement| >= |pattern| ==> |ReplaceAll(s, pattern, replacement)| >= |s|
    ensures |replacement| <= |pattern| ==> |ReplaceAll(s, pattern, replacement)| <= |s|
    decreases |s|
  {
    match Index(s, pattern)
    case None =>
    case Some(i) =>
      var rest := s[i + |pattern|..];
      ReplaceAllLength(rest, pattern, replacement);
      ReplaceAllStep(s, pattern, replacement, i);
  }

  /** Index finds an occurrence that no earlier position has. */
  lemma IndexIsFirst(s: string, pattern: string, i: nat)
    requires OccursAt(s, pattern, i)
    requires forall j: nat | j < i :: !OccursAt(s, pattern, j)
    ensures Index(s, pattern) == Some(i)
  {
    var k := Index(s, pattern).value;
    assert !(k < i) && !(i < k);
  }

  /**
   * The scan step for ReplaceEach alone. It is kept apart from
   * ReplaceAllStep so that each proof unfolds a single definition: unfolding
   * ReplaceAll and ReplaceEach in one proof is much costlier for the solver.
   */
  lemma ReplaceEachStep(s: string, pattern: string, replacement: string, i: nat)
    requires pattern != [] && Index(s, pattern) == Some(i)
    ensures i + |pattern| <= |s|
    ensures ReplaceEach(s, pattern, replacement)
         == s[..i] + replacement + ReplaceEach(s[i + |pattern|..], pattern, replacement)
  {
    assert Index(s, pattern).value == i;
  }

  /** One step of the scan: the text before the occurrence Index finds, the replacement, then the rest replaced. */
  lemma ReplaceAllStep(s: string, pattern: string, replacement: string, i: nat)
    requires pattern != [] && Index(s, pattern) == Some(i)
    ensures i + |pattern| <= |s|
    ensures ReplaceAll(s, pattern, replacement)
         == s[..i] + replacement + ReplaceAll(s[i + |pattern|..], pattern, replacement)
  {
    ReplaceEachStep(s, pattern, replacement, i);
  }

  /**
   * Left-to-right scanning: everything before the first occurrence is kept,
   * that occurrence is replaced, and the scan resumes right after it.
   */
  lemma ReplaceAllFirstOccurrence(s: string, pattern: string, replacement: string, i: nat)
    requires pattern != [] && OccursAt(s, pattern, i)
    requires forall j: nat | j < i :: !OccursAt(s, pattern, j)
    ensures ReplaceAll(s, pattern, replacement)
         == s[..i] + replacement + ReplaceAll(s[i + |pattern|..], pattern, replacement)
  {
    IndexIsFirst(s, pattern, i);
    ReplaceAllStep(s, pattern, replacement, i);
  }

  /** Replacing an occurrence of `pattern` by a different string, followed by a tail of the right length, changes `s`. */
  lemma SpliceDiffers(s: string, pattern: string, replacement: string, i: nat, tail: string)
    requires OccursAt(s, pattern, i) && pattern != replacement
    requires |replacement| >= |pattern| ==> |tail| >= |s| - i - |pattern|
    requires |replacement| <= |pattern| ==> |tail| <= |s| - i - |pattern|
    ensures s[..i] + replacement + tail != s
  {
    var r := s[..i] + replacement + tail;
    if |replacement| == |pattern| {
      assert r[i..i + |pattern|] == replacement;
    }
  }

  /** With an occurrence of the pattern and a different replacement, ReplaceAll changes the string. */
  lemma ReplaceAllPresent(s: string, pattern: string, replacement: string)
    requires pattern != [] && pattern != replacement && Occurs(s, pattern)
    ensures ReplaceAll(s, pattern, replacement) != s
  {
    var i := Index(s, pattern).value;
    var rest := s[i + |pattern|..];
    var tail := ReplaceAll(rest, pattern, replacement);
    ReplaceAllStep(s, pattern, replacement, i);
    ReplaceAllLength(rest, pattern, replacement);
    SpliceDiffers(s, pattern, replacement, i, tail);
  }

  /**
   * For a non-empty pattern different from its replacement, ReplaceAll leaves
   * the string unchanged exactly when the pattern does not occur in it.
   */
  lemma ReplaceAllUnchangedIffAbsent(s: string, pattern: string, replacement: string)
    requires pattern != [] && pattern != replacement
    ensures ReplaceAll(s, pattern, replacement) == s <==> !Occurs(s, pattern)
  {
    if Occurs(s, pattern) {
      ReplaceAllPresent(s, pattern, replacement);
    }
  }

  /** The position of the last '/' in `p`, if any. */
  function LastSlash(p: string): (r: Option<nat>)
    ensures r.Some? ==> r.value < |p| && p[r.value] == '/' && forall k | r.value < k < |p| :: p[k] != '/'
    ensures r.None? ==> forall k | 0 <= k < |p| :: p[k] != '/'
  {
    if p == [] then None
    else if Last(p) == '/' then Some(|p| - 1)
    else LastSlash(DropLast(p))
  }

  /** `p` without its trailing slashes. */
  function TrimTrailingSlashes(p: string): (r: string)
    ensures r <= p
    ensures forall k | |r| <= k < |p| :: p[k] == '/'
    ensures r == [] || Last(r) != '/'
  {
    if p != [] && Last(p) == '/' then TrimTrailingSlashes(DropLast(p)) else p
  }

  /**
   * path.Dir: the path up to its last slash, with trailing slashes removed;
   * "." when the path has no slash and "/" when only slashes precede it.
   * What is cut off is exactly the run of slashes ending at the last slash.
   */
  function Dir(p: string): (d: string)
    ensures d != []
    ensures (forall k | 0 <= k < |p| :: p[k] != '/') ==> d == "."
    ensures (exists k | 0 <= k < |p| :: p[k] == '/') ==>
      d == "/" || (d < p && p[|d|] == '/' && Last(d) != '/')
    ensures LastSlash(p).Some? ==>
      forall j | (if d == "/" then 0 else |d|) <= j <= LastSlash(p).value :: p[j] == '/'
  {
    match LastSlash(p)
    case None => "."
    case Some(k) =>
      var t := TrimTrailingSlashes(p[..k]);
      if t == [] then "/" else t
  }

  /** Only "." and "/" are their own directory. */
  lemma DirIsNotPath(p: string)
    requires p != "." && p != "/"
    ensures Dir(p) != p
  {
    if exists k | 0 <= k < |p| :: p[k] == '/' {
      var d := Dir(p);
      if d != "/" {
        assert |d| < |p|;
      }
    }
  }
}
