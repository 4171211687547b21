/**
 * The list_files tool (tools/list_files.go): walk a directory tree and list
 * every path below its root, relative to the root, directories marked by a
 * trailing "/". The walk itself is an input: `walk(dir)` is the sequence of
 * visits filepath.Walk makes from `dir`, each with the error it reports (if
 * any) and the outcome of filepath.Rel for it.
 */
module ListFiles {
  import opened Wrappers

  /** The decoded JSON input of the tool; an absent path decodes to "". */
  datatype ListFilesInput = ListFilesInput(path: string)

  /** One call of the walk callback: the walk's error, the relative path (or Rel's error), and whether it is a directory. */
  datatype Visit = Visit(walkErr: Option<string>, rel: Result<string, string>, isDir: bool)

  /** The error the callback returns for a visit, if any: the walk's own error first. */
  function VisitError(v: Visit): Option<string> {
    if v.walkErr.Some? then v.walkErr
    else if v.rel.Failure? then Some(v.rel.error)
    else None
  }

  /** The error that stops the walk: that of the first visit that has one. */
  function FirstError(vs: seq<Visit>): (e: Option<string>)
    ensures e.None? <==> forall k | 0 <= k < |vs| :: VisitError(vs[k]).None?
  {
    if vs == [] then None
    else if VisitError(vs[0]).Some? then VisitError(vs[0])
    else FirstError(vs[1..])
  }

  /** A visit that adds an entry: its relative path is known and is not the root itself. */
  predicate Kept(v: Visit) {
    v.rel.Success? && v.rel.value != "."
  }

  function Entry(v: Visit): string
    requires v.rel.Success?
  {
    v.rel.value + (if v.isDir then "/" else "")
  }

  /** The entries of a sequence of visits, in visit order. */
  function Listing(vs: seq<Visit>): (r: seq<string>)
    ensures |r| <= |vs|
  {
    if vs == [] then []
    else Listing(DropLast(vs)) + (if Kept(Last(vs)) then [Entry(Last(vs))] else [])
  }

  /** Every kept visit adds exactly one entry and every other visit none. */
  lemma {:induction false} ListingLength(vs: seq<Visit>)
    ensures (forall k | 0 <= k < |vs| :: Kept(vs[k])) ==> |Listing(vs)| == |vs|
    ensures (forall k | 0 <= k < |vs| :: !Kept(vs[k])) ==> Listing(vs) == []
  {
    if vs != [] {
      var init := DropLast(vs);
      ListingLength(init);
      assert forall k | 0 <= k < |init| :: init[k] == vs[k];
    }
  }

  /** What the tool returns for a walk: the first error, with no partial listing, or the whole listing. */
  function Outcome(vs: seq<Visit>): (r: Result<seq<string>, string>)
    ensures r.Failure? <==> exists k | 0 <= k < |vs| :: VisitError(vs[k]).Some?
    ensures r.Success? ==> r.value == Listing(vs)
  {
    if FirstError(vs).Some? then Failure(FirstError(vs).value) else Success(Listing(vs))
  }

  lemma {:induction false} FirstErrorIsEarliest(vs: seq<Visit>, k: nat)
    requires k < |vs| && VisitError(vs[k]).Some?
    requires forall j | 0 <= j < k :: VisitError(vs[j]).None?
    ensures FirstError(vs) == VisitError(vs[k])
  {
    if k > 0 {
      assert VisitError(vs[0]).None?;
      FirstErrorIsEarliest(vs[1..], k - 1);
    }
  }

  /** The listing of a walk is the listing of its first part followed by that of the rest. */
  lemma {:induction false} ListingAppend(a: seq<Visit>, b: seq<Visit>)
    ensures Listing(a + b) == Listing(a) + Listing(b)
    decreases |b|
  {
    if b == [] {
      assert a + b == a;
    } else {
      var b' := DropLast(b);
      assert DropLast(a + b) == a + b';
      assert Last(a + b) == Last(b);
      ListingAppend(a, b');
    }
  }

  /**
   * A string is listed exactly when some visit is kept and has it as its
   * entry: the relative path, with "/" appended for a directory and for
   * nothing else.
   */
  lemma {:induction false} ListingMembers(vs: seq<Visit>, x: string)
    ensures x in Listing(vs) <==>
      exists k | 0 <= k < |vs| :: Kept(vs[k]) && x == vs[k].rel.value + (if vs[k].isDir then "/" else "")
  {
    if vs != [] {
      var init := DropLast(vs);
      ListingMembers(init, x);
      if x in Listing(vs) && x !in Listing(init) {
        assert Kept(Last(vs)) && x == Entry(Last(vs));
      }
      if exists k | 0 <= k < |vs| :: Kept(vs[k]) && x == Entry(vs[k]) {
        var k :| 0 <= k < |vs| && Kept(vs[k]) && x == Entry(vs[k]);
        if k < |vs| - 1 {
          assert init[k] == vs[k];
        }
      }
    }
  }

  lemma EntryNotRoot(v: Visit)
    requires Kept(v)
    ensures Entry(v) != "."
  {
    if v.isDir {
      var e := Entry(v);
      assert Last(e) == '/';
    }
  }

  /** The walk's root, whose relative path is ".", never appears in the listing. */
  lemma RootNeverListed(vs: seq<Visit>)
    ensures "." !in Listing(vs)
  {
    forall k | 0 <= k < |vs| && Kept(vs[k])
      ensures Entry(vs[k]) != "."
    {
      EntryNotRoot(vs[k]);
    }
    ListingMembers(vs, ".");
  }

  /** ListFiles. A decode failure of the raw input panics in the tool, so a decoded input is required. */
  method ListFiles(input: Result<ListFilesInput, string>, walk: string -> seq<Visit>) returns (r: Result<seq<string>, string>)
    requires input.Success?
    ensures input.value.path == "" ==> r == Outcome(walk("."))
    ensures input.value.path != "" ==> r == Outcome(walk(input.value.path))
  {
    var listFileInput := input.value;
    var dir := ".";
    if listFileInput.path != "" {
      dir := listFileInput.path;
    }

    var vs := walk(dir);
    var files: seq<string> := [];
    var i := 0;
    while i < |vs|
      invariant 0 <= i <= |vs|
      invariant forall j | 0 <= j < i :: VisitError(vs[j]).None?
      invariant files == Listing(vs[..i])
    {
      var v := vs[i];
      if v.walkErr.Some? {
        FirstErrorIsEarliest(vs, i);
        return Failure(v.walkErr.value);
      }
      if v.rel.Failure? {
        FirstErrorIsEarliest(vs, i);
        return Failure(v.rel.error);
      }
      if v.rel.value != "." {
        var suffix := "";
        if v.isDir {
          suffix := "/";
        }
        files := files + [v.rel.value + suffix];
      }
      assert vs[..i + 1][..i] == vs[..i];
      i := i + 1;
    }
    assert vs[..i] == vs;
    return Success(files);
  }
}
