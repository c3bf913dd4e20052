/**
 * `java.io.File` as the frame uses it: a path is the chain of its names, `name` is the last of them
 * and `parentFile` drops it. The root of an absolute path and the first name of a relative one have
 * no parent (`parentFile` is null there).
 */
module Paths {
  import opened Options
  import opened Text

  datatype FilePath = FilePath(absolute: bool, names: seq<string>)

  /** `File.getName`: the last name, empty for the root. */
  function Name(p: FilePath): string {
    if |p.names| == 0 then "" else p.names[|p.names| - 1]
  }

  /** How many ancestors the path has. */
  function Depth(p: FilePath): int {
    if p.absolute then |p.names| else |p.names| - 1
  }

  /** `File.getParentFile`. */
  function Parent(p: FilePath): (q: Option<FilePath>)
    ensures q.Some? <==> Depth(p) >= 1
    ensures q.Some? ==> q.value.absolute == p.absolute && q.value.names + [Name(p)] == p.names
  {
    if Depth(p) < 1 then None else Some(FilePath(p.absolute, p.names[..|p.names| - 1]))
  }

  /** `parentFile` taken k times; None once it has returned null. */
  function Ancestor(p: FilePath, k: nat): Option<FilePath>
    decreases k
  {
    if k == 0 then Some(p)
    else match Parent(p)
      case None => None
      case Some(q) => Ancestor(q, k - 1)
  }

  /** The k-th ancestor exists exactly when the path has k ancestors, and is the path without its last k names. */
  lemma {:induction false} AncestorClosedForm(p: FilePath, k: nat)
    ensures Ancestor(p, k) ==
      if k == 0 || k <= Depth(p) then Some(FilePath(p.absolute, p.names[..|p.names| - k])) else None
    decreases k
  {
    if k > 0 {
      match Parent(p)
      case None =>
        assert Ancestor(p, k) == None;
      case Some(q) =>
        assert Ancestor(p, k) == Ancestor(q, k - 1);
        AncestorClosedForm(q, k - 1);
        assert q.absolute == p.absolute && q.names == p.names[..|p.names| - 1];
        assert Depth(q) == Depth(p) - 1;
        if k <= Depth(p) {
          assert q.names[..|q.names| - (k - 1)] == p.names[..|p.names| - k];
        }
    } else {
      assert p.names[..|p.names|] == p.names;
    }
  }

  /** One more `parentFile` step. */
  lemma {:induction false} AncestorStep(p: FilePath, k: nat)
    ensures Ancestor(p, k).None? ==> Ancestor(p, k + 1).None?
    ensures Ancestor(p, k).Some? ==> Ancestor(p, k + 1) == Parent(Ancestor(p, k).value)
    decreases k
  {
    if k > 0 {
      match Parent(p)
      case None =>
      case Some(q) => AncestorStep(q, k - 1);
    }
  }

  /** `File.getPath`: the names joined with '/', after a leading '/' for an absolute path. */
  function PathString(p: FilePath): string {
    (if p.absolute then "/" else "") + Join(p.names, '/')
  }

  /** `File(p.path + "." + ext)`: the same file name with the extension added, in the same directory. */
  function WithExtension(p: FilePath, ext: string): (q: FilePath)
    ensures PathString(q) == PathString(p) + "." + ext
    ensures Name(q) == Name(p) + "." + ext
    ensures |p.names| > 0 ==> Parent(q) == Parent(p)
  {
    if |p.names| == 0 then
      FilePath(p.absolute, ["." + ext])
    else
      var last := p.names[|p.names| - 1];
      JoinExtendLast(p.names, '/', "." + ext);
      assert last + ("." + ext) == last + "." + ext;
      FilePath(p.absolute, p.names[..|p.names| - 1] + [last + "." + ext])
  }

  /** `File.getParent` of a file that has a parent directory. */
  function ParentPath(p: FilePath): string
    requires Parent(p).Some?
  {
    PathString(Parent(p).value)
  }

  /** Every name is non-empty and holds no separator: the form `java.io.File` keeps a path in. */
  predicate Normalized(p: FilePath) {
    forall k :: 0 <= k < |p.names| ==> p.names[k] != "" && '/' !in p.names[k]
  }

  /** The non-empty parts, in order. */
  function NonEmptyParts(parts: seq<string>): (r: seq<string>)
    ensures forall k :: 0 <= k < |r| ==> r[k] != "" && r[k] in parts
    decreases |parts|
  {
    if |parts| == 0 then []
    else
      var rest := NonEmptyParts(parts[1..]);
      if parts[0] == "" then rest else [parts[0]] + rest
  }

  lemma {:induction false} NonEmptyPartsKeepsNonEmpty(parts: seq<string>)
    requires forall k :: 0 <= k < |parts| ==> parts[k] != ""
    ensures NonEmptyParts(parts) == parts
    decreases |parts|
  {
    if |parts| > 0 {
      NonEmptyPartsKeepsNonEmpty(parts[1..]);
      assert [parts[0]] + parts[1..] == parts;
    }
  }

  /** `File(path)`: a leading '/' makes the path absolute, and repeated and trailing separators are dropped. */
  function FileOf(path: string): (p: FilePath)
    ensures Normalized(p)
  {
    var parts := Split(path, '/');
    var names := NonEmptyParts(parts);
    assert forall k :: 0 <= k < |names| ==> '/' !in names[k];
    FilePath(|path| > 0 && path[0] == '/', names)
  }

  /** A normalized path read back from its path string is the same path. */
  lemma FileOfPathString(p: FilePath)
    requires Normalized(p)
    ensures FileOf(PathString(p)) == p
  {
    var joined := Join(p.names, '/');
    var path := PathString(p);
    var tail := if |p.names| == 0 then [""] else p.names;
    if |p.names| == 0 {
      assert joined == "";
    } else {
      SplitOfJoin(p.names, '/');
      JoinStartsWithFirst(p.names, '/');
      assert joined[0] == p.names[0][0];
    }
    assert Split(joined, '/') == tail;
    if p.absolute {
      SplitAtFirstSeparator("", '/', joined);
      assert path == "" + ['/'] + joined;
      assert Split(path, '/') == [""] + tail;
      assert NonEmptyParts([""] + tail) == NonEmptyParts(tail) by {
        assert ([""] + tail)[1..] == tail;
      }
    } else {
      assert path == joined;
    }
    if |p.names| > 0 {
      NonEmptyPartsKeepsNonEmpty(p.names);
    } else {
      assert NonEmptyParts(tail) == [] by { assert tail[1..] == []; }
    }
    assert NonEmptyParts(Split(path, '/')) == p.names;
    assert (|path| > 0 && path[0] == '/') == p.absolute;
  }
}
