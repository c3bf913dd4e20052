/**
 * Classpath root inference for an opened class file (`findClassPathRootDirectory`): the class name
 * `com/foo/Bar` says the file should lie in `<root>/com/foo/`, and the frame walks up from the
 * file's directory comparing each directory name with the package names, innermost first.
 */
module ClasspathRoot {
  import opened Options
  import opened Text
  import opened Paths

  /**
   * What the search does: it returns a directory or null, or it dereferences a null `parentFile`
   * (the loop reads `currentDirectory.name` without a null check) and throws.
   */
  datatype Lookup = Returned(directory: Option<FilePath>) | NullDereference

  /**
   * The loop from index i down to 0, starting at `current`. A directory it returns is `current`
   * itself or its ancestor i + 1 levels up, and null is dereferenced only while names are compared.
   */
  function Climb(current: Option<FilePath>, components: seq<string>, i: int): (r: Lookup)
    requires i < |components|
    ensures r.Returned? && r.directory.Some? ==>
      current.Some? && Ancestor(current.value, if i < 0 then 0 else i + 1) == r.directory
    ensures r.NullDereference? ==> i >= 0
    decreases i + 1
  {
    if i < 0 then Returned(current)
    else if current.None? then NullDereference
    else if Name(current.value) != components[i] then Returned(None)
    else Climb(Parent(current.value), components, i - 1)
  }

  /** The search for a file and the '/'-separated parts of its class name; the last part, the class itself, is not compared. */
  function FindRoot(file: FilePath, components: seq<string>): (r: Lookup)
    ensures r.Returned? && r.directory.Some? ==>
      Ancestor(file, if |components| < 2 then 1 else |components|) == r.directory
    ensures r.NullDereference? ==> |components| >= 2
  {
    Climb(Parent(file), components, |components| - 2)
  }

  method FindClassPathRootDirectory(file: FilePath, pathComponents: seq<string>) returns (result: Lookup)
    ensures result == FindRoot(file, pathComponents)
  {
    var currentDirectory := Parent(file);
    var i := |pathComponents| - 2;
    while i >= 0
      invariant i < |pathComponents|
      invariant Climb(currentDirectory, pathComponents, i) == FindRoot(file, pathComponents)
      decreases i
    {
      if currentDirectory.None? {
        return NullDereference;
      }
      if Name(currentDirectory.value) != pathComponents[i] {
        return Returned(None);
      }
      currentDirectory := Parent(currentDirectory.value);
      i := i - 1;
    }
    return Returned(currentDirectory);
  }

  /**
   * Every directory compared for the package names components[i..|components| - 1) exists and is named
   * after its package name: components[j] is the name of the directory |components| - 1 - j levels
   * above the file.
   */
  ghost predicate MatchesFrom(file: FilePath, components: seq<string>, i: nat) {
    forall j :: i <= j <= |components| - 2 ==> NamedAfterPackage(file, components, j)
  }

  /** The directory compared with components[j] exists and carries that name. */
  ghost predicate NamedAfterPackage(file: FilePath, components: seq<string>, j: nat)
    requires j <= |components| - 2
  {
    Ancestor(file, |components| - 1 - j).Some? &&
    Name(Ancestor(file, |components| - 1 - j).value) == components[j]
  }

  lemma MatchesFromLater(file: FilePath, components: seq<string>, i: nat, i': nat)
    requires i <= i'
    requires MatchesFrom(file, components, i)
    ensures MatchesFrom(file, components, i')
  {
    forall j | i' <= j <= |components| - 2
      ensures NamedAfterPackage(file, components, j)
    {
      assert i <= j;
    }
  }

  /** While the names match, the loop at index i looks at the directory |components| - 1 - i levels above the file. */
  lemma {:induction false} ClimbVisitsAncestors(file: FilePath, components: seq<string>, i: int)
    requires -1 <= i <= |components| - 2
    requires MatchesFrom(file, components, i + 1)
    ensures FindRoot(file, components) == Climb(Ancestor(file, |components| - 1 - i), components, i)
    decreases |components| - i
  {
    if i == |components| - 2 {
      AncestorStep(file, 0);
    } else {
      MatchesFromLater(file, components, i + 1, i + 2);
      ClimbVisitsAncestors(file, components, i + 1);
      var k := |components| - 2 - i;
      assert NamedAfterPackage(file, components, i + 1);
      AncestorStep(file, k);
    }
  }

  /** Success: when every package name matches, the result is the ancestor |components| levels above the file (null when there is none). */
  lemma RootInferenceSucceeds(file: FilePath, components: seq<string>)
    requires MatchesFrom(file, components, 0)
    ensures FindRoot(file, components) == Returned(Ancestor(file, if |components| == 0 then 1 else |components|))
  {
    if |components| == 0 {
      AncestorStep(file, 0);
    } else {
      ClimbVisitsAncestors(file, components, -1);
    }
  }

  /** Failure: the first compared directory whose name differs from its package name makes the result null. */
  lemma RootInferenceRejectsMismatch(file: FilePath, components: seq<string>, i: nat, d: FilePath)
    requires i <= |components| - 2
    requires MatchesFrom(file, components, i + 1)
    requires Ancestor(file, |components| - 1 - i) == Some(d)
    requires Name(d) != components[i]
    ensures FindRoot(file, components) == Returned(None)
  {
    ClimbVisitsAncestors(file, components, i);
  }

  /** Running out of parents before the package names are used up dereferences null. */
  lemma RootInferenceDereferencesNull(file: FilePath, components: seq<string>, i: nat)
    requires i <= |components| - 2
    requires MatchesFrom(file, components, i + 1)
    requires Ancestor(file, |components| - 1 - i).None?
    ensures FindRoot(file, components) == NullDereference
  {
    ClimbVisitsAncestors(file, components, i);
  }

  lemma {:induction false} RootOnlyFromMatchingLayout(file: FilePath, components: seq<string>, i: int)
    requires -1 <= i <= |components| - 2
    requires MatchesFrom(file, components, i + 1)
    requires FindRoot(file, components).Returned? && FindRoot(file, components).directory.Some?
    ensures MatchesFrom(file, components, 0)
    decreases i + 1
  {
    if i >= 0 {
      ClimbVisitsAncestors(file, components, i);
      var k := |components| - 1 - i;
      if Ancestor(file, k).Some? && Name(Ancestor(file, k).value) == components[i] {
        assert MatchesFrom(file, components, i) by {
          forall j | i <= j <= |components| - 2
            ensures NamedAfterPackage(file, components, j)
          {
            if j > i {
              assert i + 1 <= j;
            }
          }
        }
        RootOnlyFromMatchingLayout(file, components, i - 1);
      }
    }
  }

  /** A directory is returned exactly when all package names match, and it is then the ancestor |components| levels above the file. */
  lemma RootInferenceCharacterized(file: FilePath, components: seq<string>, root: FilePath)
    ensures FindRoot(file, components) == Returned(Some(root)) <==>
      MatchesFrom(file, components, 0) && Ancestor(file, if |components| == 0 then 1 else |components|) == Some(root)
  {
    if FindRoot(file, components) == Returned(Some(root)) && |components| >= 1 {
      RootOnlyFromMatchingLayout(file, components, |components| - 2);
    }
    if MatchesFrom(file, components, 0) {
      RootInferenceSucceeds(file, components);
    }
  }

  /** A class file stored as <root>/<package names>/<file> gives <root>; a relative path whose package directory has no parent gives null. */
  lemma StandardLayoutRoot(root: FilePath, components: seq<string>, fileName: string)
    requires |components| >= 1
    ensures FindRoot(FilePath(root.absolute, root.names + components[..|components| - 1] + [fileName]), components)
         == Returned(if root.absolute || |root.names| > 0 then Some(root) else None)
  {
    var n := |components|;
    var file := FilePath(root.absolute, root.names + components[..n - 1] + [fileName]);
    StandardLayoutMatches(root, components, fileName);
    RootInferenceSucceeds(file, components);
    AncestorClosedForm(file, n);
    assert file.names[..|root.names|] == root.names;
  }

  /** Every directory compared in a file stored as root/packages/file is named after its package. */
  lemma StandardLayoutMatches(root: FilePath, components: seq<string>, fileName: string)
    requires |components| >= 1
    ensures MatchesFrom(FilePath(root.absolute, root.names + components[..|components| - 1] + [fileName]), components, 0)
  {
    var n := |components|;
    var file := FilePath(root.absolute, root.names + components[..n - 1] + [fileName]);
    forall j | 0 <= j <= n - 2
      ensures NamedAfterPackage(file, components, j)
    {
      AncestorClosedForm(file, n - 1 - j);
      assert file.names[|root.names| + j] == components[j];
    }
  }


  /** `/root/com/foo/Bar.class` holding class `com/foo/Bar` gives `/root`. */
  lemma StandardLayoutExample()
    ensures FindRoot(FilePath(true, ["root", "com", "foo", "Bar.class"]), Split("com/foo/Bar", '/'))
         == Returned(Some(FilePath(true, ["root"])))
  {
    var parts := ["com", "foo", "Bar"];
    assert Join(parts, '/') == "com/foo/Bar";
    SplitOfJoin(parts, '/');
    StandardLayoutRoot(FilePath(true, ["root"]), parts, "Bar.class");
    assert ["root"] + parts[..2] + ["Bar.class"] == ["root", "com", "foo", "Bar.class"];
  }

  /** `/root/wrong/foo/Bar.class` holding class `com/foo/Bar` gives null. */
  lemma MisplacedClassExample()
    ensures FindRoot(FilePath(true, ["root", "wrong", "foo", "Bar.class"]), Split("com/foo/Bar", '/'))
         == Returned(None)
  {
    var parts := ["com", "foo", "Bar"];
    assert Join(parts, '/') == "com/foo/Bar";
    SplitOfJoin(parts, '/');
    var package := FilePath(true, ["root", "wrong", "foo"]);
    var outer := FilePath(true, ["root", "wrong"]);
    assert ["root", "wrong", "foo", "Bar.class"][..3] == package.names;
    assert package.names[..2] == outer.names;
    assert Parent(FilePath(true, ["root", "wrong", "foo", "Bar.class"])) == Some(package);
    assert Parent(package) == Some(outer);
    assert Name(outer) != parts[0];
    assert Climb(Some(package), parts, 1) == Climb(Some(outer), parts, 0);
  }

  /** From an existing absolute directory the climb stops at a mismatch or ends normally, as long as no package name is empty. */
  lemma {:induction false} ClimbFromAbsoluteNeverDereferencesNull(current: FilePath, components: seq<string>, i: int)
    requires current.absolute && i < |components|
    requires forall j :: 0 <= j <= i ==> components[j] != ""
    ensures Climb(Some(current), components, i) != NullDereference
    decreases i + 1
  {
    if i >= 0 && Name(current) == components[i] {
      assert |current.names| > 0;
      ClimbFromAbsoluteNeverDereferencesNull(Parent(current).value, components, i - 1);
    }
  }

  /** Only a relative path (or an empty package name) makes the search dereference null: the root's name "" matches no package. */
  lemma AbsoluteFileNeverDereferencesNull(file: FilePath, components: seq<string>)
    requires file.absolute && |file.names| > 0
    requires forall j :: 0 <= j < |components| - 1 ==> components[j] != ""
    ensures FindRoot(file, components) != NullDereference
  {
    ClimbFromAbsoluteNeverDereferencesNull(Parent(file).value, components, |components| - 2);
  }

  /** The relative file `Bar.class` holding class `com/foo/Bar` has no parent directory to compare with `foo`. */
  lemma RelativeFileExample()
    ensures FindRoot(FilePath(false, ["Bar.class"]), Split("com/foo/Bar", '/')) == NullDereference
  {
    var parts := ["com", "foo", "Bar"];
    assert Join(parts, '/') == "com/foo/Bar";
    SplitOfJoin(parts, '/');
  }
}
