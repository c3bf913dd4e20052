/**
 * What the frame decides from a file name alone: which opener a chosen or dropped file goes to,
 * the name a workspace is saved under, and the location string of a class inside a JAR file.
 */
module FileKinds {
  import opened Options
  import opened Text
  import opened Paths

  /** Where the Open action sends the chosen file. */
  datatype OpenKind = OpenAsClass | OpenAsJar | NotClassOrJar

  /**
   * The Open action's dispatch on the lower-cased path: `.class`, then `.jar`, else a warning. That
   * is, on the extension, the text after the last dot of the lower-cased path.
   */
  function ClassifyOpen(path: string): (k: OpenKind)
    ensures k == if Extension(Lower(path)) == Some("class") then OpenAsClass
                 else if Extension(Lower(path)) == Some("jar") then OpenAsJar
                 else NotClassOrJar
  {
    var lowerCasePath := Lower(path);
    assert ".class" == "." + "class" && ".jar" == "." + "jar";
    EndsWithExtension(lowerCasePath, "class");
    EndsWithExtension(lowerCasePath, "jar");
    if EndsWith(lowerCasePath, ".class") then OpenAsClass
    else if EndsWith(lowerCasePath, ".jar") then OpenAsJar
    else NotClassOrJar
  }

  /** What `openExternalFile` does with a path handed over by the desktop or a drop. */
  datatype ExternalKind = ExternalWorkspace | ExternalClass | ExternalIgnored

  /**
   * Existing files only; the workspace suffix is tested before `.class`, and there is no `.jar`
   * branch. For a workspace suffix without dots this is a dispatch on the extension.
   */
  function ClassifyExternal(path: string, fileExists: bool, workspaceSuffix: string): (k: ExternalKind)
    ensures '.' !in workspaceSuffix ==>
      k == if !fileExists then ExternalIgnored
           else if Extension(Lower(path)) == Some(workspaceSuffix) then ExternalWorkspace
           else if Extension(Lower(path)) == Some("class") then ExternalClass
           else ExternalIgnored
  {
    var lowerCasePath := Lower(path);
    assert ".class" == "." + "class";
    EndsWithExtension(lowerCasePath, "class");
    assert '.' !in workspaceSuffix ==>
      (EndsWith(lowerCasePath, "." + workspaceSuffix) <==> Extension(lowerCasePath) == Some(workspaceSuffix)) by {
      if '.' !in workspaceSuffix {
        EndsWithExtension(lowerCasePath, workspaceSuffix);
      }
    }
    if !fileExists then ExternalIgnored
    else if EndsWith(lowerCasePath, "." + workspaceSuffix) then ExternalWorkspace
    else if EndsWith(lowerCasePath, ".class") then ExternalClass
    else ExternalIgnored
  }

  /** A name ending in one dot-free extension does not end in another. */
  lemma ExtensionsExclusive(s: string, e: string, e': string)
    requires '.' !in e && '.' !in e' && e != e'
    requires EndsWith(s, "." + e)
    ensures !EndsWith(s, "." + e')
  {
    EndsWithExtension(s, e);
    EndsWithExtension(s, e');
  }

  /** A JAR file handed to external open is ignored, unless the workspace suffix were "jar" itself. */
  lemma ExternalJarIgnored(path: string, fileExists: bool, workspaceSuffix: string)
    requires '.' !in workspaceSuffix && workspaceSuffix != "jar"
    requires EndsWith(Lower(path), ".jar")
    ensures ClassifyExternal(path, fileExists, workspaceSuffix) == ExternalIgnored
  {
    var lowerCasePath := Lower(path);
    var jar, cls := "jar", "class";
    assert ".jar" == "." + jar && ".class" == "." + cls;
    assert jar != cls by { assert jar[0] != cls[0]; }
    ExtensionsExclusive(lowerCasePath, jar, workspaceSuffix);
    ExtensionsExclusive(lowerCasePath, jar, cls);
  }

  /** Both dispatches ignore case: paths that agree after lower-casing each character are treated alike. */
  lemma ClassificationIgnoresCase(p: string, q: string, fileExists: bool, workspaceSuffix: string)
    requires |p| == |q|
    requires forall k :: 0 <= k < |p| ==> LowerChar(p[k]) == LowerChar(q[k])
    ensures ClassifyOpen(p) == ClassifyOpen(q)
    ensures ClassifyExternal(p, fileExists, workspaceSuffix) == ClassifyExternal(q, fileExists, workspaceSuffix)
  {
    assert Lower(p) == Lower(q);
  }

  /** `getWorkspaceFile`: the chosen file, with "." + suffix added unless its lower-cased name already ends in it. */
  function WorkspaceFile(selectedFile: FilePath, workspaceSuffix: string): (r: FilePath)
    ensures r == selectedFile <==> EndsWith(Lower(Name(selectedFile)), "." + workspaceSuffix)
    ensures r != selectedFile ==> PathString(r) == PathString(selectedFile) + "." + workspaceSuffix
    ensures Parent(selectedFile).Some? ==> Parent(r) == Parent(selectedFile)
  {
    if !EndsWith(Lower(Name(selectedFile)), "." + workspaceSuffix) then
      var r := WithExtension(selectedFile, workspaceSuffix);
      assert |Name(r)| > |Name(selectedFile)|;
      r
    else
      selectedFile
  }

  /** With a lower-case suffix, the workspace file's name always ends in it. */
  lemma WorkspaceFileHasSuffix(selectedFile: FilePath, workspaceSuffix: string)
    requires IsLowerCase(workspaceSuffix)
    ensures EndsWith(Lower(Name(WorkspaceFile(selectedFile, workspaceSuffix))), "." + workspaceSuffix)
  {
    var name := Name(selectedFile);
    if !EndsWith(Lower(name), "." + workspaceSuffix) {
      assert Name(WorkspaceFile(selectedFile, workspaceSuffix)) == name + ("." + workspaceSuffix);
      LowerConcat(name, "." + workspaceSuffix);
      LowerConcat(".", workspaceSuffix);
      EndsWithAppended(Lower(name), "." + workspaceSuffix);
    }
  }

  /** Choosing the file that `getWorkspaceFile` returned gives it back unchanged. */
  lemma WorkspaceFileIdempotent(selectedFile: FilePath, workspaceSuffix: string)
    requires IsLowerCase(workspaceSuffix)
    ensures WorkspaceFile(WorkspaceFile(selectedFile, workspaceSuffix), workspaceSuffix)
         == WorkspaceFile(selectedFile, workspaceSuffix)
  {
    WorkspaceFileHasSuffix(selectedFile, workspaceSuffix);
  }

  /** A class inside an archive, as the location string names it. */
  datatype ArchiveMember = ArchiveMember(archivePath: string, className: string)

  /**
   * The file name a class opened from a JAR file gets: `<jar path>!<class path name>.class`. It
   * starts with the archive path and ends in ".class", and for a class name without '!' the last
   * '!' is the one right after the archive path.
   */
  function ArchiveClassLocation(archivePath: string, className: string): (location: string)
    ensures |archivePath| < |location| && location[..|archivePath|] == archivePath && EndsWith(location, ".class")
    ensures '!' !in className ==> LastIndexOf(location, '!') == Some(|archivePath|)
  {
    var location := archivePath + "!" + className + ".class";
    var tail := className + ".class";
    assert location == archivePath + ['!'] + tail;
    assert '!' !in className ==> LastIndexOf(location, '!') == Some(|archivePath|) by {
      if '!' !in className {
        assert '!' !in tail;
        forall j | |archivePath| < j < |location|
          ensures location[j] != '!'
        {
          assert location[j] == tail[j - |archivePath| - 1];
        }
        assert location[|archivePath|] == '!';
      }
    }
    location
  }

  /** Reads a location string back: the archive is everything before the last '!', the class what lies between it and ".class". */
  function ParseArchiveClassLocation(location: string): Option<ArchiveMember> {
    match LastIndexOf(location, '!')
    case None => None
    case Some(k) =>
      var rest := location[k + 1..];
      if EndsWith(rest, ".class") then Some(ArchiveMember(location[..k], rest[..|rest| - 6])) else None
  }

  /** A location string identifies its archive and class, for class names without '!'. */
  lemma ArchiveLocationRoundTrip(archivePath: string, className: string)
    requires '!' !in className
    ensures ParseArchiveClassLocation(ArchiveClassLocation(archivePath, className))
         == Some(ArchiveMember(archivePath, className))
  {
    var location := ArchiveClassLocation(archivePath, className);
    var k := |archivePath|;
    var tail := className + ".class";
    assert location == archivePath + ['!'] + tail;
    assert '!' !in tail;
    forall j | k < j < |location|
      ensures location[j] != '!'
    {
      assert location[j] == tail[j - k - 1];
    }
    assert location[k] == '!';
    assert LastIndexOf(location, '!') == Some(k);
    assert location[k + 1..] == tail;
    assert location[..k] == archivePath;
    assert tail[..|tail| - 6] == className;
  }

  /** Every string that parses is the location string of what it parses to. */
  lemma ParsedArchiveLocation(location: string, member: ArchiveMember)
    requires ParseArchiveClassLocation(location) == Some(member)
    ensures '!' !in member.className
    ensures ArchiveClassLocation(member.archivePath, member.className) == location
  {
    var k := LastIndexOf(location, '!').value;
    var rest := location[k + 1..];
    assert member.className == rest[..|rest| - 6];
    forall j | 0 <= j < |member.className|
      ensures member.className[j] != '!'
    {
      assert member.className[j] == location[k + 1 + j];
    }
    assert rest == member.className + ".class";
    assert location == location[..k] + ['!'] + rest;
  }
}
