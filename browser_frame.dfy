/**
 * The browser window (`BrowserFrame`): its workspace and title state, the Open, Save and Save as
 * handlers, opening class files from a directory or a JAR file, and where a new window is placed.
 * The tabs (`frameContent`), the classpath configuration (`config`), the recent-workspace menu and
 * the message dialogs live elsewhere: every call the frame makes into them is recorded, in order,
 * in the frame's `effects`. The user's answers to choosers and dialogs, the screen size and what
 * the file system and the class file reader report are parameters.
 */
module Browser {
  import opened Options
  import opened Text
  import opened Paths
  import opened ClasspathRoot
  import opened FileKinds
  import opened WindowBounds

  datatype MessageKind = Information | Warning | Error

  /** A call from the frame into code this model does not contain. */
  datatype Effect =
    | CloseAllTabs                                // frameContent.closeAllTabs()
    | ClearClasspath                              // config.clear()
    | OpenClassFile(fileName: string)             // frameContent.openClassFile(fileName)
    | AddClasspathDirectory(directory: string)    // config.addClasspathDirectory(path)
    | AddClasspathArchive(archive: string)        // config.addClasspathArchive(path)
    | ParseWorkspace(workspace: FilePath)         // the background parseXml(file)
    | ReadWorkspace(workspace: FilePath)          // config and frameContent read the parsed document
    | WriteWorkspace(workspace: FilePath)         // the workspace document written to the file
    | AddRecentWorkspace(workspace: FilePath)     // recentMenu.addRecentWorkspace(file)
    | ShowMessage(kind: MessageKind, text: string)

  const SELECT_CLASS_OR_JAR_MESSAGE := "Please select a class file or a JAR file"

  /**
   * The window title: the application title, followed by the workspace file's name in brackets when
   * there is one. The bare application title means there is no workspace file.
   */
  function FrameTitle(applicationTitle: string, workspaceFile: Option<FilePath>): (t: string)
    ensures |t| >= |applicationTitle| && t[..|applicationTitle|] == applicationTitle
    ensures t == applicationTitle <==> workspaceFile.None?
    ensures workspaceFile.Some? ==> |t| == |applicationTitle| + |Name(workspaceFile.value)| + 3 && t[|t| - 1] == ']'
  {
    match workspaceFile
    case None => applicationTitle
    case Some(f) => applicationTitle + " [" + Name(f) + "]"
  }

  /** Two titles agree exactly when both show no workspace or both show workspace files of the same name. */
  lemma TitleNamesWorkspace(applicationTitle: string, a: Option<FilePath>, b: Option<FilePath>)
    ensures FrameTitle(applicationTitle, a) == FrameTitle(applicationTitle, b) <==>
      (a.None? && b.None?) || (a.Some? && b.Some? && Name(a.value) == Name(b.value))
  {
    var n := |applicationTitle|;
    var s := FrameTitle(applicationTitle, a);
    var t := FrameTitle(applicationTitle, b);
    if a.Some? && b.Some? && s == t {
      assert s[n + 2..|s| - 1] == Name(a.value);
      assert t[n + 2..|t| - 1] == Name(b.value);
    }
    if a.None? != b.None? {
      assert |s| != |t|;
    }
  }

  /**
   * `saveWorkspaceToFile` apart from the Save as flag: write the document and record the file as
   * recent, or report the error; in both cases report the workspace as saved.
   */
  function SaveEffects(file: FilePath, writeSucceeds: bool): (r: seq<Effect>)
    ensures |r| == if writeSucceeds then 3 else 2
    ensures AddRecentWorkspace(file) in r <==> writeSucceeds
    ensures WriteWorkspace(file) in r <==> writeSucceeds
    ensures r[|r| - 1] == ShowMessage(Information, "Workspace saved to " + PathString(file))
    ensures !writeSucceeds ==> r[0] == ShowMessage(Error, "An error occurred while saving to " + PathString(file))
  {
    (if writeSucceeds then [WriteWorkspace(file), AddRecentWorkspace(file)]
     else [ShowMessage(Error, "An error occurred while saving to " + PathString(file))])
    + [ShowMessage(Information, "Workspace saved to " + PathString(file))]
  }

  /**
   * Opening the classes selected in a JAR file: each one opens a tab named by its location string
   * and then registers the archive with the classpath.
   */
  function JarOpenEffects(archivePath: string, classNames: seq<string>): (r: seq<Effect>)
    ensures |r| == 2 * |classNames|
    decreases |classNames|
  {
    if |classNames| == 0 then []
    else
      var n := |classNames| - 1;
      JarOpenEffects(archivePath, classNames[..n]) +
        [OpenClassFile(ArchiveClassLocation(archivePath, classNames[n])), AddClasspathArchive(archivePath)]
  }

  /** Even positions open the selected classes in order, odd ones register the archive, once per class. */
  lemma {:induction false} JarOpenEffectsShape(archivePath: string, classNames: seq<string>)
    ensures var r := JarOpenEffects(archivePath, classNames);
      forall k :: 0 <= k < |r| ==>
        r[k] == if k % 2 == 0 then OpenClassFile(ArchiveClassLocation(archivePath, classNames[k / 2]))
                else AddClasspathArchive(archivePath)
    ensures multiset(JarOpenEffects(archivePath, classNames))[AddClasspathArchive(archivePath)] == |classNames|
    decreases |classNames|
  {
    if |classNames| > 0 {
      var n := |classNames| - 1;
      var earlier := JarOpenEffects(archivePath, classNames[..n]);
      var last := [OpenClassFile(ArchiveClassLocation(archivePath, classNames[n])), AddClasspathArchive(archivePath)];
      var r := JarOpenEffects(archivePath, classNames);
      assert r == earlier + last;
      JarOpenEffectsShape(archivePath, classNames[..n]);
      forall k | 0 <= k < |r|
        ensures r[k] == if k % 2 == 0 then OpenClassFile(ArchiveClassLocation(archivePath, classNames[k / 2]))
                        else AddClasspathArchive(archivePath)
      {
        if k < |earlier| {
          assert r[k] == earlier[k];
          assert classNames[..n][k / 2] == classNames[k / 2];
        } else if k == 2 * n {
          assert k / 2 == n;
        } else {
          assert k == 2 * n + 1;
        }
      }
      assert multiset(r) == multiset(earlier) + multiset(last);
    }
  }

  /** The two calls made for the i-th selected class. */
  lemma {:induction false} JarOpenEffectsAt(archivePath: string, classNames: seq<string>, i: nat)
    requires i < |classNames|
    ensures var r := JarOpenEffects(archivePath, classNames);
      r[2 * i] == OpenClassFile(ArchiveClassLocation(archivePath, classNames[i])) &&
      r[2 * i + 1] == AddClasspathArchive(archivePath)
    decreases |classNames|
  {
    var n := |classNames| - 1;
    var earlier := JarOpenEffects(archivePath, classNames[..n]);
    var r := JarOpenEffects(archivePath, classNames);
    assert r == earlier + [OpenClassFile(ArchiveClassLocation(archivePath, classNames[n])), AddClasspathArchive(archivePath)];
    if i < n {
      JarOpenEffectsAt(archivePath, classNames[..n], i);
      assert classNames[..n][i] == classNames[i];
      assert r[2 * i] == earlier[2 * i] && r[2 * i + 1] == earlier[2 * i + 1];
    }
  }

  /** The tab opened for the i-th selected class names its archive and class, and is followed by registering the archive. */
  lemma JarOpenedClassLocated(archivePath: string, classNames: seq<string>, i: nat)
    requires i < |classNames| && '!' !in classNames[i]
    ensures var r := JarOpenEffects(archivePath, classNames);
      r[2 * i].OpenClassFile? &&
      ParseArchiveClassLocation(r[2 * i].fileName) == Some(ArchiveMember(archivePath, classNames[i])) &&
      r[2 * i + 1] == AddClasspathArchive(archivePath)
  {
    JarOpenEffectsAt(archivePath, classNames, i);
    ArchiveLocationRoundTrip(archivePath, classNames[i]);
  }

  /**
   * `openClassFromFile`: the tab for the file is opened first; if the class file names its class,
   * the root directory inferred from it is added to the classpath. None stands for a class file
   * whose name cannot be read (`InvalidByteCodeException`, which is ignored).
   */
  function ClassFileEffects(file: FilePath, thisClassName: Option<string>): (r: seq<Effect>)
    ensures 1 <= |r| <= 2 && r[0] == OpenClassFile(PathString(file))
    ensures |r| == 2 <==>
      thisClassName.Some? && FindRoot(file, Split(thisClassName.value, '/')).Returned? &&
      FindRoot(file, Split(thisClassName.value, '/')).directory.Some?
  {
    [OpenClassFile(PathString(file))] +
    match thisClassName
    case None => []
    case Some(className) =>
      match FindRoot(file, Split(className, '/'))
      case Returned(Some(directory)) => [AddClasspathDirectory(PathString(directory))]
      case _ => []
  }

  /** Whether `openClassFromFile` ends in the null dereference of the root search (after the tab is opened). */
  predicate RootInferenceThrows(file: FilePath, thisClassName: Option<string>) {
    thisClassName.Some? && FindRoot(file, Split(thisClassName.value, '/')).NullDereference?
  }

  /** The root search for a class `p1/.../pn/C` read from `<root>/p1/.../pn/<file name>` finds `<root>`. */
  lemma StandardLayoutClassName(root: FilePath, packageNames: seq<string>, className: string, fileName: string)
    requires root.absolute
    requires forall k :: 0 <= k < |packageNames| ==> '/' !in packageNames[k]
    requires '/' !in className
    ensures FindRoot(FilePath(true, root.names + packageNames + [fileName]), Split(Join(packageNames + [className], '/'), '/'))
         == Returned(Some(root))
  {
    var components := packageNames + [className];
    forall k | 0 <= k < |components|
      ensures '/' !in components[k]
    {
      if k < |packageNames| {
        assert components[k] == packageNames[k];
      }
    }
    SplitOfJoin(components, '/');
    assert components[..|components| - 1] == packageNames;
    StandardLayoutRoot(root, components, fileName);
  }

  /**
   * A class `p1/.../pn/C` read from `<root>/p1/.../pn/<file name>`, under an absolute root, opens its
   * tab and adds `<root>` to the classpath.
   */
  lemma OpenedClassAddsItsRoot(root: FilePath, packageNames: seq<string>, className: string, fileName: string)
    requires root.absolute
    requires forall k :: 0 <= k < |packageNames| ==> '/' !in packageNames[k]
    requires '/' !in className
    ensures var file := FilePath(true, root.names + packageNames + [fileName]);
      var classPathName := Join(packageNames + [className], '/');
      ClassFileEffects(file, Some(classPathName)) == [OpenClassFile(PathString(file)), AddClasspathDirectory(PathString(root))] &&
      !RootInferenceThrows(file, Some(classPathName))
  {
    var file := FilePath(true, root.names + packageNames + [fileName]);
    var classPathName := Join(packageNames + [className], '/');
    StandardLayoutClassName(root, packageNames, className, fileName);
    ClassFileEffectsOfRoot(file, classPathName, root);
  }

  /** When the root search finds a directory, opening the class opens its tab and adds that directory. */
  lemma ClassFileEffectsOfRoot(file: FilePath, className: string, root: FilePath)
    requires FindRoot(file, Split(className, '/')) == Returned(Some(root))
    ensures ClassFileEffects(file, Some(className)) == [OpenClassFile(PathString(file)), AddClasspathDirectory(PathString(root))]
    ensures !RootInferenceThrows(file, Some(className))
  {
  }

  /** No classpath directory is added when a compared directory is not named after its package. */
  lemma MisplacedClassOnlyOpensTab(file: FilePath, className: string, i: nat, d: FilePath)
    requires i <= |Split(className, '/')| - 2
    requires MatchesFrom(file, Split(className, '/'), i + 1)
    requires Ancestor(file, |Split(className, '/')| - 1 - i) == Some(d)
    requires Name(d) != Split(className, '/')[i]
    ensures ClassFileEffects(file, Some(className)) == [OpenClassFile(PathString(file))]
    ensures !RootInferenceThrows(file, Some(className))
  {
    RootInferenceRejectsMismatch(file, Split(className, '/'), i, d);
  }

  /**
   * Neither Save nor Save as writes over an existing file unless the platform is macOS or the user
   * confirms; a file that does not exist yet is always written.
   */
  predicate OverwriteAllowed(targetExists: bool, isMacOS: bool, overwriteConfirmed: bool)
    ensures !targetExists ==> OverwriteAllowed(targetExists, isMacOS, overwriteConfirmed)
    ensures OverwriteAllowed(targetExists, isMacOS, overwriteConfirmed) && targetExists && !isMacOS ==> overwriteConfirmed
  {
    !targetExists || isMacOS || overwriteConfirmed
  }

  class BrowserFrame {
    const applicationTitle: string
    /** The workspace file extension, without its dot. */
    const workspaceSuffix: string

    var bounds: Rect
    var extendedState: bv32
    var workspaceFile: Option<FilePath>
    var workspaceChooserPath: string
    var classesChooserPath: string
    var title: string
    /** `saveWorkspaceAsAction.isEnabled`, `nextWindowAction.isEnabled`, `previousWindowAction.isEnabled`. */
    var saveWorkspaceAsEnabled: bool
    var nextWindowEnabled: bool
    var previousWindowEnabled: bool
    var effects: seq<Effect>

    /**
     * What holds whenever a handler has finished: the title shows the workspace file, Save as is
     * enabled exactly when there is one, and the two window-cycling actions are enabled together.
     */
    ghost predicate Valid()
      reads this`title, this`workspaceFile, this`saveWorkspaceAsEnabled, this`nextWindowEnabled, this`previousWindowEnabled
    {
      IsLowerCase(workspaceSuffix) &&
      title == FrameTitle(applicationTitle, workspaceFile) &&
      (saveWorkspaceAsEnabled <==> workspaceFile.Some?) &&
      nextWindowEnabled == previousWindowEnabled
    }

    /**
     * `init`: the chooser paths from the preferences, the window bounds (`setupWindowBounds`), and the
     * title of a window without a workspace. `active` is the active browser window, if any.
     */
    constructor (applicationTitle: string, workspaceSuffix: string, active: BrowserFrame?,
                 prefs: WindowPrefs, savedWorkspaceChooserPath: Option<string>, savedClassesChooserPath: Option<string>,
                 screenWidth: int, screenHeight: int)
      requires IsLowerCase(workspaceSuffix)
      ensures Valid()
      ensures this.applicationTitle == applicationTitle && this.workspaceSuffix == workspaceSuffix
      ensures workspaceFile == None && title == applicationTitle && !saveWorkspaceAsEnabled
      ensures nextWindowEnabled && previousWindowEnabled
      ensures effects == []
      ensures workspaceChooserPath == savedWorkspaceChooserPath.GetOr("")
      ensures classesChooserPath == savedClassesChooserPath.GetOr("")
      ensures active != null ==>
        bounds == NewFrameBounds(active.bounds, active.extendedState, screenWidth, screenHeight) && extendedState == NORMAL
      ensures active == null ==>
        bounds == SanitizedBounds(SavedBounds(prefs, screenWidth, screenHeight), screenWidth, screenHeight)
      ensures active == null && prefs.x.None? && prefs.y.None? && prefs.width.None? && prefs.height.None? &&
              screenWidth >= DEFAULT_WINDOW_WIDTH && screenHeight >= DEFAULT_WINDOW_HEIGHT ==>
        bounds == DefaultFrameBounds(screenWidth, screenHeight)
      ensures active == null ==> extendedState == if prefs.maximized == Some(true) then MAXIMIZED_BOTH else NORMAL
    {
      this.applicationTitle := applicationTitle;
      this.workspaceSuffix := workspaceSuffix;
      workspaceFile := None;
      saveWorkspaceAsEnabled := false;
      nextWindowEnabled := true;
      previousWindowEnabled := true;
      effects := [];
      title := "";
      workspaceChooserPath := savedWorkspaceChooserPath.GetOr("");
      classesChooserPath := savedClassesChooserPath.GetOr("");
      extendedState := NORMAL;
      if active != null {
        bounds := NewFrameBounds(active.bounds, active.extendedState, screenWidth, screenHeight);
      } else {
        var frameBounds, maximized := LoadWindowSettings(prefs, screenWidth, screenHeight);
        bounds := frameBounds;
        if maximized {
          extendedState := MAXIMIZED_BOTH;
        }
      }
      new;
      UpdateTitle();
    }

    /** `updateTitle`: the title follows the workspace file; without one, Save as is disabled. */
    method UpdateTitle()
      modifies this`title, this`saveWorkspaceAsEnabled
      ensures title == FrameTitle(applicationTitle, workspaceFile)
      ensures saveWorkspaceAsEnabled == (workspaceFile.Some? && old(saveWorkspaceAsEnabled))
    {
      match workspaceFile
      case None =>
        title := applicationTitle;
        saveWorkspaceAsEnabled := false;
      case Some(file) =>
        title := applicationTitle + " [" + Name(file) + "]";
    }

    /** The New workspace action: close every tab, forget the workspace file and clear the classpath. */
    method NewWorkspace()
      requires Valid()
      modifies this`effects, this`workspaceFile, this`title, this`saveWorkspaceAsEnabled
      ensures Valid()
      ensures effects == old(effects) + [CloseAllTabs, ClearClasspath]
      ensures workspaceFile == None && title == applicationTitle && !saveWorkspaceAsEnabled
    {
      effects := effects + [CloseAllTabs];
      workspaceFile := None;
      effects := effects + [ClearClasspath];
      UpdateTitle();
    }

    /** `openWorkspace`: close every tab and start parsing the file in the background; `WorkspaceLoaded` is its completion. */
    method OpenWorkspace(file: FilePath)
      modifies this`effects
      ensures effects == old(effects) + [CloseAllTabs, ParseWorkspace(file)]
    {
      effects := effects + [CloseAllTabs, ParseWorkspace(file)];
    }

    /**
     * The completion (`done`) of the background parse: the parsed document is read into the
     * classpath and the tabs, the file becomes the recent and the current workspace, and Save as is
     * enabled. When the parse failed, `get` throws and nothing changes.
     */
    method WorkspaceLoaded(file: FilePath, parsed: bool)
      requires Valid()
      modifies this`effects, this`workspaceFile, this`title, this`saveWorkspaceAsEnabled
      ensures Valid()
      ensures !parsed ==> effects == old(effects) && workspaceFile == old(workspaceFile)
      ensures parsed ==> effects == old(effects) + [ReadWorkspace(file), AddRecentWorkspace(file)]
      ensures parsed ==> workspaceFile == Some(file) && saveWorkspaceAsEnabled && title == FrameTitle(applicationTitle, Some(file))
    {
      if parsed {
        effects := effects + [ReadWorkspace(file)];
        effects := effects + [AddRecentWorkspace(file)];
        workspaceFile := Some(file);
        UpdateTitle();
        saveWorkspaceAsEnabled := true;
      }
    }

    /** The Open workspace action; `chosen` is the chooser's answer, None when it was cancelled. */
    method OpenWorkspaceAction(chosen: Option<FilePath>)
      requires chosen.Some? ==> Parent(chosen.value).Some?
      modifies this`effects, this`workspaceChooserPath
      ensures chosen.None? ==> effects == old(effects) && workspaceChooserPath == old(workspaceChooserPath)
      ensures chosen.Some? ==> effects == old(effects) + [CloseAllTabs, ParseWorkspace(chosen.value)]
      ensures chosen.Some? ==> workspaceChooserPath == ParentPath(chosen.value)
    {
      if chosen.Some? {
        var selectedFile := chosen.value;
        OpenWorkspace(selectedFile);
        workspaceChooserPath := ParentPath(selectedFile);
      }
    }

    /** `saveWorkspaceToFile`: write or report the error, report the workspace saved, and enable Save as. */
    method SaveWorkspaceToFile(file: FilePath, writeSucceeds: bool)
      modifies this`effects, this`saveWorkspaceAsEnabled
      ensures effects == old(effects) + SaveEffects(file, writeSucceeds)
      ensures saveWorkspaceAsEnabled
    {
      if writeSucceeds {
        effects := effects + [WriteWorkspace(file)];
        effects := effects + [AddRecentWorkspace(file)];
      } else {
        effects := effects + [ShowMessage(Error, "An error occurred while saving to " + PathString(file))];
      }
      effects := effects + [ShowMessage(Information, "Workspace saved to " + PathString(file))];
      saveWorkspaceAsEnabled := true;
    }

    /**
     * `saveWorkspace`, which is also the Save as action. `chosen` is the chooser's answer (None when
     * cancelled), `targetExists` whether the file to be written exists, `overwriteConfirmed` the
     * answer to the overwrite question (asked only off macOS). A cancelled chooser or a declined
     * overwrite changes nothing; otherwise the file, with the workspace suffix added when missing,
     * is written and becomes the workspace file.
     */
    method SaveWorkspace(chosen: Option<FilePath>, targetExists: bool, isMacOS: bool, overwriteConfirmed: bool,
                         writeSucceeds: bool)
      requires Valid()
      requires chosen.Some? ==> Parent(chosen.value).Some?
      modifies this`effects, this`workspaceFile, this`title, this`saveWorkspaceAsEnabled, this`workspaceChooserPath
      ensures Valid()
      ensures !(chosen.Some? && OverwriteAllowed(targetExists, isMacOS, overwriteConfirmed)) ==>
        effects == old(effects) && workspaceFile == old(workspaceFile) && workspaceChooserPath == old(workspaceChooserPath)
      ensures chosen.Some? && OverwriteAllowed(targetExists, isMacOS, overwriteConfirmed) ==>
        var target := WorkspaceFile(chosen.value, workspaceSuffix);
        workspaceFile == Some(target) &&
        effects == old(effects) + SaveEffects(target, writeSucceeds) &&
        Parent(target).Some? && workspaceChooserPath == ParentPath(target)
    {
      if chosen.Some? {
        var selectedFile := WorkspaceFile(chosen.value, workspaceSuffix);
        if OverwriteAllowed(targetExists, isMacOS, overwriteConfirmed) {
          SaveAsWorkspace(selectedFile, writeSucceeds);
        }
      }
    }

    /** The confirmed part of `saveWorkspace`: save to the file, make it the workspace file, and remember its directory. */
    method SaveAsWorkspace(file: FilePath, writeSucceeds: bool)
      requires Valid()
      requires Parent(file).Some?
      modifies this`effects, this`workspaceFile, this`title, this`saveWorkspaceAsEnabled, this`workspaceChooserPath
      ensures Valid()
      ensures workspaceFile == Some(file) && effects == old(effects) + SaveEffects(file, writeSucceeds)
      ensures workspaceChooserPath == ParentPath(file)
    {
      SaveWorkspaceToFile(file, writeSucceeds);
      workspaceFile := Some(file);
      UpdateTitle();
      workspaceChooserPath := ParentPath(file);
    }

    /** The Save action: write the current workspace file, or ask for one as Save as does. */
    method SaveWorkspaceAction(chosen: Option<FilePath>, targetExists: bool, isMacOS: bool, overwriteConfirmed: bool,
                               writeSucceeds: bool)
      requires Valid()
      requires chosen.Some? ==> Parent(chosen.value).Some?
      modifies this`effects, this`workspaceFile, this`title, this`saveWorkspaceAsEnabled, this`workspaceChooserPath
      ensures Valid()
      ensures old(workspaceFile).Some? ==>
        workspaceFile == old(workspaceFile) && workspaceChooserPath == old(workspaceChooserPath) &&
        effects == old(effects) + SaveEffects(old(workspaceFile).value, writeSucceeds)
      ensures old(workspaceFile).None? && !(chosen.Some? && OverwriteAllowed(targetExists, isMacOS, overwriteConfirmed)) ==>
        effects == old(effects) && workspaceFile == old(workspaceFile) && workspaceChooserPath == old(workspaceChooserPath)
      ensures old(workspaceFile).None? && chosen.Some? && OverwriteAllowed(targetExists, isMacOS, overwriteConfirmed) ==>
        var target := WorkspaceFile(chosen.value, workspaceSuffix);
        workspaceFile == Some(target) &&
        effects == old(effects) + SaveEffects(target, writeSucceeds) &&
        workspaceChooserPath == ParentPath(target)
    {
      match workspaceFile
      case Some(file) =>
        SaveWorkspaceToFile(file, writeSucceeds);
      case None =>
        SaveWorkspace(chosen, targetExists, isMacOS, overwriteConfirmed, writeSucceeds);
    }

    /** `checkWindowActions`: Next and Previous window are enabled exactly when more than one browser window exists. */
    method CheckWindowActions(frameCount: nat)
      requires Valid()
      modifies this`nextWindowEnabled, this`previousWindowEnabled
      ensures Valid()
      ensures nextWindowEnabled <==> frameCount > 1
      ensures previousWindowEnabled <==> frameCount > 1
    {
      var multipleWindows := frameCount > 1;
      nextWindowEnabled := multipleWindows;
      previousWindowEnabled := multipleWindows;
    }

    /**
     * `openClassFromFile`; `thisClassName` is the class name the class file declares, None when it
     * cannot be read. `threw` tells whether the root search dereferenced null.
     */
    method OpenClassFromFile(file: FilePath, thisClassName: Option<string>) returns (threw: bool)
      modifies this`effects
      ensures effects == old(effects) + ClassFileEffects(file, thisClassName)
      ensures threw <==> RootInferenceThrows(file, thisClassName)
    {
      effects := effects + [OpenClassFile(PathString(file))];
      threw := false;
      match thisClassName
      case None =>
      case Some(className) =>
        var pathComponents := Split(className, '/');
        var currentDirectory := FindClassPathRootDirectory(file, pathComponents);
        match currentDirectory
        case NullDereference =>
          threw := true;
        case Returned(directory) =>
          if directory.Some? {
            effects := effects + [AddClasspathDirectory(PathString(directory.value))];
          }
    }

    /**
     * `openClassFromJar`; `selection` is what the JAR browser returns, None when it was cancelled,
     * each name already turned into its class path name.
     */
    method OpenClassFromJar(file: FilePath, selection: Option<seq<string>>)
      modifies this`effects
      ensures selection.None? ==> effects == old(effects)
      ensures selection.Some? ==> effects == old(effects) + JarOpenEffects(PathString(file), selection.value)
    {
      if selection.Some? {
        var classNames := selection.value;
        var i := 0;
        while i < |classNames|
          invariant 0 <= i <= |classNames|
          invariant effects == old(effects) + JarOpenEffects(PathString(file), classNames[..i])
        {
          var fileName := ArchiveClassLocation(PathString(file), classNames[i]);
          effects := effects + [OpenClassFile(fileName)];
          effects := effects + [AddClasspathArchive(PathString(file))];
          i := i + 1;
          assert classNames[..i][..i - 1] == classNames[..i - 1];
        }
        assert classNames[..|classNames|] == classNames;
      }
    }

    /**
     * The Open class file action. `chosen` is the chooser's answer, `thisClassName` what the class
     * file declares if a class file is opened, `jarSelection` what the JAR browser returns if a JAR
     * file is opened.
     */
    method OpenClassFileAction(chosen: Option<FilePath>, thisClassName: Option<string>, jarSelection: Option<seq<string>>)
      returns (threw: bool)
      requires chosen.Some? ==> Parent(chosen.value).Some?
      modifies this`effects, this`classesChooserPath
      ensures chosen.None? ==> effects == old(effects) && classesChooserPath == old(classesChooserPath) && !threw
      ensures chosen.Some? ==> classesChooserPath == ParentPath(chosen.value)
      ensures chosen.Some? && ClassifyOpen(PathString(chosen.value)) == OpenAsClass ==>
        effects == old(effects) + ClassFileEffects(chosen.value, thisClassName) &&
        (threw <==> RootInferenceThrows(chosen.value, thisClassName))
      ensures chosen.Some? && ClassifyOpen(PathString(chosen.value)) == OpenAsJar ==>
        effects == old(effects) + (if jarSelection.Some? then JarOpenEffects(PathString(chosen.value), jarSelection.value) else []) &&
        !threw
      ensures chosen.Some? && ClassifyOpen(PathString(chosen.value)) == NotClassOrJar ==>
        effects == old(effects) + [ShowMessage(Warning, SELECT_CLASS_OR_JAR_MESSAGE)] && !threw
    {
      threw := false;
      if chosen.Some? {
        var file := chosen.value;
        classesChooserPath := ParentPath(file);
        match ClassifyOpen(PathString(file))
        case OpenAsClass =>
          threw := OpenClassFromFile(file, thisClassName);
        case OpenAsJar =>
          OpenClassFromJar(file, jarSelection);
        case NotClassOrJar =>
          effects := effects + [ShowMessage(Warning, SELECT_CLASS_OR_JAR_MESSAGE)];
      }
    }

    /**
     * `openExternalFile`, for a path handed over by the desktop or dropped on the window: an
     * existing workspace file is opened as the workspace, an existing class file as a class, and
     * anything else is ignored.
     */
    method OpenExternalFile(path: string, fileExists: bool, thisClassName: Option<string>) returns (threw: bool)
      modifies this`effects
      ensures ClassifyExternal(path, fileExists, workspaceSuffix) == ExternalWorkspace ==>
        effects == old(effects) + [CloseAllTabs, ParseWorkspace(FileOf(path))] && !threw
      ensures ClassifyExternal(path, fileExists, workspaceSuffix) == ExternalClass ==>
        effects == old(effects) + ClassFileEffects(FileOf(path), thisClassName) &&
        (threw <==> RootInferenceThrows(FileOf(path), thisClassName))
      ensures ClassifyExternal(path, fileExists, workspaceSuffix) == ExternalIgnored ==>
        effects == old(effects) && !threw
    {
      threw := false;
      var file := FileOf(path);
      match ClassifyExternal(path, fileExists, workspaceSuffix)
      case ExternalWorkspace =>
        OpenWorkspace(file);
      case ExternalClass =>
        threw := OpenClassFromFile(file, thisClassName);
      case ExternalIgnored =>
    }
  }
}
