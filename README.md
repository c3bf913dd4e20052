# jclasslib browser frame, modelled in Dafny

This project models the logic inside the jclasslib bytecode viewer's main window,
`BrowserFrame` (`modules/browser/src/main/kotlin/browser/BrowserFrame.kt`). It covers:

- **Classpath root inference.** When a class file is opened, the frame reads the class name the
  file declares, such as `com/foo/Bar`. It walks up the file's directories and compares each one
  with a package name, innermost first. If every name matches, it adds the directory above the
  package chain to the classpath.
- **File-kind dispatch.** The Open action chooses by the case-insensitive suffix: `.class`, then
  `.jar`, else a warning. Files handed over by the desktop or dropped on the window go by the
  workspace suffix, then `.class`. Missing files are ignored.
- **Workspace file naming.** The workspace suffix is appended when the chosen name lacks it.
- **Archive locations.** A class opened from a JAR file gets the location string
  `<jar>!<class>.class`.
- **Window placement.** The default centred 800 x 600 bounds, with Kotlin's truncating division.
  Saved bounds are pulled back onto the screen. A window opened from another is offset by 22
  pixels. Maximized means any bit of `MAXIMIZED_BOTH`.
- **Workspace and title state.** New, Open and Save workspace, Save as, the title, whether Save as
  is enabled, and whether the window-cycling actions are enabled.

Files and modules:

- `options.dfy` (`Options`): the optional value.
- `text.dfy` (`Text`): `toLowerCase`, `endsWith`, `split` on '/', joining, `lastIndexOf`.
- `paths.dfy` (`Paths`): `java.io.File` as a chain of names, with `parentFile`, `name`, `path`
  and `File(path)`.
- `classpath_root.dfy` (`ClasspathRoot`): `findClassPathRootDirectory` as a loop, proved against a
  recursive definition. The lemmas characterise its result by the file's directory names.
- `file_kinds.dfy` (`FileKinds`): the two suffix dispatches, `getWorkspaceFile` and the archive
  location string.
- `window_bounds.dfy` (`WindowBounds`): rectangle arithmetic for the window bounds.
- `browser_frame.dfy` (`Browser`): the class `BrowserFrame`. Its fields are the ones the handlers
  update. `Valid()` is the invariant every handler keeps: the title shows the workspace file, Save
  as is enabled exactly when there is one, and the Next and Previous window actions are enabled
  together.

Collaborators whose code is not part of this model are `frameContent`, `config`, the recent
menu and the message dialogs. Each call the frame makes into them is appended to the frame's
`effects` sequence, so a handler's contract states which calls it makes, in which order and with
which arguments. Everything else the handlers depend on is a parameter:

- the chooser and confirmation answers;
- whether a file exists;
- the class name a class file declares;
- the classes selected in the JAR browser;
- whether writing succeeds;
- the platform;
- the screen size;
- the number of open windows.

A failed root search is meant to yield no directory, so that the file opens on its own. The code
also dereferences null (`currentDirectory.name` at line 316) when the parent chain runs out
before the package names do. Only `InvalidByteCodeException` is caught around it, so this exception escapes
`openClassFromFile`. The model follows the code: `ClasspathRoot.Lookup.NullDereference` marks
this outcome. `AbsoluteFileNeverDereferencesNull` shows it cannot happen for an absolute file
path when no package name is empty. `RelativeFileExample` exhibits it for the relative path
`Bar.class`.

## Model

| member | source | states |
|---|---|---|
| Text.Lower | modules/browser/src/main/kotlin/browser/BrowserFrame.kt:61 | lower-casing keeps the length and maps every character by itself |
| Text.EndsWithExtension | modules/browser/src/main/kotlin/browser/BrowserFrame.kt:63-64 | a string ends with "." + e exactly when its text after the last '.' is e, for any e without dots |
| Text.Split | modules/browser/src/main/kotlin/browser/BrowserFrame.kt:303 | splitting the class name on '/' gives at least one part, and no part holds a '/' |
| Text.JoinOfSplit | modules/browser/src/main/kotlin/browser/BrowserFrame.kt:303 | the parts of the split class name, rejoined with '/', give the class name back |
| Text.SplitOfJoin | modules/browser/src/main/kotlin/browser/BrowserFrame.kt:303 | package names without '/' joined into a class name split back into the same names |
| Paths.Parent | modules/browser/src/main/kotlin/browser/BrowserFrame.kt:314 | `parentFile` exists exactly when the path has an ancestor, and the parent's names plus the file name are the path's names |
| Paths.AncestorClosedForm | modules/browser/src/main/kotlin/browser/BrowserFrame.kt:319 | taking `parentFile` k times gives the path without its last k names, or null when it has fewer than k ancestors |
| Paths.WithExtension | modules/browser/src/main/kotlin/browser/BrowserFrame.kt:500 | `File(path + "." + suffix)` has that path string, its name is the old name plus the extension, and its directory is unchanged |
| Paths.FileOf | modules/browser/src/main/kotlin/browser/BrowserFrame.kt:326 | `File(path)` keeps only non-empty names without separators |
| Paths.FileOfPathString | modules/browser/src/main/kotlin/browser/BrowserFrame.kt:326 | a file rebuilt from its own path string is the same file |
| ClasspathRoot.Climb | modules/browser/src/main/kotlin/browser/BrowserFrame.kt:314-321 | a directory the walk returns is where it started or the ancestor as many levels up as names remain to compare; null is dereferenced only while names are compared |
| ClasspathRoot.FindRoot | modules/browser/src/main/kotlin/browser/BrowserFrame.kt:313-322 | a directory the search returns is the file's ancestor as many levels up as the class name has parts (one level for a bare class name); null is dereferenced only when there is a package name to compare |
| ClasspathRoot.FindClassPathRootDirectory | modules/browser/src/main/kotlin/browser/BrowserFrame.kt:313-322 | the loop returns what the recursive definition of the upward walk gives, including the null dereference |
| ClasspathRoot.RootInferenceSucceeds | modules/browser/src/main/kotlin/browser/BrowserFrame.kt:313-322 | when every compared directory carries its package name, the result is the ancestor as many levels above the file as the class name has parts |
| ClasspathRoot.RootInferenceRejectsMismatch | modules/browser/src/main/kotlin/browser/BrowserFrame.kt:316-318 | the first compared directory whose name differs from its package name makes the result null |
| ClasspathRoot.RootInferenceDereferencesNull | modules/browser/src/main/kotlin/browser/BrowserFrame.kt:316 | running out of parent directories while names still match dereferences null |
| ClasspathRoot.RootInferenceCharacterized | modules/browser/src/main/kotlin/browser/BrowserFrame.kt:313-322 | a directory is returned if and only if all package names match, and it is then that ancestor |
| ClasspathRoot.StandardLayoutRoot | modules/browser/src/main/kotlin/browser/BrowserFrame.kt:313-322 | a file stored as root/packages/file gives root, or null when root is the empty relative path |
| ClasspathRoot.StandardLayoutExample | modules/browser/src/main/kotlin/browser/BrowserFrame.kt:303-304 | `/root/com/foo/Bar.class` with class `com/foo/Bar` gives `/root` |
| ClasspathRoot.MisplacedClassExample | modules/browser/src/main/kotlin/browser/BrowserFrame.kt:316-318 | `/root/wrong/foo/Bar.class` with class `com/foo/Bar` gives null |
| ClasspathRoot.AbsoluteFileNeverDereferencesNull | modules/browser/src/main/kotlin/browser/BrowserFrame.kt:316-319 | an absolute file path with non-empty package names never reaches the null dereference |
| ClasspathRoot.RelativeFileExample | modules/browser/src/main/kotlin/browser/BrowserFrame.kt:314-316 | the relative file `Bar.class` with class `com/foo/Bar` dereferences null |
| FileKinds.ClassifyOpen | modules/browser/src/main/kotlin/browser/BrowserFrame.kt:61-66 | the Open action sends a file whose lower-cased extension is `class` to the class opener and `jar` to the JAR browser, and warns otherwise |
| FileKinds.ClassifyExternal | modules/browser/src/main/kotlin/browser/BrowserFrame.kt:326-337 | an external file is ignored unless it exists; then, by lower-cased extension, the workspace extension wins over `class`, and anything else is ignored |
| FileKinds.ExternalJarIgnored | modules/browser/src/main/kotlin/browser/BrowserFrame.kt:327-337 | a JAR file handed over externally is ignored |
| FileKinds.ClassificationIgnoresCase | modules/browser/src/main/kotlin/browser/BrowserFrame.kt:61 | paths equal up to letter case are dispatched alike |
| FileKinds.WorkspaceFile | modules/browser/src/main/kotlin/browser/BrowserFrame.kt:498-503 | the chosen file is kept exactly when its lower-cased name ends in "." + suffix; otherwise the suffix is appended to its path, in the same directory |
| FileKinds.WorkspaceFileHasSuffix | modules/browser/src/main/kotlin/browser/BrowserFrame.kt:498-503 | the workspace file's lower-cased name always ends in "." + suffix |
| FileKinds.WorkspaceFileIdempotent | modules/browser/src/main/kotlin/browser/BrowserFrame.kt:498-503 | naming an already named workspace file changes nothing |
| FileKinds.ArchiveClassLocation | modules/browser/src/main/kotlin/browser/BrowserFrame.kt:536 | the location string starts with the JAR path, ends in ".class", and for a class name without '!' its last '!' directly follows the JAR path |
| FileKinds.ArchiveLocationRoundTrip | modules/browser/src/main/kotlin/browser/BrowserFrame.kt:536 | the location string of a class in a JAR file parses back to the JAR path and the class name |
| FileKinds.ParsedArchiveLocation | modules/browser/src/main/kotlin/browser/BrowserFrame.kt:536 | every string that parses is the location string of what it parses to |
| WindowBounds.Rect.Intersection | modules/browser/src/main/kotlin/browser/BrowserFrame.kt:609 | a point lies in the intersection exactly when it lies in both rectangles |
| WindowBounds.HalfTowardZero | modules/browser/src/main/kotlin/browser/BrowserFrame.kt:620-621 | Kotlin's `/ 2` leaves a remainder of 0 or 1 with the dividend's sign |
| WindowBounds.DefaultFrameBounds | modules/browser/src/main/kotlin/browser/BrowserFrame.kt:617-625 | the default window is 800 x 600 and centred, with left and right (and top and bottom) margins differing by at most one pixel |
| WindowBounds.DefaultFrameBoundsExamples | modules/browser/src/main/kotlin/browser/BrowserFrame.kt:617-625 | a 1920 x 1080 screen gives (560, 240); a 799 x 599 screen gives (0, 0) by truncation |
| WindowBounds.MovedToOrigin | modules/browser/src/main/kotlin/browser/BrowserFrame.kt:606 | after the first translation x and y are non-negative, the size is kept, and a coordinate moves only when it was negative |
| WindowBounds.MovedInsideEdges | modules/browser/src/main/kotlin/browser/BrowserFrame.kt:607 | after the second translation the window ends at or before the right and bottom screen edges, with the size kept, and moves only when it overhung |
| WindowBounds.SanitizedBounds | modules/browser/src/main/kotlin/browser/BrowserFrame.kt:602-609 | the sanitised bounds lie on the screen and bounds already on it are unchanged; per axis, a window that fits keeps its size and is moved to 0 if it started before the screen, to end at the far edge if it overhung it, and not at all otherwise; one too large is cut to the screen |
| WindowBounds.SanitizeFrameBounds | modules/browser/src/main/kotlin/browser/BrowserFrame.kt:602-609 | the two in-place translations followed by the intersection with the screen give `SanitizedBounds` of the saved rectangle |
| WindowBounds.LoadWindowSettings | modules/browser/src/main/kotlin/browser/BrowserFrame.kt:592-615 | the restored bounds are `SanitizedBounds` of the saved rectangle, missing keys read from the default bounds; with nothing saved on a screen of at least 800 x 600 they are the default bounds; the window is maximized exactly when the flag was saved as true |
| WindowBounds.IsMaximized | modules/browser/src/main/kotlin/browser/BrowserFrame.kt:240-241 | a window counts as maximized exactly when it is maximized horizontally or vertically |
| WindowBounds.MaximizedStates | modules/browser/src/main/kotlin/browser/BrowserFrame.kt:240-241 | a normal or iconified window is not maximized; one maximized in either direction, iconified or not, is |
| WindowBounds.NormalFrameBounds | modules/browser/src/main/kotlin/browser/BrowserFrame.kt:237-238 | a window that is not maximized has its own normal bounds; a maximized one has the 800 x 600 default bounds, which lie on any screen that can hold them |
| WindowBounds.NewFrameBounds | modules/browser/src/main/kotlin/browser/BrowserFrame.kt:387-394 | a new window has the active window's normal size and sits 22 pixels right of and below it; a maximized window's normal bounds are the default bounds |
| Browser.FrameTitle | modules/browser/src/main/kotlin/browser/BrowserFrame.kt:440-448 | the title starts with the application title; it is exactly the application title when there is no workspace file, and otherwise adds the file name and three bracket characters, ending in ']' |
| Browser.TitleNamesWorkspace | modules/browser/src/main/kotlin/browser/BrowserFrame.kt:440-448 | two titles agree exactly when both show no workspace or both show workspace files of the same name |
| Browser.SaveEffects | modules/browser/src/main/kotlin/browser/BrowserFrame.kt:505-524 | the file is written and recorded as recent exactly when writing succeeds; a failure is reported; "Workspace saved" is always reported last |
| Browser.JarOpenEffects | modules/browser/src/main/kotlin/browser/BrowserFrame.kt:534-539 | opening the selected classes makes two calls per class |
| Browser.JarOpenEffectsShape | modules/browser/src/main/kotlin/browser/BrowserFrame.kt:534-539 | each selected class opens its location string in order and is followed by registering the JAR file, which is thus registered once per class |
| Browser.JarOpenEffectsAt | modules/browser/src/main/kotlin/browser/BrowserFrame.kt:534-539 | the calls for the i-th selected class are at positions 2i and 2i + 1: its tab, then the JAR file's registration |
| Browser.JarOpenedClassLocated | modules/browser/src/main/kotlin/browser/BrowserFrame.kt:536-538 | the tab opened for each selected class names that JAR file and class |
| Browser.ClassFileEffects | modules/browser/src/main/kotlin/browser/BrowserFrame.kt:299-311 | opening a class file always opens its tab first, and adds a second call exactly when the root search returns a directory |
| Browser.StandardLayoutClassName | modules/browser/src/main/kotlin/browser/BrowserFrame.kt:303-304 | the split class name of a class stored under root/packages finds root |
| Browser.OpenedClassAddsItsRoot | modules/browser/src/main/kotlin/browser/BrowserFrame.kt:299-311 | opening root/p1/.../pn/file holding class p1/.../pn/C opens the tab and adds root to the classpath, without exception |
| Browser.ClassFileEffectsOfRoot | modules/browser/src/main/kotlin/browser/BrowserFrame.kt:305-307 | a directory found by the root search is added to the classpath after the tab is opened |
| Browser.MisplacedClassOnlyOpensTab | modules/browser/src/main/kotlin/browser/BrowserFrame.kt:305-310 | when a compared directory is misnamed only the tab is opened, and nothing is thrown |
| Browser.OverwriteAllowed | modules/browser/src/main/kotlin/browser/BrowserFrame.kt:485 | a file that does not exist yet is always written; an existing one off macOS only after the user confirms |
| Browser.BrowserFrame.constructor | modules/browser/src/main/kotlin/browser/BrowserFrame.kt:627-634 | a new window has no workspace, the bare title, Save as disabled and the saved chooser paths; its bounds are `NewFrameBounds` of the active window, or else `SanitizedBounds` of the saved rectangle (the default bounds when nothing is saved on a screen that holds them), maximized exactly when that was saved |
| Browser.BrowserFrame.UpdateTitle | modules/browser/src/main/kotlin/browser/BrowserFrame.kt:440-448 | the title shows the workspace file's name; without a workspace file Save as is disabled |
| Browser.BrowserFrame.NewWorkspace | modules/browser/src/main/kotlin/browser/BrowserFrame.kt:99-104 | tabs are closed and the classpath cleared; no workspace, the bare title, Save as disabled; the invariant is kept |
| Browser.BrowserFrame.OpenWorkspace | modules/browser/src/main/kotlin/browser/BrowserFrame.kt:279-284 | opening a workspace closes every tab and starts parsing the file |
| Browser.BrowserFrame.WorkspaceLoaded | modules/browser/src/main/kotlin/browser/BrowserFrame.kt:286-295 | a parsed workspace is read, recorded as recent and becomes the workspace with Save as enabled; a failed parse changes nothing |
| Browser.BrowserFrame.OpenWorkspaceAction | modules/browser/src/main/kotlin/browser/BrowserFrame.kt:106-113 | a cancelled chooser changes nothing; otherwise the workspace is opened and the chooser remembers its directory |
| Browser.BrowserFrame.SaveWorkspaceToFile | modules/browser/src/main/kotlin/browser/BrowserFrame.kt:505-524 | the save calls, in order, and Save as enabled even after a failed write |
| Browser.BrowserFrame.SaveWorkspace | modules/browser/src/main/kotlin/browser/BrowserFrame.kt:481-496 | Save as: a cancelled chooser or a declined overwrite changes nothing; otherwise the suffixed file is saved and becomes the workspace; the invariant is kept |
| Browser.BrowserFrame.SaveAsWorkspace | modules/browser/src/main/kotlin/browser/BrowserFrame.kt:490-493 | a confirmed Save as writes the file, makes it the workspace file with its name in the title, and remembers its directory; the invariant is kept |
| Browser.BrowserFrame.SaveWorkspaceAction | modules/browser/src/main/kotlin/browser/BrowserFrame.kt:115-122 | with a workspace file, Save writes to it and changes nothing else; without one, a cancelled chooser or declined overwrite changes nothing, and otherwise the suffixed file is saved, becomes the workspace file and its directory is remembered |
| Browser.BrowserFrame.CheckWindowActions | modules/browser/src/main/kotlin/browser/BrowserFrame.kt:568-572 | Next and Previous window are enabled exactly when more than one window exists |
| Browser.BrowserFrame.OpenClassFromFile | modules/browser/src/main/kotlin/browser/BrowserFrame.kt:299-311 | the calls are those of `ClassFileEffects`, and the method throws exactly when the root search dereferences null |
| Browser.BrowserFrame.OpenClassFromJar | modules/browser/src/main/kotlin/browser/BrowserFrame.kt:526-541 | a cancelled JAR browser changes nothing; otherwise the calls are those of `JarOpenEffects` for the selection |
| Browser.BrowserFrame.OpenClassFileAction | modules/browser/src/main/kotlin/browser/BrowserFrame.kt:55-69 | per file kind: the class opener's calls, the JAR opener's calls, or one warning; the chooser remembers the directory |
| Browser.BrowserFrame.OpenExternalFile | modules/browser/src/main/kotlin/browser/BrowserFrame.kt:324-339 | an existing workspace file is opened as the workspace, an existing class file as a class, and anything else is ignored |

## Left out

- Swing work is not modelled: menus, the toolbar, repainting, the wait cursor, icons, dark mode,
  the about dialog and drag-and-drop plumbing (lines 341-386, 400-438, 450-470, 543-566 and 651-681). Only the answers of choosers and dialogs enter the model, as parameters.
- The Browse classpath, Setup classpath, New window, Save all classes, Close, Quit, Backward,
  Forward, Reload and window-cycling handlers are left out. Their work is done by `config`,
  `frameContent`, the navigation history and the window registry, whose code is not part of this
  model. `checkWindowActions` is modelled, with the window count as a parameter.
- The XML parse and write, and `config`/`frameContent` reading and saving a workspace, are not
  modelled. They appear only as recorded calls (`ParseWorkspace`, `ReadWorkspace`,
  `WriteWorkspace`).
- The `SwingWorker` in `openWorkspace` is not modelled as concurrency. Its completion is the
  separate method `WorkspaceLoaded`, callable at any time. Which parses are pending, and in which
  order they complete, is not tracked.
- Reading and writing preferences (`loadSettings`, `saveWindowSettings`, lines 472-479 and
  574-590) is not modelled. Saved values enter the constructor as optional parameters, and
  nothing is written back.
- `Toolkit` screen size, `File.exists`, `Util.isMacOS`, `getActiveBrowserFrame`, the class name
  read from a class file and `ClasspathEntry.getClassPathClassName` are external. They are
  parameters.
- The workspace suffix and the application title are constants defined outside this file. They
  are the frame's constant fields, and the suffix is required to be lower case.
- Browser.BrowserFrame.OpenClassFromFile: exceptions from `frameContent.openClassFile` (a missing
  file, an I/O error) are not modelled, because that code is not part of this model. The same
  applies to the `IOException` catch in `openExternalFile`.
- Browser.BrowserFrame.OpenClassFileAction, Browser.BrowserFrame.OpenWorkspaceAction,
  Browser.BrowserFrame.SaveWorkspace, Browser.BrowserFrame.SaveWorkspaceAction: these require the chosen file to have a parent directory.
  `File.parent` is null otherwise, and assigning it to the non-null chooser path would throw.
- Text.Lower: models `toLowerCase` on ASCII letters only. Other characters are kept as they are.
- WindowBounds.SanitizedBounds: rectangle coordinates are unbounded integers. Java's 32-bit
  `int` overflow, and the clamping it causes in `Rectangle.intersection`, are not modelled.
- WindowBounds.SanitizedBounds: for a saved rectangle of negative width or height, or a screen of
  negative size, the position along that axis is stated only as lying on the screen.
- Paths.FileOf: models `File(path)` for '/' separators only. It drops empty names, as the JVM's
  path normalisation does.
- The parsed workspace is read by `config.readWorkspace` and `frameContent.readWorkspace`. One
  recorded call, `ReadWorkspace`, stands for both.
- Browser.BrowserFrame.OpenExternalFile: the source defers its work to the event queue
  (`EventQueue.invokeLater`, line 325); the model runs it at once, so its ordering against other
  queued events is not modelled.
