# MicrosGen launcher — a Dafny model

MicrosGen is a small Swing desktop launcher for a set of shell scripts that
generate Spring microservice code (DTOs, mappers, service layers, tests) for a
chosen project directory. This project models its non-graphical core and
proves properties of it:

- **the action catalog** (`Run.defineScriptPath`). Each of the eight generate
  actions maps to a script, a success message and a progress message
  (`Catalog`);
- **the script runner** (`Run.runScript`). It builds the interpreter's
  argument vector and turns the exit code and first output line into the
  status label's text and colour (`Runner`);
- **the platform resolver** (`defineOs`). The OS name gives a platform tag,
  and the tag gives the interpreter (`Platform`);
- **the model list**. Extension stripping with `replaceFirst("[.][^.]+$", "")`
  and the combo-box items built from a directory listing (`ModelList`);
- **the main window** (`MenuPanel`), as a class. It holds the chosen
  directory, the model list, the chosen action, the four buttons, which are
  always enabled together, and the status label. A click runs in two steps:
  - the click handler checks the directory, shows the progress text and
    disables the buttons;
  - the background worker runs the script and re-enables them (`Panel`).
- **the older standalone window** (`Menu`). It has the same guard, outcome
  rule and OS logic, plus:
  - a success text built from the script name and the directory name;
  - progress texts that keep the source's irregular spacing around "for"
    (`Frame`).
- **start-up extraction** (`FileChecker`):
  - the jar-entry filter and destination names;
  - the 1024-byte copy loop (`Streams`), which writes everything it reads in
    chunks of 1 to 1024 bytes;
  - the scripts and static-files extraction loops (`Extraction`).
- **clean-up** (`FileChecker.deleteTempDirectory`). It deletes post-order over
  an in-memory tree (`Deletion`).

The process, the jar, the file system and the JVM properties are inputs:

- a `ProcessOutcome` stands for the process. It either could not be spawned,
  or it exited with a code and a first output line. The line may be present,
  absent, or its read may fail.
- the jar is its list of `JarEntry` values;
- the file system is a `Disk`, which maps paths to bytes and holds a set of
  directories;
- the directory tree to delete is a `Node` value;
- `os.name`, `java.io.tmpdir` and `File.separator` are string parameters.

## Model

| member | source | states |
|---|---|---|
| Text.ToLower | MicrosGenApp/src/MenuPanel.java:155 | lower-casing keeps the length, maps each character through the ASCII lower-case rule and leaves no upper-case letter |
| Text.ContainsIff | MicrosGenApp/src/MenuPanel.java:157-161 | the substring test used by `contains` holds exactly when the substring occurs at some index |
| Text.NatToString | MicrosGenApp/src/Run.java:24 | the digits of a natural number: non-empty, all decimal digits, starting with '0' only for zero, so never with a leading zero |
| Text.IntToString | MicrosGenApp/src/Run.java:24 | the decimal rendering of the exit code is non-empty and starts with '-' exactly for negative codes |
| Text.ParseIntToString | MicrosGenApp/src/Run.java:24 | the decimal rendering of any int parses back to that int |
| Text.IntToStringParseInt | MicrosGenApp/src/Run.java:24 | only exact renderings parse: a text that parses (no leading zero, no "-0") is the rendering of the number it denotes |
| Catalog.DefineScriptPath | MicrosGenApp/src/Run.java:34-64 | every action gets a non-empty script and never the fallback triple ("", "Error occurred", "Error occurred"): the switch covers all eight actions |
| Catalog.ScriptNamesDistinct | MicrosGenApp/src/Run.java:36-59 | two different actions never run the same script, whatever the models |
| Catalog.ScriptIsShellScript | MicrosGenApp/src/Run.java:36-59 | every catalog script name ends in ".sh" |
| Catalog.MessagesQuoteModel | MicrosGenApp/src/Run.java:37-58 | both the success and the progress message contain the model name verbatim |
| Catalog.MessagesDetermineModel | MicrosGenApp/src/Run.java:37-58 | the model name is recovered from either message, so the messages lose nothing |
| Runner.Command | MicrosGenApp/src/Run.java:10 | the argument vector has four elements: interpreter, the script path (scripts root followed by separator and script name), model, directory |
| Runner.FailureText | MicrosGenApp/src/Run.java:22-25 | the failure text opens with the HTML head and determines its cause: the first output line, or the exit code, decodes back exactly |
| Runner.DecodeFailureExact | MicrosGenApp/src/Run.java:22-25 | a text that decodes to a cause is exactly that cause's failure text, so a failure text is pinned character for character by its cause |
| Runner.FailureTextQuotesCause | MicrosGenApp/src/Run.java:22-25 | the failure text contains the output line, or the decimal exit code, verbatim |
| Runner.StatusAfter | MicrosGenApp/src/Run.java:19-28 | the outcome rule: an unspawnable process leaves the label as it was; exit 0 gives the success text in the success colour; any other code gives the error colour and a failure text decoding to the first output line, else to the exit code, and a failed read keeps the old text |
| Runner.SuccessIsNotFailure | MicrosGenApp/src/Run.java:19-25 | no catalog success message can be mistaken for a failure text |
| Runner.RunReportsOutcome | MicrosGenApp/src/Run.java:19-28 | exit 0 gives exactly the catalog's success text in (0,160,0); any other code gives (160,0,0) and a failure text whose cause is the first line, else the code; a failed read leaves the old text |
| Runner.RunScript | MicrosGenApp/src/Run.java:8-32 | returns the argument vector it starts the interpreter with, and leaves the label as the outcome rule says; an unspawnable process leaves it unchanged |
| Platform.OsTag | MicrosGenApp/src/MenuPanel.java:154-163 | "win" iff the lower-cased name contains "windows"; else "mac" iff it contains "mac"; else "linux" |
| Platform.RunCommand | MicrosGenApp/src/MenuPanel.java:164 | Git Bash exactly for "win", "sh" for every other tag |
| Platform.InterpreterFollowsOsName | MicrosGenApp/src/MenuPanel.java:154-165 | the interpreter is Git Bash iff the OS name mentions "windows" in any letter case, otherwise "sh" |
| Platform.KnownHosts | MicrosGenApp/src/MenuPanel.java:154-163 | "Windows 11", "Mac OS X" and "Linux" classify as win, mac and linux |
| ModelList.StripExtension | MicrosGenApp/src/MenuPanel.java:98 | the result is a prefix of the name; it is the name unchanged iff there is no '.' followed by a non-empty dot-free tail, and otherwise ends right before that '.' |
| ModelList.TrailingDotHasNoExtension | MicrosGenApp/src/MenuPanel.java:98 | a name ending in '.' offers the pattern no match |
| ModelList.StripAddedExtension | MicrosGenApp/src/MenuPanel.java:98 | adding a non-empty dot-free extension and stripping it gives back the base name |
| ModelList.StripExtensionExamples | MicrosGenApp/src/MenuPanel.java:98 | "a.b.c" becomes "a.b", "User.java" becomes "User", "README" and "name." stay |
| ModelList.ModelItemsCount | MicrosGenApp/src/MenuPanel.java:95-101 | one model item per regular file of the listing |
| ModelList.ModelItemsComplete | MicrosGenApp/src/MenuPanel.java:95-101 | every regular file contributes its stripped name |
| ModelList.ModelItemsSound | MicrosGenApp/src/MenuPanel.java:95-101 | every model item is the stripped name of a regular file (directories contribute nothing) |
| Panel.ButtonAction | MicrosGenApp/src/MenuPanel.java:182-324 | the main button runs the action chosen from the drop-down; the other three run a fixed action that no drop-down item can select |
| Panel.ItemOf | MicrosGenApp/src/MenuPanel.java:225-258 | the five drop-down items select exactly the five actions without their own button, each its own one |
| Panel.ItemActionInjective | MicrosGenApp/src/MenuPanel.java:225-258 | each drop-down item selects an action that leads back to that item |
| Panel.MenuPanel.constructor | MicrosGenApp/src/MenuPanel.java:31-152 | starts with no directory, FULL_SERVICE on the "Generate Service" button, all buttons enabled, "Empty history", and the OS resolved |
| Panel.MenuPanel.DefineOs | MicrosGenApp/src/MenuPanel.java:154-165 | sets the platform tag and interpreter from the OS name |
| Panel.MenuPanel.ChooseDirectory | MicrosGenApp/src/MenuPanel.java:73-109 | records the directory and its name and resets the list to "All Models" followed by the model items of the listing, selecting the first |
| Panel.MenuPanel.SelectModel | MicrosGenApp/src/MenuPanel.java:184 | the user's combo-box choice, read by the handlers as the selected model: any item of a non-empty list can be selected, and the panel stays valid |
| Panel.MenuPanel.SelectPopupItem | MicrosGenApp/src/MenuPanel.java:225-258 | the main button takes the item's text and action, keeping text and action consistent |
| Panel.MenuPanel.SetButtonsEnabled | MicrosGenApp/src/MenuPanel.java:326-331 | all four buttons take the same state |
| Panel.MenuPanel.CheckDirectoryIsEmpty | MicrosGenApp/src/MenuPanel.java:371-377 | true iff no directory is chosen, and then the label reads "No directory selected!" in red; otherwise the label is untouched |
| Panel.MenuPanel.Click | MicrosGenApp/src/MenuPanel.java:182-324 | without a directory only the label changes; otherwise the label shows the action's progress text, all buttons are disabled and the run is pending |
| Panel.MenuPanel.CompleteRun | MicrosGenApp/src/MenuPanel.java:188-195 | runs the pending script on the currently selected model and reports its outcome, then re-enables all buttons |
| Panel.MenuPanel.ClickAndRun | MicrosGenApp/src/MenuPanel.java:182-196 | a click and its run: the label ends as the outcome rule applied after the progress text, the command is the action's script on the selected model and directory, and the buttons end enabled |
| Frame.ButtonScript | MicrosGenApp/src/Menu.java:243-286 | each button's script, written out by name, is the catalog's script for DTO, MAPPER, FULL_SERVICE or TEST |
| Frame.ButtonScriptsDistinct | MicrosGenApp/src/Menu.java:243-286 | the four buttons run four different scripts |
| Frame.ActionLabel | MicrosGenApp/src/Menu.java:207-215 | the success subject ends with " for /" and the directory name, and is "Service" for every script other than the test, DTO and mapper scripts |
| Frame.ActionLabelAgreesWithCatalog | MicrosGenApp/src/Menu.java:207-215 | for tests, DTOs and mappers the success subject is the catalog's; every other script is reported as "Service for /" and the directory name |
| Frame.ProgressText | MicrosGenApp/src/Menu.java:243-286 | every progress text starts with "Generating " and contains the directory name and the model, with null rendered as "null" |
| Frame.Menu.constructor | MicrosGenApp/src/Menu.java:49-174 | starts with no directory, an empty list, "Empty history", and the OS resolved |
| Frame.Menu.SelectedModel | MicrosGenApp/src/Menu.java:196 | the selected item is null exactly while no directory has been chosen |
| Frame.Menu.DefineOs | MicrosGenApp/src/Menu.java:176-187 | the same classification and interpreter as the main window |
| Frame.Menu.SelectModel | MicrosGenApp/src/Menu.java:196 | the user's combo-box choice, read by runScript as the selected model: any item of a non-empty list can be selected, and the window stays valid |
| Frame.Menu.ChooseDirectory | MicrosGenApp/src/Menu.java:95-131 | the same list rebuild as the main window |
| Frame.Menu.RunScript | MicrosGenApp/src/Menu.java:189-229 | without a directory: no command and "No directory selected!" in (120,0,0); otherwise the four-element command and the outcome rule with "<action label> generated successfully." in (0,120,0) |
| Frame.Menu.Click | MicrosGenApp/src/Menu.java:243-286 | shows the button's progress text, then runs its script with that text as the prior label |
| Streams.InputStream.Read | MicrosGenApp/src/FileChecker.java:54 | -1 at the end of the stream; otherwise 1 to buffer-length bytes, the next ones of the stream, at the start of the buffer |
| Streams.OutputStream.Write | MicrosGenApp/src/FileChecker.java:55 | appends exactly the given slice of the buffer |
| Streams.CopyStream | MicrosGenApp/src/FileChecker.java:54-56 | the output gains exactly the input's remaining bytes in order, in writes of 1 to 1024 bytes, and the input ends exhausted |
| Extraction.Selected | MicrosGenApp/src/FileChecker.java:44 | an entry is extracted iff its name is the resource path followed by anything except a single "/" |
| Extraction.ScriptFileName | MicrosGenApp/src/FileChecker.java:46 | drops the first length+1 characters; undefined exactly for names not longer than the resource path, which among selected entries is the resource path itself |
| Extraction.ScriptFileNameRoundTrip | MicrosGenApp/src/FileChecker.java:44-46 | an entry "resourcePath/f" with f non-empty is selected and named f |
| Extraction.StaticRelativePath | MicrosGenApp/src/FileChecker.java:90 | the resource path followed by the relative path is the entry name |
| Extraction.StaticRelativePathRoundTrip | MicrosGenApp/src/FileChecker.java:90 | only the resource path prefix is removed |
| Extraction.PrefixIsNotComponent | MicrosGenApp/src/FileChecker.java:44-46 | the filter is a plain prefix test: "resources/scripts-old/a.sh" is selected and becomes "old/a.sh" |
| Extraction.ResourcesDisjoint | MicrosGenApp/src/FileChecker.java:21-22 | no entry is picked by both the scripts and the static-files extraction |
| Extraction.ScriptsAfter | MicrosGenApp/src/FileChecker.java:39-70 | the entry-by-entry specification of the scripts loop; it never removes a file |
| Extraction.ScriptsCompleteIff | MicrosGenApp/src/FileChecker.java:39-70 | the scripts loop runs to its end iff no entry is named exactly as the resource path |
| Extraction.ScriptPlaced | MicrosGenApp/src/FileChecker.java:39-62 | after a completed run, the target of each selected entry holds that entry's bytes, unless a later entry wrote the same target |
| Extraction.ScriptsSound | MicrosGenApp/src/FileChecker.java:39-62 | every file afterwards was there before or is the target of a selected entry |
| Extraction.ScriptsFrame | MicrosGenApp/src/FileChecker.java:39-62 | a file that no selected entry targets keeps its old bytes |
| Extraction.ScriptsStopped | MicrosGenApp/src/FileChecker.java:68-70 | once the loop has ended through the exception, later entries change nothing |
| Extraction.CopyResourcesToDir | MicrosGenApp/src/FileChecker.java:25-71 | the files, and whether the loop completed, are those of the entry-by-entry specification |
| Extraction.StaticAfter | MicrosGenApp/src/FileChecker.java:86-107 | the entry-by-entry specification of the static-files loop; it never removes a file or a directory |
| Extraction.StaticDirectories | MicrosGenApp/src/FileChecker.java:89-93 | a path is a directory afterwards iff it was one before or is the target of a selected directory entry |
| Extraction.StaticFiles | MicrosGenApp/src/FileChecker.java:89-105 | every file afterwards was there before or is the target of a selected entry that is not a directory |
| Extraction.StaticPlaced | MicrosGenApp/src/FileChecker.java:94-104 | the target of each selected file entry holds that entry's bytes, unless a later file entry wrote the same target |
| Extraction.StaticFrame | MicrosGenApp/src/FileChecker.java:86-107 | a file that no selected file entry targets keeps its old bytes |
| Extraction.CopyStaticToDir | MicrosGenApp/src/FileChecker.java:73-112 | files and directories are those of the entry-by-entry specification, which writes every selected file entry (see Left out on the missing "static" directory) |
| Extraction.CreateTempFiles | MicrosGenApp/src/FileChecker.java:14-23 | creates only the scripts directory under the temporary directory, extracts the scripts into it, and runs the static-files loop with the "static" path below it as destination, without creating that directory |
| Deletion.Remaining | MicrosGenApp/src/FileChecker.java:114-130 | what is left of a node keeps its name, kind and lock; a locked node always stays and an unlocked file always goes |
| Deletion.RemovedIffUnlocked | MicrosGenApp/src/FileChecker.java:114-130 | a node disappears entirely iff nothing in it is locked, so a directory goes only after all its contents |
| Deletion.RemainingKeptOnlyLocked | MicrosGenApp/src/FileChecker.java:116-127 | everything left after deletion is locked or holds something locked: every unlocked file and every directory without locked contents is removed, whatever its siblings |
| Deletion.LockedChildrenKept | MicrosGenApp/src/FileChecker.java:116-127 | a child holding something locked survives, pruned, among the children of what is left of its directory |
| Deletion.RemainingIdempotent | MicrosGenApp/src/FileChecker.java:114-130 | deleting what is left removes nothing more |
| Deletion.DeleteExisting | MicrosGenApp/src/FileChecker.java:116-127 | deletes children first (recursing into directories), the node last, and returns that last delete's result |
| Deletion.DeleteTempDirectory | MicrosGenApp/src/FileChecker.java:114-130 | false and nothing removed for a missing path; otherwise the post-order deletion's result |

## Left out

- Process spawning, `waitFor` and reading standard output are not modelled.
  - Their result is the `ProcessOutcome` input.
  - `InterruptedException`, which the source rethrows as a runtime exception, is not modelled.
- The `SwingWorker` thread is not modelled as concurrency. The click and the background run are two sequential steps joined by `pending`, and `ClickAndRun` puts them back to back. Interleavings with other events during a run are not modelled.
- `Files.walk` (finding the `model` directory), the file chooser, `Preferences` and `File.getName` are not modelled. The directory path, its name and its listing are parameters.
- Jar opening, URL decoding and the stream classes are replaced by entry lists and byte sequences.
  - Failures to open or write files are not modelled. This includes `FileOutputStream` on a directory entry in the scripts extraction.
  - Extraction order follows the list order.
  - The "Scripts are ready." console output is not modelled.
- Extraction.StaticAfter: the writes are modelled as always succeeding, so the model does not capture that the source's static-files loop can stop early:
  - `createTempFiles` creates only `microgen_scripts`, never its `static` sub-directory;
  - the filter drops the `resources/static_files/` entry itself, so no entry creates `static` as such;
  - the first file entry lying directly under `resources/static_files` therefore fails to open unless an earlier directory entry's `mkdirs` created `static` as a parent;
  - that failure is caught outside the loop, which ends it, and no later entry is extracted;
  - the same applies to Extraction.CopyStaticToDir, Extraction.CreateTempFiles, Extraction.StaticFiles, Extraction.StaticPlaced and Extraction.StaticDirectories, which describe the run in which every write succeeds.
- `mkdirs` adds only the named directory; the parent directories it would also create are not modelled.
- Paths are raw strings: no normalisation, no absolute paths.
- Deletion works on a tree value.
  - "locked" stands for any delete the operating system refuses.
  - A `listFiles` that returns null on an existing directory is not modelled.
- Platform.OsTag: `toLowerCase` is modelled for ASCII letters only. Other characters are kept as they are.
- Catalog.DefineScriptPath: the fallback triple exists as `ERROR_DESCRIPTOR`, but no branch returns it.
  - The switch names every constructor of the eight-value enum, so the default is unreachable.
  - The contract states that no action yields it.
- Panel.MenuPanel: `generateAction` is a static field in the source, shared by all panels. Here it is a field of the one panel.
- Frame.Menu: the constructor's `createTempFiles` call and the window-closing `deleteTempDirectory` call are modelled only as separate operations. These are `Extraction.CreateTempFiles` and `Deletion.DeleteTempDirectory`.
- Layout, styles, themes, icons, `SettingsPanel`, `Styles` and `ThemeChangeListener` are not part of this model.
