/**
 * The older standalone window (Menu). Its four buttons run their scripts
 * directly on the event thread; the outcome rule is the runner's, with darker
 * colours and a success text built from the script name and the chosen
 * directory's name instead of the catalog's message.
 */
module Frame {
  import opened Base
  import opened Text
  import opened Catalog
  import opened Runner
  import opened Platform
  import opened ModelList
  import Extraction

  const DARK_GREEN := Rgb(0, 120, 0)
  const DARK_RED := Rgb(120, 0, 0)
  const SUCCESS_TAIL := " generated successfully."

  /** The four buttons of the window. */
  datatype FrameButton = GenerateDtos | GenerateMappers | GenerateService | GenerateTests

  /** The catalog action whose script a button runs. */
  function ButtonCatalogAction(button: FrameButton): GenerateAction {
    match button
    case GenerateDtos => DTO
    case GenerateMappers => MAPPER
    case GenerateService => FULL_SERVICE
    case GenerateTests => TEST
  }

  /** The script each button runs, written out by name: the catalog's script for the button's action. */
  function ButtonScript(button: FrameButton): (s: string)
    ensures s == ScriptName(ButtonCatalogAction(button))
  {
    match button
    case GenerateDtos => "microservice-generator1.sh"
    case GenerateMappers => "mapper-generator.sh"
    case GenerateService => "microservice-generator2.sh"
    case GenerateTests => "test-generator.sh"
  }

  /** The four buttons run four different scripts. */
  lemma ButtonScriptsDistinct(b1: FrameButton, b2: FrameButton)
    ensures ButtonScript(b1) == ButtonScript(b2) ==> b1 == b2
  {
    if b1 != b2 {
      ScriptNamesDistinct(ButtonCatalogAction(b1), ButtonCatalogAction(b2), "", "");
    }
  }

  /** The subject of the success text: chosen by the script name, followed by the directory's name. */
  function ActionLabel(scriptName: string, directoryName: string): (l: string)
    ensures |l| > |" for /" + directoryName| && l[|l| - |" for /" + directoryName|..] == " for /" + directoryName
    ensures scriptName !in {"test-generator.sh", "microservice-generator1.sh", "mapper-generator.sh"} ==>
              l[..|l| - |" for /" + directoryName|] == "Service"
  {
    if scriptName == "test-generator.sh" then "Tests for /" + directoryName
    else if scriptName == "microservice-generator1.sh" then "DTOs for /" + directoryName
    else if scriptName == "mapper-generator.sh" then "DTO Mappers for /" + directoryName
    else "Service for /" + directoryName
  }

  /**
   * For the catalog's scripts, the subject agrees with the catalog's success
   * subject for tests, DTOs and mappers; every other script, known or not, is
   * reported as "Service".
   */
  lemma ActionLabelAgreesWithCatalog(a: GenerateAction, directoryName: string)
    ensures a in {DTO, MAPPER, TEST} ==>
              ActionLabel(ScriptName(a), directoryName) == SuccessSubject(a) + " for /" + directoryName
    ensures a !in {DTO, MAPPER, TEST} ==>
              ActionLabel(ScriptName(a), directoryName) == "Service for /" + directoryName
  {
    var s := ScriptName(a);
    match a
    case TEST =>
    case DTO =>
      assert s[0] != "test-generator.sh"[0];
    case MAPPER =>
      assert s[0] != "test-generator.sh"[0];
      assert |s| != |"microservice-generator1.sh"|;
    case FULL_SERVICE =>
      assert s[0] != "test-generator.sh"[0];
      assert s[22] != "microservice-generator1.sh"[22];
      assert |s| != |"mapper-generator.sh"|;
    case _ =>
      assert s[0] != "test-generator.sh"[0];
      assert s[0] != "microservice-generator1.sh"[0];
      assert s[0] != "mapper-generator.sh"[0];
  }

  /** How Java's string concatenation renders a possibly null string. */
  function JavaString(s: Option<string>): string {
    match s
    case None => "null"
    case Some(v) => v
  }

  /**
   * The text a button shows before running its script, concatenated exactly as
   * the handlers do (including their irregular spacing around "for").
   */
  function ProgressText(button: FrameButton, directoryName: Option<string>, model: Option<string>): (t: string)
    ensures StartsWith(t, "Generating ")
    ensures Contains(t, JavaString(directoryName)) && Contains(t, JavaString(model))
  {
    var dir, m := JavaString(directoryName), JavaString(model);
    match button
    case GenerateDtos =>
      TemplateQuotes("Generating DTOs for /", dir, "for ", m);
      "Generating DTOs for /" + dir + "for " + m + "..."
    case GenerateMappers =>
      TemplateQuotes("Generating DTO Mappers for /", dir, "for ", m);
      "Generating DTO Mappers for /" + dir + "for " + m + "..."
    case GenerateService =>
      TemplateQuotes("Generating Service for /", dir, "for", m);
      "Generating Service for /" + dir + "for" + m + "..."
    case GenerateTests =>
      TemplateQuotes("Generating Tests for /", dir, " for", m);
      "Generating Tests for /" + dir + " for" + m + "..."
  }

  /** A text head + dir + mid + model + "..." quotes dir and model, and keeps head's opening. */
  lemma TemplateQuotes(head: string, dir: string, mid: string, m: string)
    requires StartsWith(head, "Generating ")
    ensures StartsWith(head + dir + mid + m + "...", "Generating ")
    ensures Contains(head + dir + mid + m + "...", dir)
    ensures Contains(head + dir + mid + m + "...", m)
  {
    var t := head + dir + mid + m + "...";
    assert t[..11] == head[..11];
    assert t == head + dir + (mid + m + "...");
    ContainsInside(head, dir, mid + m + "...");
    ContainsInside(head + dir + mid, m, "...");
  }

  class Menu {
    const scriptsRoot: string
    const separator: string
    const status: Label

    var directory: Option<string>
    var directoryName: Option<string>
    var os: string
    var runCommand: string
    var models: seq<string>
    var selected: nat

    ghost predicate Valid()
      reads this
    {
      && (directory.None? <==> directoryName.None?)
      && (directory.None? ==> models == [])
      && (directory.Some? ==> |models| >= 1 && models[0] == ALL_MODELS && selected < |models|)
    }

    /** comboBox.getSelectedItem(): null while the list is empty. */
    function SelectedModel(): (m: Option<string>)
      reads this
      requires Valid()
      ensures m.None? <==> directory.None?
    {
      if |models| == 0 then None else Some(models[selected])
    }

    constructor (tmpDir: string, separator: string, osName: string)
      ensures Valid() && fresh(status)
      ensures scriptsRoot == tmpDir + separator + Extraction.SCRIPTS_DIR && this.separator == separator
      ensures directory.None? && models == []
      ensures status.State() == LabelState(INITIAL_STATUS, ThemeForeground)
      ensures os == OsTag(osName) && runCommand == RunCommand(os)
    {
      scriptsRoot := tmpDir + separator + Extraction.SCRIPTS_DIR;
      this.separator := separator;
      status := new Label(INITIAL_STATUS, ThemeForeground);
      directory, directoryName := None, None;
      models, selected := [], 0;
      os, runCommand := "", "";
      new;
      DefineOs(osName);
    }

    /** defineOs: the same classification as the main window's. */
    method DefineOs(osName: string)
      modifies this`os, this`runCommand
      ensures os == OsTag(osName) && runCommand == RunCommand(os)
    {
      os := OsTag(osName);
      runCommand := RunCommand(os);
    }

    /** The "Choose Directory" handler after the dialog is approved. */
    method ChooseDirectory(path: string, name: string, listing: seq<FileEntry>)
      requires Valid()
      modifies this`directory, this`directoryName, this`models, this`selected
      ensures Valid()
      ensures directory == Some(path) && directoryName == Some(name)
      ensures models == [ALL_MODELS] + ModelItems(listing) && selected == 0
    {
      directory := Some(path);
      directoryName := Some(name);
      models := [ALL_MODELS];
      selected := 0;
      for i := 0 to |listing|
        invariant directory == Some(path) && directoryName == Some(name) && selected == 0
        invariant models == [ALL_MODELS] + ModelItems(listing[..i])
      {
        var file := listing[i];
        if file.isFile {
          models := models + [StripExtension(file.name)];
        }
        assert listing[..i + 1][..i] == listing[..i];
      }
      assert listing[..|listing|] == listing;
    }

    /** The user picks another item of the model list. */
    method SelectModel(index: nat)
      requires Valid() && directory.Some? && index < |models|
      modifies this`selected
      ensures Valid() && selected == index
    {
      selected := index;
    }

    /**
     * Menu.runScript. Without a directory it reports that and builds no command.
     * Otherwise it runs the script on the selected model and the directory and
     * reports "<action label> generated successfully." or the failure text.
     */
    method RunScript(scriptName: string, outcome: ProcessOutcome) returns (command: Option<seq<string>>)
      requires Valid()
      modifies status
      ensures directory.None? ==> command.None? && status.State() == LabelState(NO_DIRECTORY, DARK_RED)
      ensures directory.Some? ==>
                && command == Some(Command(runCommand, scriptsRoot, separator, scriptName, models[selected], directory.value))
                && status.State() == StatusAfter(old(status.State()), ActionLabel(scriptName, directoryName.value) + SUCCESS_TAIL,
                                                 DARK_GREEN, DARK_RED, outcome)
    {
      if directory.None? {
        status.color := DARK_RED;
        status.text := NO_DIRECTORY;
        return None;
      }
      command := Some([runCommand, scriptsRoot + separator + scriptName, models[selected], directory.value]);
      var action := ActionLabel(scriptName, directoryName.value);
      match outcome {
        case SpawnFailed =>
        case Exited(exitCode, stdout) =>
          if exitCode == 0 {
            status.text := action + SUCCESS_TAIL;
            status.color := DARK_GREEN;
          } else {
            status.color := DARK_RED;
            match stdout {
              case Line(line) =>
                status.text := FailureText(OutputLine(line));
              case EndOfOutput =>
                status.text := FailureText(ExitStatus(exitCode));
              case ReadFailed =>
            }
          }
      }
    }

    /** A button's handler: show its progress text, then run its script. */
    method Click(button: FrameButton, outcome: ProcessOutcome) returns (command: Option<seq<string>>)
      requires Valid()
      modifies status
      ensures directory.None? ==> command.None? && status.State() == LabelState(NO_DIRECTORY, DARK_RED)
      ensures directory.Some? ==>
                && command == Some(Command(runCommand, scriptsRoot, separator, ButtonScript(button),
                                           models[selected], directory.value))
                && status.State() == StatusAfter(LabelState(ProgressText(button, directoryName, SelectedModel()), old(status.color)),
                                                 ActionLabel(ButtonScript(button), directoryName.value) + SUCCESS_TAIL,
                                                 DARK_GREEN, DARK_RED, outcome)
    {
      status.text := ProgressText(button, directoryName, SelectedModel());
      command := RunScript(ButtonScript(button), outcome);
    }
  }
}
