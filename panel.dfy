/**
 * The main window's controller (MenuPanel): the chosen project directory, the
 * model list, the action behind the main button, the four generate buttons
 * and the status label, and the handlers that change them.
 *
 * A generate click runs in two steps, as in the source: the click handler
 * (on the event thread) checks the directory, shows the progress text,
 * disables the buttons and starts a background worker; the worker later runs
 * the script and re-enables the buttons. `pending` is that started worker.
 */
module Panel {
  import opened Base
  import opened Catalog
  import opened Runner
  import opened Platform
  import opened ModelList
  import Extraction

  /** The four generate buttons. */
  datatype GenerateButton = DtoButton | MapperButton | MainButton | TestsButton

  /** The five items of the main button's drop-down menu. */
  datatype PopupItem = GenerateServiceItem | ExceptionItem | RepositoryItem | ServiceItem | ControllerItem

  /** The text of a menu item, which selecting it copies onto the main button. */
  function ItemText(item: PopupItem): string {
    match item
    case GenerateServiceItem => "Generate Service"
    case ExceptionItem => "Exception Classes"
    case RepositoryItem => "Repository Layer"
    case ServiceItem => "Service Layer"
    case ControllerItem => "Controller Layer"
  }

  /** The action a menu item selects. */
  function ItemAction(item: PopupItem): GenerateAction {
    match item
    case GenerateServiceItem => FULL_SERVICE
    case ExceptionItem => EXCEPTION
    case RepositoryItem => REPOSITORY
    case ServiceItem => SERVICE
    case ControllerItem => CONTROLLER
  }

  /** The menu item that selects an action; None for the three actions with their own buttons. */
  function ItemOf(a: GenerateAction): (item: Option<PopupItem>)
    ensures item.Some? ==> ItemAction(item.value) == a
    ensures item.None? <==> a in {DTO, MAPPER, TEST}
  {
    match a
    case FULL_SERVICE => Some(GenerateServiceItem)
    case EXCEPTION => Some(ExceptionItem)
    case REPOSITORY => Some(RepositoryItem)
    case SERVICE => Some(ServiceItem)
    case CONTROLLER => Some(ControllerItem)
    case _ => None
  }

  /** Each menu item selects its own action: ItemOf undoes ItemAction. */
  lemma ItemActionInjective(item: PopupItem)
    ensures ItemOf(ItemAction(item)) == Some(item)
  {
  }

  /** The action a generate button runs: fixed for three of them, the chosen one for the main button. */
  function ButtonAction(button: GenerateButton, chosen: GenerateAction): (a: GenerateAction)
    ensures button == MainButton ==> a == chosen
    ensures button != MainButton ==> ItemOf(a).None?
  {
    match button
    case DtoButton => DTO
    case MapperButton => MAPPER
    case TestsButton => TEST
    case MainButton => chosen
  }

  class MenuPanel {
    /** SCRIPT_PATH: where the extracted scripts live. */
    const scriptsRoot: string
    /** File.separator. */
    const separator: string
    const status: Label

    var directory: Option<string>
    var directoryName: Option<string>
    var os: string
    var runCommand: string
    /** The combo box's items and the index of the selected one. */
    var models: seq<string>
    var selected: nat
    var generateAction: GenerateAction
    var mainButtonText: string
    var dtoEnabled: bool
    var mapperEnabled: bool
    var mainEnabled: bool
    var testsEnabled: bool
    /** The descriptor of the background run started by the last click, until it finishes. */
    var pending: Option<ScriptDescriptor>

    /**
     * The panel's invariant: the model list exists once a directory is chosen;
     * the four buttons share one state, disabled exactly while a run is pending;
     * the main button's text names the action it will run.
     */
    ghost predicate Valid()
      reads this
    {
      && (directory.None? <==> directoryName.None?)
      && (directory.None? ==> models == [])
      && (directory.Some? ==> |models| >= 1 && models[0] == ALL_MODELS && selected < |models|)
      && dtoEnabled == mapperEnabled && mapperEnabled == mainEnabled && mainEnabled == testsEnabled
      && (pending.Some? <==> !dtoEnabled)
      && (pending.Some? ==> directory.Some?)
      && ItemOf(generateAction).Some? && mainButtonText == ItemText(ItemOf(generateAction).value)
    }

    function Enabled(button: GenerateButton): bool
      reads this
    {
      match button
      case DtoButton => dtoEnabled
      case MapperButton => mapperEnabled
      case MainButton => mainEnabled
      case TestsButton => testsEnabled
    }

    constructor (tmpDir: string, separator: string, osName: string)
      ensures Valid() && fresh(status)
      ensures scriptsRoot == tmpDir + separator + Extraction.SCRIPTS_DIR && this.separator == separator
      ensures directory.None? && models == []
      ensures generateAction == FULL_SERVICE && mainButtonText == "Generate Service"
      ensures dtoEnabled && pending.None?
      ensures status.State() == LabelState(INITIAL_STATUS, ThemeForeground)
      ensures os == OsTag(osName) && runCommand == RunCommand(os)
    {
      scriptsRoot := tmpDir + separator + Extraction.SCRIPTS_DIR;
      this.separator := separator;
      status := new Label(INITIAL_STATUS, ThemeForeground);
      directory, directoryName := None, None;
      models, selected := [], 0;
      generateAction, mainButtonText := FULL_SERVICE, "Generate Service";
      dtoEnabled, mapperEnabled, mainEnabled, testsEnabled := true, true, true, true;
      pending := None;
      os, runCommand := "", "";
      new;
      DefineOs(osName);
    }

    /** defineOs: classifies the OS name and picks the interpreter. */
    method DefineOs(osName: string)
      modifies this`os, this`runCommand
      ensures os == OsTag(osName) && runCommand == RunCommand(os)
    {
      os := OsTag(osName);
      runCommand := RunCommand(os);
    }

    /**
     * The "Choose Directory" handler after the dialog is approved: records the
     * directory and rebuilds the model list from the listing of its model
     * directory (empty when there is none).
     */
    method ChooseDirectory(path: string, name: string, listing: seq<FileEntry>)
      requires Valid()
      modifies this`directory, this`directoryName, this`models, this`selected
      ensures Valid()
      ensures directory == Some(path) && directoryName == Some(name)
      ensures models == [ALL_MODELS] + ModelItems(listing) && selected == 0
    {
      directory := Some(path);
      directoryName := Some(name);
      models := [ALL_MODELS];
      selected := 0;
      for i := 0 to |listing|
        invariant directory == Some(path) && directoryName == Some(name) && selected == 0
        invariant models == [ALL_MODELS] + ModelItems(listing[..i])
      {
        var file := listing[i];
        if file.isFile {
          models := models + [StripExtension(file.name)];
        }
        assert listing[..i + 1][..i] == listing[..i];
      }
      assert listing[..|listing|] == listing;
    }

    /** The user picks another item of the model list. */
    method SelectModel(index: nat)
      requires Valid() && directory.Some? && index < |models|
      modifies this`selected
      ensures Valid() && selected == index
    {
      selected := index;
    }

    /** A drop-down item's handler: the main button takes its text and its action. */
    method SelectPopupItem(item: PopupItem)
      requires Valid()
      modifies this`generateAction, this`mainButtonText
      ensures Valid()
      ensures generateAction == ItemAction(item) && mainButtonText == ItemText(item)
    {
      mainButtonText := ItemText(item);
      generateAction := ItemAction(item);
      ItemActionInjective(item);
    }

    /** setButtonsEnabled: all four buttons take the same state. */
    method SetButtonsEnabled(enabled: bool)
      modifies this`dtoEnabled, this`mapperEnabled, this`mainEnabled, this`testsEnabled
      ensures dtoEnabled == enabled && mapperEnabled == enabled && mainEnabled == enabled && testsEnabled == enabled
    {
      dtoEnabled := enabled;
      mapperEnabled := enabled;
      mainEnabled := enabled;
      testsEnabled := enabled;
    }

    /** checkDirectoryIsEmpty: reports a missing directory on the status label. */
    method CheckDirectoryIsEmpty() returns (empty: bool)
      modifies status
      ensures empty <==> directory.None?
      ensures empty ==> status.State() == LabelState(NO_DIRECTORY, FAILURE_RED)
      ensures !empty ==> status.State() == old(status.State())
    {
      if directory.None? {
        status.color := FAILURE_RED;
        status.text := NO_DIRECTORY;
        return true;
      }
      return false;
    }

    /**
     * A generate button's click handler. A disabled button ignores the click.
     * Without a directory, only the status label changes. Otherwise the status
     * shows the progress message of the button's action for the selected model,
     * all buttons are disabled and the background run is started.
     */
    method Click(button: GenerateButton) returns (started: Option<ScriptDescriptor>)
      requires Valid()
      modifies this`dtoEnabled, this`mapperEnabled, this`mainEnabled, this`testsEnabled, this`pending, status
      ensures Valid()
      ensures !old(Enabled(button)) ==> started.None? && unchanged(this) && unchanged(status)
      ensures old(Enabled(button)) && directory.None? ==>
                started.None? && unchanged(this) && status.State() == LabelState(NO_DIRECTORY, FAILURE_RED)
      ensures old(Enabled(button)) && directory.Some? ==>
                && started == Some(DefineScriptPath(ButtonAction(button, generateAction), models[selected]))
                && pending == started
                && status.State() == LabelState(started.value.progress, ThemeForeground)
                && !dtoEnabled && !mapperEnabled && !mainEnabled && !testsEnabled
    {
      if !Enabled(button) {
        return None;
      }
      var empty := CheckDirectoryIsEmpty();
      if empty {
        return None;
      }
      var scriptPath := DefineScriptPath(ButtonAction(button, generateAction), models[selected]);
      status.text := scriptPath.progress;
      status.color := ThemeForeground;
      SetButtonsEnabled(false);
      pending := Some(scriptPath);
      started := pending;
    }

    /**
     * The background worker: runs the pending script with the directory and the
     * model selected at the time it runs, then re-enables the buttons.
     */
    method CompleteRun(outcome: ProcessOutcome) returns (command: seq<string>)
      requires Valid() && pending.Some?
      modifies this`dtoEnabled, this`mapperEnabled, this`mainEnabled, this`testsEnabled, this`pending, status
      ensures Valid()
      ensures command == Command(runCommand, scriptsRoot, separator, old(pending).value.script,
                                 models[selected], directory.value)
      ensures status.State() == StatusAfter(old(status.State()), old(pending).value.success,
                                            SUCCESS_GREEN, FAILURE_RED, outcome)
      ensures pending.None? && dtoEnabled && mapperEnabled && mainEnabled && testsEnabled
    {
      var scriptPath := pending.value;
      command := RunScript(scriptPath, status, directory.value, runCommand, scriptsRoot, separator,
                           models[selected], outcome);
      SetButtonsEnabled(true);
      pending := None;
    }

    /**
     * A click followed at once by its background run: the progress text is
     * replaced by the outcome of the action's script on the selected model, and
     * the buttons end enabled again.
     */
    method ClickAndRun(button: GenerateButton, outcome: ProcessOutcome) returns (command: Option<seq<string>>)
      requires Valid() && pending.None?
      modifies this`dtoEnabled, this`mapperEnabled, this`mainEnabled, this`testsEnabled, this`pending, status
      ensures Valid() && pending.None? && dtoEnabled && mapperEnabled && mainEnabled && testsEnabled
      ensures directory.None? ==> command.None? && status.State() == LabelState(NO_DIRECTORY, FAILURE_RED)
      ensures directory.Some? ==>
                var d := DefineScriptPath(ButtonAction(button, generateAction), models[selected]);
                && command == Some(Command(runCommand, scriptsRoot, separator, d.script, models[selected], directory.value))
                && status.State() == StatusAfter(LabelState(d.progress, ThemeForeground), d.success,
                                                 SUCCESS_GREEN, FAILURE_RED, outcome)
    {
      var started := Click(button);
      if started.None? {
        return None;
      }
      var c := CompleteRun(outcome);
      command := Some(c);
    }
  }
}
