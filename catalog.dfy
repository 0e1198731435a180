/**
 * The action catalog (Run.defineScriptPath): each generation action names the
 * shell script that performs it, the status text shown when the script succeeds
 * and the status text shown while it runs.
 */
module Catalog {
  import opened Base
  import opened Text

  /** The eight generation operations a user can trigger. */
  datatype GenerateAction = DTO | MAPPER | SERVICE | CONTROLLER | REPOSITORY | EXCEPTION | TEST | FULL_SERVICE

  /**
   * The three-element string array the catalog returns: index 0 is the script
   * file name, index 1 the success message, index 2 the progress message.
   */
  datatype ScriptDescriptor = ScriptDescriptor(script: string, success: string, progress: string)

  /** What the switch's default branch returns. */
  const ERROR_DESCRIPTOR := ScriptDescriptor("", "Error occurred", "Error occurred")

  const SUCCESS_SUFFIX := " generated successfully!"
  const PROGRESS_PREFIX := "Generating "
  const PROGRESS_SUFFIX := "..."

  /** The subject of an action's success message. */
  function SuccessSubject(a: GenerateAction): string {
    match a
    case DTO => "DTOs"
    case TEST => "Tests"
    case FULL_SERVICE => "Service structure"
    case MAPPER => "DTO Mappers"
    case SERVICE => "Service layer"
    case CONTROLLER => "Controller layer"
    case EXCEPTION => "Exception classes"
    case REPOSITORY => "Repository layer"
  }

  /** The subject of an action's progress message. */
  function ProgressSubject(a: GenerateAction): string {
    match a
    case DTO => "DTOs"
    case TEST => "Tests"
    case FULL_SERVICE => "service structure"
    case MAPPER => "DTO Mappers"
    case SERVICE => "service layer"
    case CONTROLLER => "controller layer"
    case EXCEPTION => "exception classes"
    case REPOSITORY => "repository layer"
  }

  /** The script file each action runs. */
  function ScriptName(a: GenerateAction): string {
    match a
    case DTO => "microservice-generator1.sh"
    case TEST => "test-generator.sh"
    case FULL_SERVICE => "microservice-generator2.sh"
    case MAPPER => "mapper-generator.sh"
    case SERVICE => "service-generator.sh"
    case CONTROLLER => "controller-generator.sh"
    case EXCEPTION => "exception-generator.sh"
    case REPOSITORY => "repository-generator.sh"
  }

  /**
   * Run.defineScriptPath, written as a table: each case of the switch returns the
   * action's script, "<Subject> for /<model> generated successfully!" and
   * "Generating <subject> for /<model>...". The switch names all eight actions,
   * so its default branch (ERROR_DESCRIPTOR) is never taken.
   */
  function DefineScriptPath(action: GenerateAction, model: string): (d: ScriptDescriptor)
    ensures |d.script| > 0 && d != ERROR_DESCRIPTOR
  {
    ScriptDescriptor(
      ScriptName(action),
      SuccessSubject(action) + " for /" + model + SUCCESS_SUFFIX,
      PROGRESS_PREFIX + ProgressSubject(action) + " for /" + model + PROGRESS_SUFFIX)
  }

  /** No two actions run the same script, whatever models they are given. */
  lemma ScriptNamesDistinct(a: GenerateAction, b: GenerateAction, m: string, n: string)
    requires a != b
    ensures DefineScriptPath(a, m).script != DefineScriptPath(b, n).script
  {
  }

  /** Every script is a shell script: its name ends in ".sh". */
  lemma ScriptIsShellScript(a: GenerateAction, m: string)
    ensures |DefineScriptPath(a, m).script| > 3
    ensures DefineScriptPath(a, m).script[|DefineScriptPath(a, m).script| - 3..] == ".sh"
  {
  }

  /** Both messages quote the model name verbatim. */
  lemma MessagesQuoteModel(a: GenerateAction, model: string)
    ensures Contains(DefineScriptPath(a, model).success, model)
    ensures Contains(DefineScriptPath(a, model).progress, model)
  {
    var d := DefineScriptPath(a, model);
    assert d.success == (SuccessSubject(a) + " for /") + model + SUCCESS_SUFFIX;
    ContainsInside(SuccessSubject(a) + " for /", model, SUCCESS_SUFFIX);
    assert d.progress == (PROGRESS_PREFIX + ProgressSubject(a) + " for /") + model + PROGRESS_SUFFIX;
    ContainsInside(PROGRESS_PREFIX + ProgressSubject(a) + " for /", model, PROGRESS_SUFFIX);
  }

  /** Reads the model name back out of a success message of action `a`. */
  function ModelOfSuccess(a: GenerateAction, text: string): Option<string> {
    var head := SuccessSubject(a) + " for /";
    if |head| + |SUCCESS_SUFFIX| <= |text| && text[..|head|] == head
       && text[|text| - |SUCCESS_SUFFIX|..] == SUCCESS_SUFFIX
    then Some(text[|head|..|text| - |SUCCESS_SUFFIX|])
    else None
  }

  /** Reads the model name back out of a progress message of action `a`. */
  function ModelOfProgress(a: GenerateAction, text: string): Option<string> {
    var head := PROGRESS_PREFIX + ProgressSubject(a) + " for /";
    if |head| + |PROGRESS_SUFFIX| <= |text| && text[..|head|] == head
       && text[|text| - |PROGRESS_SUFFIX|..] == PROGRESS_SUFFIX
    then Some(text[|head|..|text| - |PROGRESS_SUFFIX|])
    else None
  }

  /** The messages lose nothing: the model name is recovered from either one. */
  lemma MessagesDetermineModel(a: GenerateAction, model: string)
    ensures ModelOfSuccess(a, DefineScriptPath(a, model).success) == Some(model)
    ensures ModelOfProgress(a, DefineScriptPath(a, model).progress) == Some(model)
  {
    var d := DefineScriptPath(a, model);
    var sh := SuccessSubject(a) + " for /";
    assert d.success == sh + model + SUCCESS_SUFFIX;
    assert d.success[..|sh|] == sh;
    assert d.success[|d.success| - |SUCCESS_SUFFIX|..] == SUCCESS_SUFFIX;
    assert d.success[|sh|..|d.success| - |SUCCESS_SUFFIX|] == model;
    var ph := PROGRESS_PREFIX + ProgressSubject(a) + " for /";
    assert d.progress == ph + model + PROGRESS_SUFFIX;
    assert d.progress[..|ph|] == ph;
    assert d.progress[|d.progress| - |PROGRESS_SUFFIX|..] == PROGRESS_SUFFIX;
    assert d.progress[|ph|..|d.progress| - |PROGRESS_SUFFIX|] == model;
  }
}
