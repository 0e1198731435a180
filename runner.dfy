/**
 * The script runner (Run.runScript): builds the interpreter's argument vector,
 * runs the script once and turns its exit code and first line of output into
 * the text and colour of a status label.
 *
 * The process itself is not modelled: what happens when it is started is an
 * input, a ProcessOutcome.
 */
module Runner {
  import opened Base
  import opened Text
  import opened Catalog

  /** A label colour: an explicit RGB triple, or the theme's foreground colour. */
  datatype Color = Rgb(r: nat, g: nat, b: nat) | ThemeForeground

  /** The observable state of a status label. */
  datatype LabelState = LabelState(text: string, color: Color)

  /** A Swing JLabel, reduced to the two properties the application sets. */
  class Label {
    var text: string
    var color: Color

    constructor (text: string, color: Color)
      ensures this.text == text && this.color == color
    {
      this.text := text;
      this.color := color;
    }

    function State(): LabelState
      reads this
    {
      LabelState(text, color)
    }
  }

  /** What the first readLine() on the script's standard output yields. */
  datatype FirstLine = Line(line: string) | EndOfOutput | ReadFailed

  /** What happens once the process is started: it cannot be spawned, or it exits. */
  datatype ProcessOutcome = SpawnFailed | Exited(exitCode: int, stdout: FirstLine)

  /** The reason a failure message gives: the script's first output line, or its exit code. */
  datatype FailureCause = OutputLine(line: string) | ExitStatus(code: int)

  /** The status both windows show before their first run. */
  const INITIAL_STATUS := "Empty history"

  /** The status both windows show when a generate button is pressed before a directory is chosen. */
  const NO_DIRECTORY := "No directory selected!"

  const SUCCESS_GREEN := Rgb(0, 160, 0)
  const FAILURE_RED := Rgb(160, 0, 0)

  const FAILURE_HEAD := "<html>Failed execution with status"
  const LINE_MARK := ":<br>"
  const CODE_MARK := " code:<br>"
  const FAILURE_TAIL := "</html>"

  /** The argument vector handed to ProcessBuilder. */
  function Command(runCommand: string, scriptsRoot: string, separator: string, script: string,
                   model: string, directory: string): (c: seq<string>)
    ensures |c| == 4 && c[0] == runCommand && c[2] == model && c[3] == directory
    ensures StartsWith(c[1], scriptsRoot) && c[1][|scriptsRoot|..] == separator + script
  {
    var path := scriptsRoot + separator + script;
    assert path[..|scriptsRoot|] == scriptsRoot;
    assert path[|scriptsRoot|..] == separator + script;
    [runCommand, path, model, directory]
  }

  /**
   * The HTML failure text shown for a non-zero exit: an HTML fragment from which
   * the cause, the first output line or else the exit code, can be read back.
   */
  function FailureText(cause: FailureCause): (t: string)
    ensures StartsWith(t, FAILURE_HEAD)
    ensures DecodeFailure(t) == Some(cause)
  {
    match cause
    case OutputLine(l) => DecodeLineText(l); FAILURE_HEAD + LINE_MARK + l + FAILURE_TAIL
    case ExitStatus(c) => DecodeCodeText(c); FAILURE_HEAD + CODE_MARK + IntToString(c) + FAILURE_TAIL
  }

  /** The text between the head and the tail of a framed failure text. */
  lemma FramedMiddle(mark: string, rest: string)
    ensures var text := FAILURE_HEAD + mark + rest + FAILURE_TAIL;
      && |text| >= |FAILURE_HEAD| + |FAILURE_TAIL|
      && text[..|FAILURE_HEAD|] == FAILURE_HEAD
      && text[|text| - |FAILURE_TAIL|..] == FAILURE_TAIL
      && text[|FAILURE_HEAD|..|text| - |FAILURE_TAIL|] == mark + rest
  {
    var text := FAILURE_HEAD + mark + rest + FAILURE_TAIL;
    assert text == FAILURE_HEAD + (mark + rest) + FAILURE_TAIL;
  }

  /** A line failure text decodes to that line. */
  lemma DecodeLineText(l: string)
    ensures DecodeFailure(FAILURE_HEAD + LINE_MARK + l + FAILURE_TAIL) == Some(OutputLine(l))
  {
    FramedMiddle(LINE_MARK, l);
    var middle := LINE_MARK + l;
    assert middle[..|LINE_MARK|] == LINE_MARK;
    assert middle[|LINE_MARK|..] == l;
  }

  /** An exit-code failure text decodes to that code. */
  lemma DecodeCodeText(c: int)
    ensures DecodeFailure(FAILURE_HEAD + CODE_MARK + IntToString(c) + FAILURE_TAIL) == Some(ExitStatus(c))
  {
    FramedMiddle(CODE_MARK, IntToString(c));
    var middle := CODE_MARK + IntToString(c);
    assert middle[0] == ' ';
    assert !StartsWith(middle, LINE_MARK);
    assert middle[..|CODE_MARK|] == CODE_MARK;
    assert middle[|CODE_MARK|..] == IntToString(c);
    ParseIntToString(c);
  }

  /** Reads the cause back out of a failure text; None for any other text. */
  function DecodeFailure(text: string): Option<FailureCause> {
    if |text| < |FAILURE_HEAD| + |FAILURE_TAIL| || text[..|FAILURE_HEAD|] != FAILURE_HEAD
       || text[|text| - |FAILURE_TAIL|..] != FAILURE_TAIL
    then None
    else
      var middle := text[|FAILURE_HEAD|..|text| - |FAILURE_TAIL|];
      if StartsWith(middle, LINE_MARK) then Some(OutputLine(middle[|LINE_MARK|..]))
      else if StartsWith(middle, CODE_MARK) then
        match ParseInt(middle[|CODE_MARK|..])
        case Some(c) => Some(ExitStatus(c))
        case None => None
      else None
  }

  /**
   * The decoder accepts nothing but failure texts: a text that decodes to a
   * cause is exactly that cause's failure text, so FailureText and DecodeFailure
   * are inverse to each other.
   */
  lemma DecodeFailureExact(text: string)
    requires DecodeFailure(text).Some?
    ensures text == FailureText(DecodeFailure(text).value)
  {
    var middle := text[|FAILURE_HEAD|..|text| - |FAILURE_TAIL|];
    Reframe(text);
    if StartsWith(middle, LINE_MARK) {
      var l := middle[|LINE_MARK|..];
      assert DecodeFailure(text) == Some(OutputLine(l));
      Regroup(LINE_MARK, middle, l);
    } else {
      var rest := middle[|CODE_MARK|..];
      assert DecodeFailure(text) == Some(ExitStatus(ParseInt(rest).value));
      IntToStringParseInt(rest);
      Regroup(CODE_MARK, middle, rest);
    }
  }

  /** A text with the failure head and tail is the head, its middle and the tail. */
  lemma Reframe(text: string)
    requires |text| >= |FAILURE_HEAD| + |FAILURE_TAIL|
    requires text[..|FAILURE_HEAD|] == FAILURE_HEAD && text[|text| - |FAILURE_TAIL|..] == FAILURE_TAIL
    ensures text == FAILURE_HEAD + text[|FAILURE_HEAD|..|text| - |FAILURE_TAIL|] + FAILURE_TAIL
  {
    assert text == text[..|FAILURE_HEAD|] + text[|FAILURE_HEAD|..|text| - |FAILURE_TAIL|] + text[|text| - |FAILURE_TAIL|..];
  }

  /** A middle made of a mark and a rest frames into the failure text of that mark and rest. */
  lemma Regroup(mark: string, middle: string, rest: string)
    requires StartsWith(middle, mark) && rest == middle[|mark|..]
    ensures FAILURE_HEAD + middle + FAILURE_TAIL == FAILURE_HEAD + mark + rest + FAILURE_TAIL
  {
    assert middle == mark + rest;
  }

  /** The failure text quotes the first output line, or the exit code, verbatim. */
  lemma FailureTextQuotesCause(cause: FailureCause)
    ensures cause.OutputLine? ==> Contains(FailureText(cause), cause.line)
    ensures cause.ExitStatus? ==> Contains(FailureText(cause), IntToString(cause.code))
  {
    match cause
    case OutputLine(l) =>
      assert FailureText(cause) == (FAILURE_HEAD + LINE_MARK) + l + FAILURE_TAIL;
      ContainsInside(FAILURE_HEAD + LINE_MARK, l, FAILURE_TAIL);
    case ExitStatus(c) =>
      assert FailureText(cause) == (FAILURE_HEAD + CODE_MARK) + IntToString(c) + FAILURE_TAIL;
      ContainsInside(FAILURE_HEAD + CODE_MARK, IntToString(c), FAILURE_TAIL);
  }

  /**
   * The label after one run. Exit code 0 shows the success text; any other code
   * shows the failure colour and then a failure text built from the first output
   * line, or from the code when there is none. If reading that line throws, the
   * colour is already set but the text is not. If the process cannot be started,
   * the label is left as it was.
   */
  function StatusAfter(prior: LabelState, successText: string, okColor: Color, errColor: Color,
                       outcome: ProcessOutcome): (s: LabelState)
    ensures outcome.SpawnFailed? ==> s == prior
    ensures outcome.Exited? && outcome.exitCode == 0 ==> s == LabelState(successText, okColor)
    ensures outcome.Exited? && outcome.exitCode != 0 ==>
              && s.color == errColor
              && (outcome.stdout.Line? ==> DecodeFailure(s.text) == Some(OutputLine(outcome.stdout.line)))
              && (outcome.stdout.EndOfOutput? ==> DecodeFailure(s.text) == Some(ExitStatus(outcome.exitCode)))
              && (outcome.stdout.ReadFailed? ==> s.text == prior.text)
  {
    match outcome
    case SpawnFailed => prior
    case Exited(code, out) =>
      if code == 0 then LabelState(successText, okColor)
      else
        match out
        case Line(l) => LabelState(FailureText(OutputLine(l)), errColor)
        case EndOfOutput => LabelState(FailureText(ExitStatus(code)), errColor)
        case ReadFailed => LabelState(prior.text, errColor)
  }

  /** Only a text opening with '<' can decode as a failure text. */
  lemma DecodeNeedsTag(text: string)
    requires |text| > 0 && text[0] != '<'
    ensures DecodeFailure(text) == None
  {
    if |text| >= |FAILURE_HEAD| + |FAILURE_TAIL| {
      assert text[..|FAILURE_HEAD|][0] != FAILURE_HEAD[0];
    }
  }

  /** Success text never parses as a failure text. */
  lemma SuccessIsNotFailure(a: GenerateAction, model: string)
    ensures DecodeFailure(DefineScriptPath(a, model).success) == None
  {
    var subject := SuccessSubject(a);
    var t := DefineScriptPath(a, model).success;
    assert t == subject + (" for /" + model + SUCCESS_SUFFIX);
    assert subject[0] != '<';
    assert t[0] == subject[0];
    DecodeNeedsTag(t);
  }

  /**
   * What the label reports after a catalog script ran: the catalog's success text
   * exactly on exit code 0, otherwise a failure text from which the cause (first
   * output line, else exit code) can be read back. The two cases cannot be confused.
   */
  lemma RunReportsOutcome(prior: LabelState, a: GenerateAction, model: string, code: int, out: FirstLine)
    ensures var s := StatusAfter(prior, DefineScriptPath(a, model).success, SUCCESS_GREEN, FAILURE_RED, Exited(code, out));
      && (code == 0 ==> s == LabelState(DefineScriptPath(a, model).success, SUCCESS_GREEN)
                        && DecodeFailure(s.text) == None)
      && (code != 0 ==> s.color == FAILURE_RED)
      && (code != 0 && out.Line? ==> DecodeFailure(s.text) == Some(OutputLine(out.line)))
      && (code != 0 && out.EndOfOutput? ==> DecodeFailure(s.text) == Some(ExitStatus(code)))
      && (code != 0 && out.ReadFailed? ==> s.text == prior.text)
  {
    if code == 0 {
      SuccessIsNotFailure(a, model);
    }
  }

  /**
   * Run.runScript: returns the argument vector it starts the interpreter with and
   * leaves the status label as StatusAfter says, in the success and failure colours.
   */
  method RunScript(scriptPath: ScriptDescriptor, status: Label, directory: string, runCommand: string,
                   scriptsRoot: string, separator: string, model: string, outcome: ProcessOutcome)
    returns (command: seq<string>)
    modifies status
    ensures command == Command(runCommand, scriptsRoot, separator, scriptPath.script, model, directory)
    ensures status.State() == StatusAfter(old(status.State()), scriptPath.success, SUCCESS_GREEN, FAILURE_RED, outcome)
  {
    command := [runCommand, scriptsRoot + separator + scriptPath.script, model, directory];
    match outcome {
      case SpawnFailed =>
      case Exited(exitCode, stdout) =>
        if exitCode == 0 {
          status.text := scriptPath.success;
          status.color := SUCCESS_GREEN;
        } else {
          status.color := FAILURE_RED;
          match stdout {
            case Line(line) =>
              status.text := FailureText(OutputLine(line));
            case EndOfOutput =>
              status.text := FailureText(ExitStatus(exitCode));
            case ReadFailed =>
          }
        }
    }
  }
}
