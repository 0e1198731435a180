/**
 * The platform resolver shared by MenuPanel.defineOs and Menu.defineOs: the
 * lower-cased "os.name" system property selects a platform tag, and the tag
 * selects the interpreter that runs the generator scripts.
 */
module Platform {
  import opened Text

  const WIN := "win"
  const MAC := "mac"
  const LINUX := "linux"

  /** The Git Bash interpreter the application expects on Windows. */
  const GIT_BASH := "C:\\Program Files\\Git\\bin\\bash.exe"
  /** The interpreter used everywhere else. */
  const SH := "sh"

  /**
   * The platform tag. "windows" is tested first, so a name containing both
   * "windows" and "mac" is Windows; a name containing neither is Linux.
   */
  function OsTag(osName: string): (tag: string)
    ensures tag == WIN <==> Contains(ToLower(osName), "windows")
    ensures tag == MAC <==> !Contains(ToLower(osName), "windows") && Contains(ToLower(osName), "mac")
    ensures tag == LINUX <==> !Contains(ToLower(osName), "windows") && !Contains(ToLower(osName), "mac")
  {
    var os := ToLower(osName);
    if Contains(os, "windows") then WIN
    else if Contains(os, "mac") then MAC
    else LINUX
  }

  /** The interpreter for a platform tag: Git Bash exactly for "win". */
  function RunCommand(os: string): (cmd: string)
    ensures cmd == GIT_BASH <==> os == WIN
    ensures cmd == SH <==> os != WIN
  {
    if os == WIN then GIT_BASH else SH
  }

  /** The interpreter is Git Bash exactly when the OS name mentions Windows, in any letter case. */
  lemma InterpreterFollowsOsName(osName: string)
    ensures RunCommand(OsTag(osName)) == GIT_BASH <==> Contains(ToLower(osName), "windows")
    ensures RunCommand(OsTag(osName)) == SH <==> !Contains(ToLower(osName), "windows")
  {
  }

  /** The three platform families as the JVM reports them. */
  lemma KnownHosts()
    ensures OsTag("Windows 11") == WIN
    ensures OsTag("Mac OS X") == MAC
    ensures OsTag("Linux") == LINUX
  {
    assert ToLower("Windows 11")[..7] == "windows";
    var m := ToLower("Mac OS X");
    assert m == "mac os x";
    assert m[..3] == "mac";
    ContainsNeedsFirstChar(m, "windows");
    var l := ToLower("Linux");
    assert l == "linux";
    ContainsNeedsFirstChar(l, "windows");
    ContainsNeedsFirstChar(l, "mac");
  }
}
