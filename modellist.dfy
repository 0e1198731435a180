/**
 * The model selector's string logic: removing a file's extension with
 * replaceFirst("[.][^.]+$", "") and the combo-box items built from the
 * regular files of the project's model directory.
 */
module ModelList {
  import opened Base
  import opened Text

  /** The first combo-box item, placed before the model names. */
  const ALL_MODELS := "All Models"

  /** One entry of a directory listing: its name and whether it is a regular file. */
  datatype FileEntry = FileEntry(name: string, isFile: bool)

  /** The index of the last '.' in `s`, if there is one. */
  function LastDot(s: string): (k: Option<nat>)
    ensures k.Some? ==> k.value < |s| && s[k.value] == '.' && '.' !in s[k.value + 1..]
    ensures k.None? ==> '.' !in s
    decreases |s|
  {
    if |s| == 0 then None
    else if s[|s| - 1] == '.' then Some(|s| - 1)
    else
      var k := LastDot(s[..|s| - 1]);
      assert k.Some? ==> s[k.value + 1..] == s[..|s| - 1][k.value + 1..] + [s[|s| - 1]];
      assert k.None? ==> s == s[..|s| - 1] + [s[|s| - 1]];
      k
  }

  /**
   * `name` ends in an extension starting at index k: a '.' followed by at least
   * one character and no further '.'. This is where "[.][^.]+$" matches.
   */
  ghost predicate ExtensionAt(name: string, k: int) {
    0 <= k < |name| - 1 && name[k] == '.' && '.' !in name[k + 1..]
  }

  /**
   * The pattern "[.][^.]+$" can only match at the last '.', and only when at least
   * one character follows it; replaceFirst then deletes from that '.' to the end.
   */
  function StripExtension(name: string): (r: string)
    ensures StartsWith(name, r)
    ensures r == name <==> forall k :: !ExtensionAt(name, k)
    ensures r != name ==> ExtensionAt(name, |r|)
  {
    match LastDot(name)
    case None => name
    case Some(k) =>
      if k + 1 < |name| then
        assert ExtensionAt(name, k);
        name[..k]
      else
        TrailingDotHasNoExtension(name);
        name
  }

  /** A name ending in '.' has no extension for the pattern to match. */
  lemma TrailingDotHasNoExtension(name: string)
    requires |name| > 0 && name[|name| - 1] == '.'
    ensures forall k :: !ExtensionAt(name, k)
  {
    forall k | ExtensionAt(name, k)
      ensures false
    {
    }
  }

  /** Adding an extension and stripping it again gives back the base name. */
  lemma StripAddedExtension(base: string, ext: string)
    requires |ext| > 0 && '.' !in ext
    ensures StripExtension(base + "." + ext) == base
  {
    var name := base + "." + ext;
    assert name[|base| + 1..] == ext;
    assert ExtensionAt(name, |base|);
    assert name[..|base|] == base;
  }

  /** The behaviours named for the pattern: only the last extension goes, and a trailing '.' stays. */
  lemma StripExtensionExamples()
    ensures StripExtension("a.b.c") == "a.b"
    ensures StripExtension("User.java") == "User"
    ensures StripExtension("README") == "README"
    ensures StripExtension("name.") == "name."
  {
    StripAddedExtension("a.b", "c");
    StripAddedExtension("User", "java");
    assert forall k :: !ExtensionAt("README", k);
    assert forall k :: !ExtensionAt("name.", k) by {
      forall k | 0 <= k < |"name."| - 1 ensures !ExtensionAt("name.", k) {
        assert "name."[k] != '.';
      }
    }
  }

  /**
   * The model names that follow ALL_MODELS: the stripped names of the regular
   * files of the listing, in listing order.
   */
  function ModelItems(files: seq<FileEntry>): seq<string>
    decreases |files|
  {
    if files == [] then []
    else
      var last := files[|files| - 1];
      ModelItems(files[..|files| - 1]) + (if last.isFile then [StripExtension(last.name)] else [])
  }

  /** The number of regular files in a listing. */
  function RegularCount(files: seq<FileEntry>): nat
    decreases |files|
  {
    if files == [] then 0
    else RegularCount(files[..|files| - 1]) + (if files[|files| - 1].isFile then 1 else 0)
  }

  /** There is exactly one model item per regular file. */
  lemma {:induction false} ModelItemsCount(files: seq<FileEntry>)
    ensures |ModelItems(files)| == RegularCount(files)
    decreases |files|
  {
    if files != [] {
      ModelItemsCount(files[..|files| - 1]);
    }
  }

  /** Every regular file of the listing contributes its stripped name. */
  lemma {:induction false} ModelItemsComplete(files: seq<FileEntry>)
    ensures forall i :: 0 <= i < |files| && files[i].isFile ==> StripExtension(files[i].name) in ModelItems(files)
    decreases |files|
  {
    if files != [] {
      var init := files[..|files| - 1];
      ModelItemsComplete(init);
      assert forall i :: 0 <= i < |init| ==> files[i] == init[i];
    }
  }

  /** Every model item is the stripped name of a regular file of the listing. */
  lemma {:induction false} ModelItemsSound(files: seq<FileEntry>)
    ensures forall m :: m in ModelItems(files) ==>
              exists i :: 0 <= i < |files| && files[i].isFile && m == StripExtension(files[i].name)
    decreases |files|
  {
    if files != [] {
      var init := files[..|files| - 1];
      ModelItemsSound(init);
      forall m | m in ModelItems(files)
        ensures exists i :: 0 <= i < |files| && files[i].isFile && m == StripExtension(files[i].name)
      {
        if m in ModelItems(init) {
          var i :| 0 <= i < |init| && init[i].isFile && m == StripExtension(init[i].name);
          assert files[i] == init[i];
        } else {
          assert files[|files| - 1].isFile && m == StripExtension(files[|files| - 1].name);
        }
      }
    }
  }
}
