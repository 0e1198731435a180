/**
 * Resource extraction at start-up (FileChecker.createTempFiles,
 * copyResourcesToDir, copyStaticToDir). The jar is its list of entries, in
 * enumeration order; the file system is a map from path to contents plus the
 * set of directories created. Entries are chosen by a plain string prefix.
 */
module Extraction {
  import opened Base
  import opened Text
  import opened Streams

  /** One jar entry: its name, whether it is a directory, and its bytes. */
  datatype JarEntry = JarEntry(name: string, isDirectory: bool, data: seq<byte>)

  /** The file system as the extraction changes it. */
  datatype DiskState = DiskState(files: map<string, seq<byte>>, dirs: set<string>)

  class Disk {
    var files: map<string, seq<byte>>
    var dirs: set<string>

    constructor (files: map<string, seq<byte>>, dirs: set<string>)
      ensures this.files == files && this.dirs == dirs
    {
      this.files := files;
      this.dirs := dirs;
    }

    function State(): DiskState
      reads this
    {
      DiskState(files, dirs)
    }
  }

  const SCRIPTS_RESOURCE := "resources/scripts"
  const STATIC_RESOURCE := "resources/static_files"
  /** The sub-directory of the temporary directory holding the extracted scripts. */
  const SCRIPTS_DIR := "microgen_scripts"
  const STATIC_DIR := "static"

  /** An entry is extracted when its name starts with the resource path and is not that path's own directory entry. */
  predicate Selected(resourcePath: string, name: string)
    ensures Selected(resourcePath, name) <==> exists rest :: name == resourcePath + rest && rest != "/"
  {
    var sel := StartsWith(name, resourcePath) && name != resourcePath + "/";
    assert sel ==> name == resourcePath + name[|resourcePath|..];
    sel
  }

  /**
   * The script's file name: the entry name without its first
   * |resourcePath| + 1 characters; None where that substring would throw.
   */
  function ScriptFileName(resourcePath: string, name: string): (r: Option<string>)
    ensures r.Some? <==> |name| > |resourcePath|
    ensures r.Some? ==> name == name[..|resourcePath| + 1] + r.value
    ensures Selected(resourcePath, name) ==> (r.None? <==> name == resourcePath)
  {
    if |name| < |resourcePath| + 1 then None
    else Some(name[|resourcePath| + 1..])
  }

  /** A script stored under the resource directory gets back its own name. */
  lemma ScriptFileNameRoundTrip(resourcePath: string, fileName: string)
    requires fileName != ""
    ensures Selected(resourcePath, resourcePath + "/" + fileName)
    ensures ScriptFileName(resourcePath, resourcePath + "/" + fileName) == Some(fileName)
  {
    var name := resourcePath + "/" + fileName;
    assert name[..|resourcePath|] == resourcePath;
    assert name[|resourcePath| + 1..] == fileName;
    assert |name| > |resourcePath + "/"|;
  }

  /** The static file's relative path: the entry name without the resource path (its '/' is kept). */
  function StaticRelativePath(resourcePath: string, name: string): (r: string)
    requires StartsWith(name, resourcePath)
    ensures name == resourcePath + r
  {
    name[|resourcePath|..]
  }

  /** Only the resource path is removed from a static entry's name. */
  lemma StaticRelativePathRoundTrip(resourcePath: string, rest: string)
    ensures StartsWith(resourcePath + rest, resourcePath)
    ensures StaticRelativePath(resourcePath, resourcePath + rest) == rest
  {
    assert (resourcePath + rest)[..|resourcePath|] == resourcePath;
  }

  /**
   * The prefix test is not a path-component test: a sibling directory whose name
   * extends the resource path is extracted too, and loses one more character.
   */
  lemma PrefixIsNotComponent()
    ensures Selected(SCRIPTS_RESOURCE, "resources/scripts-old/a.sh")
    ensures ScriptFileName(SCRIPTS_RESOURCE, "resources/scripts-old/a.sh") == Some("old/a.sh")
  {
    assert "resources/scripts-old/a.sh"[..|SCRIPTS_RESOURCE|] == SCRIPTS_RESOURCE;
    assert "resources/scripts-old/a.sh"[|SCRIPTS_RESOURCE| + 1..] == "old/a.sh";
    assert "resources/scripts-old/a.sh"[17] != (SCRIPTS_RESOURCE + "/")[17];
  }

  /** The two extractions never pick the same entry. */
  lemma ResourcesDisjoint(name: string)
    ensures !(Selected(SCRIPTS_RESOURCE, name) && Selected(STATIC_RESOURCE, name))
  {
    if StartsWith(name, SCRIPTS_RESOURCE) {
      assert name[11] == SCRIPTS_RESOURCE[11] != STATIC_RESOURCE[11];
    }
  }

  /** The outcome of copyResourcesToDir: the files, and whether the loop ran to its end. */
  datatype Extracted = Extracted(files: map<string, seq<byte>>, completed: bool)

  /**
   * copyResourcesToDir over the first entries, in order: each selected entry's
   * bytes are written to its target; an entry named exactly as the resource
   * path makes the substring throw, which ends the loop through the outer catch.
   */
  function ScriptsAfter(entries: seq<JarEntry>, resourcePath: string, destDir: string, separator: string,
                        files: map<string, seq<byte>>): (r: Extracted)
    ensures files.Keys <= r.files.Keys
    decreases |entries|
  {
    if entries == [] then Extracted(files, true)
    else
      var prev := ScriptsAfter(entries[..|entries| - 1], resourcePath, destDir, separator, files);
      var e := entries[|entries| - 1];
      if !prev.completed || !Selected(resourcePath, e.name) then prev
      else
        match ScriptFileName(resourcePath, e.name)
        case None => Extracted(prev.files, false)
        case Some(f) => Extracted(prev.files[destDir + separator + f := e.data], true)
  }

  /** The extraction runs to its end exactly when no entry is named exactly as the resource path. */
  lemma {:induction false} ScriptsCompleteIff(entries: seq<JarEntry>, resourcePath: string, destDir: string,
                                              separator: string, files: map<string, seq<byte>>)
    ensures ScriptsAfter(entries, resourcePath, destDir, separator, files).completed
            <==> forall i :: 0 <= i < |entries| ==> entries[i].name != resourcePath
    decreases |entries|
  {
    if entries != [] {
      var init := entries[..|entries| - 1];
      ScriptsCompleteIff(init, resourcePath, destDir, separator, files);
      assert forall i :: 0 <= i < |init| ==> init[i] == entries[i];
      var e := entries[|entries| - 1];
      if e.name == resourcePath {
        assert Selected(resourcePath, e.name) by {
          assert |resourcePath| < |resourcePath + "/"|;
        }
      }
    }
  }

  /** The target of entry i, when it is a selected entry with a file name. */
  ghost predicate Targets(entries: seq<JarEntry>, i: int, resourcePath: string, destDir: string, separator: string,
                          target: string)
  {
    && 0 <= i < |entries| && Selected(resourcePath, entries[i].name)
    && ScriptFileName(resourcePath, entries[i].name).Some?
    && target == destDir + separator + ScriptFileName(resourcePath, entries[i].name).value
  }

  /** Entry i writes target t and no later entry writes it again. */
  ghost predicate LastWriter(entries: seq<JarEntry>, i: int, resourcePath: string, destDir: string, separator: string,
                             target: string)
  {
    && Targets(entries, i, resourcePath, destDir, separator, target)
    && forall j :: i < j < |entries| ==> !Targets(entries, j, resourcePath, destDir, separator, target)
  }

  /**
   * A completed extraction wrote every selected entry: its target holds the
   * bytes of the last entry written there.
   */
  lemma {:induction false} ScriptPlaced(entries: seq<JarEntry>, i: int, t: string, resourcePath: string,
                                        destDir: string, separator: string, files: map<string, seq<byte>>)
    requires ScriptsAfter(entries, resourcePath, destDir, separator, files).completed
    requires LastWriter(entries, i, resourcePath, destDir, separator, t)
    ensures t in ScriptsAfter(entries, resourcePath, destDir, separator, files).files
    ensures ScriptsAfter(entries, resourcePath, destDir, separator, files).files[t] == entries[i].data
    decreases |entries|
  {
    var last := |entries| - 1;
    var init := entries[..last];
    var prev := ScriptsAfter(init, resourcePath, destDir, separator, files);
    assert prev.completed;
    if i < last {
      assert init[i] == entries[i];
      assert Targets(init, i, resourcePath, destDir, separator, t);
      forall j | i < j < |init|
        ensures !Targets(init, j, resourcePath, destDir, separator, t)
      {
        assert init[j] == entries[j];
        assert !Targets(entries, j, resourcePath, destDir, separator, t);
      }
      ScriptPlaced(init, i, t, resourcePath, destDir, separator, files);
      assert !Targets(entries, last, resourcePath, destDir, separator, t);
    }
  }

  /** Extraction writes nowhere else: every file is an old one or the target of a selected entry. */
  lemma {:induction false} ScriptsSound(entries: seq<JarEntry>, resourcePath: string, destDir: string,
                                        separator: string, files: map<string, seq<byte>>)
    ensures forall t :: t in ScriptsAfter(entries, resourcePath, destDir, separator, files).files ==>
              t in files || exists i :: Targets(entries, i, resourcePath, destDir, separator, t)
    decreases |entries|
  {
    if entries != [] {
      var init := entries[..|entries| - 1];
      ScriptsSound(init, resourcePath, destDir, separator, files);
      forall t | t in ScriptsAfter(entries, resourcePath, destDir, separator, files).files && t !in files
        ensures exists i :: Targets(entries, i, resourcePath, destDir, separator, t)
      {
        if t in ScriptsAfter(init, resourcePath, destDir, separator, files).files {
          var i :| Targets(init, i, resourcePath, destDir, separator, t);
          assert init[i] == entries[i];
          assert Targets(entries, i, resourcePath, destDir, separator, t);
        } else {
          assert Targets(entries, |entries| - 1, resourcePath, destDir, separator, t);
        }
      }
    }
  }

  /** Extraction keeps what it does not overwrite: an old file no selected entry targets keeps its bytes. */
  lemma {:induction false} ScriptsFrame(entries: seq<JarEntry>, t: string, resourcePath: string, destDir: string,
                                        separator: string, files: map<string, seq<byte>>)
    requires t in files
    requires forall i :: !Targets(entries, i, resourcePath, destDir, separator, t)
    ensures t in ScriptsAfter(entries, resourcePath, destDir, separator, files).files
    ensures ScriptsAfter(entries, resourcePath, destDir, separator, files).files[t] == files[t]
    decreases |entries|
  {
    if entries != [] {
      var init := entries[..|entries| - 1];
      forall i
        ensures !Targets(init, i, resourcePath, destDir, separator, t)
      {
        if 0 <= i < |init| {
          assert init[i] == entries[i];
          assert !Targets(entries, i, resourcePath, destDir, separator, t);
        }
      }
      ScriptsFrame(init, t, resourcePath, destDir, separator, files);
      assert !Targets(entries, |entries| - 1, resourcePath, destDir, separator, t);
    }
  }

  /**
   * copyResourcesToDir: copies each selected entry through the 1024-byte loop
   * into destDir + separator + fileName; `completed` says whether the loop over
   * the entries ran to its end.
   */
  method CopyResourcesToDir(disk: Disk, entries: seq<JarEntry>, resourcePath: string, destDir: string,
                            separator: string)
    returns (completed: bool)
    modifies disk`files
    ensures Extracted(disk.files, completed) == ScriptsAfter(entries, resourcePath, destDir, separator, old(disk.files))
  {
    var buffer := new byte[BUFFER_SIZE];
    completed := true;
    var i := 0;
    while i < |entries|
      invariant 0 <= i <= |entries|
      invariant Extracted(disk.files, true) == ScriptsAfter(entries[..i], resourcePath, destDir, separator, old(disk.files))
    {
      var entry := entries[i];
      assert entries[..i + 1][..i] == entries[..i];
      if Selected(resourcePath, entry.name) {
        if |entry.name| < |resourcePath| + 1 {
          completed := false;
          assert ScriptsAfter(entries, resourcePath, destDir, separator, old(disk.files))
              == Extracted(disk.files, false) by {
            ScriptsStopped(entries, i + 1, resourcePath, destDir, separator, old(disk.files));
          }
          return;
        }
        var fileName := entry.name[|resourcePath| + 1..];
        var input := new InputStream(entry.data);
        var output := new OutputStream();
        CopyStream(input, output, buffer);
        disk.files := disk.files[destDir + separator + fileName := output.written];
        assert output.written == entry.data;
      }
      assert Extracted(disk.files, true) == ScriptsAfter(entries[..i + 1], resourcePath, destDir, separator, old(disk.files));
      i := i + 1;
    }
    assert entries[..i] == entries;
  }

  /** Once the extraction has stopped, later entries change nothing. */
  lemma {:induction false} ScriptsStopped(entries: seq<JarEntry>, n: nat, resourcePath: string, destDir: string,
                                          separator: string, files: map<string, seq<byte>>)
    requires n <= |entries|
    requires !ScriptsAfter(entries[..n], resourcePath, destDir, separator, files).completed
    ensures ScriptsAfter(entries, resourcePath, destDir, separator, files)
         == ScriptsAfter(entries[..n], resourcePath, destDir, separator, files)
    decreases |entries| - n
  {
    if n < |entries| {
      ScriptsStopped(entries, n + 1, resourcePath, destDir, separator, files) by {
        assert entries[..n + 1][..n] == entries[..n];
      }
      assert entries[..n + 1][..n] == entries[..n];
    } else {
      assert entries[..n] == entries;
    }
  }

  /**
   * copyStaticToDir over the first entries, in order: a selected directory
   * entry becomes a directory, any other selected entry a file with its bytes.
   */
  function StaticAfter(entries: seq<JarEntry>, resourcePath: string, destDir: string, separator: string,
                       disk: DiskState): (r: DiskState)
    ensures disk.files.Keys <= r.files.Keys && disk.dirs <= r.dirs
    decreases |entries|
  {
    if entries == [] then disk
    else
      var prev := StaticAfter(entries[..|entries| - 1], resourcePath, destDir, separator, disk);
      var e := entries[|entries| - 1];
      if !Selected(resourcePath, e.name) then prev
      else
        var target := destDir + separator + StaticRelativePath(resourcePath, e.name);
        if e.isDirectory then DiskState(prev.files, prev.dirs + {target})
        else DiskState(prev.files[target := e.data], prev.dirs)
  }

  /** The static target of entry i, when it is selected. */
  ghost predicate StaticTargets(entries: seq<JarEntry>, i: int, resourcePath: string, destDir: string, separator: string,
                                target: string)
  {
    && 0 <= i < |entries| && Selected(resourcePath, entries[i].name)
    && target == destDir + separator + StaticRelativePath(resourcePath, entries[i].name)
  }

  /** Some selected entry with the given kind targets t. */
  ghost predicate StaticMade(entries: seq<JarEntry>, resourcePath: string, destDir: string, separator: string,
                             t: string, isDirectory: bool)
  {
    exists i :: StaticTargets(entries, i, resourcePath, destDir, separator, t) && entries[i].isDirectory == isDirectory
  }

  /** A target made by one of the first entries is made by the whole list. */
  lemma StaticMadeExtends(entries: seq<JarEntry>, resourcePath: string, destDir: string, separator: string,
                          t: string, isDirectory: bool)
    requires entries != []
    requires StaticMade(entries[..|entries| - 1], resourcePath, destDir, separator, t, isDirectory)
    ensures StaticMade(entries, resourcePath, destDir, separator, t, isDirectory)
  {
    var init := entries[..|entries| - 1];
    var i :| StaticTargets(init, i, resourcePath, destDir, separator, t) && init[i].isDirectory == isDirectory;
    assert init[i] == entries[i];
    assert StaticTargets(entries, i, resourcePath, destDir, separator, t);
  }

  /** A target made by the whole list is made by its first entries or by the last one. */
  lemma StaticMadeSplits(entries: seq<JarEntry>, resourcePath: string, destDir: string, separator: string,
                         t: string, isDirectory: bool)
    requires entries != []
    requires StaticMade(entries, resourcePath, destDir, separator, t, isDirectory)
    ensures || StaticMade(entries[..|entries| - 1], resourcePath, destDir, separator, t, isDirectory)
            || (StaticTargets(entries, |entries| - 1, resourcePath, destDir, separator, t)
                && entries[|entries| - 1].isDirectory == isDirectory)
  {
    var init := entries[..|entries| - 1];
    var i :| StaticTargets(entries, i, resourcePath, destDir, separator, t) && entries[i].isDirectory == isDirectory;
    if i < |init| {
      assert init[i] == entries[i];
      assert StaticTargets(init, i, resourcePath, destDir, separator, t);
    }
  }

  /** The directories afterwards are exactly the old ones and the targets of selected directory entries. */
  lemma {:induction false} StaticDirectories(entries: seq<JarEntry>, resourcePath: string, destDir: string,
                                             separator: string, disk: DiskState, t: string)
    ensures t in StaticAfter(entries, resourcePath, destDir, separator, disk).dirs
            <==> t in disk.dirs || StaticMade(entries, resourcePath, destDir, separator, t, true)
    decreases |entries|
  {
    if entries != [] {
      var init := entries[..|entries| - 1];
      var last := |entries| - 1;
      StaticDirectories(init, resourcePath, destDir, separator, disk, t);
      if StaticMade(init, resourcePath, destDir, separator, t, true) {
        StaticMadeExtends(entries, resourcePath, destDir, separator, t, true);
      }
      if StaticMade(entries, resourcePath, destDir, separator, t, true) {
        StaticMadeSplits(entries, resourcePath, destDir, separator, t, true);
      }
      if StaticTargets(entries, last, resourcePath, destDir, separator, t) && entries[last].isDirectory {
        assert StaticMade(entries, resourcePath, destDir, separator, t, true);
      }
    }
  }

  /** Files are written only for selected entries that are not directories. */
  lemma {:induction false} StaticFiles(entries: seq<JarEntry>, resourcePath: string, destDir: string,
                                       separator: string, disk: DiskState, t: string)
    requires t in StaticAfter(entries, resourcePath, destDir, separator, disk).files
    ensures t in disk.files || StaticMade(entries, resourcePath, destDir, separator, t, false)
    decreases |entries|
  {
    if entries != [] {
      var init := entries[..|entries| - 1];
      var last := |entries| - 1;
      if t in StaticAfter(init, resourcePath, destDir, separator, disk).files {
        StaticFiles(init, resourcePath, destDir, separator, disk, t);
        if StaticMade(init, resourcePath, destDir, separator, t, false) {
          StaticMadeExtends(entries, resourcePath, destDir, separator, t, false);
        }
      } else {
        assert StaticTargets(entries, last, resourcePath, destDir, separator, t);
      }
    }
  }

  /** Entry i is a selected file entry writing target t, and no later selected file entry writes t again. */
  ghost predicate StaticLastWriter(entries: seq<JarEntry>, i: int, resourcePath: string, destDir: string,
                                   separator: string, t: string)
  {
    && StaticTargets(entries, i, resourcePath, destDir, separator, t) && !entries[i].isDirectory
    && forall j :: i < j < |entries| && StaticTargets(entries, j, resourcePath, destDir, separator, t)
                   ==> entries[j].isDirectory
  }

  /** Every selected file entry is copied: its target holds its bytes unless a later file entry wrote there. */
  lemma {:induction false} StaticPlaced(entries: seq<JarEntry>, i: int, t: string, resourcePath: string,
                                        destDir: string, separator: string, disk: DiskState)
    requires StaticLastWriter(entries, i, resourcePath, destDir, separator, t)
    ensures t in StaticAfter(entries, resourcePath, destDir, separator, disk).files
    ensures StaticAfter(entries, resourcePath, destDir, separator, disk).files[t] == entries[i].data
    decreases |entries|
  {
    var last := |entries| - 1;
    var init := entries[..last];
    if i < last {
      assert init[i] == entries[i];
      assert StaticTargets(init, i, resourcePath, destDir, separator, t);
      forall j | i < j < |init| && StaticTargets(init, j, resourcePath, destDir, separator, t)
        ensures init[j].isDirectory
      {
        assert init[j] == entries[j];
        assert StaticTargets(entries, j, resourcePath, destDir, separator, t);
      }
      StaticPlaced(init, i, t, resourcePath, destDir, separator, disk);
      if StaticTargets(entries, last, resourcePath, destDir, separator, t) {
        assert entries[last].isDirectory;
      }
    }
  }

  /** An old file no selected file entry targets keeps its bytes. */
  lemma {:induction false} StaticFrame(entries: seq<JarEntry>, t: string, resourcePath: string, destDir: string,
                                       separator: string, disk: DiskState)
    requires t in disk.files
    requires forall i :: StaticTargets(entries, i, resourcePath, destDir, separator, t) ==> entries[i].isDirectory
    ensures t in StaticAfter(entries, resourcePath, destDir, separator, disk).files
    ensures StaticAfter(entries, resourcePath, destDir, separator, disk).files[t] == disk.files[t]
    decreases |entries|
  {
    if entries != [] {
      var last := |entries| - 1;
      var init := entries[..last];
      forall i | StaticTargets(init, i, resourcePath, destDir, separator, t)
        ensures init[i].isDirectory
      {
        assert init[i] == entries[i];
        assert StaticTargets(entries, i, resourcePath, destDir, separator, t);
      }
      StaticFrame(init, t, resourcePath, destDir, separator, disk);
      if StaticTargets(entries, last, resourcePath, destDir, separator, t) {
        assert entries[last].isDirectory;
      }
    }
  }

  /**
   * copyStaticToDir: each selected entry is created under destDir at its
   * relative path, as a directory or, through the 1024-byte loop, as a file.
   */
  method CopyStaticToDir(disk: Disk, entries: seq<JarEntry>, resourcePath: string, destDir: string, separator: string)
    modifies disk
    ensures disk.State() == StaticAfter(entries, resourcePath, destDir, separator, old(disk.State()))
  {
    var buffer := new byte[BUFFER_SIZE];
    for i := 0 to |entries|
      invariant disk.State() == StaticAfter(entries[..i], resourcePath, destDir, separator, old(disk.State()))
    {
      var entry := entries[i];
      assert entries[..i + 1][..i] == entries[..i];
      if Selected(resourcePath, entry.name) {
        var relativePath := entry.name[|resourcePath|..];
        var outputFile := destDir + separator + relativePath;
        if entry.isDirectory {
          disk.dirs := disk.dirs + {outputFile};
        } else {
          var input := new InputStream(entry.data);
          var output := new OutputStream();
          CopyStream(input, output, buffer);
          disk.files := disk.files[outputFile := output.written];
          assert output.written == entry.data;
        }
      }
    }
    assert entries[..|entries|] == entries;
  }

  /**
   * createTempFiles: creates <tmp>/microgen_scripts, extracts the scripts into it
   * and the static files into its "static" sub-directory, both from the same jar.
   */
  method CreateTempFiles(disk: Disk, tmpDir: string, separator: string, jar: seq<JarEntry>)
    returns (scriptsDir: string)
    modifies disk
    ensures scriptsDir == tmpDir + separator + SCRIPTS_DIR
    ensures var afterScripts := ScriptsAfter(jar, SCRIPTS_RESOURCE, scriptsDir, separator, old(disk.files));
      disk.State() == StaticAfter(jar, STATIC_RESOURCE, scriptsDir + separator + STATIC_DIR, separator,
                                  DiskState(afterScripts.files, old(disk.dirs) + {scriptsDir}))
  {
    scriptsDir := tmpDir + separator + SCRIPTS_DIR;
    disk.dirs := disk.dirs + {scriptsDir};
    var _ := CopyResourcesToDir(disk, jar, SCRIPTS_RESOURCE, scriptsDir, separator);
    CopyStaticToDir(disk, jar, STATIC_RESOURCE, scriptsDir + separator + STATIC_DIR, separator);
  }
}
