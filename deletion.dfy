/**
 * FileChecker.deleteTempDirectory over an in-memory tree. A node is a file or
 * a directory with its listing; `locked` marks a node the operating system
 * refuses to delete. Deletion is post-order: a directory's children first,
 * the directory itself last, and a directory is removed only once empty.
 */
module Deletion {
  import opened Base

  datatype Node =
    | File(name: string, locked: bool)
    | Dir(name: string, locked: bool, children: seq<Node>)

  /** What is left of a node after deleting it: None if it is gone. */
  function Remaining(n: Node): (r: Option<Node>)
    ensures r.Some? ==> r.value.name == n.name && r.value.locked == n.locked && r.value.Dir? == n.Dir?
    ensures n.locked ==> r.Some?
    ensures n.File? && !n.locked ==> r.None?
    decreases n, 1
  {
    match n
    case File(_, locked) => if locked then Some(n) else None
    case Dir(name, locked, children) =>
      var kept := Survivors(n, children);
      if kept == [] && !locked then None else Some(Dir(name, locked, kept))
  }

  /** What is left of each child of `parent`, in listing order, dropping those that are gone. */
  function Survivors(parent: Node, children: seq<Node>): seq<Node>
    requires parent.Dir? && forall c :: c in children ==> c in parent.children
    decreases parent, 0, |children|
  {
    if children == [] then []
    else
      var last := children[|children| - 1];
      var rest := Survivors(parent, children[..|children| - 1]);
      assert last in parent.children;
      match Remaining(last)
      case None => rest
      case Some(l) => rest + [l]
  }

  /** A node holds something that cannot be deleted. */
  predicate AnyLocked(n: Node)
    decreases n
  {
    match n
    case File(_, locked) => locked
    case Dir(_, locked, children) => locked || exists c :: c in children && AnyLocked(c)
  }

  /** Everything under a node is deleted exactly when nothing in it is locked. */
  lemma {:induction false} RemovedIffUnlocked(n: Node)
    ensures Remaining(n).None? <==> !AnyLocked(n)
    decreases n, 1
  {
    if n.Dir? {
      SurvivorsEmptyIff(n, n.children);
    }
  }

  lemma {:induction false} SurvivorsEmptyIff(parent: Node, children: seq<Node>)
    requires parent.Dir? && forall c :: c in children ==> c in parent.children
    ensures Survivors(parent, children) == [] <==> forall c :: c in children ==> !AnyLocked(c)
    decreases parent, 0, |children|
  {
    if children != [] {
      var init := children[..|children| - 1];
      var last := children[|children| - 1];
      assert forall c :: c in init ==> c in children;
      SurvivorsEmptyIff(parent, init);
      assert last in parent.children;
      RemovedIffUnlocked(last);
      assert forall c :: c in children ==> c in init || c == last;
    }
  }

  /** Deleting what is left again removes nothing more: the locked parts stay. */
  lemma {:induction false} RemainingIdempotent(n: Node)
    ensures Remaining(n).Some? ==> Remaining(Remaining(n).value) == Remaining(n)
    decreases n, 1
  {
    if n.Dir? && Remaining(n).Some? {
      var kept := Survivors(n, n.children);
      var m := Dir(n.name, n.locked, kept);
      SurvivorsFixed(n, n.children, m);
    }
  }

  /**
   * The survivors of a listing, taken as a listing of `after`, survive unchanged.
   */
  lemma {:induction false} SurvivorsFixed(parent: Node, children: seq<Node>, after: Node)
    requires parent.Dir? && forall c :: c in children ==> c in parent.children
    requires after.Dir? && forall c :: c in Survivors(parent, children) ==> c in after.children
    ensures Survivors(after, Survivors(parent, children)) == Survivors(parent, children)
    decreases parent, 0, |children|
  {
    if children != [] {
      var init := children[..|children| - 1];
      var last := children[|children| - 1];
      assert forall c :: c in init ==> c in children;
      var rest := Survivors(parent, init);
      assert forall c :: c in rest ==> c in Survivors(parent, children);
      SurvivorsFixed(parent, init, after);
      match Remaining(last)
      case None =>
      case Some(l) =>
        assert last in parent.children;
        RemainingIdempotent(last);
        var s := rest + [l];
        assert s[..|s| - 1] == rest;
        assert s[|s| - 1] == l;
    }
  }

  /** Every node of a tree has a reason to exist: something locked at or below it. */
  predicate KeptOnlyLocked(m: Node)
    decreases m
  {
    AnyLocked(m) && (m.Dir? ==> forall c :: c in m.children ==> KeptOnlyLocked(c))
  }

  /** Deletion removes everything it can: whatever is left of a node holds only locked nodes and their ancestors. */
  lemma {:induction false} RemainingKeptOnlyLocked(n: Node)
    ensures Remaining(n).Some? ==> KeptOnlyLocked(Remaining(n).value)
    decreases n, 1
  {
    if n.Dir? && Remaining(n).Some? {
      var kept := Survivors(n, n.children);
      SurvivorsKeptOnlyLocked(n, n.children);
      if !n.locked {
        assert kept != [];
        assert kept[0] in kept;
      }
    }
  }

  lemma {:induction false} SurvivorsKeptOnlyLocked(parent: Node, children: seq<Node>)
    requires parent.Dir? && forall c :: c in children ==> c in parent.children
    ensures forall m :: m in Survivors(parent, children) ==> KeptOnlyLocked(m)
    decreases parent, 0, |children|
  {
    if children != [] {
      var init := children[..|children| - 1];
      var last := children[|children| - 1];
      assert forall c :: c in init ==> c in children;
      SurvivorsKeptOnlyLocked(parent, init);
      assert last in parent.children;
      RemainingKeptOnlyLocked(last);
    }
  }

  /** Deletion keeps everything locked: a child holding a locked node survives, pruned, in what is left of its directory. */
  lemma {:induction false} LockedChildrenKept(n: Node, c: Node)
    requires n.Dir? && c in n.children && AnyLocked(c)
    ensures Remaining(c).Some? && Remaining(n).Some?
    ensures Remaining(c).value in Remaining(n).value.children
  {
    RemovedIffUnlocked(c);
    SurvivorsInclude(n, n.children, c);
  }

  lemma {:induction false} SurvivorsInclude(parent: Node, children: seq<Node>, c: Node)
    requires parent.Dir? && forall x :: x in children ==> x in parent.children
    requires c in children && Remaining(c).Some?
    ensures Remaining(c).value in Survivors(parent, children)
    decreases |children|
  {
    var init := children[..|children| - 1];
    var last := children[|children| - 1];
    assert forall x :: x in init ==> x in children;
    assert last in parent.children;
    if c == last {
      assert Survivors(parent, children) == Survivors(parent, init) + [Remaining(c).value];
    } else {
      assert c in init by {
        assert children == init + [last];
      }
      SurvivorsInclude(parent, init, c);
    }
  }

  /**
   * Deletes an existing node: a directory's subdirectories by recursion and its
   * files directly, then the directory itself, whose result is returned.
   */
  method DeleteExisting(n: Node) returns (deleted: bool, left: Option<Node>)
    ensures left == Remaining(n)
    ensures deleted <==> left.None?
    decreases n, 1
  {
    match n
    case File(_, locked) =>
      deleted := !locked;
      left := if deleted then None else Some(n);
    case Dir(name, locked, children) =>
      var kept: seq<Node> := [];
      for i := 0 to |children|
        invariant kept == Survivors(n, children[..i])
      {
        var child := children[i];
        var childLeft: Option<Node>;
        if child.Dir? {
          var _, l := DeleteExisting(child);
          childLeft := l;
        } else {
          childLeft := if child.locked then Some(child) else None;
        }
        assert children[..i + 1][..i] == children[..i];
        kept := kept + (if childLeft.Some? then [childLeft.value] else []);
      }
      assert children[..|children|] == children;
      deleted := kept == [] && !locked;
      left := if deleted then None else Some(Dir(name, locked, kept));
  }

  /**
   * deleteTempDirectory: false, and nothing removed, for a path that does not
   * exist; otherwise whether the node itself was finally deleted.
   */
  method DeleteTempDirectory(root: Option<Node>) returns (deleted: bool, left: Option<Node>)
    ensures root.None? ==> !deleted && left.None?
    ensures root.Some? ==> left == Remaining(root.value) && (deleted <==> left.None?)
  {
    if root.None? {
      return false, None;
    }
    deleted, left := DeleteExisting(root.value);
  }
}
