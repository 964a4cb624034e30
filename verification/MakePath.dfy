/** The recursive creation of a directory path in a file tree that the method changes in place. */
module MakePath {
  import opened Vocabulary

  /** An absolute path; the root is the empty one. */
  type Path = seq<string>

  datatype Entry = Entry(directory: bool, permissions: int, owner: Option<(string, string)>)

  /** What the system answers to the calls for each path, whether the names are known to it, and the
      permissions of a new directory before they are set. */
  datatype Answers = Answers(
    mkdir: Path -> bool, setPermissions: Path -> bool, chown: Path -> bool,
    user: bool, group: bool, created: int)

  /** The attributes asked for: the permissions, and a user and group if both are to be set. */
  datatype Wanted = Wanted(permissions: int, user: Option<string>, group: Option<string>) {
    predicate Owned() {
      user.Some? && group.Some?
    }

    /** A directory as it should come out. */
    function Made(): Entry {
      Entry(true, permissions, if Owned() then Some((user.value, group.value)) else None)
    }
  }

  /** All calls for this new directory succeed. */
  predicate Succeeds(answers: Answers, wanted: Wanted, p: Path) {
    && answers.mkdir(p) && answers.setPermissions(p)
    && (wanted.Owned() ==> answers.user && answers.group && answers.chown(p))
  }

  function Parent(p: Path): Path
    requires p != []
  {
    p[..|p| - 1]
  }

  /** The path and its ancestors. */
  ghost function Prefixes(path: Path): set<Path> {
    set j | 0 <= j <= |path| :: path[..j]
  }

  /** Every missing step of the path can be made, the first one inside a directory. */
  ghost predicate Feasible(tree: map<Path, Entry>, path: Path, answers: Answers, wanted: Wanted) {
    forall p :: p in Prefixes(path) && p !in tree ==>
      && p != []
      && Succeeds(answers, wanted, p)
      && (Parent(p) in tree ==> tree[Parent(p)].directory)
  }

  /** The root is there and every other entry is in a directory. */
  ghost predicate IsTree(tree: map<Path, Entry>) {
    && [] in tree
    && forall p :: p in tree && p != [] ==> Parent(p) in tree && tree[Parent(p)].directory
  }

  lemma {:induction false} AncestorsExist(tree: map<Path, Entry>, p: Path, j: nat)
    requires IsTree(tree) && p in tree && j <= |p|
    ensures p[..j] in tree
    decreases |p| - j
  {
    if j == |p| {
      assert p[..j] == p;
    } else {
      AncestorsExist(tree, p, j + 1);
      assert Parent(p[..j + 1]) == p[..j];
    }
  }

  /** The missing steps of the path, as they should come out. */
  ghost function Addition(tree: map<Path, Entry>, path: Path, wanted: Wanted): map<Path, Entry> {
    map p | p in Prefixes(path) && p !in tree :: wanted.Made()
  }

  /** What a failed attempt may leave: the tree as it was, and below it some steps of the path, all but
      the longest as they should be. */
  ghost predicate Leftover(before: map<Path, Entry>, after: map<Path, Entry>, path: Path, wanted: Wanted) {
    && before.Keys <= after.Keys
    && (forall p :: p in before ==> after[p] == before[p])
    && forall p :: p in after && p !in before ==>
         && p in Prefixes(path) && after[p].directory
         && (after[p] == wanted.Made() || forall q :: q in after && q !in before ==> |q| <= |p|)
  }

  lemma {:induction false} PrefixesStep(path: Path)
    requires path != []
    ensures Prefixes(path) == Prefixes(Parent(path)) + {path}
  {
    var front := Parent(path);
    forall p | p in Prefixes(path) ensures p in Prefixes(front) || p == path {
      var j :| 0 <= j <= |path| && path[..j] == p;
      if j < |path| {
        assert front[..j] == p;
      }
    }
    forall p | p in Prefixes(front) ensures p in Prefixes(path) {
      var j :| 0 <= j <= |front| && front[..j] == p;
      assert path[..j] == p;
    }
    assert path[..|path|] == path;
  }

  /** Nothing happened, or the last step is there with other attributes. */
  ghost predicate LeafFailed(between: map<Path, Entry>, after: map<Path, Entry>, path: Path)
    requires path != []
  {
    || after == between
    || (path in after && after == between[path := after[path]] && after[path].directory
        && Parent(path) in between && between[Parent(path)].directory)
  }

  class FileTree {
    var entries: map<Path, Entry>

    /** Makes the last step of a path whose parent is there. */
    method MakeLeaf(path: Path, wanted: Wanted, answers: Answers) returns (made: bool)
      requires path != [] && path !in entries && Parent(path) in entries
      modifies this
      ensures made <==> old(entries)[Parent(path)].directory && Succeeds(answers, wanted, path)
      ensures made ==> entries == old(entries)[path := wanted.Made()]
      ensures !made ==> LeafFailed(old(entries), entries, path)
    {
      if !entries[Parent(path)].directory || !answers.mkdir(path) {
        return false;
      }
      entries := entries[path := Entry(true, answers.created, None)];
      if !answers.setPermissions(path) {
        return false;
      }
      entries := entries[path := entries[path].(permissions := wanted.permissions)];
      if wanted.Owned() {
        if !answers.user || !answers.group || !answers.chown(path) {
          return false;
        }
        entries := entries[path := entries[path].(owner := Some((wanted.user.value, wanted.group.value)))];
      }
      return true;
    }

    /** Success comes exactly when every missing step can be made; then exactly the missing steps have
        been added, with the attributes asked for.  Existing entries are never touched. */
    method MakePath(path: Path, wanted: Wanted, answers: Answers) returns (made: bool)
      requires IsTree(entries)
      modifies this
      ensures IsTree(entries)
      ensures made <==> Feasible(old(entries), path, answers, wanted)
      ensures made ==> entries == old(entries) + Addition(old(entries), path, wanted)
      ensures made ==> Prefixes(path) <= entries.Keys
      ensures !made ==> Leftover(old(entries), entries, path, wanted)
      decreases |path|
    {
      if path in entries {
        forall p | p in Prefixes(path) ensures p in entries {
          var j :| 0 <= j <= |path| && path[..j] == p;
          AncestorsExist(entries, path, j);
        }
        return true;
      }
      PrefixesStep(path);
      ghost var before := entries;
      made := MakePath(Parent(path), wanted, answers);
      if !made {
        return false;
      }
      ghost var between := entries;
      assert path !in entries by {
        PathIsLonger(path);
      }
      made := MakeLeaf(path, wanted, answers);
      ParentJoins(before, between, path, answers, wanted);
      if made {
        MadeJoins(before, between, path, wanted);
      } else {
        LeftoverJoins(before, between, entries, path, wanted);
      }
    }
  }

  lemma {:induction false} PathIsLonger(path: Path)
    requires path != []
    ensures path !in Prefixes(Parent(path))
    ensures forall p :: p in Prefixes(Parent(path)) ==> |p| < |path|
  {
  }

  /** Once the parent is made, the path is feasible exactly when its last step can be made there. */
  lemma {:induction false} ParentJoins(
      before: map<Path, Entry>, between: map<Path, Entry>, path: Path, answers: Answers, wanted: Wanted)
    requires path != [] && path !in before
    requires Feasible(before, Parent(path), answers, wanted)
    requires between == before + Addition(before, Parent(path), wanted)
    requires Parent(path) in between
    ensures Feasible(before, path, answers, wanted) <==>
            (between[Parent(path)].directory && Succeeds(answers, wanted, path))
  {
    PrefixesStep(path);
  }

  lemma {:induction false} LeafKeepsTree(between: map<Path, Entry>, path: Path, e: Entry)
    requires path != [] && path !in between && IsTree(between)
    requires Parent(path) in between && between[Parent(path)].directory
    ensures IsTree(between[path := e])
  {
  }

  lemma {:induction false} AdditionStep(before: map<Path, Entry>, path: Path, wanted: Wanted)
    requires path != [] && path !in before
    ensures Addition(before, path, wanted) == Addition(before, Parent(path), wanted)[path := wanted.Made()]
  {
    PrefixesStep(path);
  }

  /** The parent's part and the last step together are the whole path's part. */
  lemma {:induction false} MadeJoins(
      before: map<Path, Entry>, between: map<Path, Entry>, path: Path, wanted: Wanted)
    requires path != [] && path !in before && path !in between && IsTree(between)
    requires between == before + Addition(before, Parent(path), wanted)
    requires Prefixes(Parent(path)) <= between.Keys
    requires Parent(path) in between && between[Parent(path)].directory
    ensures var after := between[path := wanted.Made()];
      && IsTree(after) && Prefixes(path) <= after.Keys
      && after == before + Addition(before, path, wanted)
  {
    PrefixesStep(path);
    LeafKeepsTree(between, path, wanted.Made());
    AdditionStep(before, path, wanted);
  }

  lemma {:induction false} LeftoverJoins(
      before: map<Path, Entry>, between: map<Path, Entry>, after: map<Path, Entry>,
      path: Path, wanted: Wanted)
    requires path != [] && path !in before && IsTree(between)
    requires between == before + Addition(before, Parent(path), wanted)
    requires LeafFailed(between, after, path)
    ensures IsTree(after) && Leftover(before, after, path, wanted)
  {
    PrefixesStep(path);
    PathIsLonger(path);
  }
}
