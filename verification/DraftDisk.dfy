/** The host's filesystem calls on one tree, and the branches that apply an entry with them. */
module DraftDisk {
  import opened Options
  import opened DraftTree

  function Lstat(folder: Folder, path: Path): Option<Host>
    requires path != []
    decreases |path|
  {
    if path[0] !in folder then None
    else if |path| == 1 then Some(folder[path[0]])
    else if folder[path[0]].HDir? then Lstat(folder[path[0]].folder, path[1..])
    else None
  }

  /** No existing component on the way to `path` is anything but a real directory. */
  predicate Resolves(folder: Folder, path: Path)
    decreases |path|
  {
    |path| <= 1 || path[0] !in folder
    || (folder[path[0]].HDir? && Resolves(folder[path[0]].folder, path[1..]))
  }

  /** What one directory update does; it fails where the parent is missing. */
  function Set(folder: Folder, path: Path, host: Option<Host>): Attempt<Folder>
    requires path != []
    decreases |path|
  {
    if |path| == 1 then Done(Put(folder, path[0], host))
    else if path[0] in folder && folder[path[0]].HDir? then
      match Set(folder[path[0]].folder, path[1..], host)
      case Threw => Threw
      case Done(inner) => Done(folder[path[0] := HDir(inner)])
    else Threw
  }

  lemma {:induction false} SetTwice(folder: Folder, path: Path, first: Option<Host>, second: Option<Host>)
    requires path != [] && Set(folder, path, first).Done?
    ensures Set(Set(folder, path, first).value, path, second) == Set(folder, path, second)
    ensures Lstat(Set(folder, path, first).value, path) == first
    ensures Resolves(Set(folder, path, first).value, path)
    decreases |path|
  {
    if |path| == 1 {
      var name := path[0];
      assert Put(Put(folder, name, first), name, second) == Put(folder, name, second);
    } else {
      var inner := folder[path[0]].folder;
      SetTwice(inner, path[1..], first, second);
      var once := folder[path[0] := HDir(Set(inner, path[1..], first).value)];
      match Set(inner, path[1..], second) {
        case Threw =>
        case Done(final) => assert once[path[0] := HDir(final)] == folder[path[0] := HDir(final)];
      }
    }
  }

  /** What an entry does, said with `Lstat` and `Set`. */
  lemma {:induction false} ApplyBySetting(folder: Folder, path: Path, entry: Entry)
    requires path != [] && Resolves(folder, path)
    ensures entry.WhiteoutEntry? ==>
              Apply(folder, path, entry)
              == if Lstat(folder, path).None? then Done(folder) else Set(folder, path, None)
    ensures entry.FileEntry? ==>
              Apply(folder, path, entry)
              == var there := Lstat(folder, path);
                 if there.Some? && !there.value.HFile? then Threw else Set(folder, path, Some(HFile(entry.bytes)))
    ensures entry.DirEntry? ==>
              Apply(folder, path, entry)
              == var there := Lstat(folder, path);
                 if entry.isOpaque || there.None? then Set(folder, path, Some(HDir(map[])))
                 else if there.value.HDir? then Done(folder)
                 else Threw
    decreases |path|
  {
    if |path| == 1 {
      assert path[0] !in folder ==> folder - {path[0]} == folder;
    } else if path[0] in folder {
      ApplyBySetting(folder[path[0]].folder, path[1..], entry);
      assert folder[path[0] := HDir(folder[path[0]].folder)] == folder;
    }
  }

  lemma {:induction false} ApplyNeedsDirectories(folder: Folder, path: Path, entry: Entry)
    requires !Resolves(folder, path)
    ensures Apply(folder, path, entry).Threw?
    decreases |path|
  {
    if path[0] in folder && folder[path[0]].HDir? {
      ApplyNeedsDirectories(folder[path[0]].folder, path[1..], entry);
    }
  }

  class Disk {
    var tree: Folder

    constructor (tree: Folder)
      ensures this.tree == tree
    {
      this.tree := tree;
    }

    /** `rm` with `force` and `recursive`. */
    method Rm(path: Path) returns (ok: bool)
      requires path != []
      modifies this
      ensures ok <==> Lstat(old(tree), path).None? || Set(old(tree), path, None).Done?
      ensures ok ==> tree == if Lstat(old(tree), path).None? then old(tree) else Set(old(tree), path, None).value
      ensures !ok ==> tree == old(tree)
    {
      if Lstat(tree, path).None? {
        return true;
      }
      ok := Store(path, None);
    }

    method Store(path: Path, host: Option<Host>) returns (ok: bool)
      requires path != []
      modifies this
      ensures ok <==> Set(old(tree), path, host).Done?
      ensures tree == if ok then Set(old(tree), path, host).value else old(tree)
    {
      match Set(tree, path, host) {
        case Threw => ok := false;
        case Done(next) => tree, ok := next, true;
      }
    }

    method Mkdir(path: Path) returns (ok: bool)
      requires path != []
      modifies this
      ensures ok <==> Lstat(old(tree), path).None? && Set(old(tree), path, Some(HDir(map[]))).Done?
      ensures tree == if ok then Set(old(tree), path, Some(HDir(map[]))).value else old(tree)
    {
      if Lstat(tree, path).Some? {
        return false;
      }
      ok := Store(path, Some(HDir(map[])));
    }

    /** `rename` of a finished temporary sibling: it replaces a file or a link, never a directory. */
    method RenameInto(path: Path, bytes: Bytes) returns (ok: bool)
      requires path != []
      modifies this
      ensures ok <==> !(Lstat(old(tree), path).Some? && Lstat(old(tree), path).value.HDir?)
                      && Set(old(tree), path, Some(HFile(bytes))).Done?
      ensures tree == if ok then Set(old(tree), path, Some(HFile(bytes))).value else old(tree)
    {
      if Lstat(tree, path).Some? && Lstat(tree, path).value.HDir? {
        return false;
      }
      ok := Store(path, Some(HFile(bytes)));
    }

    /** `resolveWorkspaceWritePath`, past the reading of the path: every existing parent is a directory. */
    method ResolveParents(path: Path) returns (ok: bool)
      ensures ok <==> path != [] && Resolves(tree, path)
    {
      if path == [] {
        return false;
      }
      var current := tree;
      for i := 0 to |path| - 1
        invariant Resolves(tree, path) <==> Resolves(current, path[i..])
      {
        assert path[i..][1..] == path[i + 1..];
        if path[i] !in current {
          return true;
        }
        if !current[path[i]].HDir? {
          return false;
        }
        current := current[path[i]].folder;
      }
      ok := true;
    }

    method ApplyDirectory(path: Path, isOpaque: bool) returns (ok: bool)
      requires path != [] && Resolves(tree, path)
      modifies this
      ensures ok <==> Apply(old(tree), path, DirEntry(path, isOpaque)).Done?
      ensures ok ==> Apply(old(tree), path, DirEntry(path, isOpaque)) == Done(tree)
      ensures !ok ==> tree == old(tree)
    {
      ghost var before := tree;
      ApplyBySetting(tree, path, DirEntry(path, isOpaque));
      SetFailsAlike(tree, path, None, Some(HDir(map[])));
      if isOpaque {
        var removed := Rm(path);
        if !removed {
          return false;
        }
        if Lstat(before, path).Some? {
          SetTwice(before, path, None, Some(HDir(map[])));
        }
      } else {
        var info := Lstat(tree, path);
        if info.Some? {
          return info.value.HDir?;
        }
      }
      ok := Mkdir(path);
    }
  }

  /** Whether a directory update succeeds does not depend on what is put there. */
  lemma {:induction false} SetFailsAlike(folder: Folder, path: Path, one: Option<Host>, other: Option<Host>)
    requires path != []
    ensures Set(folder, path, one).Done? <==> Set(folder, path, other).Done?
    ensures Lstat(folder, path).Some? ==> Set(folder, path, one).Done?
    decreases |path|
  {
    if |path| > 1 && path[0] in folder && folder[path[0]].HDir? {
      SetFailsAlike(folder[path[0]].folder, path[1..], one, other);
    }
  }
}
