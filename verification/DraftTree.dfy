/**
 * A guest's draft: the overlay's upper layer `Upper`, the host tree `Host` it is replayed onto, the
 * recursive merge of the two with the host's refusals, and the flat pre-order listing that crosses the
 * channel. `DraftOverlay` says what the merge has to do with an overlay that refuses nothing.
 */
module DraftTree {
  import opened Options
  import Octets = Bytes

  type Name = string
  type Path = seq<Name>
  type Byte = Octets.Byte
  type Bytes = seq<Byte>
  type Folder = map<Name, Host>

  /** The upper layer. `Other` is a link, socket or fifo, which the guest never reports. */
  datatype Upper = UFile(bytes: Bytes) | UDir(isOpaque: bool, children: seq<Child>) | Whiteout | Other

  datatype Child = Child(name: Name, node: Upper)

  datatype Host = HDir(folder: Folder) | HFile(bytes: Bytes) | HLink

  /** One listed entry; a file's bytes are read separately but belong to it. */
  datatype Entry = DirEntry(path: Path, isOpaque: bool) | FileEntry(path: Path, bytes: Bytes) | WhiteoutEntry(path: Path)

  // ------------------------------------------------------------------- the meaning

  function Get(folder: Folder, name: Name): Option<Host> {
    if name in folder then Some(folder[name]) else None
  }

  function Put(folder: Folder, name: Name, host: Option<Host>): Folder {
    if host.Some? then folder[name := host.value] else folder - {name}
  }

  /** What the host makes of one name, or its refusal. */
  function Merge(host: Option<Host>, upper: Upper): Attempt<Option<Host>>
    decreases upper, 1
  {
    match upper
    case Other => Done(host)
    case Whiteout => Done(None)
    case UFile(bytes) =>
      // A file does not replace a directory, and nothing is written through a link.
      if host.None? || host.value.HFile? then Done(Some(HFile(bytes))) else Threw
    case UDir(isOpaque, children) =>
      var base :=
        if isOpaque || host.None? then Done(map[])
        else if host.value.HDir? then Done(host.value.folder)
        else Threw;
      match base
      case Threw => Threw
      case Done(folder) =>
        match MergeAll(folder, children)
        case Threw => Threw
        case Done(merged) => Done(Some(HDir(merged)))
  }

  function MergeAll(folder: Folder, children: seq<Child>): Attempt<Folder>
    decreases children, 0
  {
    if children == [] then Done(folder)
    else
      var child := children[0];
      match Merge(Get(folder, child.name), child.node)
      case Threw => Threw
      case Done(host) => MergeAll(Put(folder, child.name, host), children[1..])
  }

  // ------------------------------------------------------------------- the listing

  function Under(name: Name, entries: seq<Entry>): seq<Entry> {
    seq(|entries|, i requires 0 <= i < |entries| => Below(name, entries[i]))
  }

  function At(path: Path, entry: Entry): Entry {
    match entry
    case DirEntry(_, isOpaque) => DirEntry(path, isOpaque)
    case FileEntry(_, bytes) => FileEntry(path, bytes)
    case WhiteoutEntry(_) => WhiteoutEntry(path)
  }

  function Below(name: Name, entry: Entry): Entry {
    At([name] + entry.path, entry)
  }

  /** Pre-order: a directory before what it holds. */
  function Flatten(children: seq<Child>): (entries: seq<Entry>)
    ensures forall i :: 0 <= i < |entries| ==> entries[i].path != []
    decreases children, 1
  {
    if children == [] then [] else FlattenChild(children[0]) + Flatten(children[1..])
  }

  function FlattenChild(child: Child): (entries: seq<Entry>)
    ensures forall i :: 0 <= i < |entries| ==> entries[i].path != []
    decreases child, 0
  {
    match child.node
    case UFile(bytes) => [FileEntry([child.name], bytes)]
    case UDir(isOpaque, children) => [DirEntry([child.name], isOpaque)] + Under(child.name, Flatten(children))
    case Whiteout => [WhiteoutEntry([child.name])]
    case Other => []
  }

  // ------------------------------------------------------------------- the replay

  /** One entry applied at its own name (`applyDirectory`, `applyFile`, removal). */
  function ApplyHere(folder: Folder, name: Name, entry: Entry): Attempt<Folder> {
    match entry
    case WhiteoutEntry(_) => Done(folder - {name})
    case FileEntry(_, bytes) =>
      if name in folder && !folder[name].HFile? then Threw else Done(folder[name := HFile(bytes)])
    case DirEntry(_, isOpaque) =>
      if isOpaque then Done(folder[name := HDir(map[])])
      else if name !in folder then Done(folder[name := HDir(map[])])
      else if folder[name].HDir? then Done(folder)
      else Threw
  }

  /**
   * One entry applied at a path: every existing component on the way must be a real directory, and
   * below a missing one there is nothing to remove and nowhere to write.
   */
  function Apply(folder: Folder, path: Path, entry: Entry): Attempt<Folder>
    decreases path
  {
    if path == [] then Threw
    else if |path| == 1 then ApplyHere(folder, path[0], entry)
    else if path[0] !in folder then if entry.WhiteoutEntry? then Done(folder) else Threw
    else if !folder[path[0]].HDir? then Threw
    else
      match Apply(folder[path[0]].folder, path[1..], entry)
      case Threw => Threw
      case Done(inner) => Done(folder[path[0] := HDir(inner)])
  }

  function Replay(folder: Folder, entries: seq<Entry>): Attempt<Folder>
    decreases |entries|
  {
    if entries == [] then Done(folder)
    else
      match Apply(folder, entries[0].path, entries[0])
      case Threw => Threw
      case Done(next) => Replay(next, entries[1..])
  }

  // ------------------------------------------------------------------- replay is merge

  lemma {:induction false} ReplayAppends(folder: Folder, first: seq<Entry>, second: seq<Entry>)
    ensures Replay(folder, first + second)
            == match Replay(folder, first) case Threw => Threw case Done(next) => Replay(next, second)
    decreases |first|
  {
    if first == [] {
      assert first + second == second;
    } else {
      assert (first + second)[1..] == first[1..] + second;
      match Apply(folder, first[0].path, first[0]) {
        case Threw =>
        case Done(next) => ReplayAppends(next, first[1..], second);
      }
    }
  }

  lemma ApplyBelow(folder: Folder, name: Name, entry: Entry)
    requires name in folder && folder[name].HDir? && entry.path != []
    ensures Apply(folder, Below(name, entry).path, Below(name, entry))
            == match Apply(folder[name].folder, entry.path, entry)
               case Threw => Threw
               case Done(inner) => Done(folder[name := HDir(inner)])
  {
    assert ([name] + entry.path)[1..] == entry.path;
    ApplyIgnoresStoredPath(folder[name].folder, entry.path, entry, Below(name, entry));
  }

  /** Where an entry lands depends on the path it is applied at, not on the path it carries. */
  lemma {:induction false} ApplyIgnoresStoredPath(folder: Folder, path: Path, entry: Entry, other: Entry)
    requires other == At(other.path, entry)
    ensures Apply(folder, path, entry) == Apply(folder, path, other)
    decreases path
  {
    if |path| > 1 && path[0] in folder && folder[path[0]].HDir? {
      ApplyIgnoresStoredPath(folder[path[0]].folder, path[1..], entry, other);
    }
  }

  /** Replaying what lies below one directory changes that directory alone. */
  lemma {:induction false} ReplayUnder(folder: Folder, name: Name, entries: seq<Entry>)
    requires name in folder && folder[name].HDir?
    requires forall i :: 0 <= i < |entries| ==> entries[i].path != []
    ensures Replay(folder, Under(name, entries))
            == match Replay(folder[name].folder, entries)
               case Threw => Threw
               case Done(inner) => Done(folder[name := HDir(inner)])
    decreases |entries|
  {
    if entries == [] {
      assert folder[name := HDir(folder[name].folder)] == folder;
    } else {
      ApplyBelow(folder, name, entries[0]);
      assert Under(name, entries)[1..] == Under(name, entries[1..]);
      match Apply(folder[name].folder, entries[0].path, entries[0]) {
        case Threw =>
        case Done(inner) =>
          var next := folder[name := HDir(inner)];
          ReplayUnder(next, name, entries[1..]);
          match Replay(inner, entries[1..]) {
            case Threw =>
            case Done(final) => assert next[name := HDir(final)] == folder[name := HDir(final)];
          }
      }
    }
  }

  lemma ReplayOne(folder: Folder, entry: Entry)
    ensures Replay(folder, [entry]) == Apply(folder, entry.path, entry)
  {
    assert [entry][1..] == [];
  }

  lemma {:induction false} ReplayDirectoryIsMerge(folder: Folder, name: Name, node: Upper)
    requires node.UDir?
    ensures Replay(folder, FlattenChild(Child(name, node)))
            == match Merge(Get(folder, name), node)
               case Threw => Threw
               case Done(host) => Done(Put(folder, name, host))
    decreases node.children, 2
  {
    var entry, below := DirEntry([name], node.isOpaque), Under(name, Flatten(node.children));
    ReplayAppends(folder, [entry], below);
    ReplayOne(folder, entry);
    var made := ApplyHere(folder, name, entry);
    if made.Done? {
      ReplayUnder(made.value, name, Flatten(node.children));
      ReplayIsMerge(made.value[name].folder, node.children);
      match MergeAll(made.value[name].folder, node.children) {
        case Threw =>
        case Done(merged) => assert made.value[name := HDir(merged)] == folder[name := HDir(merged)];
      }
    }
  }

  lemma {:induction false} ReplayChildIsMerge(folder: Folder, child: Child)
    ensures Replay(folder, FlattenChild(child))
            == match Merge(Get(folder, child.name), child.node)
               case Threw => Threw
               case Done(host) => Done(Put(folder, child.name, host))
    decreases child, 0
  {
    match child.node {
      case Other => assert Put(folder, child.name, Get(folder, child.name)) == folder;
      case Whiteout => ReplayOne(folder, WhiteoutEntry([child.name]));
      case UFile(bytes) => ReplayOne(folder, FileEntry([child.name], bytes));
      case UDir(_, _) => ReplayDirectoryIsMerge(folder, child.name, child.node);
    }
  }

  /**
   * Replaying the flattened listing is the recursive merge: the same tree, and refused for exactly the
   * same pairs of trees.
   */
  lemma {:induction false} ReplayIsMerge(folder: Folder, children: seq<Child>)
    ensures Replay(folder, Flatten(children)) == MergeAll(folder, children)
    decreases children, 1
  {
    if children != [] {
      ReplayChildIsMerge(folder, children[0]);
      ReplayAppends(folder, FlattenChild(children[0]), Flatten(children[1..]));
      match Merge(Get(folder, children[0].name), children[0].node) {
        case Threw =>
        case Done(host) => ReplayIsMerge(Put(folder, children[0].name, host), children[1..]);
      }
    }
  }

  // ------------------------------------------------------------------- merging twice

  predicate DistinctNames(children: seq<Child>) {
    forall i, j :: 0 <= i < j < |children| ==> children[i].name != children[j].name
  }

  /** A directory holds each name once, at every level. */
  predicate Proper(children: seq<Child>) {
    && DistinctNames(children)
    && forall i :: 0 <= i < |children| ==> children[i].node.UDir? ==> Proper(children[i].node.children)
  }

  ghost predicate Lists(children: seq<Child>, name: Name) {
    exists i :: 0 <= i < |children| && children[i].name == name
  }

  /** Each name is merged on its own: the order of the listing's siblings does not matter. */
  lemma {:induction false} MergeAllPointwise(folder: Folder, children: seq<Child>)
    requires DistinctNames(children)
    ensures MergeAll(folder, children).Done? <==>
              forall i :: 0 <= i < |children| ==> Merge(Get(folder, children[i].name), children[i].node).Done?
    ensures MergeAll(folder, children).Done? ==>
              var merged := MergeAll(folder, children).value;
              && (forall i :: 0 <= i < |children| ==>
                    Merge(Get(folder, children[i].name), children[i].node) == Done(Get(merged, children[i].name)))
              && (forall name :: !Lists(children, name) ==> Get(merged, name) == Get(folder, name))
    decreases |children|
  {
    if children != [] {
      var child, rest := children[0], children[1..];
      assert forall i :: 0 <= i < |rest| ==> rest[i] == children[i + 1];
      var here := Merge(Get(folder, child.name), child.node);
      if here.Done? {
        var next := Put(folder, child.name, here.value);
        MergeAllPointwise(next, rest);
        assert forall i :: 0 < i < |children| ==> children[i] == rest[i - 1];
        assert forall i :: 0 <= i < |rest| ==> Get(next, rest[i].name) == Get(folder, rest[i].name);
        assert !Lists(rest, child.name);
        assert forall name :: !Lists(children, name) ==> !Lists(rest, name);
      }
    }
  }

  lemma {:induction false} MergeTwice(host: Option<Host>, upper: Upper)
    requires Merge(host, upper).Done?
    requires upper.UDir? ==> Proper(upper.children)
    ensures Merge(Merge(host, upper).value, upper) == Merge(host, upper)
    decreases upper, 1
  {
    if upper.UDir? && !upper.isOpaque {
      MergeAllTwice(if host.None? then map[] else host.value.folder, upper.children);
    }
  }

  /** Ingesting an unchanged draft a second time changes nothing. */
  lemma {:induction false} MergeAllTwice(folder: Folder, children: seq<Child>)
    requires Proper(children) && MergeAll(folder, children).Done?
    ensures MergeAll(MergeAll(folder, children).value, children) == MergeAll(folder, children)
    decreases children, 0
  {
    var once := MergeAll(folder, children).value;
    MergeAllPointwise(folder, children);
    forall i | 0 <= i < |children|
      ensures Merge(Get(once, children[i].name), children[i].node) == Done(Get(once, children[i].name))
    {
      MergeTwice(Get(folder, children[i].name), children[i].node);
    }
    MergeAllPointwise(once, children);
    var twice := MergeAll(once, children).value;
    forall name ensures Get(twice, name) == Get(once, name) {
      if Lists(children, name) {
        var i :| 0 <= i < |children| && children[i].name == name;
      }
    }
    SameFolders(once, twice);
  }

  lemma SameFolders(one: Folder, other: Folder)
    requires forall name :: Get(one, name) == Get(other, name)
    ensures one == other
  {
    assert forall name :: name in one <==> Get(one, name).Some?;
    assert forall name :: name in other <==> Get(other, name).Some?;
    assert one.Keys == other.Keys;
    assert forall name :: name in one ==> one[name] == Get(one, name).value;
  }
}
