/** `ingestGuestDrafts`: the host's loop against any guest, and what it leaves against a faithful one. */
module DraftIngest {
  import opened Options
  import opened DraftTree
  import opened DraftPaths
  import opened DraftDisk
  import opened DraftOverlay
  import opened DraftTransfer

  /** A guest answers as it likes; its answers may depend on when it is asked. */
  datatype Guest = Guest(scan: (nat, nat) -> ScanReply, read: (nat, string, nat) -> ReadReply)

  /** A guest that runs the reader of `DraftTransfer` over an upper layer nobody changes meanwhile. */
  ghost predicate Faithful(guest: Guest, root: seq<Child>) {
    && (forall moment: nat, cursor: nat :: guest.scan(moment, cursor) == ScanOf(root, cursor))
    && (forall moment: nat, path: string, offset: nat :: guest.read(moment, path, offset) == ReadOf(root, path, offset, READ_MAX_BYTES))
  }

  // ------------------------------------------------------------------- the wire listing's meaning

  function ApplyListed(tree: Folder, root: seq<Child>, listed: Listed): Attempt<Folder> {
    match WritePath(listed.path)
    case Threw => Threw
    case Done(path) =>
      match listed.kind
      case DirKind => Apply(tree, path, DirEntry(path, listed.isOpaque))
      case WhiteoutKind => Apply(tree, path, WhiteoutEntry(path))
      case FileKind =>
        match ContentFor(root, listed.path)
        case None => Threw
        case Some(bytes) => Apply(tree, path, FileEntry(path, bytes))
  }

  function ReplayListed(tree: Folder, root: seq<Child>, listing: seq<Listed>): Attempt<Folder> {
    if listing == [] then Done(tree)
    else
      match ReplayListed(tree, root, listing[..|listing| - 1])
      case Threw => Threw
      case Done(next) => ApplyListed(next, root, listing[|listing| - 1])
  }

  function BytesOf(root: seq<Child>, listed: Listed): nat {
    if listed.kind.FileKind? && ContentFor(root, listed.path).Some? then |ContentFor(root, listed.path).value| else 0
  }

  function TotalBytes(root: seq<Child>, listing: seq<Listed>): nat {
    if listing == [] then 0
    else TotalBytes(root, listing[..|listing| - 1]) + BytesOf(root, listing[|listing| - 1])
  }

  /** The listing replays and stays within the host's storage limit. */
  predicate Ingestible(tree: Folder, root: seq<Child>, listing: seq<Listed>) {
    ReplayListed(tree, root, listing).Done? && TotalBytes(root, listing) <= MAX_DRAFT_BYTES
  }

  // ------------------------------------------------------------------- what a guest can make the host do

  /** Some spelling of this path passes the host's check. */
  ghost predicate Validated(path: Path) {
    exists wire: string :: WritePath(wire) == Done(path)
  }

  ghost predicate AllValidated(applied: seq<Entry>) {
    forall k :: 0 <= k < |applied| ==> Validated(applied[k].path)
  }

  /** Such a path names something strictly inside the folder, outside the promotion journal. */
  lemma ValidatedIsInside(path: Path)
    requires Validated(path)
    ensures path != [] && !SeemsOutside(path) && path[0] != PROMOTION_JOURNAL
    ensures forall i :: 0 <= i < |path| ==> path[i] != "" && path[i] != "." && path[i] != ".." && '/' !in path[i]
  {
    var wire :| WritePath(wire) == Done(path);
    var trimmed := TrimEnd(TrimStart(wire));
    var parts := Split(Slashes(if trimmed == "" then "." else trimmed));
    forall i | 0 <= i < |path| ensures '/' !in path[i] && path[i] != ".." {
      assert path[i] in parts && path[i] in Segments(parts);
    }
  }

  function FileBytes(entry: Entry): nat {
    if entry.FileEntry? then |entry.bytes| else 0
  }

  function AppliedBytes(applied: seq<Entry>): nat {
    if applied == [] then 0 else AppliedBytes(applied[..|applied| - 1]) + FileBytes(applied[|applied| - 1])
  }

  lemma {:induction false} AppliedBytesAdd(some: seq<Entry>, more: seq<Entry>)
    ensures AppliedBytes(some + more) == AppliedBytes(some) + AppliedBytes(more)
    decreases |more|
  {
    if more == [] {
      assert some + more == some;
    } else {
      assert (some + more)[..|some + more| - 1] == some + more[..|more| - 1];
      AppliedBytesAdd(some, more[..|more| - 1]);
    }
  }

  /** What was applied first and what was applied next, taken together. */
  lemma AppliedBoth(tree: Folder, some: seq<Entry>, middle: Folder, more: seq<Entry>)
    requires Replay(tree, some) == Done(middle) && AllValidated(some) && AllValidated(more)
    ensures Replay(tree, some + more) == Replay(middle, more)
    ensures AllValidated(some + more) && AppliedBytes(some + more) == AppliedBytes(some) + AppliedBytes(more)
  {
    ReplayAppends(tree, some, more);
    AppliedBytesAdd(some, more);
    forall k | 0 <= k < |some + more| ensures Validated((some + more)[k].path) {
      if k < |some| {
        assert Validated(some[k].path);
      } else {
        assert Validated(more[k - |some|].path);
      }
    }
  }

  lemma AppliedOne(entry: Entry)
    ensures AppliedBytes([entry]) == FileBytes(entry)
  {
    assert [entry][..0] == [];
  }

  // ------------------------------------------------------------------- how far the host has come

  /** The host has come this far: `seen` is replayed, counted and within the limit. */
  ghost predicate Ingested(tree: Folder, root: seq<Child>, original: Folder, seen: seq<Listed>, files: nat, bytes: nat) {
    && files == |seen|
    && bytes == TotalBytes(root, seen) <= MAX_DRAFT_BYTES
    && ReplayListed(original, root, seen) == Done(tree)
  }

  lemma {:induction false} IngestiblePrefix(tree: Folder, root: seq<Child>, listing: seq<Listed>, n: nat)
    requires n <= |listing| && Ingestible(tree, root, listing)
    ensures Ingestible(tree, root, listing[..n])
  {
    if n < |listing| {
      assert listing[..|listing| - 1][..n] == listing[..n];
      IngestiblePrefix(tree, root, listing[..|listing| - 1], n);
    } else {
      assert listing[..n] == listing;
    }
  }

  /** What more is listed does not make a refused listing ingestible. */
  lemma RefusedAlready(tree: Folder, root: seq<Child>, listing: seq<Listed>, more: seq<Listed>)
    ensures !Ingestible(tree, root, listing) ==> !Ingestible(tree, root, listing + more)
  {
    if Ingestible(tree, root, listing + more) {
      IngestiblePrefix(tree, root, listing + more, |listing|);
      assert (listing + more)[..|listing|] == listing;
    }
  }

  lemma ListingGrows(tree: Folder, root: seq<Child>, listing: seq<Listed>, n: nat)
    requires n < |listing|
    ensures ReplayListed(tree, root, listing[..n + 1])
            == match ReplayListed(tree, root, listing[..n])
               case Threw => Threw
               case Done(next) => ApplyListed(next, root, listing[n])
    ensures TotalBytes(root, listing[..n + 1]) == TotalBytes(root, listing[..n]) + BytesOf(root, listing[n])
  {
    assert listing[..n + 1][..n] == listing[..n];
  }

  // ------------------------------------------------------------------- a plain draft

  /** Every listed path is one the host reads back. */
  ghost predicate AllPlain(root: seq<Child>) {
    forall entry :: entry in Flatten(root) ==> Plain(entry.path)
  }

  lemma FlattenedChild(children: seq<Child>, entry: Entry)
    requires children != [] && entry in Flatten(children)
    ensures entry in FlattenChild(children[0]) || entry in Flatten(children[1..])
    ensures entry in FlattenChild(children[0]) && |entry.path| > 1 ==>
              children[0].node.UDir? && At(entry.path[1..], entry) in Flatten(children[0].node.children)
  {
    if entry in FlattenChild(children[0]) {
      FlattenedOf(children[0], entry);
    }
  }

  lemma FlattenedOf(child: Child, entry: Entry)
    requires entry in FlattenChild(child)
    ensures entry.path[0] == child.name
    ensures |entry.path| > 1 ==> child.node.UDir? && At(entry.path[1..], entry) in Flatten(child.node.children)
  {
    if |entry.path| > 1 {
      var inner := Flatten(child.node.children);
      var k :| 0 <= k < |Under(child.name, inner)| && Under(child.name, inner)[k] == entry;
      assert ([child.name] + inner[k].path)[1..] == inner[k].path;
      assert At(entry.path[1..], entry) == inner[k];
    }
  }

  lemma {:induction false} FlattenedName(children: seq<Child>, entry: Entry)
    requires entry in Flatten(children)
    ensures Lists(children, entry.path[0])
    decreases |children|
  {
    FlattenedChild(children, entry);
    if entry in FlattenChild(children[0]) {
      assert entry.path[0] == children[0].name;
    } else {
      FlattenedName(children[1..], entry);
      var i :| 0 <= i < |children[1..]| && children[1..][i].name == entry.path[0];
      assert children[i + 1].name == entry.path[0];
    }
  }

  /** A listed file's path leads back to its bytes. */
  lemma {:induction false} ContentOfListed(children: seq<Child>, entry: Entry)
    requires Proper(children) && entry in Flatten(children) && entry.FileEntry?
    ensures ContentAt(children, entry.path) == Some(entry.bytes)
    decreases |entry.path|, |children|
  {
    var child, rest := children[0], children[1..];
    FlattenedChild(children, entry);
    if entry in FlattenChild(child) {
      assert Lookup(children, child.name) == Some(child.node);
      if |entry.path| > 1 {
        ContentOfListed(child.node.children, At(entry.path[1..], entry));
      }
    } else {
      FlattenedName(rest, entry);
      var i :| 0 <= i < |rest| && rest[i].name == entry.path[0];
      assert children[i + 1].name == entry.path[0] != child.name;
      assert Proper(rest) by {
        assert forall k :: 0 <= k < |rest| ==> rest[k] == children[k + 1];
      }
      ContentOfListed(rest, entry);
    }
  }

  lemma {:induction false} AdmittedPathsAreShort(relative: string, prefix: Path, children: seq<Child>, before: nat, entry: Entry)
    requires Admits(relative, children, before) && entry in Flatten(children)
    requires relative == Join(prefix) && forall i :: 0 <= i < |prefix| ==> prefix[i] != ""
    ensures Utf8Length(Join(prefix + entry.path)) <= PATH_MAX_BYTES
    decreases |entry.path|, |children|
  {
    FlattenedChild(children, entry);
    if entry in FlattenChild(children[0]) {
      AdmittedChildPathsAreShort(relative, prefix, children[0], before, entry);
    } else {
      AdmittedPathsAreShort(relative, prefix, children[1..], before + |FlattenChild(children[0])|, entry);
    }
  }

  lemma {:induction false} AdmittedChildPathsAreShort(relative: string, prefix: Path, child: Child, before: nat, entry: Entry)
    requires AdmitsChild(relative, child, before) && entry in FlattenChild(child)
    requires relative == Join(prefix) && forall i :: 0 <= i < |prefix| ==> prefix[i] != ""
    ensures Utf8Length(Join(prefix + entry.path)) <= PATH_MAX_BYTES
    decreases |entry.path|, 0
  {
    JoinSnoc(prefix, child.name);
    FlattenedOf(child, entry);
    StartsWithName(prefix, child.name, entry.path);
    if |entry.path| > 1 {
      var inner := At(entry.path[1..], entry);
      AdmittedPathsAreShort(ChildPath(relative, child.name), prefix + [child.name], child.node.children, before + 1, inner);
    }
  }

  lemma StartsWithName(prefix: Path, name: Name, path: Path)
    requires path != [] && path[0] == name
    ensures prefix + [name] + path[1..] == prefix + path
    ensures |path| == 1 ==> prefix + path == prefix + [name]
  {
  }

  lemma ContentOfPlain(root: seq<Child>, entry: Entry)
    requires Admits("", root, 0) && Proper(root) && Plain(entry.path)
    requires entry in Flatten(root) && entry.FileEntry?
    ensures ContentFor(root, Join(entry.path)) == Some(entry.bytes)
  {
    AdmittedPathsAreShort("", [], root, 0, entry);
    assert [] + entry.path == entry.path;
    PlainIsOpened(entry.path);
    ContentOfListed(root, entry);
  }

  lemma PlainIsOpened(path: Path)
    requires Plain(path)
    ensures Split(Join(path)) == path && "" !in path && "." !in path && ".." !in path
    ensures Join(path) != "" && '\0' !in Join(path) && Join(path)[0] != '/'
  {
    JoinedEnds(path);
    JoinedCharacters(path, '\0');
    SplitJoined(path);
  }

  /** One wire entry does on the host what the entry it came from does. */
  lemma ListedAppliesAlike(tree: Folder, root: seq<Child>, entry: Entry)
    requires Plain(entry.path)
    requires entry.FileEntry? ==> ContentFor(root, Join(entry.path)) == Some(entry.bytes)
    ensures ApplyListed(tree, root, ToListed(entry)) == Apply(tree, entry.path, entry)
  {
    PlainReadsBack(entry.path);
  }

  lemma ReplayGrows(tree: Folder, entries: seq<Entry>, n: nat)
    requires n < |entries|
    ensures Replay(tree, entries[..n + 1])
            == match Replay(tree, entries[..n])
               case Threw => Threw
               case Done(next) => Apply(next, entries[n].path, entries[n])
  {
    assert entries[..n + 1] == entries[..n] + [entries[n]];
    ReplayAppends(tree, entries[..n], [entries[n]]);
    assert [entries[n]][1..] == [];
  }

  lemma EntryAppliesAlike(tree: Folder, root: seq<Child>, k: nat)
    requires Admits("", root, 0) && Proper(root) && AllPlain(root) && k < |Flatten(root)|
    ensures var entry := Flatten(root)[k]; ApplyListed(tree, root, Listing(root)[k]) == Apply(tree, entry.path, entry)
  {
    var entry := Flatten(root)[k];
    assert Listing(root)[k] == ToListed(entry) by {
      assert [] + entry.path == entry.path;
    }
    if entry.FileEntry? {
      ContentOfPlain(root, entry);
    }
    ListedAppliesAlike(tree, root, entry);
  }

  lemma {:induction false} ListedReplaysAlike(tree: Folder, root: seq<Child>, n: nat)
    requires Admits("", root, 0) && Proper(root) && AllPlain(root) && n <= |Flatten(root)|
    ensures ReplayListed(tree, root, Listing(root)[..n]) == Replay(tree, Flatten(root)[..n])
  {
    if n > 0 {
      ListedReplaysAlike(tree, root, n - 1);
      ListingGrows(tree, root, Listing(root), n - 1);
      ReplayGrows(tree, Flatten(root), n - 1);
      var before := Replay(tree, Flatten(root)[..n - 1]);
      if before.Done? {
        EntryAppliesAlike(before.value, root, n - 1);
      }
    }
  }

  /** The wire listing of a plain draft means the host's merge. */
  lemma ListingMeansMerge(tree: Folder, root: seq<Child>)
    requires Admits("", root, 0) && Proper(root) && AllPlain(root)
    ensures ReplayListed(tree, root, Listing(root)) == MergeAll(tree, root)
  {
    ListedReplaysAlike(tree, root, |Flatten(root)|);
    assert Listing(root)[..|Flatten(root)|] == Listing(root);
    assert Flatten(root)[..|Flatten(root)|] == Flatten(root);
    ReplayIsMerge(tree, root);
  }

  /** A draft of one file whose name starts with a space. */
  const ODD_DRAFT: seq<Child> := [Child(" a", UFile([]))]

  lemma OddDraftIsListed()
    ensures Admits("", ODD_DRAFT, 0) && Proper(ODD_DRAFT)
    ensures Listing(ODD_DRAFT) == [Listed(FileKind, " a", false, 0)]
    ensures ContentFor(ODD_DRAFT, " a") == Some([])
  {
    assert ODD_DRAFT[1..] == [];
    assert Utf8Length(" a") == 2 by {
      assert " a"[1..] == "a";
      assert "a"[1..] == "";
    }
    assert Split(" a") == [" a"] by { SplitName(" a", ""); }
  }

  /** The host writes the file `" a"` of a draft to `"a"`: such a draft is not merged. */
  lemma OddNameIsNotMerged()
    ensures ReplayListed(map[], ODD_DRAFT, Listing(ODD_DRAFT)) == Done(map["a" := HFile([])])
    ensures MergeAll(map[], ODD_DRAFT) == Done(map[" a" := HFile([])])
    ensures ReplayListed(map[], ODD_DRAFT, Listing(ODD_DRAFT)) != MergeAll(map[], ODD_DRAFT)
  {
    OddDraftIsListed();
    LeadingSpaceIsMisread();
    var listing := Listing(ODD_DRAFT);
    assert listing[..0] == [];
    ListingGrows(map[], ODD_DRAFT, listing, 0);
    assert listing[..1] == listing;
    assert ODD_DRAFT[1..] == [];
    var host: Folder := map["a" := HFile([])];
    var merged: Folder := map[" a" := HFile([])];
    assert "a" in host && "a" !in merged;
  }

  // ------------------------------------------------------------------- the host's loop

  class Ingester {
    const disk: Disk
    var moment: nat

    constructor (disk: Disk)
      ensures this.disk == disk
    {
      this.disk, moment := disk, 0;
    }

    /**
     * The loop that fills the temporary file. It ends against any guest: each further chunk adds bytes,
     * and the limit stops it.
     */
    method ReadWhole(guest: Guest, wirePath: string, ghost root: seq<Child>) returns (content: Attempt<Bytes>)
      modifies this`moment
      ensures content.Done? ==> |content.value| <= MAX_DRAFT_BYTES
      ensures Faithful(guest, root) ==>
                content == match ContentFor(root, wirePath)
                           case None => Threw
                           case Some(full) => if |full| <= MAX_DRAFT_BYTES then Done(full) else Threw
    {
      ghost var full := ContentFor(root, wirePath);
      var written: Bytes, offset := [], 0;
      while true
        invariant offset == |written| <= MAX_DRAFT_BYTES
        invariant Faithful(guest, root) && offset > 0 ==> full.Some?
        invariant Faithful(guest, root) && full.Some? ==> written <= full.value
        decreases MAX_DRAFT_BYTES - offset
      {
        var chunk := guest.read(moment, wirePath, offset);
        moment := moment + 1;
        assert Faithful(guest, root) ==> chunk == ReadOf(root, wirePath, offset, READ_MAX_BYTES);
        assert Faithful(guest, root) ==> chunk == if full.None? then ReadFailed else ChunkOf(full.value, offset, READ_MAX_BYTES);
        if chunk.ReadFailed? {
          return Threw;
        }
        written := written + chunk.bytes;
        offset := offset + |chunk.bytes|;
        if offset > MAX_DRAFT_BYTES {
          return Threw;
        }
        assert Faithful(guest, root) && chunk.eof ==> written == full.value;
        if chunk.eof {
          return Done(written);
        }
        if |chunk.bytes| == 0 {
          return Threw;
        }
        if |chunk.bytes| > READ_MAX_BYTES {
          return Threw;
        }
      }
    }

    /** Reads one file into a temporary sibling and renames it into place. */
    method ApplyFile(guest: Guest, wirePath: string, path: Path, ghost root: seq<Child>)
      returns (size: Attempt<nat>, ghost content: Bytes)
      requires path != [] && Resolves(disk.tree, path)
      modifies this`moment, disk
      ensures size.Done? ==> Apply(old(disk.tree), path, FileEntry(path, content)) == Done(disk.tree)
      ensures size.Done? ==> size.value == |content| <= MAX_DRAFT_BYTES
      ensures size.Threw? ==> disk.tree == old(disk.tree)
      ensures Faithful(guest, root) && size.Done? ==> ContentFor(root, wirePath) == Some(content)
      ensures Faithful(guest, root) && size.Threw? ==>
                match ContentFor(root, wirePath)
                case None => true
                case Some(bytes) =>
                  |bytes| > MAX_DRAFT_BYTES || Apply(old(disk.tree), path, FileEntry(path, bytes)).Threw?
    {
      content := [];
      var previous := Lstat(disk.tree, path);
      ApplyToAny(disk.tree, path);
      if previous.Some? && previous.value.HLink? {
        return Threw, content;
      }
      if Set(disk.tree, path, Some(HFile([]))).Threw? {
        // The exclusive temporary sibling cannot be created.
        return Threw, content;
      }
      var written := ReadWhole(guest, wirePath, root);
      if written.Threw? {
        return Threw, content;
      }
      content := written.value;
      var renamed := disk.RenameInto(path, written.value);
      return if renamed then Done(|written.value|) else Threw, content;
    }

    lemma ApplyToAny(tree: Folder, path: Path)
      requires path != [] && Resolves(tree, path)
      ensures forall bytes ::
                Apply(tree, path, FileEntry(path, bytes))
                == if Lstat(tree, path).Some? && !Lstat(tree, path).value.HFile? then Threw
                   else Set(tree, path, Some(HFile(bytes)))
      ensures forall bytes :: Set(tree, path, Some(HFile(bytes))).Done? <==> Set(tree, path, Some(HFile([]))).Done?
    {
      forall bytes
        ensures Apply(tree, path, FileEntry(path, bytes))
                == if Lstat(tree, path).Some? && !Lstat(tree, path).value.HFile? then Threw
                   else Set(tree, path, Some(HFile(bytes)))
      {
        ApplyBySetting(tree, path, FileEntry(path, bytes));
      }
      forall bytes ensures Set(tree, path, Some(HFile(bytes))).Done? <==> Set(tree, path, Some(HFile([]))).Done? {
        SetFailsAlike(tree, path, Some(HFile(bytes)), Some(HFile([])));
      }
    }

    /** One listed entry; `size` is what a file added. `applied` is the confined update it made, if any. */
    method IngestEntry(guest: Guest, entry: Listed, ghost root: seq<Child>)
      returns (size: Attempt<nat>, ghost applied: seq<Entry>)
      modifies this`moment, disk
      ensures |applied| <= 1 && Replay(old(disk.tree), applied) == Done(disk.tree)
      ensures applied != [] ==> WritePath(entry.path) == Done(applied[0].path)
      ensures AppliedBytes(applied) == (if size.Done? then size.value else 0) <= MAX_DRAFT_BYTES
      ensures Faithful(guest, root) && size.Done? ==>
                ApplyListed(old(disk.tree), root, entry) == Done(disk.tree) && size.value == BytesOf(root, entry)
      ensures Faithful(guest, root) && size.Threw? ==>
                ApplyListed(old(disk.tree), root, entry).Threw? || BytesOf(root, entry) > MAX_DRAFT_BYTES
    {
      applied := [];
      var destination := WritePath(entry.path);
      if destination.Threw? {
        return Threw, applied;
      }
      var path := destination.value;
      var resolved := disk.ResolveParents(path);
      if !resolved {
        if path != [] {
          ApplyNeedsDirectories(disk.tree, path, DirEntry(path, entry.isOpaque));
          ApplyNeedsDirectories(disk.tree, path, WhiteoutEntry(path));
          forall bytes ensures Apply(disk.tree, path, FileEntry(path, bytes)).Threw? {
            ApplyNeedsDirectories(disk.tree, path, FileEntry(path, bytes));
          }
        }
        return Threw, applied;
      }
      size, applied := ApplyEntry(guest, entry, path, root);
    }

    /** The branches by kind, where the path resolves. */
    method ApplyEntry(guest: Guest, entry: Listed, path: Path, ghost root: seq<Child>)
      returns (size: Attempt<nat>, ghost applied: seq<Entry>)
      requires WritePath(entry.path) == Done(path) && path != [] && Resolves(disk.tree, path)
      modifies this`moment, disk
      ensures |applied| <= 1 && Replay(old(disk.tree), applied) == Done(disk.tree)
      ensures applied != [] ==> applied[0].path == path
      ensures AppliedBytes(applied) == (if size.Done? then size.value else 0) <= MAX_DRAFT_BYTES
      ensures Faithful(guest, root) && size.Done? ==>
                ApplyListed(old(disk.tree), root, entry) == Done(disk.tree) && size.value == BytesOf(root, entry)
      ensures Faithful(guest, root) && size.Threw? ==>
                ApplyListed(old(disk.tree), root, entry).Threw? || BytesOf(root, entry) > MAX_DRAFT_BYTES
    {
      applied := [];
      var ok;
      match entry.kind {
        case DirKind =>
          ok := disk.ApplyDirectory(path, entry.isOpaque);
          if ok {
            applied := [DirEntry(path, entry.isOpaque)];
          }
          size := if ok then Done(0) else Threw;
        case WhiteoutKind =>
          ApplyBySetting(disk.tree, path, WhiteoutEntry(path));
          SetFailsAlike(disk.tree, path, None, None);
          ok := disk.Rm(path);
          if ok {
            applied := [WhiteoutEntry(path)];
          }
          size := if ok then Done(0) else Threw;
        case FileKind =>
          ghost var content;
          size, content := ApplyFile(guest, entry.path, path, root);
          if size.Done? {
            applied := [FileEntry(path, content)];
          }
      }
      if applied != [] {
        AppliedOne(applied[0]);
      }
    }

    /** One more entry after the entries `seen`, under the host's two limits. */
    method IngestNext(guest: Guest, entry: Listed, files: nat, bytes: nat,
                      ghost root: seq<Child>, ghost original: Folder, ghost seen: seq<Listed>)
      returns (ok: bool, filesNow: nat, bytesNow: nat, ghost applied: seq<Entry>)
      requires files <= MAX_DRAFT_FILES && bytes <= MAX_DRAFT_BYTES
      requires Faithful(guest, root) ==> Ingested(disk.tree, root, original, seen, files, bytes)
      modifies this`moment, disk
      ensures Replay(old(disk.tree), applied) == Done(disk.tree)
      ensures files + |applied| <= (if ok then filesNow else MAX_DRAFT_FILES)
      ensures filesNow <= MAX_DRAFT_FILES || !ok
      ensures AllValidated(applied)
      ensures bytes + AppliedBytes(applied) == bytesNow <= if ok then MAX_DRAFT_BYTES else 2 * MAX_DRAFT_BYTES
      ensures Faithful(guest, root) && ok ==>
                Ingested(disk.tree, root, original, seen + [entry], filesNow, bytesNow)
      ensures Faithful(guest, root) && !ok ==>
                |seen + [entry]| > MAX_DRAFT_FILES || !Ingestible(original, root, seen + [entry])
    {
      applied := [];
      filesNow, bytesNow := files + 1, bytes;
      if filesNow > MAX_DRAFT_FILES {
        ok := false;
        return;
      }
      ListingGrows(original, root, seen + [entry], |seen|);
      assert (seen + [entry])[..|seen|] == seen;
      assert (seen + [entry])[..|seen| + 1] == seen + [entry];
      var size;
      size, applied := IngestEntry(guest, entry, root);
      if size.Done? {
        bytesNow := bytesNow + size.value;
      }
      ok := size.Done? && bytesNow <= MAX_DRAFT_BYTES;
    }

    lemma OneMore(seen: seq<Listed>, page: seq<Listed>, i: nat)
      requires i < |page|
      ensures seen + page[..i] + [page[i]] == seen + page[..i + 1]
      ensures seen + page[..i + 1] + page[i + 1..] == seen + page
    {
    }

    /** The entries of one page; `applied` lists the updates the page made to the host tree. */
    method IngestPage(guest: Guest, page: seq<Listed>, files: nat, bytes: nat,
                      ghost root: seq<Child>, ghost original: Folder, ghost seen: seq<Listed>)
      returns (ok: bool, filesNow: nat, bytesNow: nat, ghost applied: seq<Entry>)
      requires files <= MAX_DRAFT_FILES && bytes <= MAX_DRAFT_BYTES
      requires Faithful(guest, root) ==> Ingested(disk.tree, root, original, seen, files, bytes)
      modifies this`moment, disk
      ensures Replay(old(disk.tree), applied) == Done(disk.tree)
      ensures files + |applied| <= (if ok then filesNow else MAX_DRAFT_FILES)
      ensures filesNow <= MAX_DRAFT_FILES || !ok
      ensures AllValidated(applied)
      ensures bytes + AppliedBytes(applied) == bytesNow <= if ok then MAX_DRAFT_BYTES else 2 * MAX_DRAFT_BYTES
      ensures Faithful(guest, root) && ok ==>
                Ingested(disk.tree, root, original, seen + page, filesNow, bytesNow)
      ensures Faithful(guest, root) && !ok ==>
                |seen + page| > MAX_DRAFT_FILES || !Ingestible(original, root, seen + page)
    {
      filesNow, bytesNow, applied := files, bytes, [];
      ghost var sofar := seen;
      for i := 0 to |page|
        invariant files + |applied| <= filesNow <= MAX_DRAFT_FILES
        invariant AllValidated(applied) && bytes + AppliedBytes(applied) == bytesNow <= MAX_DRAFT_BYTES
        invariant Replay(old(disk.tree), applied) == Done(disk.tree)
        invariant sofar == seen + page[..i]
        invariant Faithful(guest, root) ==> Ingested(disk.tree, root, original, sofar, filesNow, bytesNow)
      {
        ghost var update, middle := [], disk.tree;
        ok, filesNow, bytesNow, update := IngestNext(guest, page[i], filesNow, bytesNow, root, original, sofar);
        AppliedBoth(old(disk.tree), applied, middle, update);
        applied := applied + update;
        OneMore(seen, page, i);
        sofar := sofar + [page[i]];
        if !ok {
          RefusedAlready(original, root, sofar, page[i + 1..]);
          return;
        }
      }
      assert page[..|page|] == page;
      ok := true;
    }

    /**
     * The whole ingest. It ends against every guest, having made at most `MAX_DRAFT_FILES` updates,
     * each of them at a validated path, and written at most twice the byte limit: the limit is looked at
     * once a file is in place. Over an unchanged draft it completes exactly when
     * the guest's walk admits the draft, the listing replays and the bytes fit.
     */
    method Ingest(guest: Guest, ghost root: seq<Child>)
      returns (result: Attempt<(nat, nat)>, ghost applied: seq<Entry>)
      modifies this`moment, disk
      ensures |applied| <= MAX_DRAFT_FILES && Replay(old(disk.tree), applied) == Done(disk.tree)
      ensures AllValidated(applied) && AppliedBytes(applied) <= 2 * MAX_DRAFT_BYTES
      ensures result.Done? ==> AppliedBytes(applied) == result.value.0 <= MAX_DRAFT_BYTES
      ensures Faithful(guest, root) ==>
                (result.Done? <==> Admits("", root, 0) && Ingestible(old(disk.tree), root, Listing(root)))
      ensures Faithful(guest, root) && result.Done? ==>
                && ReplayListed(old(disk.tree), root, Listing(root)) == Done(disk.tree)
                && result.value == (TotalBytes(root, Listing(root)), |Listing(root)|)
    {
      ghost var original := disk.tree;
      ghost var all := Listing(root);
      if Admits("", root, 0) {
        AdmittedListingIsShort("", root, 0);
      }
      var bytes: nat, files: nat, cursor: nat := 0, 0, 0;
      applied := [];
      ghost var seen: seq<Listed> := [];
      for page := 0 to MAX_SCAN_PAGES
        invariant |applied| <= files <= MAX_DRAFT_FILES && Replay(original, applied) == Done(disk.tree)
        invariant AllValidated(applied) && AppliedBytes(applied) == bytes <= MAX_DRAFT_BYTES
        invariant Faithful(guest, root) ==>
                    && cursor == page * SCAN_MAX_ENTRIES && Seen(seen, root, cursor)
                    && Ingested(disk.tree, root, original, seen, files, bytes)
                    && (page > 0 ==> Admits("", root, 0))
      {
        var scan := guest.scan(moment, cursor);
        moment := moment + 1;
        assert Faithful(guest, root) ==> scan == ScanOf(root, cursor);
        if scan.ScanFailed? {
          return Threw, applied;
        }
        if Faithful(guest, root) {
          NextPage(seen, root, cursor);
        }
        ghost var update, middle := [], disk.tree;
        var ok;
        ok, files, bytes, update := IngestPage(guest, scan.entries, files, bytes, root, original, seen);
        AppliedBoth(original, applied, middle, update);
        applied := applied + update;
        seen := seen + scan.entries;
        if !ok {
          if Faithful(guest, root) {
            RefusedAlready(original, root, seen, all[|seen|..]);
          }
          return Threw, applied;
        }
        if scan.next.None? {
          return Done((bytes, files)), applied;
        }
        if scan.next.value <= cursor {
          return Threw, applied;
        }
        cursor := scan.next.value;
      }
      result := Threw;
    }

    /**
     * Over an unchanged plain draft, what a completed ingest leaves is the overlay of the draft on the
     * tree; it completes exactly if the walk admits the draft, nothing clashes, and the bytes fit.
     */
    method IngestPlain(guest: Guest, ghost root: seq<Child>) returns (result: Attempt<(nat, nat)>)
      requires Faithful(guest, root) && Proper(root) && AllPlain(root)
      modifies this`moment, disk
      ensures result.Done? ==> disk.tree == OverlayAll(old(disk.tree), root)
      ensures result.Done? <==>
                && Admits("", root, 0) && ClashFree(old(disk.tree), root)
                && TotalBytes(root, Listing(root)) <= MAX_DRAFT_BYTES
    {
      if Admits("", root, 0) {
        ListingMeansMerge(disk.tree, root);
        MergeAllExactly(disk.tree, root);
      }
      ghost var applied;
      result, applied := Ingest(guest, root);
    }

    /** Flushing an unchanged plain draft a second time completes too, and changes nothing. */
    method IngestAgain(guest: Guest, ghost root: seq<Child>) returns (first: Attempt<(nat, nat)>, second: Attempt<(nat, nat)>)
      requires Faithful(guest, root) && Proper(root) && AllPlain(root)
      modifies this`moment, disk
      ensures first.Done? ==> second.Done? && disk.tree == OverlayAll(old(disk.tree), root)
    {
      ghost var original := disk.tree;
      first := IngestPlain(guest, root);
      if first.Threw? {
        return first, Threw;
      }
      MergeAllExactly(original, root);
      MergeAllTwice(original, root);
      MergeAllExactly(disk.tree, root);
      second := IngestPlain(guest, root);
    }
  }

  /** The pages so far are the listing up to the cursor. */
  ghost predicate Seen(seen: seq<Listed>, root: seq<Child>, cursor: nat) {
    cursor <= |Listing(root)| && seen == Listing(root)[..cursor]
  }

  lemma NextPage(seen: seq<Listed>, root: seq<Child>, cursor: nat)
    requires Seen(seen, root, cursor) && ScanOf(root, cursor).Page?
    ensures var all, page, more := Listing(root), ScanOf(root, cursor), seen + ScanOf(root, cursor).entries;
            && |more| <= |all| && more + all[|more|..] == all
            && (page.next.Some? ==> page.next.value == cursor + SCAN_MAX_ENTRIES && Seen(more, root, page.next.value))
            && (page.next.None? ==> more == all)
  {
  }
}
