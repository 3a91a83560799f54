/** Both ends of the draft channel: the guest that lists and reads, and the host that ingests. */
module DraftTransfer {
  import opened Options
  import opened DraftTree
  import opened DraftPaths

  const SCAN_MAX_ENTRIES: nat := 64
  const READ_MAX_BYTES: nat := 16_384
  const PATH_MAX_BYTES: nat := 1_024
  const GUEST_MAX_ENTRIES: nat := 10_000
  const MAX_DRAFT_FILES: nat := 10_000
  const MAX_DRAFT_BYTES: nat := 128 * 1024 * 1024
  const MAX_SCAN_PAGES: nat := 1_024

  datatype Kind = DirKind | FileKind | WhiteoutKind

  /** An entry as it crosses the channel. */
  datatype Listed = Listed(kind: Kind, path: string, isOpaque: bool, size: nat)

  datatype ScanReply = Page(entries: seq<Listed>, next: Option<int>) | ScanFailed

  datatype ReadReply = Chunk(bytes: Bytes, eof: bool) | ReadFailed

  function Min(a: int, b: int): int {
    if a < b then a else b
  }

  // ------------------------------------------------------------------- what the guest lists

  function ToListed(entry: Entry): Listed {
    match entry
    case DirEntry(path, isOpaque) => Listed(DirKind, Join(path), isOpaque, 0)
    case FileEntry(path, bytes) => Listed(FileKind, Join(path), false, |bytes|)
    case WhiteoutEntry(path) => Listed(WhiteoutKind, Join(path), false, 0)
  }

  function ListingUnder(prefix: Path, entries: seq<Entry>): seq<Listed> {
    seq(|entries|, i requires 0 <= i < |entries| => ToListed(At(prefix + entries[i].path, entries[i])))
  }

  function Listing(root: seq<Child>): seq<Listed> {
    ListingUnder([], Flatten(root))
  }

  function CharWidth(c: char): nat {
    if c < '\U{80}' then 1 else if c < '\U{800}' then 2 else if c < '\U{10000}' then 3 else 4
  }

  function Utf8Length(s: string): nat {
    if s == "" then 0 else CharWidth(s[0]) + Utf8Length(s[1..])
  }

  function ChildPath(relative: string, name: Name): string {
    if relative == "" then name else relative + "/" + name
  }

  predicate Listable(name: Name) {
    name != "" && '/' !in name && '\0' !in name
  }

  /** The walk's own limits, met at every name it visits; `before` entries are already listed. */
  predicate Admits(relative: string, children: seq<Child>, before: nat)
    decreases children, 1
  {
    children == [] ||
    (&& AdmitsChild(relative, children[0], before)
     && Admits(relative, children[1..], before + |FlattenChild(children[0])|))
  }

  predicate AdmitsChild(relative: string, child: Child, before: nat)
    decreases child, 0
  {
    var path := ChildPath(relative, child.name);
    && Listable(child.name)
    && Utf8Length(path) <= PATH_MAX_BYTES
    && before < GUEST_MAX_ENTRIES
    && (child.node.UDir? ==> Admits(path, child.node.children, before + 1))
  }

  /** A draft the walk admits has at most as many entries as the host ingests. */
  lemma {:induction false} AdmittedListingIsShort(relative: string, children: seq<Child>, before: nat)
    requires Admits(relative, children, before) && before <= GUEST_MAX_ENTRIES
    ensures before + |Flatten(children)| <= GUEST_MAX_ENTRIES
    decreases children
  {
    if children != [] {
      var child := children[0];
      if child.node.UDir? {
        AdmittedListingIsShort(ChildPath(relative, child.name), child.node.children, before + 1);
      }
      AdmittedListingIsShort(relative, children[1..], before + |FlattenChild(child)|);
    }
  }

  lemma {:induction false} JoinSnoc(prefix: Path, name: Name)
    requires forall i :: 0 <= i < |prefix| ==> prefix[i] != ""
    ensures Join(prefix + [name]) == ChildPath(Join(prefix), name)
    ensures prefix != [] ==> Join(prefix) != ""
  {
    if prefix != [] {
      assert (prefix + [name])[1..] == prefix[1..] + [name];
      JoinSnoc(prefix[1..], name);
    }
  }

  lemma ListingOfChild(prefix: Path, children: seq<Child>)
    requires children != []
    ensures ListingUnder(prefix, Flatten(children))
            == ListingUnder(prefix, FlattenChild(children[0])) + ListingUnder(prefix, Flatten(children[1..]))
  {
  }

  lemma ListingOfDirectory(prefix: Path, child: Child)
    requires child.node.UDir?
    ensures ListingUnder(prefix, FlattenChild(child))
            == [Listed(DirKind, Join(prefix + [child.name]), child.node.isOpaque, 0)]
               + ListingUnder(prefix + [child.name], Flatten(child.node.children))
  {
    var inner := Flatten(child.node.children);
    assert forall i :: 0 <= i < |inner| ==>
                         prefix + Below(child.name, inner[i]).path == prefix + [child.name] + inner[i].path;
  }

  lemma ListingOfLeaf(prefix: Path, child: Child)
    requires !child.node.UDir?
    ensures ListingUnder(prefix, FlattenChild(child))
            == match child.node
               case UFile(bytes) => [Listed(FileKind, Join(prefix + [child.name]), false, |bytes|)]
               case Whiteout => [Listed(WhiteoutKind, Join(prefix + [child.name]), false, 0)]
               case Other => []
  {
  }

  // ------------------------------------------------------------------- what the guest answers

  /** What stands under a name (`Lstat`). */
  function Lookup(children: seq<Child>, name: Name): Option<Upper> {
    if children == [] then None
    else if children[0].name == name then Some(children[0].node)
    else Lookup(children[1..], name)
  }

  function ContentAt(children: seq<Child>, path: Path): Option<Bytes>
    decreases |path|
  {
    if path == [] then None
    else
      match Lookup(children, path[0])
      case Some(UFile(bytes)) => if |path| == 1 then Some(bytes) else None
      case Some(UDir(_, inner)) => ContentAt(inner, path[1..])
      case _ => None
  }

  /** The file a wire path names, if the guest opens it. */
  function ContentFor(root: seq<Child>, path: string): Option<Bytes> {
    if path == "" || Utf8Length(path) > PATH_MAX_BYTES || '\0' in path || path[0] == '/' then None
    else
      var segments := Split(path);
      if "" in segments || "." in segments || ".." in segments then None else ContentAt(root, segments)
  }

  /** `scan` over an unchanged draft. */
  function ScanOf(root: seq<Child>, cursor: int): ScanReply {
    var all := Listing(root);
    if cursor < 0 || !Admits("", root, 0) || cursor > |all| then ScanFailed
    else
      var end := Min(cursor + SCAN_MAX_ENTRIES, |all|);
      Page(all[cursor..end], if end < |all| then Some(end) else None)
  }

  function ChunkOf(content: Bytes, offset: nat, maxBytes: nat): ReadReply {
    var end := Min(offset + maxBytes, |content|);
    var bytes := if offset < end then content[offset..end] else [];
    Chunk(bytes, offset + |bytes| >= |content|)
  }

  /** `read` over an unchanged draft. */
  function ReadOf(root: seq<Child>, path: string, offset: int, maxBytes: int): ReadReply {
    if offset < 0 || maxBytes <= 0 || maxBytes > READ_MAX_BYTES then ReadFailed
    else
      match ContentFor(root, path)
      case None => ReadFailed
      case Some(content) => ChunkOf(content, offset, maxBytes)
  }

  /** The pages that following `next` from `cursor` yields. */
  function PagesFrom(root: seq<Child>, cursor: nat): seq<Listed>
    requires Admits("", root, 0) && cursor <= |Listing(root)|
    decreases |Listing(root)| - cursor
  {
    var page := ScanOf(root, cursor);
    page.entries + if page.next.Some? then PagesFrom(root, page.next.value) else []
  }

  /** Concatenated, the pages are the listing from the cursor on: every entry once, in order. */
  lemma {:induction false} PagesCoverTheListing(root: seq<Child>, cursor: nat)
    requires Admits("", root, 0) && cursor <= |Listing(root)|
    ensures PagesFrom(root, cursor) == Listing(root)[cursor..]
    decreases |Listing(root)| - cursor
  {
    var all, page := Listing(root), ScanOf(root, cursor);
    if page.next.Some? {
      PagesCoverTheListing(root, page.next.value);
      assert all[cursor..page.next.value] + all[page.next.value..] == all[cursor..];
    }
  }

  function ChunksFrom(content: Bytes, offset: nat): Bytes
    requires offset <= |content|
    decreases |content| - offset
  {
    var chunk := ChunkOf(content, offset, READ_MAX_BYTES);
    chunk.bytes + if chunk.eof then [] else ChunksFrom(content, offset + |chunk.bytes|)
  }

  /** Concatenated, the chunks are the file. */
  lemma {:induction false} ChunksCoverTheFile(content: Bytes, offset: nat)
    requires offset <= |content|
    ensures ChunksFrom(content, offset) == content[offset..]
    decreases |content| - offset
  {
    var chunk := ChunkOf(content, offset, READ_MAX_BYTES);
    if !chunk.eof {
      ChunksCoverTheFile(content, offset + |chunk.bytes|);
    }
  }

  /** The guest's reader over the upper layer `root`. */
  class DraftReader {
    const root: seq<Child>
    var entries: seq<Listed>

    constructor (root: seq<Child>)
      ensures this.root == root
    {
      this.root, entries := root, [];
    }

    /** One directory of the walk, appending to the captured listing. */
    method Visit(relative: string, children: seq<Child>, ghost prefix: Path) returns (ok: bool)
      requires relative == Join(prefix) && forall i :: 0 <= i < |prefix| ==> prefix[i] != ""
      modifies this`entries
      ensures ok <==> Admits(relative, children, |old(entries)|)
      ensures ok ==> entries == old(entries) + ListingUnder(prefix, Flatten(children))
      decreases children, 1
    {
      for i := 0 to |children|
        invariant Admits(relative, children, |old(entries)|) <==> Admits(relative, children[i..], |entries|)
        invariant old(entries) + ListingUnder(prefix, Flatten(children))
                  == entries + ListingUnder(prefix, Flatten(children[i..]))
      {
        var visited := VisitNext(relative, children, i, prefix);
        if !visited {
          return false;
        }
      }
      ok := true;
    }

    method VisitNext(relative: string, children: seq<Child>, i: nat, ghost prefix: Path) returns (ok: bool)
      requires i < |children|
      requires relative == Join(prefix) && forall k :: 0 <= k < |prefix| ==> prefix[k] != ""
      modifies this`entries
      ensures Admits(relative, children[i..], |old(entries)|) <==> ok && Admits(relative, children[i + 1..], |entries|)
      ensures ok ==> old(entries) + ListingUnder(prefix, Flatten(children[i..]))
                     == entries + ListingUnder(prefix, Flatten(children[i + 1..]))
      decreases children, 0
    {
      VisitsOneMore(relative, children, i, prefix, |entries|);
      ghost var here, rest := ListingUnder(prefix, FlattenChild(children[i])), ListingUnder(prefix, Flatten(children[i + 1..]));
      ok := VisitName(relative, children[i], prefix);
      Together(old(entries), here, rest);
    }

    lemma Together(some: seq<Listed>, more: seq<Listed>, others: seq<Listed>)
      ensures some + (more + others) == some + more + others
    {
    }

    lemma VisitsOneMore(relative: string, children: seq<Child>, i: nat, prefix: Path, before: nat)
      requires i < |children|
      ensures Admits(relative, children[i..], before) <==>
                && AdmitsChild(relative, children[i], before)
                && Admits(relative, children[i + 1..], before + |FlattenChild(children[i])|)
      ensures ListingUnder(prefix, Flatten(children[i..]))
              == ListingUnder(prefix, FlattenChild(children[i])) + ListingUnder(prefix, Flatten(children[i + 1..]))
    {
      assert children[i..][0] == children[i] && children[i..][1..] == children[i + 1..];
      ListingOfChild(prefix, children[i..]);
    }

    /** One name of a directory: its entry, then what it holds. */
    method VisitName(relative: string, child: Child, ghost prefix: Path) returns (ok: bool)
      requires relative == Join(prefix) && forall i :: 0 <= i < |prefix| ==> prefix[i] != ""
      modifies this`entries
      ensures ok <==> AdmitsChild(relative, child, |old(entries)|)
      ensures ok ==> entries == old(entries) + ListingUnder(prefix, FlattenChild(child))
      decreases child, 0
    {
      JoinSnoc(prefix, child.name);
      if child.name == "" || '/' in child.name || '\0' in child.name {
        return false;
      }
      var path := if relative != "" then relative + "/" + child.name else child.name;
      if Utf8Length(path) > PATH_MAX_BYTES || |entries| >= GUEST_MAX_ENTRIES {
        return false;
      }
      if child.node.UDir? {
        ok := VisitDirectory(path, child, prefix);
      } else {
        ListingOfLeaf(prefix, child);
        if child.node.Whiteout? {
          entries := entries + [Listed(WhiteoutKind, path, false, 0)];
        } else if child.node.UFile? {
          entries := entries + [Listed(FileKind, path, false, |child.node.bytes|)];
        }
        ok := true;
      }
    }

    /** A directory precedes what it holds. */
    method VisitDirectory(path: string, child: Child, ghost prefix: Path) returns (ok: bool)
      requires child.node.UDir? && child.name != "" && path == Join(prefix + [child.name])
      requires forall i :: 0 <= i < |prefix| ==> prefix[i] != ""
      modifies this`entries
      ensures ok <==> Admits(path, child.node.children, |old(entries)| + 1)
      ensures ok ==> entries == old(entries) + ListingUnder(prefix, FlattenChild(child))
      decreases child.node.children, 2
    {
      ghost var here, inner := Listed(DirKind, path, child.node.isOpaque, 0), prefix + [child.name];
      assert forall i :: 0 <= i < |inner| ==> inner[i] != "";
      entries := entries + [Listed(DirKind, path, child.node.isOpaque, 0)];
      ok := Visit(path, child.node.children, inner);
      ListingOfDirectory(prefix, child);
      ghost var below := ListingUnder(inner, Flatten(child.node.children));
      assert old(entries) + ([here] + below) == old(entries) + [here] + below;
    }

    method Walk() returns (ok: bool)
      modifies this`entries
      ensures ok <==> Admits("", root, 0)
      ensures ok ==> entries == Listing(root)
    {
      entries := [];
      ok := Visit("", root, []);
    }

    method Scan(cursor: int) returns (reply: ScanReply)
      modifies this`entries
      ensures reply == ScanOf(root, cursor)
    {
      if cursor < 0 {
        return ScanFailed;
      }
      var walked := Walk();
      if !walked || cursor > |entries| {
        return ScanFailed;
      }
      var end := cursor + SCAN_MAX_ENTRIES;
      if end > |entries| {
        end := |entries|;
      }
      return Page(entries[cursor..end], if end < |entries| then Some(end) else None);
    }

    /** Walks the path one name at a time and opens what it ends at. */
    method Open(path: string) returns (content: Option<Bytes>)
      ensures content == ContentFor(root, path)
    {
      if path == "" || Utf8Length(path) > PATH_MAX_BYTES || '\0' in path || path[0] == '/' {
        return None;
      }
      var segments := Split(path);
      if "" in segments || "." in segments || ".." in segments {
        return None;
      }
      var directory := root;
      for i := 0 to |segments|
        invariant ContentAt(root, segments) == ContentAt(directory, segments[i..])
      {
        assert segments[i..][1..] == segments[i + 1..];
        match Lookup(directory, segments[i]) {
          case Some(UFile(bytes)) => return if i == |segments| - 1 then Some(bytes) else None;
          case Some(UDir(_, inner)) => directory := inner;
          case _ => return None;
        }
      }
      return None;
    }

    method Read(path: string, offset: int, maxBytes: int) returns (reply: ReadReply)
      ensures reply == ReadOf(root, path, offset, maxBytes)
    {
      if offset < 0 || maxBytes <= 0 || maxBytes > READ_MAX_BYTES {
        return ReadFailed;
      }
      var content := Open(path);
      return match content case None => ReadFailed case Some(bytes) => ChunkOf(bytes, offset, maxBytes);
    }
  }
}
