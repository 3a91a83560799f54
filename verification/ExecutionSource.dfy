/**
 * A reviewed snapshot laid out as a fresh directory tree, and the check that a tree still is exactly
 * that snapshot.
 */
module ExecutionSource {
  import opened Options
  import opened DraftTree
  import opened DraftPaths
  import DraftTransfer
  import SourceSnapshot

  type Content = SourceSnapshot.Content
  type Expected = map<string, Content>

  datatype Node = Dir(children: map<Name, Node>) | File(content: Content, links: nat) | Link | Special

  // ------------------------------------------------------------------- what is admitted

  predicate GitMetadata(path: string) {
    path == ".git" || ".git/" <= path
  }

  predicate Admissible(file: SourceSnapshot.SourceFile) {
    && file.reason.None? && file.path.Some? && file.content.Some?
    && !GitMetadata(file.path.value)
    && file.bytes == Some(|file.content.value|)
    && file.digest == Some(SourceSnapshot.Sha256(file.content.value))
  }

  /** The admitted map says exactly what the files say, each path once. */
  ghost predicate Admits(files: seq<SourceSnapshot.SourceFile>, expected: Expected) {
    && (forall i :: 0 <= i < |files| ==> Admissible(files[i]))
    && (forall i, j :: 0 <= i < j < |files| ==> files[i].path != files[j].path)
    && (forall i :: 0 <= i < |files| ==> Lookup(expected, files[i].path.value) == files[i].content)
    && (forall p :: p in expected ==> exists i :: 0 <= i < |files| && files[i].path == Some(p))
  }

  ghost predicate AllAdmissible(snapshot: SourceSnapshot.Snapshot) {
    && snapshot.coverage.complete && !snapshot.dirty
    && (forall i :: 0 <= i < |snapshot.files| ==> Admissible(snapshot.files[i]))
    && (forall i, j :: 0 <= i < j < |snapshot.files| ==> snapshot.files[i].path != snapshot.files[j].path)
  }

  function Lookup(expected: Expected, path: string): Option<Content> {
    if path in expected then Some(expected[path]) else None
  }

  lemma AdmitsOneMore(front: seq<SourceSnapshot.SourceFile>, sofar: Expected, file: SourceSnapshot.SourceFile)
    requires Admits(front, sofar) && Admissible(file) && forall k :: 0 <= k < |front| ==> front[k].path != file.path
    ensures file.path.value !in sofar
    ensures Admits(front + [file], sofar[file.path.value := file.content.value])
  {
    var more, files := sofar[file.path.value := file.content.value], front + [file];
    forall p | p in more ensures exists k :: 0 <= k < |files| && files[k].path == Some(p) {
      if p == file.path.value {
        assert files[|front|].path == Some(p);
      } else {
        var k :| 0 <= k < |front| && front[k].path == Some(p);
        assert files[k].path == Some(p);
      }
    }
  }

  method AdmittedFiles(snapshot: SourceSnapshot.Snapshot) returns (admitted: Attempt<Expected>)
    ensures admitted.Done? <==> AllAdmissible(snapshot)
    ensures admitted.Done? ==> Admits(snapshot.files, admitted.value)
  {
    if !snapshot.coverage.complete || snapshot.dirty {
      return Threw;
    }
    var files: Expected := map[];
    for i := 0 to |snapshot.files|
      invariant Admits(snapshot.files[..i], files)
    {
      ghost var front := snapshot.files[..i];
      var file := snapshot.files[i];
      assert snapshot.files[..i + 1] == front + [file];
      if file.reason.Some? || file.path.None? || file.content.None? {
        return Threw;
      }
      if GitMetadata(file.path.value) || file.bytes != Some(|file.content.value|)
         || file.digest != Some(SourceSnapshot.Sha256(file.content.value))
      {
        return Threw;
      }
      if file.path.value in files {
        ghost var k :| 0 <= k < |front| && front[k].path == file.path;
        assert snapshot.files[k].path == snapshot.files[i].path;
        return Threw;
      }
      assert forall k :: 0 <= k < |front| ==> front[k].path != file.path;
      AdmitsOneMore(front, files, file);
      files := files[file.path.value := file.content.value];
    }
    assert snapshot.files[..|snapshot.files|] == snapshot.files;
    return Done(files);
  }

  // ------------------------------------------------------------------- what stands in a tree

  function NodeAt(node: Node, path: Path): Option<Node>
    decreases |path|
  {
    if path == [] then Some(node)
    else if node.Dir? && path[0] in node.children then NodeAt(node.children[path[0]], path[1..])
    else None
  }

  predicate RealName(name: Name) {
    name != "" && '/' !in name
  }

  /** Names a filesystem can hold. */
  predicate WellNamed(node: Node)
    decreases node
  {
    node.Dir? ==> forall name :: name in node.children ==> RealName(name) && WellNamed(node.children[name])
  }

  /** Whether an admitted path leads through the directory `path`. */
  ghost predicate OnTheWay(expected: Expected, path: Path) {
    exists p :: p in expected && |path| < |Split(p)| && path == Split(p)[..|path|]
  }

  /** The tree holds exactly the expected files, each a file of its own, and no directory beside their paths. */
  ghost predicate Exactly(root: Node, expected: Expected) {
    && root.Dir?
    && (forall p :: p in expected ==> NodeAt(root, Split(p)) == Some(File(expected[p], 1)))
    && (forall path :: path != [] && NodeAt(root, path).Some? ==> Belongs(NodeAt(root, path).value, path, expected))
  }

  ghost predicate Belongs(node: Node, path: Path, expected: Expected) {
    match node
    case Dir(_) => OnTheWay(expected, path)
    case File(content, links) => links == 1 && Lookup(expected, Join(path)) == Some(content)
    case _ => false
  }

  lemma {:induction false} NamesAreReal(node: Node, path: Path)
    requires WellNamed(node) && NodeAt(node, path).Some?
    ensures forall i :: 0 <= i < |path| ==> RealName(path[i])
    ensures WellNamed(NodeAt(node, path).value)
    decreases |path|
  {
    if path != [] {
      NamesAreReal(node.children[path[0]], path[1..]);
    }
  }

  // ------------------------------------------------------------------- paths and prefixes

  lemma {:induction false} JoinOfSplit(p: string)
    ensures Join(Split(p)) == p
  {
    if p != "" {
      JoinOfSplit(p[1..]);
      var rest := Split(p[1..]);
      if p[0] == '/' {
        JoinOfEmptyName(rest);
      } else {
        JoinOfLongerName(p[0], rest);
      }
    }
  }

  lemma JoinOfEmptyName(rest: Path)
    requires rest != []
    ensures Join([""] + rest) == ['/'] + Join(rest)
  {
    assert ([""] + rest)[1..] == rest;
  }

  lemma JoinOfLongerName(c: char, rest: Path)
    requires rest != []
    ensures Join([[c] + rest[0]] + rest[1..]) == [c] + Join(rest)
  {
    assert ([[c] + rest[0]] + rest[1..])[1..] == rest[1..];
  }

  lemma {:induction false} SplitBelow(path: Path, rest: string, p: string)
    requires path != [] && forall i :: 0 <= i < |path| ==> '/' !in path[i]
    requires p == Below(Join(path), rest)
    ensures Split(p) == path + Split(rest)
    decreases |path|
  {
    assert path == [path[0]] + path[1..];
    if |path| == 1 {
      SplitName(path[0], rest);
    } else {
      var tail := Below(Join(path[1..]), rest);
      SplitBelow(path[1..], rest, tail);
      SplitOnce(path, rest, tail, Split(rest));
    }
  }

  lemma SplitOnce(path: Path, rest: string, tail: string, names: Path)
    requires |path| > 1 && '/' !in path[0]
    requires tail == Below(Join(path[1..]), rest) && Split(tail) == path[1..] + names
    ensures Split(Below(Join(path), rest)) == path + names
  {
    BelowOnce(path, rest);
    SplitName(path[0], tail);
    assert path + names == [path[0]] + (path[1..] + names);
  }

  lemma BelowOnce(path: Path, rest: string)
    requires |path| > 1
    ensures Below(Join(path), rest) == path[0] + "/" + Below(Join(path[1..]), rest)
  {
  }

  function Below(directory: string, rest: string): string {
    directory + "/" + rest
  }

  lemma {:induction false} JoinOfBoth(path: Path, more: Path)
    requires path != [] && more != []
    ensures Join(path + more) == Below(Join(path), Join(more))
    decreases |path|
  {
    if |path| > 1 {
      assert (path + more)[1..] == path[1..] + more;
      JoinOfBoth(path[1..], more);
    } else {
      assert (path + more)[1..] == more;
    }
  }

  /** `startsWith` of a directory's path and a slash. */
  predicate StartsBelow(directory: string, p: string) {
    |directory| < |p| && p[..|directory|] == directory && p[|directory|] == '/'
  }

  /** `verifyDeepTestExecutionSource` compares spellings; it means the names. */
  lemma StartsMeansLeads(path: Path, p: string)
    requires path != [] && forall i :: 0 <= i < |path| ==> '/' !in path[i]
    ensures StartsBelow(Join(path), p) <==> |path| < |Split(p)| && path == Split(p)[..|path|]
  {
    StartsLeads(path, p);
    LeadsStarts(path, p);
  }

  lemma StartsLeads(path: Path, p: string)
    requires path != [] && forall i :: 0 <= i < |path| ==> '/' !in path[i]
    ensures StartsBelow(Join(path), p) ==> |path| < |Split(p)| && path == Split(p)[..|path|]
  {
    if StartsBelow(Join(path), p) {
      var rest := p[|Join(path)| + 1..];
      assert p == Below(Join(path), rest);
      SplitBelow(path, rest, p);
    }
  }

  lemma LeadsStarts(path: Path, p: string)
    requires path != []
    ensures |path| < |Split(p)| && path == Split(p)[..|path|] ==> StartsBelow(Join(path), p)
  {
    var names := Split(p);
    if |path| < |names| && path == names[..|path|] {
      var more := names[|path|..];
      assert names == path + more;
      JoinOfBoth(path, more);
      JoinOfSplit(p);
      assert p == Below(Join(path), Join(more));
    }
  }

  // ------------------------------------------------------------------- the walk

  /** What the walk refuses on sight; contents it only measures. */
  ghost predicate Fits(node: Node, path: Path, expected: Expected) {
    match node
    case Dir(_) => OnTheWay(expected, path)
    case File(content, links) => Join(path) in expected && |content| == |expected[Join(path)]| && links == 1
    case _ => false
  }

  ghost predicate AllFit(dir: Node, prefix: Path, expected: Expected) {
    forall path :: path != [] && NodeAt(dir, path).Some? ==> Fits(NodeAt(dir, path).value, prefix + path, expected)
  }

  /** The content of the file a spelled path names below the directory `prefix`. */
  function FileAt(dir: Node, prefix: Path, p: string): Option<Content> {
    var names := Split(p);
    if |prefix| < |names| && names[..|prefix|] == prefix then
      match NodeAt(dir, names[|prefix|..])
      case Some(File(content, _)) => Some(content)
      case _ => None
    else None
  }

  /** The walk has recorded exactly the files of `dir` on top of what was there. */
  ghost predicate Recorded(before: Expected, after: Expected, dir: Node, prefix: Path) {
    forall p :: Lookup(after, p) == if FileAt(dir, prefix, p).Some? then FileAt(dir, prefix, p) else Lookup(before, p)
  }

  function Part(dir: Node, names: set<Name>): Node
    requires dir.Dir?
  {
    Dir(map name | name in dir.children && name in names :: dir.children[name])
  }

  lemma PartGrows(dir: Node, names: set<Name>, name: Name, prefix: Path, expected: Expected)
    requires dir.Dir? && name in dir.children && name !in names
    ensures AllFit(Part(dir, names + {name}), prefix, expected) <==>
              && AllFit(Part(dir, names), prefix, expected)
              && Fits(dir.children[name], prefix + [name], expected)
              && AllFit(dir.children[name], prefix + [name], expected)
  {
    var part, more, child := Part(dir, names), Part(dir, names + {name}), dir.children[name];
    forall path | path != [] ensures NodeAt(more, path) == if path[0] == name then NodeAt(child, path[1..]) else NodeAt(part, path) {}
    if AllFit(more, prefix, expected) {
      forall path | path != [] && NodeAt(part, path).Some? ensures Fits(NodeAt(part, path).value, prefix + path, expected) {
        assert NodeAt(more, path) == NodeAt(part, path);
      }
      assert NodeAt(more, [name]) == Some(child);
      forall path | path != [] && NodeAt(child, path).Some?
        ensures Fits(NodeAt(child, path).value, prefix + [name] + path, expected)
      {
        assert ([name] + path)[1..] == path;
        assert NodeAt(more, [name] + path) == NodeAt(child, path);
        assert prefix + ([name] + path) == prefix + [name] + path;
      }
    }
    if AllFit(part, prefix, expected) && Fits(child, prefix + [name], expected) && AllFit(child, prefix + [name], expected) {
      forall path | path != [] && NodeAt(more, path).Some? ensures Fits(NodeAt(more, path).value, prefix + path, expected) {
        if path[0] == name {
          assert path == [name] + path[1..];
          assert prefix + path == prefix + [name] + path[1..];
          if path[1..] == [] {
            assert prefix + path == prefix + [name];
          }
        }
      }
    }
  }

  /** Below a directory, one more name brings the files of its child. */
  lemma FileAtGrows(dir: Node, names: set<Name>, name: Name, prefix: Path, p: string)
    requires dir.Dir? && name in dir.children && name !in names
    ensures var child, here, part := dir.children[name], prefix + [name], FileAt(Part(dir, names), prefix, p);
            FileAt(Part(dir, names + {name}), prefix, p)
            == match child
               case Dir(_) => if FileAt(child, here, p).Some? then FileAt(child, here, p) else part
               case File(content, _) => if Split(p) == here then Some(content) else part
               case _ => part
  {
    LeadsThrough(Split(p), prefix, name);
    if |prefix| < |Split(p)| && Split(p)[..|prefix|] == prefix {
      NodeAtGrows(dir, names, name, Split(p)[|prefix|..]);
    }
  }

  lemma LeadsThrough(all: Path, prefix: Path, name: Name)
    ensures var here := prefix + [name];
            && ((|here| <= |all| && all[..|here|] == here) <==>
                  |prefix| < |all| && all[..|prefix|] == prefix && all[|prefix|] == name)
            && (|here| <= |all| ==> all[|here|..] == all[|prefix|..][1..])
            && (|here| == |all| && all[..|here|] == here <==> all == here)
  {
    var here := prefix + [name];
    if |here| <= |all| {
      assert all[..|here|] == all[..|prefix|] + [all[|prefix|]];
    }
  }

  lemma NodeAtGrows(dir: Node, names: set<Name>, name: Name, path: Path)
    requires dir.Dir? && name in dir.children && path != []
    ensures NodeAt(Part(dir, names + {name}), path)
            == if path[0] == name then NodeAt(dir.children[name], path[1..]) else NodeAt(Part(dir, names), path)
    ensures name !in names && path[0] == name ==> NodeAt(Part(dir, names), path).None?
  {
  }

  lemma RecordedGrows(before: Expected, middle: Expected, after: Expected, dir: Node, names: set<Name>, name: Name, prefix: Path)
    requires dir.Dir? && name in dir.children && name !in names
    requires RealName(name) && forall i :: 0 <= i < |prefix| ==> RealName(prefix[i])
    requires Recorded(before, middle, Part(dir, names), prefix)
    requires match dir.children[name]
             case Dir(_) => Recorded(middle, after, dir.children[name], prefix + [name])
             case File(content, _) => after == middle[Join(prefix + [name]) := content]
             case _ => false
    ensures Recorded(before, after, Part(dir, names + {name}), prefix)
  {
    var more, here := Part(dir, names + {name}), prefix + [name];
    forall p
      ensures Lookup(after, p) == if FileAt(more, prefix, p).Some? then FileAt(more, prefix, p) else Lookup(before, p)
    {
      FileAtGrows(dir, names, name, prefix, p);
      if dir.children[name].File? {
        JoinedNames(here, p);
      }
    }
  }

  lemma JoinedNames(path: Path, p: string)
    requires path != [] && forall i :: 0 <= i < |path| ==> RealName(path[i])
    ensures p == Join(path) <==> Split(p) == path
  {
    SplitJoined(path);
    JoinOfSplit(p);
  }

  class Walker {
    const expected: Expected
    var files: Expected

    constructor (expected: Expected)
      ensures this.expected == expected && files == map[]
    {
      this.expected, files := expected, map[];
    }

    /** One directory, in whatever order its names come. */
    method Walk(dir: Node, relative: string, ghost prefix: Path) returns (ok: bool)
      requires dir.Dir? && WellNamed(dir) && relative == Join(prefix) && forall i :: 0 <= i < |prefix| ==> RealName(prefix[i])
      modifies this`files
      ensures ok <==> AllFit(dir, prefix, expected)
      ensures ok ==> Recorded(old(files), files, dir, prefix)
      decreases dir, 1
    {
      ghost var walked: set<Name> := {};
      var left := dir.children.Keys;
      NothingBelow(dir, prefix, expected, files);
      while left != {}
        invariant left <= dir.children.Keys && walked == dir.children.Keys - left
        invariant AllFit(Part(dir, walked), prefix, expected)
        invariant Recorded(old(files), files, Part(dir, walked), prefix)
        decreases left
      {
        var name :| name in left;
        left := left - {name};
        PartGrows(dir, walked, name, prefix, expected);
        ghost var before := files;
        var fits := WalkName(dir.children[name], name, relative, prefix);
        assert Part(dir, walked + {name}) == Part(dir, dir.children.Keys - left);
        if !fits {
          if AllFit(dir, prefix, expected) {
            PartFits(dir, walked + {name}, prefix, expected);
          }
          return false;
        }
        RecordedGrows(old(files), before, files, dir, walked, name, prefix);
        walked := walked + {name};
      }
      assert Part(dir, walked) == dir;
      ok := true;
    }

    /** One name of a directory, and what is below it. */
    method WalkName(node: Node, name: Name, relative: string, ghost prefix: Path) returns (ok: bool)
      requires WellNamed(node) && RealName(name) && relative == Join(prefix)
      requires forall i :: 0 <= i < |prefix| ==> RealName(prefix[i])
      modifies this`files
      ensures ok <==> Fits(node, prefix + [name], expected) && AllFit(node, prefix + [name], expected)
      ensures ok && node.Dir? ==> Recorded(old(files), files, node, prefix + [name])
      ensures ok && node.File? ==> files == old(files)[Join(prefix + [name]) := node.content]
      decreases node, 2
    {
      DraftTransfer.JoinSnoc(prefix, name);
      var path := if relative != "" then relative + "/" + name else name;
      match node {
        case Link => return false;
        case Dir(_) =>
          forall p ensures StartsBelow(path, p) <==> |prefix + [name]| < |Split(p)| && prefix + [name] == Split(p)[..|prefix + [name]|] {
            StartsMeansLeads(prefix + [name], p);
          }
          if !exists p :: p in expected && StartsBelow(path, p) {
            return false;
          }
          ok := Walk(node, path, prefix + [name]);
        case File(content, links) =>
          LeafFits(node, prefix + [name], expected);
          if path !in expected || |content| != |expected[path]| || links != 1 {
            return false;
          }
          files := files[path := content];
          return true;
        case Special => return false;
      }
    }
  }

  lemma LeafFits(node: Node, prefix: Path, expected: Expected)
    requires !node.Dir?
    ensures AllFit(node, prefix, expected)
  {
  }

  lemma NothingBelow(dir: Node, prefix: Path, expected: Expected, files: Expected)
    requires dir.Dir?
    ensures AllFit(Part(dir, {}), prefix, expected) && Recorded(files, files, Part(dir, {}), prefix)
  {
  }

  lemma PartFits(dir: Node, names: set<Name>, prefix: Path, expected: Expected)
    requires dir.Dir? && AllFit(dir, prefix, expected)
    ensures AllFit(Part(dir, names), prefix, expected)
  {
    forall path | path != [] && NodeAt(Part(dir, names), path).Some?
      ensures Fits(NodeAt(Part(dir, names), path).value, prefix + path, expected)
    {
      assert NodeAt(dir, path) == NodeAt(Part(dir, names), path);
    }
  }

  // ------------------------------------------------------------------- verify

  /** The tree is exactly what these files say. */
  ghost predicate IsSnapshot(root: Node, files: seq<SourceSnapshot.SourceFile>) {
    exists expected :: Admits(files, expected) && Exactly(root, expected)
  }

  lemma OneMeaning(root: Node, files: seq<SourceSnapshot.SourceFile>, expected: Expected)
    requires Admits(files, expected)
    ensures IsSnapshot(root, files) <==> Exactly(root, expected)
  {
    if IsSnapshot(root, files) {
      var other :| Admits(files, other) && Exactly(root, other);
      AdmitsDetermines(files, expected, other);
    }
  }

  /** `verify` answers true exactly when the snapshot is admitted and the tree is exactly it. */
  method VerifySource(root: Node, snapshot: SourceSnapshot.Snapshot) returns (same: bool)
    requires root.Dir? && WellNamed(root)
    ensures same <==> AllAdmissible(snapshot) && IsSnapshot(root, snapshot.files)
  {
    var admitted := AdmittedFiles(snapshot);
    if admitted.Threw? {
      return false;
    }
    OneMeaning(root, snapshot.files, admitted.value);
    var walker := new Walker(admitted.value);
    var walked := walker.Walk(root, "", []);
    if walked {
      same := |admitted.value| == |walker.files|
              && forall p :: p in admitted.value ==> Lookup(walker.files, p) == Some(admitted.value[p]);
      FilesAreWithin(root, admitted.value, walker.files);
      ComparedIsExact(root, admitted.value, walker.files);
    } else {
      same := false;
      ExactFits(root, admitted.value);
    }
  }

  lemma ExactFits(root: Node, expected: Expected)
    ensures Exactly(root, expected) ==> AllFit(root, [], expected)
  {
    if Exactly(root, expected) {
      forall path | path != [] && NodeAt(root, path).Some? ensures Fits(NodeAt(root, path).value, [] + path, expected) {
        assert Belongs(NodeAt(root, path).value, path, expected);
        assert [] + path == path;
      }
    }
  }

  lemma FilesAreWithin(root: Node, expected: Expected, files: Expected)
    requires AllFit(root, [], expected) && Recorded(map[], files, root, [])
    ensures files.Keys <= expected.Keys
    ensures files.Keys == expected.Keys ==> |files| == |expected|
    ensures (forall p :: p in expected ==> Lookup(files, p) == Some(expected[p])) ==> files.Keys == expected.Keys
  {
    forall p | p in files ensures p in expected {
      assert Lookup(files, p).Some?;
      assert FileAt(root, [], p).Some?;
      var names := Split(p);
      assert names[0..] == names;
      assert Fits(NodeAt(root, names).value, [] + names, expected);
      assert [] + names == names;
      JoinOfSplit(p);
    }
  }

  lemma ComparedIsExact(root: Node, expected: Expected, files: Expected)
    requires root.Dir? && WellNamed(root) && AllFit(root, [], expected) && Recorded(map[], files, root, [])
    ensures Exactly(root, expected) <==> forall p :: p in expected ==> Lookup(files, p) == Some(expected[p])
  {
    if Exactly(root, expected) {
      forall p | p in expected ensures Lookup(files, p) == Some(expected[p]) {
        FoundIsRecorded(root, expected, files, p);
      }
    }
    if forall p :: p in expected ==> Lookup(files, p) == Some(expected[p]) {
      RecordedIsExact(root, expected, files);
    }
  }

  lemma RecordedIsExact(root: Node, expected: Expected, files: Expected)
    requires root.Dir? && WellNamed(root) && AllFit(root, [], expected) && Recorded(map[], files, root, [])
    requires forall p :: p in expected ==> Lookup(files, p) == Some(expected[p])
    ensures Exactly(root, expected)
  {
    forall p | p in expected ensures NodeAt(root, Split(p)) == Some(File(expected[p], 1)) {
      FoundIsRecorded(root, expected, files, p);
    }
    NodesBelong(root, expected);
  }

  lemma NodesBelong(root: Node, expected: Expected)
    requires WellNamed(root) && AllFit(root, [], expected)
    requires forall p :: p in expected ==> NodeAt(root, Split(p)) == Some(File(expected[p], 1))
    ensures forall path :: path != [] && NodeAt(root, path).Some? ==> Belongs(NodeAt(root, path).value, path, expected)
  {
    forall path | path != [] && NodeAt(root, path).Some? ensures Belongs(NodeAt(root, path).value, path, expected) {
      FitsAt(root, expected, path);
      FittingBelongs(root, expected, path);
    }
  }

  lemma FoundIsRecorded(root: Node, expected: Expected, files: Expected, p: string)
    requires p in expected && AllFit(root, [], expected) && Recorded(map[], files, root, [])
    ensures NodeAt(root, Split(p)) == Some(File(expected[p], 1)) <==> Lookup(files, p) == Some(expected[p])
  {
    var names := Split(p);
    assert names[0..] == names && [] + names == names;
    assert Lookup(files, p) == FileAt(root, [], p);
    if NodeAt(root, names).Some? {
      assert Fits(NodeAt(root, names).value, [] + names, expected);
    }
  }

  lemma FitsAt(root: Node, expected: Expected, path: Path)
    requires AllFit(root, [], expected) && path != [] && NodeAt(root, path).Some?
    ensures Fits(NodeAt(root, path).value, path, expected)
  {
    assert [] + path == path;
    assert Fits(NodeAt(root, path).value, [] + path, expected);
  }

  lemma FittingBelongs(root: Node, expected: Expected, path: Path)
    requires WellNamed(root) && path != [] && NodeAt(root, path).Some? && Fits(NodeAt(root, path).value, path, expected)
    requires Join(path) in expected ==> NodeAt(root, Split(Join(path))) == Some(File(expected[Join(path)], 1))
    ensures Belongs(NodeAt(root, path).value, path, expected)
  {
    NamesAreReal(root, path);
    JoinedNames(path, Join(path));
  }

  // ------------------------------------------------------------------- materialise

  /** `mkdir` of the missing directories, then an exclusive creation. */
  function Placed(node: Node, path: Path, content: Content): Attempt<Node>
    requires path != []
    decreases |path|
  {
    if !node.Dir? then Threw
    else if |path| == 1 then
      if path[0] in node.children then Threw else Done(Dir(node.children[path[0] := File(content, 1)]))
    else
      var child := if path[0] in node.children then node.children[path[0]] else Dir(map[]);
      match Placed(child, path[1..], content)
      case Threw => Threw
      case Done(next) => Done(Dir(node.children[path[0] := next]))
  }

  predicate Leads(path: Path, other: Path) {
    |path| < |other| && other[..|path|] == path
  }

  /** What placing a file changes: its own path, and the directories on the way. */
  lemma {:induction false} PlacedAt(node: Node, path: Path, content: Content, other: Path)
    requires path != [] && Placed(node, path, content).Done?
    ensures var placed := Placed(node, path, content).value;
            && NodeAt(placed, path) == Some(File(content, 1))
            && (Leads(other, path) ==> NodeAt(placed, other).Some? && NodeAt(placed, other).value.Dir?)
            && (other != path && !Leads(other, path) ==> NodeAt(placed, other) == NodeAt(node, other))
    decreases |path|
  {
    var placed := Placed(node, path, content).value;
    if |path| > 1 {
      var child := if path[0] in node.children then node.children[path[0]] else Dir(map[]);
      if other != [] && other[0] == path[0] {
        PlacedAt(child, path[1..], content, other[1..]);
        assert other == [other[0]] + other[1..] && path == [path[0]] + path[1..];
        assert Leads(other, path) ==> path[1..][..|other| - 1] == other[1..];
        assert Leads(other[1..], path[1..]) ==> Leads(other, path);
      } else {
        PlacedAt(child, path[1..], content, []);
      }
    } else if other != [] && other[0] == path[0] {
      assert other == [other[0]] + other[1..] && path == [path[0]];
    }
  }

  /** Placing fails exactly where something stands at the path or a file stands on the way to it. */
  lemma {:induction false} PlacedWhere(node: Node, path: Path, content: Content)
    requires path != [] && node.Dir?
    ensures Placed(node, path, content).Done? <==>
              && NodeAt(node, path).None?
              && forall other :: Leads(other, path) && NodeAt(node, other).Some? ==> NodeAt(node, other).value.Dir?
    decreases |path|
  {
    if |path| > 1 && path[0] in node.children {
      var child := node.children[path[0]];
      assert path == [path[0]] + path[1..];
      assert Leads([path[0]], path);
      assert NodeAt(node, [path[0]]) == Some(child);
      if child.Dir? {
        PlacedWhere(child, path[1..], content);
        forall other | Leads(other, path[1..]) && NodeAt(child, other).Some?
          ensures Leads([path[0]] + other, path) && NodeAt(node, [path[0]] + other) == NodeAt(child, other)
        {
          assert ([path[0]] + other)[1..] == other;
        }
        forall other | Leads(other, path) && NodeAt(node, other).Some? && other != []
          ensures Leads(other[1..], path[1..]) && NodeAt(child, other[1..]) == NodeAt(node, other)
        {
          assert other == [path[0]] + other[1..];
          assert path[1..][..|other| - 1] == other[1..];
        }
      }
    } else if |path| > 1 {
      PlacedWhere(Dir(map[]), path[1..], content);
      assert forall other :: Leads(other, path) && other != [] ==> other[0] == path[0];
    }
  }

  /** Placing one more admitted file keeps the tree exactly what is expected. */
  lemma PlacedExactly(root: Node, expected: Expected, p: string, content: Content)
    requires Exactly(root, expected) && p !in expected && Placed(root, Split(p), content).Done?
    ensures Exactly(Placed(root, Split(p), content).value, expected[p := content])
  {
    var path := Split(p);
    var placed, more := Placed(root, path, content).value, expected[p := content];
    PlacedWhere(root, path, content);
    JoinOfSplit(p);
    forall q | q in more ensures NodeAt(placed, Split(q)) == Some(File(more[q], 1)) {
      JoinOfSplit(q);
      PlacedAt(root, path, content, Split(q));
    }
    forall other | other != [] && NodeAt(placed, other).Some? ensures Belongs(NodeAt(placed, other).value, other, more) {
      PlacedAt(root, path, content, other);
      if other != path && !Leads(other, path) {
        BelongsStill(NodeAt(root, other).value, other, expected, p, content);
      } else if other != path {
        assert p in more && Leads(other, Split(p));
      }
    }
  }

  lemma BelongsStill(node: Node, path: Path, expected: Expected, p: string, content: Content)
    requires Belongs(node, path, expected) && p !in expected
    ensures Belongs(node, path, expected[p := content])
  {
    if node.Dir? {
      var q :| q in expected && |path| < |Split(q)| && path == Split(q)[..|path|];
      assert q in expected[p := content];
    }
  }

  lemma {:induction false} WayIsDirectories(node: Node, path: Path, other: Path)
    requires NodeAt(node, path).Some? && Leads(other, path)
    ensures NodeAt(node, other).Some? && NodeAt(node, other).value.Dir?
    decreases |path|
  {
    if other != [] {
      assert path[1..][..|other| - 1] == other[1..];
      WayIsDirectories(node.children[path[0]], path[1..], other[1..]);
    }
  }

  /** In an exact tree, placing fails only because one admitted path leads through another. */
  lemma PlacingConflicts(root: Node, expected: Expected, p: string, content: Content)
    requires Exactly(root, expected) && WellNamed(root) && p !in expected && Placed(root, Split(p), content).Threw?
    ensures exists q :: q in expected && (Leads(Split(p), Split(q)) || Leads(Split(q), Split(p)))
  {
    var path := Split(p);
    PlacedWhere(root, path, content);
    JoinOfSplit(p);
    if NodeAt(root, path).Some? {
      assert Belongs(NodeAt(root, path).value, path, expected);
      var q :| q in expected && |path| < |Split(q)| && path == Split(q)[..|path|];
      assert Leads(Split(p), Split(q));
    } else {
      var other :| Leads(other, path) && NodeAt(root, other).Some? && !NodeAt(root, other).value.Dir?;
      assert Belongs(NodeAt(root, other).value, other, expected);
      NamesAreReal(root, other);
      JoinedNames(other, Join(other));
      assert Leads(Split(Join(other)), Split(p));
    }
  }

  lemma {:induction false} PlacedIsWellNamed(node: Node, path: Path, content: Content)
    requires path != [] && WellNamed(node) && Placed(node, path, content).Done?
    requires forall i :: 0 <= i < |path| ==> RealName(path[i])
    ensures WellNamed(Placed(node, path, content).value)
    decreases |path|
  {
    if |path| > 1 {
      PlacedIsWellNamed(if path[0] in node.children then node.children[path[0]] else Dir(map[]), path[1..], content);
    }
  }

  /** Paths as `SourceSnapshot` lets them through. */
  ghost predicate SupportedPaths(files: seq<SourceSnapshot.SourceFile>) {
    forall i :: 0 <= i < |files| && files[i].path.Some? ==> SourceSnapshot.SupportedPath(files[i].path.value)
  }

  /** No admitted path leads through another, and none is spelled like one outside. */
  ghost predicate Placeable(files: seq<SourceSnapshot.SourceFile>) {
    && (forall i :: 0 <= i < |files| && files[i].path.Some? ==> !SeemsOutside(Split(files[i].path.value)))
    && (forall i, j :: 0 <= i < |files| && 0 <= j < |files| && files[i].path.Some? && files[j].path.Some? ==>
          !Leads(Split(files[i].path.value), Split(files[j].path.value)))
  }

  lemma AdmitsDetermines(files: seq<SourceSnapshot.SourceFile>, one: Expected, other: Expected)
    requires Admits(files, one) && Admits(files, other)
    ensures one == other
  {
    forall p | p in one ensures p in other && other[p] == one[p] {
      var i :| 0 <= i < |files| && files[i].path == Some(p);
    }
    forall p | p in other ensures p in one {
      var i :| 0 <= i < |files| && files[i].path == Some(p);
    }
  }

  /** The admitted files up to one of them, as a map of their own. */
  lemma AdmitsNext(files: seq<SourceSnapshot.SourceFile>, i: nat, sofar: Expected)
    requires i < |files| && Admits(files[..i], sofar) && Admissible(files[i])
    requires forall k :: 0 <= k < i ==> files[k].path != files[i].path
    ensures files[i].path.value !in sofar
    ensures Admits(files[..i + 1], sofar[files[i].path.value := files[i].content.value])
  {
    var front := files[..i];
    assert forall k :: 0 <= k < |front| ==> front[k].path != files[i].path;
    assert files[..i + 1] == front + [files[i]];
    AdmitsOneMore(front, sofar, files[i]);
  }

  class Workspace {
    /** `None` while the directory does not exist. */
    var root: Option<Node>

    constructor ()
      ensures root.None?
    {
      root := None;
    }

    method WriteFile(path: Path, content: Content) returns (ok: bool)
      requires root.Some? && path != []
      modifies this
      ensures ok <==> Placed(old(root).value, path, content).Done?
      ensures root == if ok then Some(Placed(old(root).value, path, content).value) else old(root)
    {
      match Placed(root.value, path, content) {
        case Threw => ok := false;
        case Done(next) => root, ok := Some(next), true;
      }
    }

    /** One admitted file written into an exact tree leaves an exact tree. */
    method Place(path: Path, p: string, content: Content, ghost expected: Expected) returns (ok: bool)
      requires root.Some? && WellNamed(root.value) && Exactly(root.value, expected)
      requires path == Split(p) && p !in expected && "" !in path
      modifies this
      ensures ok <==> Placed(old(root).value, path, content).Done?
      ensures ok ==> root.Some? && WellNamed(root.value) && Exactly(root.value, expected[p := content])
      ensures !ok ==> root == old(root)
    {
      ghost var before := root.value;
      ok := WriteFile(path, content);
      if ok {
        PlacedExactly(before, expected, p, content);
        PlacedIsWellNamed(before, path, content);
      }
    }

    /** One more file after the first `i`. */
    method Next(files: seq<SourceSnapshot.SourceFile>, i: nat, ghost expected: Expected) returns (ok: bool)
      requires i < |files| && Admissible(files[i]) && SourceSnapshot.SupportedPath(files[i].path.value)
      requires forall k :: 0 <= k < i ==> files[k].path != files[i].path
      requires Admits(files[..i], expected)
      requires root.Some? && WellNamed(root.value) && Exactly(root.value, expected)
      modifies this
      ensures ok ==> !SeemsOutside(Split(files[i].path.value))
      ensures ok ==> Admits(files[..i + 1], expected[files[i].path.value := files[i].content.value])
      ensures ok ==> root.Some? && WellNamed(root.value)
                     && Exactly(root.value, expected[files[i].path.value := files[i].content.value])
      ensures !ok ==> !Placeable(files)
    {
      var path := Split(files[i].path.value);
      AdmitsNext(files, i, expected);
      if SeemsOutside(path) {
        return false;
      }
      ghost var before := root.value;
      ok := Place(path, files[i].path.value, files[i].content.value, expected);
      if !ok {
        ConflictIsNotPlaceable(files, i, expected, before);
      }
    }

    /** The files one after another, into an empty tree. */
    method Fill(files: seq<SourceSnapshot.SourceFile>) returns (ok: bool, ghost interrupted: bool)
      requires root == Some(Dir(map[])) && SupportedPaths(files)
      requires forall i :: 0 <= i < |files| ==> Admissible(files[i])
      requires forall i, j :: 0 <= i < j < |files| ==> files[i].path != files[j].path
      modifies this
      ensures ok ==> root.Some? && root.value.Dir? && WellNamed(root.value) && IsSnapshot(root.value, files)
      ensures if ok then Placeable(files) else interrupted || !Placeable(files)
    {
      ghost var expected: Expected := map[];
      for i := 0 to |files|
        invariant Admits(files[..i], expected)
        invariant forall k :: 0 <= k < i ==> !SeemsOutside(Split(files[k].path.value))
        invariant root.Some? && WellNamed(root.value) && Exactly(root.value, expected)
      {
        var active: bool := *;
        if !active {
          return false, true;
        }
        var placed := Next(files, i, expected);
        if !placed {
          return false, false;
        }
        expected := expected[files[i].path.value := files[i].content.value];
      }
      var stillActive: bool := *;
      if !stillActive {
        return false, true;
      }
      assert files[..|files|] == files;
      ExactIsPlaceable(root.value, expected, files);
      OneMeaning(root.value, files, expected);
      return true, false;
    }

    /**
     * `materialize`: the finished tree is exactly the snapshot, or nothing is left. Unless the lease
     * ended meanwhile, it fails only for a snapshot that is not admissible or not placeable.
     */
    method Materialize(snapshot: SourceSnapshot.Snapshot) returns (ok: bool, ghost interrupted: bool)
      requires SupportedPaths(snapshot.files)
      modifies this
      ensures !ok ==> root.None?
      ensures ok ==> AllAdmissible(snapshot) && Placeable(snapshot.files)
      ensures !ok && !interrupted ==> !(AllAdmissible(snapshot) && Placeable(snapshot.files))
      ensures ok ==> root.Some? && root.value.Dir? && WellNamed(root.value) && IsSnapshot(root.value, snapshot.files)
    {
      ok, interrupted := false, false;
      root := Some(Dir(map[]));
      var admitted := AdmittedFiles(snapshot);
      if admitted.Done? {
        ok, interrupted := Fill(snapshot.files);
      }
      if !ok {
        root := None;
      }
    }

    /** A tree just materialised verifies. */
    method MaterializeThenVerify(snapshot: SourceSnapshot.Snapshot) returns (ok: bool, same: bool)
      requires SupportedPaths(snapshot.files)
      modifies this
      ensures ok ==> same
    {
      ghost var interrupted;
      ok, interrupted := Materialize(snapshot);
      same := false;
      if ok {
        same := VerifySource(root.value, snapshot);
      }
    }
  }

  lemma ExactIsPlaceable(root: Node, expected: Expected, files: seq<SourceSnapshot.SourceFile>)
    requires Exactly(root, expected) && Admits(files, expected)
    requires forall i :: 0 <= i < |files| ==> !SeemsOutside(Split(files[i].path.value))
    ensures Placeable(files)
  {
    forall i, j | 0 <= i < |files| && 0 <= j < |files|
      ensures !Leads(Split(files[i].path.value), Split(files[j].path.value))
    {
      var one, other := files[i].path.value, files[j].path.value;
      assert NodeAt(root, Split(one)) == Some(File(expected[one], 1)) && NodeAt(root, Split(other)).Some?;
      if Leads(Split(one), Split(other)) {
        WayIsDirectories(root, Split(other), Split(one));
      }
    }
  }

  lemma ConflictIsNotPlaceable(files: seq<SourceSnapshot.SourceFile>, i: nat, expected: Expected, root: Node)
    requires i < |files| && files[i].path.Some? && files[i].content.Some? && Admits(files[..i], expected)
    requires files[i].path.value !in expected && Exactly(root, expected) && WellNamed(root)
    requires Placed(root, Split(files[i].path.value), files[i].content.value).Threw?
    ensures !Placeable(files)
  {
    var p := files[i].path.value;
    PlacingConflicts(root, expected, p, files[i].content.value);
    var q :| q in expected && (Leads(Split(p), Split(q)) || Leads(Split(q), Split(p)));
    var k :| 0 <= k < i && files[..i][k].path == Some(q);
    assert files[k].path == Some(q);
  }
}
