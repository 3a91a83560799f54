/**
 * What an overlay means, refusing nothing; and for which pairs of trees the host's merge means that.
 */
module DraftOverlay {
  import opened Options
  import opened DraftTree
  import opened DraftDisk
  import opened DraftTransfer

  /** What stands at one name once the upper layer lies over the lower; unreported nodes count as absent. */
  function Overlay(host: Option<Host>, upper: Upper): Option<Host>
    decreases upper, 1
  {
    match upper
    case Other => host
    case Whiteout => None
    case UFile(bytes) => Some(HFile(bytes))
    case UDir(isOpaque, children) =>
      Some(HDir(OverlayAll(if !isOpaque && host.Some? && host.value.HDir? then host.value.folder else map[], children)))
  }

  function OverlayAll(folder: Folder, children: seq<Child>): Folder
    decreases children, 0
  {
    if children == [] then folder
    else
      var child := children[0];
      OverlayAll(Put(folder, child.name, Overlay(Get(folder, child.name), child.node)), children[1..])
  }

  /** Where the host merges at all, it merges as an overlay does. */
  lemma {:induction false} MergeIsOverlay(host: Option<Host>, upper: Upper)
    ensures Merge(host, upper).Done? ==> Merge(host, upper).value == Overlay(host, upper)
    decreases upper, 1
  {
    if upper.UDir? {
      MergeAllIsOverlay(if upper.isOpaque || host.None? || !host.value.HDir? then map[] else host.value.folder, upper.children);
    }
  }

  lemma {:induction false} MergeAllIsOverlay(folder: Folder, children: seq<Child>)
    ensures MergeAll(folder, children).Done? ==> MergeAll(folder, children).value == OverlayAll(folder, children)
    decreases children, 0
  {
    if children != [] {
      var child := children[0];
      MergeIsOverlay(Get(folder, child.name), child.node);
      MergeAllIsOverlay(Put(folder, child.name, Overlay(Get(folder, child.name), child.node)), children[1..]);
    }
  }

  // ------------------------------------------------------------------- where it merges

  /** The upper node at a path that only plain directories lead to: what is below an opaque one meets nothing. */
  function UpperAt(children: seq<Child>, path: Path): Option<Upper>
    requires path != []
    decreases |path|
  {
    match Lookup(children, path[0])
    case None => None
    case Some(node) =>
      if |path| == 1 then Some(node)
      else if node.UDir? && !node.isOpaque then UpperAt(node.children, path[1..])
      else None
  }

  /** A file over a directory or a link, or a plain directory over anything but a directory. */
  predicate Clashes(upper: Upper, host: Host) {
    (upper.UFile? && !host.HFile?) || (upper.UDir? && !upper.isOpaque && !host.HDir?)
  }

  predicate ClashesAt(folder: Folder, children: seq<Child>, path: Path)
    requires path != []
  {
    && UpperAt(children, path).Some? && Lstat(folder, path).Some?
    && Clashes(UpperAt(children, path).value, Lstat(folder, path).value)
  }

  ghost predicate ClashFree(folder: Folder, children: seq<Child>) {
    forall path: Path :: path != [] ==> !ClashesAt(folder, children, path)
  }

  lemma {:induction false} LookupFinds(children: seq<Child>, name: Name)
    ensures Lookup(children, name).Some? <==> Lists(children, name)
    ensures Lookup(children, name).Some? ==>
              exists i :: 0 <= i < |children| && children[i].name == name && children[i].node == Lookup(children, name).value
  {
    if children != [] {
      LookupFinds(children[1..], name);
      if Lists(children[1..], name) {
        var i :| 0 <= i < |children[1..]| && children[1..][i].name == name;
        assert children[i + 1].name == name;
      }
      if Lists(children, name) && children[0].name != name {
        var i :| 0 <= i < |children| && children[i].name == name;
        assert children[1..][i - 1].name == name;
      }
      if children[0].name != name && Lookup(children[1..], name).Some? {
        var i :| 0 <= i < |children[1..]| && children[1..][i].name == name
                 && children[1..][i].node == Lookup(children[1..], name).value;
        assert children[i + 1].node == Lookup(children, name).value;
      }
    }
  }

  lemma {:induction false} LookupOfDistinct(children: seq<Child>, i: nat)
    requires DistinctNames(children) && i < |children|
    ensures Lookup(children, children[i].name) == Some(children[i].node)
  {
    if i > 0 {
      assert forall j :: 0 <= j < |children| - 1 ==> children[1..][j] == children[j + 1];
      LookupOfDistinct(children[1..], i - 1);
    }
  }

  /** One name merges exactly if no path through it clashes. */
  lemma {:induction false} MergesWithoutClash(folder: Folder, children: seq<Child>, i: nat)
    requires Proper(children) && i < |children|
    ensures Merge(Get(folder, children[i].name), children[i].node).Done? <==>
              forall rest: Path :: !ClashesAt(folder, children, [children[i].name] + rest)
    decreases children, 0
  {
    var name, node := children[i].name, children[i].node;
    var host := Get(folder, name);
    LookupOfDistinct(children, i);
    assert [name] + [] == [name];
    forall rest: Path | rest != []
      ensures ClashesAt(folder, children, [name] + rest) <==>
                node.UDir? && !node.isOpaque && host.Some? && host.value.HDir? && ClashesAt(host.value.folder, node.children, rest)
    {
      assert ([name] + rest)[1..] == rest;
    }
    if node.UDir? {
      if node.isOpaque || host.None? || !host.value.HDir? {
        MergeAllClashFree(map[], node.children);
        EmptyIsClashFree(node.children);
      } else {
        MergeAllClashFree(host.value.folder, node.children);
      }
    }
  }

  lemma EmptyIsClashFree(children: seq<Child>)
    ensures ClashFree(map[], children)
  {
  }

  /** The host's merge succeeds if and only if no upper node clashes with the host node at its path. */
  lemma {:induction false} MergeAllClashFree(folder: Folder, children: seq<Child>)
    requires Proper(children)
    ensures MergeAll(folder, children).Done? <==> ClashFree(folder, children)
    decreases children, 1
  {
    MergeAllPointwise(folder, children);
    forall i | 0 <= i < |children|
      ensures Merge(Get(folder, children[i].name), children[i].node).Done? <==>
                forall rest: Path :: !ClashesAt(folder, children, [children[i].name] + rest)
    {
      MergesWithoutClash(folder, children, i);
    }
    if MergeAll(folder, children).Done? {
      forall path: Path | path != [] ensures !ClashesAt(folder, children, path) {
        LookupFinds(children, path[0]);
        assert path == [path[0]] + path[1..];
      }
    }
  }

  /** The host's merge of a draft is its overlay, exactly where nothing clashes. */
  lemma MergeAllExactly(folder: Folder, children: seq<Child>)
    requires Proper(children)
    ensures MergeAll(folder, children) == if ClashFree(folder, children) then Done(OverlayAll(folder, children)) else Threw
  {
    MergeAllClashFree(folder, children);
    MergeAllIsOverlay(folder, children);
  }

  /**
   * Clashes happen: a flush brings a directory, the guest replaces it by a file, and from then on no
   * flush completes.
   */
  lemma KindChangeIsRefused(bytes: Bytes)
    ensures MergeAll(map[], [Child("d", UDir(false, []))]) == Done(map["d" := HDir(map[])])
    ensures MergeAll(map["d" := HDir(map[])], [Child("d", UFile(bytes))]) == Threw
    ensures OverlayAll(map["d" := HDir(map[])], [Child("d", UFile(bytes))]) == map["d" := HFile(bytes)]
  {
    var first, second := [Child("d", UDir(false, []))], [Child("d", UFile(bytes))];
    assert first[1..] == [] && second[1..] == [];
    var before: Folder := map["d" := HDir(map[])];
    assert before["d" := HFile(bytes)] == map["d" := HFile(bytes)];
  }
}
