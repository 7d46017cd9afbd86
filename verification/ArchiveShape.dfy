/** What an archive holds of the forest it was made from. */
module ArchiveShape {
  import opened Core
  import opened ArchiveWalk

  /** One path of a forest. */
  datatype Item =
    | DirItem(mode: nat)
    | FileItem(ino: nat, nlink: nat, mode: nat, data: Bytes)
    | LinkItem(target: Target)

  function ItemOf(node: Node): Item {
    match node
    case Dir(mode, _) => DirItem(mode)
    case File(ino, nlink, mode, data) => FileItem(ino, nlink, mode, data)
    case Link(target) => LinkItem(target)
  }

  /** The paths of a tree placed at `name`. */
  function Flat(name: Path, node: Node): map<Path, Item>
    decreases node
  {
    map[name := ItemOf(node)] + (if node.Dir? then FlatKids(name, node.kids) else map[])
  }

  function FlatKids(name: Path, kids: seq<Kid>): map<Path, Item>
    decreases kids
  {
    if kids == [] then map[]
    else
      var last := |kids| - 1;
      FlatKids(name, kids[..last]) + Flat(name + [kids[last].name], kids[last].node)
  }

  function FlatRoots(baseDir: Option<Path>, roots: seq<Root>): map<Path, Item> {
    if roots == [] then map[]
    else
      var last := |roots| - 1;
      FlatRoots(baseDir, roots[..last]) + Flat(RelName(baseDir, roots[last].path), roots[last].node)
  }

  /** Names in a directory differ. */
  predicate ProperTree(node: Node)
    decreases node
  {
    node.Dir? ==>
      && (forall i, j :: 0 <= i < j < |node.kids| ==> node.kids[i].name != node.kids[j].name)
      && (forall i :: 0 <= i < |node.kids| ==> ProperTree(node.kids[i].node))
  }

  /** Roots whose names do not lie inside one another. */
  predicate ProperForest(baseDir: Option<Path>, roots: seq<Root>) {
    && (forall i :: 0 <= i < |roots| ==> RelName(baseDir, roots[i].path) != [] && ProperTree(roots[i].node))
    && (forall i, j :: 0 <= i < |roots| && 0 <= j < |roots| && i != j ==>
          !(RelName(baseDir, roots[i].path) <= RelName(baseDir, roots[j].path)))
  }

  /** Paths of one inode agree on it, and an inode of several paths has a link count above one. */
  ghost predicate Consistent(flat: map<Path, Item>) {
    forall p, q :: p in flat && q in flat && flat[p].FileItem? && flat[q].FileItem? && flat[p].ino == flat[q].ino ==>
      flat[p] == flat[q] && (p != q ==> flat[p].nlink >= 2)
  }

  predicate SameInode(flat: map<Path, Item>, p: Path, ino: nat) {
    p in flat && flat[p].FileItem? && flat[p].ino == ino
  }

  /** The entry that stands at position `i` for its path. */
  ghost predicate EntryMatches(out: seq<Entry>, i: nat, flat: map<Path, Item>)
    requires i < |out|
  {
    var e := out[i];
    e.name in flat &&
    match flat[e.name]
    case DirItem(mode) => e == DirEntry(e.name, mode)
    case LinkItem(target) => e == SymEntry(e.name, target)
    case FileItem(ino, _, mode, data) =>
      || (e == FileEntry(e.name, mode, data) && (forall j :: 0 <= j < i ==> !SameInode(flat, out[j].name, ino)))
      || (e.HardEntry? && SameInode(flat, e.first, ino) && WrittenBefore(out, i, e.first))
  }

  predicate ListedDir(out: seq<Entry>, n: nat, name: Path) {
    exists j :: 0 <= j < n && j < |out| && out[j].DirEntry? && out[j].name == name
  }

  /** A directory of the forest is listed before everything below it. */
  ghost predicate ParentsListed(out: seq<Entry>, n: nat, name: Path, flat: map<Path, Item>) {
    forall k :: 0 < k < |name| && name[..k] in flat ==> ListedDir(out, n, name[..k])
  }

  ghost predicate Describes(out: seq<Entry>, flat: map<Path, Item>) {
    && NamesDistinct(out)
    && (forall p :: p in flat <==> exists j :: 0 <= j < |out| && out[j].name == p)
    && (forall i :: 0 <= i < |out| ==> out[i].name != [] && EntryMatches(out, i, flat))
    && (forall i :: 0 <= i < |out| ==> ParentsListed(out, i, out[i].name, flat))
  }

  // ---------------------------------------------------------------------------
  // One entry more
  // ---------------------------------------------------------------------------

  lemma ListedStays(out: seq<Entry>, e: Entry, n: nat, name: Path)
    requires ListedDir(out, n, name) && n <= |out|
    ensures ListedDir(out + [e], n, name) && ListedDir(out + [e], |out| + 1, name)
  {
    var j :| 0 <= j < n && j < |out| && out[j].DirEntry? && out[j].name == name;
    assert (out + [e])[j] == out[j];
  }

  lemma MatchStays(out: seq<Entry>, e: Entry, i: nat, flat: map<Path, Item>, item: Item)
    requires i < |out| && Describes(out, flat) && e.name !in flat
    ensures EntryMatches(out + [e], i, flat[e.name := item])
  {
    var more := out + [e];
    assert more[i] == out[i] && EntryMatches(out, i, flat);
    if out[i].HardEntry? {
      WrittenStays(out, e, i, out[i].first);
    }
    assert forall j :: 0 <= j < i ==> more[j] == out[j];
  }

  lemma DescribesMore(out: seq<Entry>, flat: map<Path, Item>, e: Entry, item: Item)
    requires Describes(out, flat) && e.name !in flat && e.name != []
    requires EntryMatches(out + [e], |out|, flat[e.name := item])
    requires ParentsListed(out, |out|, e.name, flat)
    // nothing listed lies below the new name
    requires forall p :: p in flat ==> !(e.name <= p)
    ensures Describes(out + [e], flat[e.name := item])
  {
    var (more, all) := (out + [e], flat[e.name := item]);
    forall p
      ensures p in all <==> exists j :: 0 <= j < |more| && more[j].name == p
    {
      if p in flat {
        var j :| 0 <= j < |out| && out[j].name == p;
        assert more[j].name == p;
      }
      assert more[|out|].name == e.name;
    }
    forall i | 0 <= i < |more|
      ensures more[i].name != [] && EntryMatches(more, i, all) && ParentsListed(more, i, more[i].name, all)
    {
      if i < |out| {
        MatchStays(out, e, i, flat, item);
        assert ParentsListed(out, i, out[i].name, flat);
      }
      ParentsStay(out, e, i, more[i].name, flat, item);
    }
    assert NamesDistinct(more) by {
      assert forall i :: 0 <= i < |out| ==> out[i].name in flat;
    }
  }

  lemma ParentsStay(out: seq<Entry>, e: Entry, i: nat, name: Path, flat: map<Path, Item>, item: Item)
    requires i <= |out| && ParentsListed(out, i, name, flat)
    requires name in flat || name == e.name
    requires forall p :: p in flat ==> !(e.name <= p)
    ensures ParentsListed(out + [e], i, name, flat[e.name := item])
  {
    forall k | 0 < k < |name| && name[..k] in flat[e.name := item]
      ensures ListedDir(out + [e], i, name[..k])
    {
      assert name[..k] <= name && name[..k] != name;
      ListedStays(out, e, i, name[..k]);
    }
  }

  // ---------------------------------------------------------------------------
  // The whole walk
  // ---------------------------------------------------------------------------

  ghost predicate LinksKnown(w: Walked, flat: map<Path, Item>) {
    && (forall p :: p in flat && flat[p].FileItem? && flat[p].nlink >= 2 ==> flat[p].ino in w.hardlinks)
    && (forall ino :: ino in w.hardlinks ==>
          SameInode(flat, w.hardlinks[ino], ino) && WrittenBefore(w.out, |w.out|, w.hardlinks[ino]))
  }

  ghost predicate Walking(w: Walked, flat: map<Path, Item>) {
    Describes(w.out, flat) && w.seen == flat.Keys && LinksKnown(w, flat)
  }

  predicate ParentsAreDirs(name: Path, flat: map<Path, Item>) {
    forall k :: 0 < k < |name| && name[..k] in flat ==> flat[name[..k]].DirItem?
  }

  predicate NothingBelow(name: Path, flat: map<Path, Item>) {
    forall p :: p in flat ==> !(name <= p)
  }

  lemma DirsAreListed(out: seq<Entry>, name: Path, flat: map<Path, Item>)
    requires Describes(out, flat) && ParentsAreDirs(name, flat)
    ensures ParentsListed(out, |out|, name, flat)
  {
    forall k | 0 < k < |name| && name[..k] in flat
      ensures ListedDir(out, |out|, name[..k])
    {
      var j :| 0 <= j < |out| && out[j].name == name[..k];
      assert EntryMatches(out, j, flat);
    }
  }

  lemma LinksStay(w: Walked, flat: map<Path, Item>, e: Entry, item: Item)
    requires LinksKnown(w, flat) && e.name !in flat
    requires item.FileItem? && item.nlink >= 2 ==> item.ino in w.hardlinks
    ensures LinksKnown(Emit(w, e.name, e), flat[e.name := item])
  {
    var t := Emit(w, e.name, e);
    forall ino | ino in t.hardlinks
      ensures WrittenBefore(t.out, |t.out|, t.hardlinks[ino])
    {
      WrittenStays(w.out, e, |w.out|, w.hardlinks[ino]);
    }
  }

  lemma EmitPlain(w: Walked, flat: map<Path, Item>, e: Entry, item: Item)
    requires Walking(w, flat) && e.name != [] && NothingBelow(e.name, flat) && ParentsAreDirs(e.name, flat)
    requires (item.DirItem? && e == DirEntry(e.name, item.mode)) || (item.LinkItem? && e == SymEntry(e.name, item.target))
    ensures Walking(Emit(w, e.name, e), flat[e.name := item])
  {
    assert e.name <= e.name;
    DirsAreListed(w.out, e.name, flat);
    LinksStay(w, flat, e, item);
    DescribesMore(w.out, flat, e, item);
  }

  lemma EmitFile(w: Walked, flat: map<Path, Item>, name: Path, node: Node)
    requires Walking(w, flat) && name != [] && NothingBelow(name, flat) && ParentsAreDirs(name, flat)
    requires node.File? && Consistent(flat[name := ItemOf(node)])
    ensures Walking(WalkFile(w, name, node), flat[name := ItemOf(node)])
  {
    var (item, all) := (ItemOf(node), flat[name := ItemOf(node)]);
    assert name <= name;
    DirsAreListed(w.out, name, flat);
    forall j | 0 <= j < |w.out| && SameInode(all, w.out[j].name, node.ino)
      ensures node.nlink >= 2 && node.ino in w.hardlinks
    {
      assert w.out[j].name in flat && all[w.out[j].name] == all[name];
    }
    if node.nlink >= 2 && node.ino in w.hardlinks {
      var e := HardEntry(name, w.hardlinks[node.ino]);
      WrittenStays(w.out, e, |w.out|, e.first);
      assert SameInode(all, e.first, node.ino);
      LinksStay(w, flat, e, item);
      DescribesMore(w.out, flat, e, item);
    } else {
      var e := FileEntry(name, node.mode, node.data);
      assert forall j :: 0 <= j < |w.out| ==> (w.out + [e])[j] == w.out[j];
      DescribesMore(w.out, flat, e, item);
      FirstLink(w, flat, name, node);
    }
  }

  lemma FirstLink(w: Walked, flat: map<Path, Item>, name: Path, node: Node)
    requires LinksKnown(w, flat) && name !in flat && node.File? && !(node.nlink >= 2 && node.ino in w.hardlinks)
    ensures LinksKnown(WalkFile(w, name, node), flat[name := ItemOf(node)])
  {
    var e := FileEntry(name, node.mode, node.data);
    var t := WalkFile(w, name, node);
    assert t.out == w.out + [e] && t.out[|w.out|] == e;
    forall ino | ino in t.hardlinks
      ensures SameInode(flat[name := ItemOf(node)], t.hardlinks[ino], ino) && WrittenBefore(t.out, |t.out|, t.hardlinks[ino])
    {
      if t.hardlinks[ino] == name {
        assert WrittenBefore(t.out, |t.out|, name);
      } else {
        WrittenStays(w.out, e, |w.out|, w.hardlinks[ino]);
      }
    }
  }

  lemma {:induction false} FlatBelow(name: Path, node: Node, p: Path)
    requires p in Flat(name, node)
    ensures name <= p && (p == name ==> Flat(name, node)[p] == ItemOf(node))
    decreases node
  {
    if node.Dir? && p in FlatKids(name, node.kids) {
      var _ := FlatKidsBelow(name, node.kids, p);
    }
  }

  lemma {:induction false} FlatKidsBelow(name: Path, kids: seq<Kid>, p: Path) returns (j: nat)
    requires p in FlatKids(name, kids)
    ensures j < |kids| && name + [kids[j].name] <= p && |p| > |name| && name <= p && p[|name|] == kids[j].name
    decreases kids
  {
    var last := |kids| - 1;
    if p in Flat(name + [kids[last].name], kids[last].node) {
      FlatBelow(name + [kids[last].name], kids[last].node, p);
      j := last;
      assert p[..|name| + 1] == name + [kids[last].name];
      assert p[..|name|] == name;
    } else {
      j := FlatKidsBelow(name, kids[..last], p);
    }
  }

  lemma ConsistentPart(part: map<Path, Item>, whole: map<Path, Item>)
    requires Consistent(whole) && forall p :: p in part ==> p in whole && whole[p] == part[p]
    ensures Consistent(part)
  {
  }

  lemma {:induction false} WalkDescribes(w: Walked, flat: map<Path, Item>, name: Path, node: Node)
    requires Walking(w, flat) && name != [] && NothingBelow(name, flat) && ParentsAreDirs(name, flat)
    requires ProperTree(node) && Consistent(flat + Flat(name, node))
    ensures Walking(Walk(w, name, node), flat + Flat(name, node))
    decreases node
  {
    hide Walking, Consistent, ParentsAreDirs, WalkFile;
    FlatParts(flat, name, node);
    assert name <= name && name !in flat;
    assert name !in w.seen by { WalkingSeen(w, flat); }
    match node
    case Dir(mode, kids) =>
      EmitPlain(w, flat, DirEntry(name, mode), DirItem(mode));
      ParentsStayDirs(name, flat, DirItem(mode));
      WalkKidsDescribes(Emit(w, name, DirEntry(name, mode)), flat[name := DirItem(mode)], name, kids);
    case Link(target) => EmitPlain(w, flat, SymEntry(name, target), LinkItem(target));
    case File(_, _, _, _) => EmitFile(w, flat, name, node);
  }

  lemma WalkingSeen(w: Walked, flat: map<Path, Item>)
    requires Walking(w, flat)
    ensures w.seen == flat.Keys
  {
  }

  lemma ParentsStayDirs(name: Path, flat: map<Path, Item>, item: Item)
    requires ParentsAreDirs(name, flat)
    ensures ParentsAreDirs(name, flat[name := item])
  {
  }

  lemma FlatParts(flat: map<Path, Item>, name: Path, node: Node)
    ensures node.Dir? ==> flat + Flat(name, node) == flat[name := ItemOf(node)] + FlatKids(name, node.kids)
    ensures !node.Dir? ==> flat + Flat(name, node) == flat[name := ItemOf(node)]
  {
  }

  lemma {:induction false} WalkKidsDescribes(w: Walked, flat: map<Path, Item>, name: Path, kids: seq<Kid>)
    requires Walking(w, flat) && name in flat && flat[name].DirItem? && ParentsAreDirs(name, flat)
    requires forall p :: p in flat && name <= p ==> p == name
    requires forall i, j :: 0 <= i < j < |kids| ==> kids[i].name != kids[j].name
    requires forall i :: 0 <= i < |kids| ==> ProperTree(kids[i].node)
    requires Consistent(flat + FlatKids(name, kids))
    ensures Walking(WalkKids(w, name, kids), flat + FlatKids(name, kids))
    decreases kids
  {
    if kids == [] {
      assert flat + FlatKids(name, kids) == flat;
    } else {
      var (last, init) := (|kids| - 1, kids[..|kids| - 1]);
      var (kid, below) := (name + [kids[last].name], flat + FlatKids(name, init));
      EarlierKidsStay(flat, name, kids);
      NextKidIsFree(flat, name, kids);
      assert WalkKids(w, name, kids) == Walk(WalkKids(w, name, init), kid, kids[last].node);
      assert ProperTree(kids[last].node);
      assert forall i :: 0 <= i < |init| ==> init[i] == kids[i];
      hide *;
      WalkKidsDescribes(w, flat, name, init);
      WalkDescribes(WalkKids(w, name, init), below, kid, kids[last].node);
    }
  }

  lemma EarlierKidsStay(flat: map<Path, Item>, name: Path, kids: seq<Kid>)
    requires name in flat && flat[name].DirItem? && ParentsAreDirs(name, flat)
    requires forall p :: p in flat && name <= p ==> p == name
    requires forall i, j :: 0 <= i < j < |kids| ==> kids[i].name != kids[j].name
    requires kids != [] && Consistent(flat + FlatKids(name, kids))
    ensures var (last, init) := (|kids| - 1, kids[..|kids| - 1]);
      var below := flat + FlatKids(name, init);
      flat + FlatKids(name, kids) == below + Flat(name + [kids[last].name], kids[last].node) && Consistent(below)
  {
    hide Consistent;
    var (last, init) := (|kids| - 1, kids[..|kids| - 1]);
    var (kid, below) := (name + [kids[last].name], flat + FlatKids(name, init));
    var all := flat + FlatKids(name, kids);
    assert all == below + Flat(kid, kids[last].node);
    NextKidIsFree(flat, name, kids);
    hide Flat, FlatKids, ParentsAreDirs;
    forall p | p in below
      ensures p in all && all[p] == below[p]
    {
      if p in Flat(kid, kids[last].node) {
        FlatBelow(kid, kids[last].node, p);
      }
    }
    ConsistentPart(below, all);
  }

  /** The place of a directory's last child, with the earlier ones archived. */
  lemma NextKidIsFree(flat: map<Path, Item>, name: Path, kids: seq<Kid>)
    requires name in flat && flat[name].DirItem? && ParentsAreDirs(name, flat)
    requires forall p :: p in flat && name <= p ==> p == name
    requires forall i, j :: 0 <= i < j < |kids| ==> kids[i].name != kids[j].name
    requires kids != []
    ensures var last := |kids| - 1;
      var below := flat + FlatKids(name, kids[..last]);
      NothingBelow(name + [kids[last].name], below) && ParentsAreDirs(name + [kids[last].name], below)
  {
    var last := |kids| - 1;
    var (kid, below) := (name + [kids[last].name], flat + FlatKids(name, kids[..last]));
    forall p | p in below
      ensures !(kid <= p)
    {
      if kid <= p {
        assert p[..|name|] == kid[..|name|] == name;
        assert p[|name|] == kids[last].name;
        if p in FlatKids(name, kids[..last]) {
          var j := FlatKidsBelow(name, kids[..last], p);
        }
      }
    }
    forall k | 0 < k < |kid|
      ensures kid[..k] !in FlatKids(name, kids[..last])
    {
      if kid[..k] in FlatKids(name, kids[..last]) {
        var j := FlatKidsBelow(name, kids[..last], kid[..k]);
      }
    }
    assert forall k :: 0 < k < |kid| ==> kid[..k] == name[..k];
  }

  lemma PrefixesCompare(a: Path, b: Path, p: Path)
    requires a <= p && b <= p
    ensures a <= b || b <= a
  {
    assert a == p[..|a|] && b == p[..|b|];
  }

  lemma {:induction false} FlatRootsBelow(baseDir: Option<Path>, roots: seq<Root>, p: Path) returns (j: nat)
    requires p in FlatRoots(baseDir, roots)
    ensures j < |roots| && RelName(baseDir, roots[j].path) <= p
  {
    var last := |roots| - 1;
    if p in Flat(RelName(baseDir, roots[last].path), roots[last].node) {
      FlatBelow(RelName(baseDir, roots[last].path), roots[last].node, p);
      j := last;
    } else {
      j := FlatRootsBelow(baseDir, roots[..last], p);
    }
  }

  /** The place of the last root, with the earlier ones archived. */
  lemma NextRootIsFree(baseDir: Option<Path>, roots: seq<Root>)
    requires ProperForest(baseDir, roots) && roots != []
    ensures var last := |roots| - 1;
      var name := RelName(baseDir, roots[last].path);
      var below := FlatRoots(baseDir, roots[..last]);
      NothingBelow(name, below) && ParentsAreDirs(name, below)
  {
    var last := |roots| - 1;
    var (name, below) := (RelName(baseDir, roots[last].path), FlatRoots(baseDir, roots[..last]));
    hide ProperTree, FlatRoots, RelName;
    forall p | p in below
      ensures !(name <= p) && !(p <= name)
    {
      var j := FlatRootsBelow(baseDir, roots[..last], p);
      if name <= p {
        PrefixesCompare(name, RelName(baseDir, roots[j].path), p);
      }
    }
    forall k | 0 < k < |name|
      ensures name[..k] !in below
    {
      assert name[..k] <= name;
    }
  }

  lemma EmptyArchive()
    ensures Walking(NOTHING, map[])
  {
  }

  lemma ProperParts(baseDir: Option<Path>, roots: seq<Root>)
    requires ProperForest(baseDir, roots) && roots != []
    ensures var last := roots[|roots| - 1];
      RelName(baseDir, last.path) != [] && ProperTree(last.node) && ProperForest(baseDir, roots[..|roots| - 1])
  {
    hide ProperTree, RelName;
  }

  lemma EarlierRootsStay(baseDir: Option<Path>, roots: seq<Root>)
    requires ProperForest(baseDir, roots) && roots != []
    requires Consistent(FlatRoots(baseDir, roots))
    ensures Consistent(FlatRoots(baseDir, roots[..|roots| - 1]))
  {
    var last := |roots| - 1;
    var (name, below) := (RelName(baseDir, roots[last].path), FlatRoots(baseDir, roots[..last]));
    NextRootIsFree(baseDir, roots);
    forall p | p in below
      ensures p !in Flat(name, roots[last].node)
    {
      if p in Flat(name, roots[last].node) {
        FlatBelow(name, roots[last].node, p);
      }
    }
    assert FlatRoots(baseDir, roots) == below + Flat(name, roots[last].node);
    hide Consistent, FlatRoots, Flat, ProperForest;
    ConsistentPart(below, FlatRoots(baseDir, roots));
  }

  /** The archive of a proper forest lists exactly its paths, each as what it is, directories before what they hold. */
  lemma {:induction false} ArchiveDescribesForest(baseDir: Option<Path>, roots: seq<Root>)
    requires ProperForest(baseDir, roots) && Consistent(FlatRoots(baseDir, roots))
    ensures Walking(WalkRoots(baseDir, roots), FlatRoots(baseDir, roots))
  {
    hide Walking, Consistent, ProperTree, Walk, RelName, ProperForest, Flat, ParentsAreDirs;
    if roots == [] {
      EmptyArchive();
    } else {
      var (last, init) := (|roots| - 1, roots[..|roots| - 1]);
      ProperParts(baseDir, roots);
      NextRootIsFree(baseDir, roots);
      EarlierRootsStay(baseDir, roots);
      ArchiveDescribesForest(baseDir, init);
      WalkDescribes(WalkRoots(baseDir, init), FlatRoots(baseDir, init), RelName(baseDir, roots[last].path), roots[last].node);
    }
  }
}
