/** Restoring an archive into an empty directory rebuilds the forest it was made from. */
module ArchiveRoundTrip {
  import opened Core
  import opened ArchiveWalk
  import opened ArchiveShape
  import opened ArchiveRestore

  // ---------------------------------------------------------------------------
  // Making directories
  // ---------------------------------------------------------------------------

  predicate Usable(obj: Obj) {
    obj.DirObj? && OwnerExecutes(obj.mode) && OwnerWrites(obj.mode)
  }

  /** What exists on the way to a path is a usable directory, and so is everything above it. */
  predicate ClearWay(fs: FS, p: Path) {
    && [] in fs.objs
    && (forall k :: 0 <= k <= |p| && p[..k] in fs.objs ==> Usable(fs.objs[p[..k]]))
    && (forall j, k :: 0 <= j <= k <= |p| && p[..k] in fs.objs ==> p[..j] in fs.objs)
  }

  /** `made` is `fs` with the missing directories down to `p`. */
  ghost predicate Made(fs: FS, made: FS, p: Path) {
    && (forall q :: q in made.objs <==> q in fs.objs || q <= p)
    && (forall q :: q in fs.objs ==> made.objs[q] == fs.objs[q])
    && (forall q :: q in made.objs && q !in fs.objs ==> made.objs[q] == DirObj(DIR_MODE))
    && made.inodes == fs.inodes && made.next == fs.next
  }

  lemma PrefixOfInit(q: Path, p: Path)
    requires p != []
    ensures q <= p <==> q <= p[..|p| - 1] || q == p
  {
    if q <= p && q != p {
      assert q == p[..|q|] == p[..|p| - 1][..|q|];
    }
  }

  lemma {:induction false} MkdirAllMakes(fs: FS, p: Path)
    requires ClearWay(fs, p)
    ensures MkdirAll(fs, p).Some? && Made(fs, MkdirAll(fs, p).value, p)
    decreases |p|
  {
    assert p[..|p|] == p;
    if p in fs.objs {
      forall q | q <= p
        ensures q in fs.objs
      {
        assert q == p[..|q|];
      }
    } else {
      assert p != [];
      var init := p[..|p| - 1];
      assert forall k :: 0 <= k <= |init| ==> init[..k] == p[..k];
      MkdirAllMakes(fs, init);
      var up := MkdirAll(fs, init).value;
      forall k | 0 <= k < |p|
        ensures p[..k] in up.objs && Usable(up.objs[p[..k]])
      {
        assert p[..k] == init[..k] && init[..k] <= init;
      }
      var made := up.(objs := up.objs[p := DirObj(DIR_MODE)]);
      assert MkdirAll(fs, p) == Some(made);
      forall q
        ensures q in made.objs <==> q in fs.objs || q <= p
      {
        PrefixOfInit(q, p);
      }
    }
  }

  /** After its parent was made a missing path can be created. */
  lemma ParentMade(fs: FS, p: Path)
    requires p != [] && ClearWay(fs, Parent(p))
    ensures MkdirAll(fs, Parent(p)).Some?
    ensures var up := MkdirAll(fs, Parent(p)).value; Made(fs, up, Parent(p)) && MayChange(up, p)
  {
    MkdirAllMakes(fs, Parent(p));
    var up := MkdirAll(fs, Parent(p)).value;
    var init := p[..|p| - 1];
    forall k | 0 <= k < |p|
      ensures p[..k] in up.objs && Usable(up.objs[p[..k]])
    {
      assert p[..k] == init[..k] && init[..k] <= init;
    }
  }

  // ---------------------------------------------------------------------------
  // The target directory after some entries
  // ---------------------------------------------------------------------------

  predicate Above(out: seq<Entry>, n: nat, p: Path) {
    exists j :: 0 <= j < n && j < |out| && p <= out[j].name
  }

  ghost predicate Built(fs: FS, out: seq<Entry>, n: nat, flat: map<Path, Item>) {
    PathsAre(fs, out, n) && AllStanding(fs, flat) && InodesAgree(fs, flat)
  }

  ghost predicate PathsAre(fs: FS, out: seq<Entry>, n: nat) {
    (forall p :: p in fs.objs <==> p == [] || Above(out, n, p)) && Usable(fs.objs[[]])
  }

  ghost predicate AllStanding(fs: FS, flat: map<Path, Item>) {
    forall p :: p in fs.objs ==> Standing(fs, p, flat)
  }

  /** Two files share an inode exactly when they did at the source. */
  ghost predicate InodesAgree(fs: FS, flat: map<Path, Item>) {
    forall p, q :: BothFiles(fs, flat, p, q) ==> (fs.objs[p].ino == fs.objs[q].ino <==> flat[p].ino == flat[q].ino)
  }

  predicate BothFiles(fs: FS, flat: map<Path, Item>, p: Path, q: Path) {
    && p in fs.objs && fs.objs[p].FileObj? && p in flat && flat[p].FileItem?
    && q in fs.objs && fs.objs[q].FileObj? && q in flat && flat[q].FileItem?
  }

  /** A path of the target directory while modes of directories are still put off. */
  ghost predicate Standing(fs: FS, p: Path, flat: map<Path, Item>)
    requires p in fs.objs
  {
    if p == [] then true
    else if p !in flat || flat[p].DirItem? then fs.objs[p] == DirObj(DIR_MODE)
    else if flat[p].LinkItem? then fs.objs[p] == LinkObj(flat[p].target)
    else FileStands(fs, fs.objs[p], flat[p])
  }

  predicate FileStands(fs: FS, obj: Obj, item: Item)
    requires item.FileItem?
  {
    && obj.FileObj? && obj.ino < fs.next
    && obj.ino in fs.inodes && fs.inodes[obj.ino] == Inode(Perm(item.mode), item.data)
  }

  /** A path above an entry is no path of the forest or one of its directories. */
  lemma AboveIsDir(out: seq<Entry>, flat: map<Path, Item>, j: nat, p: Path)
    requires Describes(out, flat) && j < |out| && p <= out[j].name && p != out[j].name && p in flat && p != []
    ensures flat[p].DirItem? && ListedDir(out, j, p)
  {
    assert p == out[j].name[..|p|];
    assert ParentsListed(out, j, out[j].name, flat);
    var i :| 0 <= i < j && i < |out| && out[i].DirEntry? && out[i].name == p;
    assert EntryMatches(out, i, flat);
  }

  lemma NotYetThere(fs: FS, out: seq<Entry>, n: nat, flat: map<Path, Item>)
    requires Describes(out, flat) && Built(fs, out, n, flat) && n < |out|
    ensures out[n].name !in fs.objs
  {
    var name := out[n].name;
    assert EntryMatches(out, n, flat);
    if Above(out, n, name) {
      var j :| 0 <= j < n && j < |out| && name <= out[j].name;
      assert out[j].name != name;
      AboveIsDir(out, flat, j, name);
    }
  }

  lemma WayIsUsable(fs: FS, out: seq<Entry>, n: nat, flat: map<Path, Item>, j: nat, p: Path, k: nat)
    requires Describes(out, flat) && Built(fs, out, n, flat) && j < |out|
    requires p <= out[j].name && (p == out[j].name ==> out[j].DirEntry?)
    requires k <= |p| && p[..k] in fs.objs
    ensures Usable(fs.objs[p[..k]])
  {
    hide Describes;
    var q := p[..k];
    assert q <= out[j].name;
    assert Standing(fs, q, flat);
    if q in flat && q != [] {
      if q != out[j].name {
        AboveIsDir(out, flat, j, q);
      } else {
        DirEntryIsDir(out, j, flat);
      }
    }
  }

  lemma DirEntryIsDir(out: seq<Entry>, n: nat, flat: map<Path, Item>)
    requires Describes(out, flat) && n < |out| && out[n].DirEntry?
    ensures out[n].name in flat && flat[out[n].name] == DirItem(out[n].mode)
  {
    assert EntryMatches(out, n, flat);
  }

  lemma WayIsClear(fs: FS, out: seq<Entry>, n: nat, flat: map<Path, Item>, p: Path)
    requires Describes(out, flat) && Built(fs, out, n, flat) && n < |out|
    requires p <= out[n].name && (p == out[n].name ==> out[n].DirEntry?)
    ensures ClearWay(fs, p)
  {
    hide Describes, Usable, Standing, AllStanding, InodesAgree;
    forall k | 0 <= k <= |p| && p[..k] in fs.objs
      ensures Usable(fs.objs[p[..k]])
    {
      WayIsUsable(fs, out, n, flat, n, p, k);
    }
    forall j, k | 0 <= j <= k <= |p| && p[..k] in fs.objs
      ensures p[..j] in fs.objs
    {
      if p[..k] != [] {
        var i :| 0 <= i < n && i < |out| && p[..k] <= out[i].name;
        assert p[..j] <= out[i].name;
      }
    }
  }

  /** Files of the forest that are there were listed themselves. */
  lemma FileWasListed(fs: FS, out: seq<Entry>, n: nat, flat: map<Path, Item>, p: Path) returns (j: nat)
    requires Describes(out, flat) && Built(fs, out, n, flat) && p in fs.objs && p in flat && flat[p].FileItem?
    ensures j < n && j < |out| && out[j].name == p
  {
    assert p != [];
    assert Above(out, n, p);
    j :| 0 <= j < n && j < |out| && p <= out[j].name;
    if out[j].name != p {
      AboveIsDir(out, flat, j, p);
    }
  }

  lemma AboveMore(out: seq<Entry>, n: nat, p: Path)
    requires n < |out|
    ensures Above(out, n + 1, p) <==> Above(out, n, p) || p <= out[n].name
  {
    if Above(out, n, p) {
      var j :| 0 <= j < n && j < |out| && p <= out[j].name;
      assert Above(out, n + 1, p);
    }
    if Above(out, n + 1, p) {
      var j :| 0 <= j < n + 1 && j < |out| && p <= out[j].name;
      assert j == n || Above(out, n, p);
    }
  }

  // ---------------------------------------------------------------------------
  // One entry
  // ---------------------------------------------------------------------------

  /** `next` adds to `fs` the path of entry `n` and the missing directories above it. */
  ghost predicate Adds(fs: FS, next: FS, out: seq<Entry>, n: nat)
    requires n < |out|
  {
    && (forall q :: q in next.objs <==> q in fs.objs || q <= out[n].name)
    && (forall q :: q in fs.objs ==> next.objs[q] == fs.objs[q])
    && (forall q :: q in next.objs && q !in fs.objs && q != out[n].name ==> next.objs[q] == DirObj(DIR_MODE))
    && fs.next <= next.next
    && (forall i :: i in fs.inodes && i < fs.next ==> i in next.inodes && next.inodes[i] == fs.inodes[i])
  }

  lemma AddedPaths(fs: FS, next: FS, out: seq<Entry>, n: nat)
    requires n < |out| && out[n].name != [] && PathsAre(fs, out, n) && Adds(fs, next, out, n)
    ensures PathsAre(next, out, n + 1)
  {
    forall p
      ensures p in next.objs <==> p == [] || Above(out, n + 1, p)
    {
      AboveMore(out, n, p);
      assert [] <= out[n].name;
    }
  }

  lemma AddedStands(fs: FS, next: FS, out: seq<Entry>, n: nat, flat: map<Path, Item>)
    requires Describes(out, flat) && n < |out| && AllStanding(fs, flat) && Adds(fs, next, out, n)
    requires out[n].name in next.objs && Standing(next, out[n].name, flat)
    ensures AllStanding(next, flat)
  {
    hide Describes;
    forall p | p in next.objs
      ensures Standing(next, p, flat)
    {
      if p in fs.objs {
        assert Standing(fs, p, flat);
      } else if p != out[n].name && p in flat && p != [] {
        AboveIsDir(out, flat, n, p);
      }
    }
  }

  lemma AddedAgrees(fs: FS, next: FS, out: seq<Entry>, n: nat, flat: map<Path, Item>)
    requires n < |out| && InodesAgree(fs, flat) && Adds(fs, next, out, n)
    requires forall q :: q in fs.objs && BothFiles(next, flat, out[n].name, q) ==>
               (next.objs[out[n].name].ino == next.objs[q].ino <==> flat[out[n].name].ino == flat[q].ino)
    ensures InodesAgree(next, flat)
  {
    var name := out[n].name;
    forall p, q | BothFiles(next, flat, p, q)
      ensures next.objs[p].ino == next.objs[q].ino <==> flat[p].ino == flat[q].ino
    {
      if p in fs.objs && q in fs.objs {
        assert BothFiles(fs, flat, p, q);
      } else if p != q {
        assert BothFiles(next, flat, q, p);
        assert p == name || p in fs.objs;
        assert q == name || q in fs.objs;
      }
    }
  }

  lemma AddedIsBuilt(fs: FS, next: FS, out: seq<Entry>, n: nat, flat: map<Path, Item>)
    requires Describes(out, flat) && n < |out| && Built(fs, out, n, flat) && Adds(fs, next, out, n)
    requires out[n].name in next.objs && Standing(next, out[n].name, flat)
    requires forall q :: q in fs.objs && BothFiles(next, flat, out[n].name, q) ==>
               (next.objs[out[n].name].ino == next.objs[q].ino <==> flat[out[n].name].ino == flat[q].ino)
    ensures Built(next, out, n + 1, flat)
  {
    assert out[n].name != [];
    hide Describes, Adds, PathsAre, AllStanding, InodesAgree, Standing, BothFiles;
    AddedPaths(fs, next, out, n);
    AddedStands(fs, next, out, n, flat);
    AddedAgrees(fs, next, out, n, flat);
  }

  lemma DirStep(fs: FS, out: seq<Entry>, n: nat, flat: map<Path, Item>)
    requires Describes(out, flat) && n < |out| && Built(fs, out, n, flat) && out[n].DirEntry?
    ensures MkdirAll(fs, out[n].name).Some? && Built(MkdirAll(fs, out[n].name).value, out, n + 1, flat)
  {
    var name := out[n].name;
    NotYetThere(fs, out, n, flat);
    WayIsClear(fs, out, n, flat, name);
    MkdirAllMakes(fs, name);
    var next := MkdirAll(fs, name).value;
    assert EntryMatches(out, n, flat);
    assert name <= name && next.objs[name] == DirObj(DIR_MODE);
    hide Describes, Built, MkdirAll;
    AddedIsBuilt(fs, next, out, n, flat);
  }

  /** The parent of an entry's path exists and takes the new path. */
  lemma ReadyFor(fs: FS, out: seq<Entry>, n: nat, flat: map<Path, Item>)
    requires Describes(out, flat) && n < |out| && Built(fs, out, n, flat)
    ensures out[n].name != [] && MkdirAll(fs, Parent(out[n].name)).Some?
    ensures var up := MkdirAll(fs, Parent(out[n].name)).value;
      Made(fs, up, Parent(out[n].name)) && MayChange(up, out[n].name) && out[n].name !in up.objs
  {
    var name := out[n].name;
    assert name != [];
    NotYetThere(fs, out, n, flat);
    assert Parent(name) <= name && Parent(name) != name;
    WayIsClear(fs, out, n, flat, Parent(name));
    ParentMade(fs, name);
  }

  /** Creating the path itself completes it. */
  lemma CreatedAdds(fs: FS, up: FS, next: FS, out: seq<Entry>, n: nat, obj: Obj)
    requires n < |out| && out[n].name != [] && Made(fs, up, Parent(out[n].name)) && out[n].name !in up.objs
    requires next.objs == up.objs[out[n].name := obj] && fs.next <= next.next
    requires forall i :: i in fs.inodes && i < fs.next ==> i in next.inodes && next.inodes[i] == fs.inodes[i]
    ensures Adds(fs, next, out, n)
  {
    var name := out[n].name;
    forall q
      ensures q in next.objs <==> q in fs.objs || q <= name
    {
      PrefixOfInit(q, name);
    }
  }

  lemma LinkStep(fs: FS, out: seq<Entry>, n: nat, flat: map<Path, Item>)
    requires Describes(out, flat) && n < |out| && Built(fs, out, n, flat) && out[n].SymEntry?
    ensures MkdirAll(fs, Parent(out[n].name)).Some?
    ensures var next := Symlink(Remove(MkdirAll(fs, Parent(out[n].name)).value, out[n].name), out[n].name, out[n].target);
      next.Some? && Built(next.value, out, n + 1, flat)
  {
    var name := out[n].name;
    ReadyFor(fs, out, n, flat);
    var up := MkdirAll(fs, Parent(name)).value;
    assert EntryMatches(out, n, flat);
    var next := up.(objs := up.objs[name := LinkObj(out[n].target)]);
    CreatedAdds(fs, up, next, out, n, LinkObj(out[n].target));
    hide Describes, Built, MkdirAll, Adds, Made, MayChange;
    AddedIsBuilt(fs, next, out, n, flat);
  }

  lemma FileStep(fs: FS, out: seq<Entry>, n: nat, flat: map<Path, Item>)
    requires Describes(out, flat) && n < |out| && Built(fs, out, n, flat) && out[n].FileEntry?
    ensures MkdirAll(fs, Parent(out[n].name)).Some?
    ensures var next := WriteFile(MkdirAll(fs, Parent(out[n].name)).value, out[n].name, Perm(out[n].mode), out[n].data);
      next.Some? && Built(next.value, out, n + 1, flat)
  {
    ReadyFor(fs, out, n, flat);
    hide *;
    var up := MkdirAll(fs, Parent(out[n].name)).value;
    FileCreated(fs, up, out, n, flat);
    NewFile(up, out[n].name, Perm(out[n].mode), out[n].data);
  }

  lemma NewFile(fs: FS, p: Path, mode: nat, data: Bytes)
    requires p !in fs.objs && MayChange(fs, p)
    ensures WriteFile(fs, p, mode, data)
         == Some(FS(fs.objs[p := FileObj(fs.next)], fs.inodes[fs.next := Inode(mode, data)], fs.next + 1))
  {
  }

  lemma FileCreated(fs: FS, up: FS, out: seq<Entry>, n: nat, flat: map<Path, Item>)
    requires Describes(out, flat) && n < |out| && Built(fs, out, n, flat) && out[n].FileEntry?
    requires out[n].name != [] && Made(fs, up, Parent(out[n].name)) && out[n].name !in up.objs
    ensures var inode := Inode(Perm(out[n].mode), out[n].data);
      Built(FS(up.objs[out[n].name := FileObj(up.next)], up.inodes[up.next := inode], up.next + 1), out, n + 1, flat)
  {
    var name := out[n].name;
    assert name in flat && FileMatches(out[n], flat[name]) by { assert EntryMatches(out, n, flat); }
    hide Describes, Built, Perm, Parent;
    var obj := FileObj(up.next);
    var next := FS(up.objs[name := obj], up.inodes[up.next := Inode(Perm(out[n].mode), out[n].data)], up.next + 1);
    CreatedAdds(fs, up, next, out, n, obj);
    assert FileStands(next, obj, flat[name]);
    assert up.next == fs.next;
    hide Made, FileStands;
    forall q | q in fs.objs && BothFiles(next, flat, name, q)
      ensures next.objs[name].ino == next.objs[q].ino <==> flat[name].ino == flat[q].ino
    {
      OtherInode(fs, out, n, flat, q);
    }
    hide BothFiles, Adds;
    AddedIsBuilt(fs, next, out, n, flat);
  }

  predicate FileMatches(e: Entry, item: Item)
    requires e.FileEntry?
  {
    item.FileItem? && item.mode == e.mode && item.data == e.data
  }

  /** A file entry starts an inode that no file restored so far had at the source or has now. */
  lemma OtherInode(fs: FS, out: seq<Entry>, n: nat, flat: map<Path, Item>, q: Path)
    requires Describes(out, flat) && n < |out| && Built(fs, out, n, flat) && out[n].FileEntry?
    requires q in fs.objs && q in flat && flat[q].FileItem? && out[n].name in flat && flat[out[n].name].FileItem?
    ensures fs.objs[q].FileObj? && fs.objs[q].ino < fs.next && flat[q].ino != flat[out[n].name].ino
  {
    assert EntryMatches(out, n, flat);
    var j := FileWasListed(fs, out, n, flat, q);
    assert !SameInode(flat, out[j].name, flat[out[n].name].ino);
    assert q != [] && Standing(fs, q, flat);
  }

  lemma HardStep(fs: FS, out: seq<Entry>, n: nat, flat: map<Path, Item>)
    requires Describes(out, flat) && Consistent(flat) && n < |out| && Built(fs, out, n, flat) && out[n].HardEntry?
    ensures MkdirAll(fs, Parent(out[n].name)).Some?
    ensures var next := HardLink(Remove(MkdirAll(fs, Parent(out[n].name)).value, out[n].name), out[n].first, out[n].name);
      next.Some? && Built(next.value, out, n + 1, flat)
  {
    var (name, first) := (out[n].name, out[n].first);
    ReadyFor(fs, out, n, flat);
    var up := MkdirAll(fs, Parent(name)).value;
    FirstIsThere(fs, up, out, n, flat);
    var next := up.(objs := up.objs[name := up.objs[first]]);
    CreatedAdds(fs, up, next, out, n, up.objs[first]);
    forall q | q in fs.objs && BothFiles(next, flat, name, q)
      ensures next.objs[name].ino == next.objs[q].ino <==> flat[name].ino == flat[q].ino
    {
      assert BothFiles(fs, flat, first, q);
    }
    hide Describes, MkdirAll, Made, MayChange, Consistent;
    AddedIsBuilt(fs, next, out, n, flat);
  }

  /** The file a hard link names is there, can be reached and is the source's file. */
  lemma FirstIsThere(fs: FS, up: FS, out: seq<Entry>, n: nat, flat: map<Path, Item>)
    requires Describes(out, flat) && Consistent(flat) && n < |out| && Built(fs, out, n, flat) && out[n].HardEntry?
    requires Made(fs, up, Parent(out[n].name))
    ensures var (name, first) := (out[n].name, out[n].first);
      && name in flat && first in flat && flat[first].FileItem? && flat[name] == flat[first]
      && first in fs.objs && first in up.objs && FileStands(fs, fs.objs[first], flat[first]) && Reachable(up, first)
  {
    var (name, first) := (out[n].name, out[n].first);
    assert EntryMatches(out, n, flat);
    var j :| 0 <= j < n && j < |out| && out[j].FileEntry? && out[j].name == first;
    assert first <= out[j].name && first != [] && Above(out, n, first);
    assert Standing(fs, first, flat);
    forall k | 0 <= k < |first|
      ensures first[..k] in fs.objs && Usable(fs.objs[first[..k]])
    {
      assert first[..k] <= out[j].name && Above(out, n, first[..k]);
      assert first[..k][..k] == first[..k];
      WayIsUsable(fs, out, n, flat, j, first[..k], k);
    }
  }

  // ---------------------------------------------------------------------------
  // All entries
  // ---------------------------------------------------------------------------

  predicate EntryStaysInside(root: Path, e: Entry) {
    e.SymEntry? ==> LinkStaysInside(root, Parent(e.name), e.target)
  }

  /** The directories of an archive with the modes they are to get, in its order. */
  function DirsOf(out: seq<Entry>): seq<Deferred> {
    if out == [] then []
    else
      var e := out[|out| - 1];
      DirsOf(out[..|out| - 1]) + (if e.DirEntry? then [Deferred(e.name, e.mode)] else [])
  }

  lemma ExtractStep(root: Path, s: Extracting, out: seq<Entry>, n: nat, flat: map<Path, Item>)
    requires Describes(out, flat) && Consistent(flat) && n < |out| && Built(s.fs, out, n, flat)
    requires forall p :: p in flat ==> ProperPath(p)
    ensures EntryStaysInside(root, out[n]) <==> Extract(root, s, out[n]).Some?
    ensures Extract(root, s, out[n]).Some? ==>
      var t := Extract(root, s, out[n]).value;
      Built(t.fs, out, n + 1, flat)
      && t.dirs == s.dirs + (if out[n].DirEntry? then [Deferred(out[n].name, out[n].mode)] else [])
  {
    assert out[n].name in flat && (out[n].HardEntry? ==> out[n].first in flat) by { assert EntryMatches(out, n, flat); }
    hide Describes, Built, Consistent, MkdirAll, WriteFile, Symlink, Remove, HardLink, LinkStaysInside, Clean, ProperPath;
    CleanKeepsProper(out[n].name);
    match out[n]
    case DirEntry(_, _) => DirStep(s.fs, out, n, flat);
    case FileEntry(_, _, _) => FileStep(s.fs, out, n, flat);
    case SymEntry(_, _) => LinkStep(s.fs, out, n, flat);
    case HardEntry(_, first) =>
      CleanKeepsProper(first);
      HardStep(s.fs, out, n, flat);
  }

  predicate AllInside(root: Path, out: seq<Entry>, n: nat) {
    forall j :: 0 <= j < n && j < |out| ==> EntryStaysInside(root, out[j])
  }

  lemma OneMore(root: Path, fs: FS, out: seq<Entry>, n: nat)
    requires n < |out|
    ensures AllInside(root, out, n + 1) <==> AllInside(root, out, n) && EntryStaysInside(root, out[n])
    ensures var before := ExtractAll(root, fs, out[..n]);
      ExtractAll(root, fs, out[..n + 1]) == if before.None? then None else Extract(root, before.value, out[n])
    ensures DirsOf(out[..n + 1])
         == DirsOf(out[..n]) + (if out[n].DirEntry? then [Deferred(out[n].name, out[n].mode)] else [])
  {
    hide Extract, EntryStaysInside;
    var more := out[..n + 1];
    assert more[..n] == out[..n] && more[n] == out[n] && |more| == n + 1;
  }

  lemma {:induction false} ExtractsPrefix(root: Path, fs: FS, out: seq<Entry>, n: nat, flat: map<Path, Item>)
    requires Describes(out, flat) && Consistent(flat) && n <= |out| && Built(fs, out, 0, flat)
    requires forall p :: p in flat ==> ProperPath(p)
    ensures ExtractAll(root, fs, out[..n]).Some? <==> AllInside(root, out, n)
    ensures ExtractAll(root, fs, out[..n]).Some? ==>
      var s := ExtractAll(root, fs, out[..n]).value;
      Built(s.fs, out, n, flat) && s.dirs == DirsOf(out[..n])
  {
    if n == 0 {
      hide Describes, Consistent, Built;
      assert out[..n] == [];
    } else {
      hide *;
      ExtractsPrefix(root, fs, out, n - 1, flat);
      OneMore(root, fs, out, n - 1);
      var before := ExtractAll(root, fs, out[..n - 1]);
      if before.Some? {
        ExtractStep(root, before.value, out, n - 1, flat);
        assert ExtractAll(root, fs, out[..n]) == Extract(root, before.value, out[n - 1]);
      }
    }
  }

  // ---------------------------------------------------------------------------
  // The modes put off
  // ---------------------------------------------------------------------------

  ghost predicate ParentsFirst(dirs: seq<Deferred>) {
    forall i, j :: 0 <= i < j < |dirs| ==> !(dirs[j].path <= dirs[i].path)
  }

  ghost predicate Listed(dirs: seq<Deferred>, p: Path) {
    exists i :: 0 <= i < |dirs| && dirs[i].path == p
  }

  lemma StillReachable(fs: FS, p: Path, mode: nat, q: Path)
    requires Reachable(fs, q) && !(p <= q)
    ensures Reachable(Chmod(fs, p, mode), q)
  {
    assert forall k :: 0 <= k < |q| ==> q[..k] <= q;
  }

  lemma ListedInPrefix(dirs: seq<Deferred>, p: Path)
    requires dirs != []
    ensures Listed(dirs[..|dirs| - 1], p) ==> Listed(dirs, p)
  {
    assert forall i :: 0 <= i < |dirs| - 1 ==> dirs[..|dirs| - 1][i] == dirs[i];
  }

  /** `done` is `fs` with the modes of `dirs`. */
  ghost predicate ModesDone(fs: FS, done: FS, dirs: seq<Deferred>) {
    && done.inodes == fs.inodes && done.next == fs.next && done.objs.Keys == fs.objs.Keys
    && (forall p :: p in fs.objs && !Listed(dirs, p) ==> done.objs[p] == fs.objs[p])
    && (forall i :: 0 <= i < |dirs| ==> dirs[i].path in done.objs && done.objs[dirs[i].path] == DirObj(Perm(dirs[i].mode)))
  }

  /** Directories that exist and can be reached. */
  ghost predicate Ready(fs: FS, dirs: seq<Deferred>) {
    forall i :: 0 <= i < |dirs| ==>
      dirs[i].path in fs.objs && fs.objs[dirs[i].path].DirObj? && Reachable(fs, dirs[i].path)
  }

  /** Setting the last mode leaves the directories before it reachable: none lies below it. */
  lemma StillReady(fs: FS, dirs: seq<Deferred>)
    requires ParentsFirst(dirs) && Ready(fs, dirs) && dirs != []
    ensures var last := dirs[|dirs| - 1];
      Ready(Chmod(fs, last.path, Perm(last.mode)), dirs[..|dirs| - 1])
      && Chmod(fs, last.path, Perm(last.mode)) == fs.(objs := fs.objs[last.path := DirObj(Perm(last.mode))])
  {
    hide Perm, Reachable;
    var (last, init) := (dirs[|dirs| - 1], dirs[..|dirs| - 1]);
    forall i | 0 <= i < |init|
      ensures Reachable(Chmod(fs, last.path, Perm(last.mode)), init[i].path)
    {
      assert init[i] == dirs[i] && !(last.path <= dirs[i].path);
      StillReachable(fs, last.path, Perm(last.mode), dirs[i].path);
    }
  }

  lemma OneModeMore(fs: FS, next: FS, done: FS, dirs: seq<Deferred>)
    requires ParentsFirst(dirs) && dirs != []
    requires var last := dirs[|dirs| - 1];
      last.path in fs.objs && next == fs.(objs := fs.objs[last.path := DirObj(Perm(last.mode))])
    requires ModesDone(next, done, dirs[..|dirs| - 1])
    ensures ModesDone(fs, done, dirs)
  {
    hide Perm;
    var (last, init) := (dirs[|dirs| - 1], dirs[..|dirs| - 1]);
    assert forall i :: 0 <= i < |init| ==> init[i] == dirs[i];
    assert !Listed(init, last.path) by { assert last.path <= last.path; }
    assert done.objs[last.path] == DirObj(Perm(last.mode));
    forall p | p in fs.objs && !Listed(dirs, p)
      ensures done.objs[p] == fs.objs[p]
    {
      assert dirs[|dirs| - 1].path == last.path;
      ListedInPrefix(dirs, p);
    }
  }

  /** From the last to the first each mode can be set: the directories above are still open. */
  lemma {:induction false} ModesAreSet(fs: FS, dirs: seq<Deferred>)
    requires ParentsFirst(dirs) && Ready(fs, dirs)
    ensures ModesDone(fs, SetModes(fs, dirs), dirs)
    decreases |dirs|
  {
    if dirs != [] {
      StillReady(fs, dirs);
      var (last, init) := (dirs[|dirs| - 1], dirs[..|dirs| - 1]);
      var next := Chmod(fs, last.path, Perm(last.mode));
      assert ParentsFirst(init) && last.path in fs.objs;
      hide Perm, Chmod, ModesDone, Ready, ParentsFirst;
      ModesAreSet(next, init);
      OneModeMore(fs, next, SetModes(fs, dirs), dirs);
    }
  }

  // ---------------------------------------------------------------------------
  // The same for a list in any order
  // ---------------------------------------------------------------------------

  ghost predicate DistinctPaths(dirs: seq<Deferred>) {
    forall i, j :: 0 <= i < j < |dirs| ==> dirs[i].path != dirs[j].path
  }

  predicate IsDir(fs: FS, p: Path) {
    p in fs.objs && fs.objs[p].DirObj?
  }

  ghost predicate BelowDirs(fs: FS, p: Path) {
    forall k :: 0 <= k < |p| ==> IsDir(fs, p[..k])
  }

  predicate ClosedAbove(above: Deferred, p: Path) {
    above.path < p && !OwnerExecutes(Perm(above.mode))
  }

  /** A directory listed after `i`, so handled before it, lies above it and is closed by its own mode. */
  ghost predicate Shut(dirs: seq<Deferred>, i: nat)
    requires i < |dirs|
  {
    exists j :: i < j < |dirs| && ClosedAbove(dirs[j], dirs[i].path)
  }

  predicate OpenFor(fs: FS, above: Path, p: Path) {
    above < p && above in fs.objs && fs.objs[above].DirObj? ==> OwnerExecutes(fs.objs[above].mode)
  }

  /** Directories below directories, those with a listed one below them open; one closed earlier may stand above them all. */
  ghost predicate Pending(fs: FS, dirs: seq<Deferred>) {
    && (forall i :: 0 <= i < |dirs| ==> IsDir(fs, dirs[i].path) && BelowDirs(fs, dirs[i].path))
    && (forall i, j :: 0 <= i < |dirs| && 0 <= j < |dirs| ==> OpenFor(fs, dirs[j].path, dirs[i].path))
  }

  ghost predicate SetUnlessShut(fs: FS, done: FS, dirs: seq<Deferred>, i: nat)
    requires i < |dirs|
  {
    var d := dirs[i];
    d.path in fs.objs && d.path in done.objs && done.objs[d.path] ==
      if Reachable(fs, d.path) && !Shut(dirs, i) then DirObj(Perm(d.mode)) else fs.objs[d.path]
  }

  /** Setting a directory's mode can close what lies below it, and changes the reach of nothing else. */
  lemma ChmodReaches(fs: FS, d: Deferred, p: Path)
    requires IsDir(fs, d.path) && p != d.path && BelowDirs(fs, p) && OpenFor(fs, d.path, p)
    ensures var next := Chmod(fs, d.path, Perm(d.mode));
            Reachable(next, p) <==> Reachable(fs, p) && !ClosedAbove(d, p)
  {
    hide Perm, OwnerExecutes;
    if d.path < p {
      assert p[..|d.path|] == d.path;
      assert forall k :: 0 <= k < |d.path| ==> d.path[..k] == p[..k];
    }
  }

  lemma ChmodKeeps(fs: FS, d: Deferred, q: Path)
    requires q in fs.objs
    ensures var next := Chmod(fs, d.path, Perm(d.mode));
            q in next.objs && (q != d.path ==> next.objs[q] == fs.objs[q]) && (IsDir(fs, q) ==> IsDir(next, q))
  {
    hide Perm, Reachable;
  }

  lemma StillPending(fs: FS, dirs: seq<Deferred>)
    requires DistinctPaths(dirs) && Pending(fs, dirs) && dirs != []
    ensures var last := dirs[|dirs| - 1];
            Pending(Chmod(fs, last.path, Perm(last.mode)), dirs[..|dirs| - 1])
  {
    hide Perm, Reachable, OwnerExecutes, Chmod;
    var (last, init) := (dirs[|dirs| - 1], dirs[..|dirs| - 1]);
    var next := Chmod(fs, last.path, Perm(last.mode));
    forall i | 0 <= i < |init|
      ensures IsDir(next, init[i].path) && BelowDirs(next, init[i].path)
    {
      assert init[i] == dirs[i];
      ChmodKeeps(fs, last, init[i].path);
      forall k | 0 <= k < |init[i].path|
        ensures IsDir(next, init[i].path[..k])
      {
        assert IsDir(fs, init[i].path[..k]);
        ChmodKeeps(fs, last, init[i].path[..k]);
      }
    }
    forall i, j | 0 <= i < |init| && 0 <= j < |init|
      ensures OpenFor(next, init[j].path, init[i].path)
    {
      assert init[i] == dirs[i] && init[j] == dirs[j];
      assert OpenFor(fs, dirs[j].path, dirs[i].path);
      ChmodKeeps(fs, last, init[j].path);
    }
  }

  lemma ShutByOneMore(dirs: seq<Deferred>, i: nat)
    requires i < |dirs| - 1
    ensures Shut(dirs, i) <==> Shut(dirs[..|dirs| - 1], i) || ClosedAbove(dirs[|dirs| - 1], dirs[i].path)
  {
    hide ClosedAbove;
    var init := dirs[..|dirs| - 1];
    assert forall j :: 0 <= j < |init| ==> init[j] == dirs[j];
    if Shut(init, i) {
      var j :| i < j < |init| && ClosedAbove(init[j], init[i].path);
      assert ClosedAbove(dirs[j], dirs[i].path);
    }
  }

  lemma {:induction false} UnlistedUnchanged(fs: FS, dirs: seq<Deferred>, p: Path)
    requires p in fs.objs && !Listed(dirs, p)
    ensures p in SetModes(fs, dirs).objs && SetModes(fs, dirs).objs[p] == fs.objs[p]
    decreases |dirs|
  {
    if dirs != [] {
      hide Perm, Chmod;
      var last := dirs[|dirs| - 1];
      ListedInPrefix(dirs, p);
      ChmodKeeps(fs, last, p);
      UnlistedUnchanged(Chmod(fs, last.path, Perm(last.mode)), dirs[..|dirs| - 1], p);
    }
  }

  lemma {:induction false} PendingModes(fs: FS, dirs: seq<Deferred>, i: nat)
    requires DistinctPaths(dirs) && Pending(fs, dirs) && i < |dirs|
    ensures SetUnlessShut(fs, SetModes(fs, dirs), dirs, i)
    decreases |dirs|
  {
    var (last, init) := (dirs[|dirs| - 1], dirs[..|dirs| - 1]);
    var next := Chmod(fs, last.path, Perm(last.mode));
    assert IsDir(fs, dirs[i].path);
    if i == |dirs| - 1 {
      assert !Listed(init, last.path);
      ChmodKeeps(fs, last, last.path);
      hide Perm, Reachable, Pending;
      UnlistedUnchanged(next, init, last.path);
    } else {
      StillPending(fs, dirs);
      assert init[i] == dirs[i] && DistinctPaths(init);
      assert BelowDirs(fs, dirs[i].path) && OpenFor(fs, last.path, dirs[i].path);
      ChmodReaches(fs, last, dirs[i].path);
      ChmodKeeps(fs, last, dirs[i].path);
      ShutByOneMore(dirs, i);
      hide Perm, Chmod, Pending, DistinctPaths, Reachable, Shut, ClosedAbove;
      PendingModes(next, init, i);
    }
  }

  lemma ReadyIsPending(fs: FS, dirs: seq<Deferred>)
    requires Ready(fs, dirs)
    ensures Pending(fs, dirs)
  {
    forall i, j | 0 <= i < |dirs| && 0 <= j < |dirs|
      ensures OpenFor(fs, dirs[j].path, dirs[i].path)
    {
      if dirs[j].path < dirs[i].path {
        assert dirs[i].path[..|dirs[j].path|] == dirs[j].path;
      }
    }
  }

  /**
   * However the directories are listed, even a child before its parent, each gets its mode exactly when no
   * directory above it that is listed later is closed by its own mode; those shut out keep the mode they had.
   */
  lemma ModeIsSetExactlyUnlessShut(fs: FS, dirs: seq<Deferred>, i: nat)
    requires DistinctPaths(dirs) && Ready(fs, dirs) && i < |dirs|
    ensures var (d, done) := (dirs[i], SetModes(fs, dirs));
            && d.path in done.objs
            && done.objs[d.path] == if Shut(dirs, i) then fs.objs[d.path] else DirObj(Perm(d.mode))
  {
    ReadyIsPending(fs, dirs);
    PendingModes(fs, dirs, i);
  }

  function Reversed(dirs: seq<Deferred>): (r: seq<Deferred>)
    ensures |r| == |dirs|
  {
    seq(|dirs|, i requires 0 <= i < |dirs| => dirs[|dirs| - 1 - i])
  }

  /** The other order: the modes are set from the first directory listed to the last. */
  function SetModesDown(fs: FS, dirs: seq<Deferred>): FS
    decreases |dirs|
  {
    if dirs == [] then fs else SetModesDown(Chmod(fs, dirs[0].path, Perm(dirs[0].mode)), dirs[1..])
  }

  lemma {:induction false} DownIsUpReversed(fs: FS, dirs: seq<Deferred>)
    ensures SetModesDown(fs, dirs) == SetModes(fs, Reversed(dirs))
    decreases |dirs|
  {
    if dirs != [] {
      hide Chmod, Perm;
      assert Reversed(dirs)[..|dirs| - 1] == Reversed(dirs[1..]);
      DownIsUpReversed(Chmod(fs, dirs[0].path, Perm(dirs[0].mode)), dirs[1..]);
    }
  }

  ghost predicate ClosedBySome(dirs: seq<Deferred>, p: Path) {
    exists j :: 0 <= j < |dirs| && ClosedAbove(dirs[j], p)
  }

  lemma ReversedIsReady(fs: FS, dirs: seq<Deferred>)
    requires ParentsFirst(dirs) && Ready(fs, dirs)
    ensures DistinctPaths(Reversed(dirs)) && Ready(fs, Reversed(dirs))
  {
    hide Reachable;
    var rev := Reversed(dirs);
    forall i, j | 0 <= i < j < |rev|
      ensures rev[i].path != rev[j].path
    {
      assert !(dirs[|dirs| - 1 - i].path <= dirs[|dirs| - 1 - j].path);
    }
  }

  lemma ReversedShut(dirs: seq<Deferred>, i: nat)
    requires ParentsFirst(dirs) && i < |dirs|
    ensures Shut(Reversed(dirs), |dirs| - 1 - i) <==> ClosedBySome(dirs, dirs[i].path)
  {
    hide OwnerExecutes, Perm;
    var rev := Reversed(dirs);
    if ClosedBySome(dirs, dirs[i].path) {
      var j :| 0 <= j < |dirs| && ClosedAbove(dirs[j], dirs[i].path);
      assert dirs[j].path <= dirs[i].path && j != i;
      assert j < i;
      assert ClosedAbove(rev[|dirs| - 1 - j], dirs[i].path);
    }
    if Shut(rev, |dirs| - 1 - i) {
      var k :| |dirs| - 1 - i < k < |rev| && ClosedAbove(rev[k], rev[|dirs| - 1 - i].path);
      assert ClosedAbove(dirs[|dirs| - 1 - k], dirs[i].path);
    }
  }

  /**
   * Why the modes are set backwards: forwards, an archive's directories below one that its own mode closes
   * would all keep the mode they were created with, and only they.
   */
  lemma SetFromTheTopModesAreLost(fs: FS, dirs: seq<Deferred>, i: nat)
    requires ParentsFirst(dirs) && Ready(fs, dirs) && i < |dirs|
    ensures var (d, done) := (dirs[i], SetModesDown(fs, dirs));
            && d.path in done.objs
            && done.objs[d.path] == if ClosedBySome(dirs, d.path) then fs.objs[d.path] else DirObj(Perm(d.mode))
  {
    DownIsUpReversed(fs, dirs);
    ReversedIsReady(fs, dirs);
    ReversedShut(dirs, i);
    var k := |dirs| - 1 - i;
    assert Reversed(dirs)[k] == dirs[i];
    hide *;
    ModeIsSetExactlyUnlessShut(fs, Reversed(dirs), k);
  }

  lemma {:induction false} DirsAreDirEntries(out: seq<Entry>, d: Deferred)
    ensures d in DirsOf(out) <==> DirEntry(d.path, d.mode) in out
  {
    if out != [] {
      var (last, init) := (out[|out| - 1], out[..|out| - 1]);
      DirsAreDirEntries(init, d);
      assert out == init + [last];
    }
  }

  lemma {:induction false} DirsAreParentsFirst(out: seq<Entry>, n: nat, flat: map<Path, Item>)
    requires Describes(out, flat) && n <= |out|
    ensures ParentsFirst(DirsOf(out[..n]))
  {
    if n > 0 {
      DirsAreParentsFirst(out, n - 1, flat);
      var (init, all, e) := (DirsOf(out[..n - 1]), DirsOf(out[..n]), out[n - 1]);
      assert out[..n][..n - 1] == out[..n - 1];
      if e.DirEntry? {
        assert all == init + [Deferred(e.name, e.mode)];
        forall i | 0 <= i < |init|
          ensures !(e.name <= init[i].path)
        {
          DirsAreDirEntries(out[..n - 1], init[i]);
          var j :| 0 <= j < n - 1 && out[..n - 1][j] == DirEntry(init[i].path, init[i].mode);
          NotAboveEarlier(out, flat, j, n - 1);
        }
        hide Describes, DirsOf;
      }
    }
  }

  /** A later directory is not above an earlier entry. */
  lemma NotAboveEarlier(out: seq<Entry>, flat: map<Path, Item>, j: nat, k: nat)
    requires Describes(out, flat) && j < k < |out|
    ensures !(out[k].name <= out[j].name)
  {
    assert out[j].name != out[k].name && EntryMatches(out, k, flat) && out[k].name != [];
    if out[k].name <= out[j].name {
      AboveIsDir(out, flat, j, out[k].name);
    }
  }

  lemma NameReachable(fs: FS, out: seq<Entry>, flat: map<Path, Item>, j: nat)
    requires Describes(out, flat) && Built(fs, out, |out|, flat) && j < |out|
    ensures out[j].name in fs.objs && Reachable(fs, out[j].name)
  {
    var name := out[j].name;
    assert Above(out, |out|, name);
    forall k | 0 <= k < |name|
      ensures name[..k] in fs.objs && Usable(fs.objs[name[..k]])
    {
      assert name[..k] <= name && Above(out, |out|, name[..k]) && name[..k][..k] == name[..k];
      WayIsUsable(fs, out, |out|, flat, j, name[..k], k);
    }
  }

  // ---------------------------------------------------------------------------
  // The round trip
  // ---------------------------------------------------------------------------

  /** An empty target directory its owner may use. */
  ghost predicate EmptyTarget(fs: FS) {
    fs.objs.Keys == {[]} && Usable(fs.objs[[]])
  }

  /** Names, bytes, permissions, link texts and hard-link identity are those of the forest; nothing else is there but directories on the way. */
  ghost predicate Rebuilt(fs: FS, flat: map<Path, Item>) {
    PathsRebuilt(fs, flat) && AllMirror(fs, flat) && OthersAreDirs(fs, flat) && InodesAgree(fs, flat)
  }

  ghost predicate PathsRebuilt(fs: FS, flat: map<Path, Item>) {
    forall p :: p in fs.objs <==> p == [] || exists q :: q in flat && p <= q
  }

  ghost predicate AllMirror(fs: FS, flat: map<Path, Item>) {
    forall p :: p in flat ==> p in fs.objs && Mirrors(fs, fs.objs[p], flat[p])
  }

  ghost predicate OthersAreDirs(fs: FS, flat: map<Path, Item>) {
    forall p :: p in fs.objs && p !in flat && p != [] ==> fs.objs[p] == DirObj(DIR_MODE)
  }

  predicate Mirrors(fs: FS, obj: Obj, item: Item) {
    match item
    case DirItem(mode) => obj == DirObj(Perm(mode))
    case LinkItem(target) => obj == LinkObj(target)
    case FileItem(_, _, _, _) => FileStands(fs, obj, item)
  }

  /** Every symbolic link of a forest would be accepted. */
  ghost predicate LinksStayInside(root: Path, flat: map<Path, Item>) {
    forall p :: p in flat && flat[p].LinkItem? ==> LinkStaysInside(root, Parent(p), flat[p].target)
  }

  lemma InsideMeansInside(root: Path, out: seq<Entry>, flat: map<Path, Item>)
    requires Describes(out, flat)
    ensures AllInside(root, out, |out|) <==> LinksStayInside(root, flat)
  {
    hide LinkStaysInside;
    if AllInside(root, out, |out|) {
      forall p | p in flat && flat[p].LinkItem?
        ensures LinkStaysInside(root, Parent(p), flat[p].target)
      {
        var j :| 0 <= j < |out| && out[j].name == p;
        assert EntryMatches(out, j, flat) && EntryStaysInside(root, out[j]);
      }
    }
    if LinksStayInside(root, flat) {
      forall j | 0 <= j < |out|
        ensures EntryStaysInside(root, out[j])
      {
        assert EntryMatches(out, j, flat);
      }
    }
  }

  lemma EmptyIsBuilt(fs: FS, out: seq<Entry>, flat: map<Path, Item>)
    requires EmptyTarget(fs)
    ensures Built(fs, out, 0, flat)
  {
    assert [] in fs.objs.Keys;
  }

  lemma DirIsStanding(fs: FS, out: seq<Entry>, flat: map<Path, Item>, d: Deferred)
    requires Describes(out, flat) && Built(fs, out, |out|, flat) && d in DirsOf(out)
    ensures d.path in flat && flat[d.path] == DirItem(d.mode)
    ensures d.path in fs.objs && fs.objs[d.path].DirObj? && Reachable(fs, d.path)
  {
    DirsAreDirEntries(out, d);
    var j :| 0 <= j < |out| && out[j] == DirEntry(d.path, d.mode);
    DirEntryIsDir(out, j, flat);
    NameReachable(fs, out, flat, j);
    assert Standing(fs, d.path, flat) && out[j].name != [];
  }

  lemma PathMirrors(fs: FS, done: FS, out: seq<Entry>, flat: map<Path, Item>, p: Path)
    requires Describes(out, flat) && Built(fs, out, |out|, flat) && ModesDone(fs, done, DirsOf(out)) && p in flat
    requires DirsAreItems(DirsOf(out), flat)
    ensures p in done.objs && Mirrors(done, done.objs[p], flat[p])
  {
    var dirs := DirsOf(out);
    var j :| 0 <= j < |out| && out[j].name == p;
    assert EntryMatches(out, j, flat) && p != [];
    NameReachable(fs, out, flat, j);
    assert Standing(fs, p, flat);
    if flat[p].DirItem? {
      DirsAreDirEntries(out, Deferred(p, flat[p].mode));
      var i :| 0 <= i < |dirs| && dirs[i] == Deferred(p, flat[p].mode);
      assert done.objs[dirs[i].path] == DirObj(Perm(dirs[i].mode));
    } else {
      assert !Listed(dirs, p);
    }
  }

  lemma PathsComplete(fs: FS, done: FS, out: seq<Entry>, flat: map<Path, Item>)
    requires Describes(out, flat) && PathsAre(fs, out, |out|) && done.objs.Keys == fs.objs.Keys
    ensures PathsRebuilt(done, flat)
  {
    forall p
      ensures p in done.objs <==> p == [] || exists q :: q in flat && p <= q
    {
      assert p in done.objs <==> p in fs.objs.Keys;
      if Above(out, |out|, p) {
        var j :| 0 <= j < |out| && p <= out[j].name;
        assert out[j].name in flat;
      }
      if q :| q in flat && p <= q {
        var j :| 0 <= j < |out| && out[j].name == q;
        assert Above(out, |out|, p);
      }
    }
  }

  lemma AgreeAfterModes(fs: FS, done: FS, flat: map<Path, Item>)
    requires InodesAgree(fs, flat) && done.objs.Keys == fs.objs.Keys
    requires forall p :: p in fs.objs && p in flat && flat[p].FileItem? ==> done.objs[p] == fs.objs[p]
    ensures InodesAgree(done, flat)
  {
    forall p, q | BothFiles(done, flat, p, q)
      ensures done.objs[p].ino == done.objs[q].ino <==> flat[p].ino == flat[q].ino
    {
      assert BothFiles(fs, flat, p, q);
    }
  }

  ghost predicate DirsAreItems(dirs: seq<Deferred>, flat: map<Path, Item>) {
    forall i :: 0 <= i < |dirs| ==> dirs[i].path in flat && flat[dirs[i].path] == DirItem(dirs[i].mode)
  }

  lemma ModesWork(fs: FS, out: seq<Entry>, flat: map<Path, Item>)
    requires Describes(out, flat) && Built(fs, out, |out|, flat)
    ensures ModesDone(fs, SetModes(fs, DirsOf(out)), DirsOf(out)) && DirsAreItems(DirsOf(out), flat)
  {
    hide Describes, Built, SetModes, DirsOf, ParentsFirst, Reachable;
    var dirs := DirsOf(out);
    assert out[..|out|] == out;
    DirsAreParentsFirst(out, |out|, flat);
    forall i | 0 <= i < |dirs|
      ensures dirs[i].path in flat && flat[dirs[i].path] == DirItem(dirs[i].mode)
      ensures dirs[i].path in fs.objs && fs.objs[dirs[i].path].DirObj? && Reachable(fs, dirs[i].path)
    {
      DirIsStanding(fs, out, flat, dirs[i]);
    }
    ModesAreSet(fs, dirs);
  }

  lemma ModesComplete(fs: FS, out: seq<Entry>, flat: map<Path, Item>)
    requires Describes(out, flat) && Built(fs, out, |out|, flat)
    ensures Rebuilt(SetModes(fs, DirsOf(out)), flat)
  {
    ModesWork(fs, out, flat);
    var (done, dirs) := (SetModes(fs, DirsOf(out)), DirsOf(out));
    FilesUnchanged(fs, done, dirs, flat);
    assert done.objs.Keys == fs.objs.Keys;
    hide SetModes, DirsOf, Describes, ModesDone, DirsAreItems, PathsAre, AllStanding, InodesAgree, Mirrors,
         PathsRebuilt, AllMirror, OthersAreDirs;
    PathsComplete(fs, done, out, flat);
    AgreeAfterModes(fs, done, flat);
    AllPathsMirror(fs, done, out, flat);
    OthersStand(fs, done, out, dirs, flat);
  }

  lemma AllPathsMirror(fs: FS, done: FS, out: seq<Entry>, flat: map<Path, Item>)
    requires Describes(out, flat) && Built(fs, out, |out|, flat) && ModesDone(fs, done, DirsOf(out))
    requires DirsAreItems(DirsOf(out), flat)
    ensures AllMirror(done, flat)
  {
    hide Describes, Built, ModesDone, DirsAreItems, DirsOf, Mirrors;
    forall p | p in flat
      ensures p in done.objs && Mirrors(done, done.objs[p], flat[p])
    {
      PathMirrors(fs, done, out, flat, p);
    }
  }

  lemma OthersStand(fs: FS, done: FS, out: seq<Entry>, dirs: seq<Deferred>, flat: map<Path, Item>)
    requires Built(fs, out, |out|, flat) && ModesDone(fs, done, dirs) && DirsAreItems(dirs, flat)
    ensures OthersAreDirs(done, flat)
  {
    hide Built, ModesDone, DirsAreItems;
    forall p | p in done.objs && p !in flat && p != []
      ensures done.objs[p] == DirObj(DIR_MODE)
    {
      ImplicitStands(fs, done, out, dirs, flat, p);
    }
  }

  lemma FilesUnchanged(fs: FS, done: FS, dirs: seq<Deferred>, flat: map<Path, Item>)
    requires ModesDone(fs, done, dirs) && DirsAreItems(dirs, flat)
    ensures forall p :: p in fs.objs && p in flat && flat[p].FileItem? ==> done.objs[p] == fs.objs[p]
  {
    assert forall p :: p in flat && flat[p].FileItem? ==> !Listed(dirs, p);
  }

  lemma ImplicitStands(fs: FS, done: FS, out: seq<Entry>, dirs: seq<Deferred>, flat: map<Path, Item>, p: Path)
    requires Built(fs, out, |out|, flat) && ModesDone(fs, done, dirs) && DirsAreItems(dirs, flat)
    requires p in done.objs && p !in flat && p != []
    ensures done.objs[p] == DirObj(DIR_MODE)
  {
    assert p in fs.objs.Keys && Standing(fs, p, flat) && !Listed(dirs, p);
  }

  /**
   * The archive of a forest is restored into an empty directory exactly when no
   * symbolic link in it leads out of that directory, and the result is the forest.
   */
  lemma RestoreRebuildsTheForest(root: Path, target: FS, baseDir: Option<Path>, roots: seq<Root>)
    requires ProperForest(baseDir, roots) && Consistent(FlatRoots(baseDir, roots)) && EmptyTarget(target)
    requires forall p :: p in FlatRoots(baseDir, roots) ==> ProperPath(p)
    ensures var (flat, restored) := (FlatRoots(baseDir, roots), Restored(root, target, WalkRoots(baseDir, roots).out));
      && (restored.Some? <==> LinksStayInside(root, flat))
      && (restored.Some? ==> Rebuilt(restored.value, flat))
  {
    var (flat, out) := (FlatRoots(baseDir, roots), WalkRoots(baseDir, roots).out);
    ArchiveDescribesForest(baseDir, roots);
    EmptyIsBuilt(target, out, flat);
    assert out[..|out|] == out;
    assert Describes(out, flat);
    hide Describes, Built, Consistent, WalkRoots, FlatRoots, Rebuilt, SetModes, DirsOf, ProperPath, AllInside, LinksStayInside;
    ExtractsPrefix(root, target, out, |out|, flat);
    InsideMeansInside(root, out, flat);
    var s := ExtractAll(root, target, out);
    if s.Some? {
      ModesComplete(s.value.fs, out, flat);
    }
  }
}
