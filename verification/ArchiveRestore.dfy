/** The archive reader: safe names, a file system with owner permissions and hard links, and the extraction loop. */
module ArchiveRestore {
  import opened Core
  import opened ArchiveWalk

  // ---------------------------------------------------------------------------
  // Names
  // ---------------------------------------------------------------------------

  /** A path after cleaning: how many leading parents it keeps, then its names. */
  datatype Cleaned = Cleaned(ups: nat, names: Path)

  predicate IsName(s: string) {
    s != "" && s != "." && s != ".."
  }

  function Clean(parts: seq<string>): Cleaned {
    if parts == [] then Cleaned(0, [])
    else
      var (c, last) := (Clean(parts[..|parts| - 1]), parts[|parts| - 1]);
      if IsName(last) then c.(names := c.names + [last])
      else if last != ".." then c
      else if c.names != [] then c.(names := c.names[..|c.names| - 1])
      else c.(ups := c.ups + 1)
  }

  /** The place of an entry below the target directory; none when its name is absolute or leaves it. */
  function SafeJoin(absolute: bool, parts: seq<string>): Option<Path> {
    if absolute || Clean(parts).ups > 0 then None else Some(Clean(parts).names)
  }

  /** A symbolic link is accepted when its text, read as a path, stays below the target directory. */
  predicate LinkStaysInside(root: Path, dir: Path, target: Target) {
    root <= Clean(if target.absolute then target.parts else root + dir + target.parts).names
  }

  predicate ProperPath(p: Path) {
    forall k :: 0 <= k < |p| ==> IsName(p[k])
  }

  /** Names entered minus parents left. */
  function Depth(parts: seq<string>): int {
    if parts == [] then 0
    else
      var last := parts[|parts| - 1];
      Depth(parts[..|parts| - 1]) + (if IsName(last) then 1 else if last == ".." then -1 else 0)
  }

  lemma {:induction false} CleanCounts(parts: seq<string>)
    ensures Depth(parts) == |Clean(parts).names| - Clean(parts).ups
    ensures ProperPath(Clean(parts).names)
    ensures Clean(parts).ups == 0 <==> forall k :: 0 <= k <= |parts| ==> Depth(parts[..k]) >= 0
  {
    if parts != [] {
      var init := parts[..|parts| - 1];
      CleanCounts(init);
      assert forall k :: 0 <= k <= |init| ==> parts[..k] == init[..k];
      assert parts[..|parts|] == parts;
    }
  }

  /** A relative name is taken exactly when no prefix of it climbs above the start; what is taken holds no parent reference. */
  lemma SafeJoinTakesExactlyNamesThatStayBelow(absolute: bool, parts: seq<string>)
    ensures SafeJoin(absolute, parts).Some? <==> !absolute && forall k :: 0 <= k <= |parts| ==> Depth(parts[..k]) >= 0
    ensures SafeJoin(absolute, parts).Some? ==> ProperPath(SafeJoin(absolute, parts).value)
  {
    CleanCounts(parts);
  }

  lemma {:induction false} CleanKeepsProper(p: Path)
    requires ProperPath(p)
    ensures Clean(p) == Cleaned(0, p)
  {
    if p != [] {
      CleanKeepsProper(p[..|p| - 1]);
      assert p == p[..|p| - 1] + [p[|p| - 1]];
    }
  }

  // ---------------------------------------------------------------------------
  // The file system
  // ---------------------------------------------------------------------------

  datatype Obj = DirObj(mode: nat) | FileObj(ino: nat) | LinkObj(target: Target)

  datatype Inode = Inode(mode: nat, data: Bytes)

  /** Paths are relative to the target directory, which is the empty path; `next` is above every inode in use. */
  datatype FS = FS(objs: map<Path, Obj>, inodes: map<nat, Inode>, next: nat)

  function Perm(mode: nat): nat {
    mode % 512
  }

  predicate OwnerExecutes(mode: nat) {
    (mode / 64) % 2 == 1
  }

  predicate OwnerWrites(mode: nat) {
    (mode / 128) % 2 == 1
  }

  /** rwxr-xr-x */
  const DIR_MODE := 493

  /** Every directory above a path may be entered. */
  predicate Reachable(fs: FS, p: Path) {
    forall k :: 0 <= k < |p| ==> p[..k] in fs.objs && fs.objs[p[..k]].DirObj? && OwnerExecutes(fs.objs[p[..k]].mode)
  }

  /** The directory of a path may be changed. */
  predicate MayChange(fs: FS, p: Path) {
    p != [] && Reachable(fs, p) && OwnerWrites(fs.objs[p[..|p| - 1]].mode)
  }

  function MkdirAll(fs: FS, p: Path): Option<FS>
    decreases |p|
  {
    if p in fs.objs then (if fs.objs[p].DirObj? && Reachable(fs, p) then Some(fs) else None)
    else if p == [] then None
    else
      match MkdirAll(fs, p[..|p| - 1])
      case None => None
      case Some(up) => if MayChange(up, p) then Some(up.(objs := up.objs[p := DirObj(DIR_MODE)])) else None
  }

  /** Creates or truncates a file, writes it and sets its mode. Files reached through links are not part of this model. */
  function WriteFile(fs: FS, p: Path, mode: nat, data: Bytes): Option<FS> {
    if p in fs.objs then
      if fs.objs[p].FileObj? && Reachable(fs, p) && fs.objs[p].ino in fs.inodes && OwnerWrites(fs.inodes[fs.objs[p].ino].mode)
      then Some(fs.(inodes := fs.inodes[fs.objs[p].ino := Inode(mode, data)]))
      else None
    else if MayChange(fs, p) then
      Some(FS(fs.objs[p := FileObj(fs.next)], fs.inodes[fs.next := Inode(mode, data)], fs.next + 1))
    else None
  }

  /** Removes a file, a link or an empty directory; anything else is left alone. */
  function Remove(fs: FS, p: Path): FS {
    if p in fs.objs && MayChange(fs, p) && (fs.objs[p].DirObj? ==> forall q :: q in fs.objs && p <= q ==> q == p)
    then fs.(objs := fs.objs - {p})
    else fs
  }

  function Symlink(fs: FS, p: Path, target: Target): Option<FS> {
    if p !in fs.objs && MayChange(fs, p) then Some(fs.(objs := fs.objs[p := LinkObj(target)])) else None
  }

  function HardLink(fs: FS, from: Path, p: Path): Option<FS> {
    if from in fs.objs && Reachable(fs, from) && !fs.objs[from].DirObj? && p !in fs.objs && MayChange(fs, p)
    then Some(fs.(objs := fs.objs[p := fs.objs[from]]))
    else None
  }

  function Chmod(fs: FS, p: Path, mode: nat): FS {
    if p in fs.objs && Reachable(fs, p) && fs.objs[p].DirObj? then fs.(objs := fs.objs[p := DirObj(mode)]) else fs
  }

  // ---------------------------------------------------------------------------
  // Extraction
  // ---------------------------------------------------------------------------

  datatype Deferred = Deferred(path: Path, mode: nat)

  datatype Extracting = Extracting(fs: FS, dirs: seq<Deferred>)

  function Parent(p: Path): Path {
    if p == [] then [] else p[..|p| - 1]
  }

  function Extract(root: Path, s: Extracting, e: Entry): Option<Extracting> {
    match SafeJoin(false, e.name)
    case None => None
    case Some(target) =>
      match e
      case DirEntry(_, mode) =>
        (match MkdirAll(s.fs, target)
         case None => None
         case Some(fs) => Some(Extracting(fs, s.dirs + [Deferred(target, mode)])))
      case FileEntry(_, mode, data) =>
        (match MkdirAll(s.fs, Parent(target))
         case None => None
         case Some(up) => With(s, WriteFile(up, target, Perm(mode), data)))
      case SymEntry(_, link) =>
        (match MkdirAll(s.fs, Parent(target))
         case None => None
         case Some(up) =>
           if !LinkStaysInside(root, Parent(target), link) then None
           else With(s, Symlink(Remove(up, target), target, link)))
      case HardEntry(_, first) =>
        (match SafeJoin(false, first)
         case None => None
         case Some(from) =>
           match MkdirAll(s.fs, Parent(target))
           case None => None
           case Some(up) => With(s, HardLink(Remove(up, target), from, target)))
  }

  function With(s: Extracting, fs: Option<FS>): Option<Extracting> {
    if fs.Some? then Some(s.(fs := fs.value)) else None
  }

  function ExtractAll(root: Path, fs: FS, entries: seq<Entry>): Option<Extracting> {
    if entries == [] then Some(Extracting(fs, []))
    else
      match ExtractAll(root, fs, entries[..|entries| - 1])
      case None => None
      case Some(s) => Extract(root, s, entries[|entries| - 1])
  }

  /** Sets the modes of directories from the last one listed to the first. */
  function SetModes(fs: FS, dirs: seq<Deferred>): FS
    decreases |dirs|
  {
    if dirs == [] then fs
    else
      var last := dirs[|dirs| - 1];
      SetModes(Chmod(fs, last.path, Perm(last.mode)), dirs[..|dirs| - 1])
  }

  function Restored(root: Path, fs: FS, entries: seq<Entry>): Option<FS> {
    match ExtractAll(root, fs, entries)
    case None => None
    case Some(s) => Some(SetModes(s.fs, s.dirs))
  }

  method ExtractEntry(root: Path, fs: FS, dirs: seq<Deferred>, e: Entry) returns (done: Option<Extracting>)
    ensures done == Extract(root, Extracting(fs, dirs), e)
  {
    hide MkdirAll, WriteFile, Remove, Symlink, HardLink, SafeJoin, LinkStaysInside;
    var joined := SafeJoin(false, e.name);
    if joined.None? {
      return None;
    }
    var target := joined.value;
    var next;
    match e {
      case DirEntry(_, mode) =>
        var made := MkdirAll(fs, target);
        return if made.None? then None else Some(Extracting(made.value, dirs + [Deferred(target, mode)]));
      case FileEntry(_, mode, data) =>
        var up := MkdirAll(fs, Parent(target));
        if up.None? {
          return None;
        }
        next := WriteFile(up.value, target, Perm(mode), data);
      case SymEntry(_, link) =>
        var up := MkdirAll(fs, Parent(target));
        if up.None? || !LinkStaysInside(root, Parent(target), link) {
          return None;
        }
        next := Symlink(Remove(up.value, target), target, link);
      case HardEntry(_, first) =>
        var from := SafeJoin(false, first);
        if from.None? {
          return None;
        }
        var up := MkdirAll(fs, Parent(target));
        if up.None? {
          return None;
        }
        next := HardLink(Remove(up.value, target), from.value, target);
    }
    return if next.None? then None else Some(Extracting(next.value, dirs));
  }

  method Restore(root: Path, target: FS, entries: seq<Entry>) returns (restored: Option<FS>)
    ensures restored == Restored(root, target, entries)
  {
    hide Extract;
    var (fs, dirs) := (target, []);
    for i := 0 to |entries|
      invariant ExtractAll(root, target, entries[..i]) == Some(Extracting(fs, dirs))
    {
      assert entries[..i + 1][..i] == entries[..i];
      StopsAt(root, target, entries, i + 1);
      var done := ExtractEntry(root, fs, dirs, entries[i]);
      if done.None? {
        return None;
      }
      fs, dirs := done.value.fs, done.value.dirs;
    }
    assert entries[..|entries|] == entries;
    var i := |dirs|;
    ghost var end := SetModes(fs, dirs);
    assert dirs[..i] == dirs;
    while i > 0
      invariant 0 <= i <= |dirs| && SetModes(fs, dirs[..i]) == end
    {
      i := i - 1;
      assert dirs[..i + 1][..i] == dirs[..i];
      fs := Chmod(fs, dirs[i].path, Perm(dirs[i].mode));
    }
    return Some(fs);
  }

  /** An entry that cannot be extracted ends the restore. */
  lemma {:induction false} StopsAt(root: Path, fs: FS, entries: seq<Entry>, n: nat)
    requires n <= |entries|
    ensures ExtractAll(root, fs, entries[..n]).None? ==> ExtractAll(root, fs, entries).None?
    decreases |entries| - n
  {
    if n == |entries| {
      assert entries[..n] == entries;
    } else {
      StopsAt(root, fs, entries, n + 1);
      assert entries[..n + 1][..n] == entries[..n];
    }
  }
}
