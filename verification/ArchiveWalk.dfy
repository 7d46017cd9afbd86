/**
 * The archive writer: file trees, the entries a walk emits for them and the
 * names it gives them. A path is the list of its components.
 */
module ArchiveWalk {
  import opened Core

  type Path = seq<string>
  type Bytes = seq<int>

  /** The text of a symbolic link, cut at its slashes. */
  datatype Target = Target(absolute: bool, parts: seq<string>)

  /** `ino` stands for the pair of device and inode number. */
  datatype Node =
    | Dir(mode: nat, kids: seq<Kid>)
    | File(ino: nat, nlink: nat, mode: nat, data: Bytes)
    | Link(target: Target)

  datatype Kid = Kid(name: string, node: Node)

  datatype Entry =
    | DirEntry(name: Path, mode: nat)
    | FileEntry(name: Path, mode: nat, data: Bytes)
    | SymEntry(name: Path, target: Target)
    | HardEntry(name: Path, first: Path)

  /** A configured path with the tree found there. */
  datatype Root = Root(path: Path, node: Node)

  predicate Within(base: Path, path: Path) {
    base <= path
  }

  /** The name of a root: below the base directory if it lies there, else its last component. */
  function RelName(baseDir: Option<Path>, path: Path): Path {
    if baseDir.Some? && Within(baseDir.value, path) then path[|baseDir.value|..]
    else if path == [] then [] else [path[|path| - 1]]
  }

  // ---------------------------------------------------------------------------
  // The walk, on values
  // ---------------------------------------------------------------------------

  datatype Walked = Walked(seen: set<Path>, hardlinks: map<nat, Path>, out: seq<Entry>)

  const NOTHING := Walked({}, map[], [])

  function Emit(w: Walked, name: Path, e: Entry): Walked {
    w.(seen := w.seen + {name}, out := w.out + [e])
  }

  function WalkFile(w: Walked, name: Path, node: Node): Walked
    requires node.File?
  {
    if node.nlink >= 2 && node.ino in w.hardlinks then Emit(w, name, HardEntry(name, w.hardlinks[node.ino]))
    else
      Emit(w.(hardlinks := if node.nlink >= 2 then w.hardlinks[node.ino := name] else w.hardlinks),
           name, FileEntry(name, node.mode, node.data))
  }

  function Walk(w: Walked, name: Path, node: Node): Walked
    decreases node
  {
    if name == [] || name in w.seen then w
    else
      match node
      case Dir(mode, kids) => WalkKids(Emit(w, name, DirEntry(name, mode)), name, kids)
      case Link(target) => Emit(w, name, SymEntry(name, target))
      case File(_, _, _, _) => WalkFile(w, name, node)
  }

  function WalkKids(w: Walked, name: Path, kids: seq<Kid>): Walked
    decreases kids
  {
    if kids == [] then w
    else
      var last := |kids| - 1;
      Walk(WalkKids(w, name, kids[..last]), name + [kids[last].name], kids[last].node)
  }

  function WalkRoots(baseDir: Option<Path>, roots: seq<Root>): Walked {
    if roots == [] then NOTHING
    else
      var last := |roots| - 1;
      Walk(WalkRoots(baseDir, roots[..last]), RelName(baseDir, roots[last].path), roots[last].node)
  }

  /** The walker's object: it remembers the names used and where each linked file was first written. */
  class Walker {
    var seen: set<Path>
    var hardlinks: map<nat, Path>
    var out: seq<Entry>
    var files: nat

    function State(): Walked
      reads this
    {
      Walked(seen, hardlinks, out)
    }

    constructor ()
      ensures State() == NOTHING && files == 0
    {
      seen, hardlinks, out, files := {}, map[], [], 0;
    }

    method WriteHeader(e: Entry)
      modifies this`out, this`files
      ensures out == old(out) + [e] && files == old(files) + 1
    {
      out := out + [e];
      files := files + 1;
    }

    method WalkNode(name: Path, node: Node)
      modifies this
      ensures State() == Walk(old(State()), name, node)
      ensures files == old(files) + |out| - |old(out)|
      decreases node
    {
      if name == [] || name in seen {
        return;
      }
      seen := seen + {name};
      match node {
        case Dir(mode, kids) =>
          WriteHeader(DirEntry(name, mode));
          assert State() == Emit(old(State()), name, DirEntry(name, mode));
          for i := 0 to |kids|
            invariant State() == WalkKids(Emit(old(State()), name, DirEntry(name, mode)), name, kids[..i])
            invariant files == old(files) + |out| - |old(out)|
          {
            assert kids[..i + 1][..i] == kids[..i];
            WalkNode(name + [kids[i].name], kids[i].node);
          }
          assert kids[..|kids|] == kids;
        case Link(target) =>
          WriteHeader(SymEntry(name, target));
        case File(ino, nlink, mode, data) =>
          if nlink >= 2 {
            if ino in hardlinks {
              WriteHeader(HardEntry(name, hardlinks[ino]));
              return;
            }
            hardlinks := hardlinks[ino := name];
          }
          WriteHeader(FileEntry(name, mode, data));
      }
    }

    method Run(baseDir: Option<Path>, roots: seq<Root>)
      requires State() == NOTHING && files == 0
      modifies this
      ensures State() == WalkRoots(baseDir, roots) && files == |out|
    {
      for i := 0 to |roots|
        invariant State() == WalkRoots(baseDir, roots[..i]) && files == |out|
      {
        assert roots[..i + 1][..i] == roots[..i];
        WalkNode(RelName(baseDir, roots[i].path), roots[i].node);
      }
      assert roots[..|roots|] == roots;
    }
  }

  // ---------------------------------------------------------------------------
  // What every walk keeps, whatever the roots
  // ---------------------------------------------------------------------------

  predicate NamesDistinct(out: seq<Entry>) {
    forall i, j :: 0 <= i < j < |out| ==> out[i].name != out[j].name
  }

  /** `first` names a file entry among the first `n`. */
  predicate WrittenBefore(out: seq<Entry>, n: nat, first: Path) {
    exists j :: 0 <= j < n && j < |out| && out[j].FileEntry? && out[j].name == first
  }

  ghost predicate Sound(w: Walked) {
    && NamesDistinct(w.out)
    && (forall p :: p in w.seen <==> exists j :: 0 <= j < |w.out| && w.out[j].name == p)
    && (forall ino :: ino in w.hardlinks ==> WrittenBefore(w.out, |w.out|, w.hardlinks[ino]))
    && (forall i :: 0 <= i < |w.out| && w.out[i].HardEntry? ==> WrittenBefore(w.out, i, w.out[i].first))
  }

  lemma WrittenStays(out: seq<Entry>, e: Entry, n: nat, first: Path)
    requires WrittenBefore(out, n, first) && n <= |out|
    ensures WrittenBefore(out + [e], n, first) && WrittenBefore(out + [e], |out| + 1, first)
  {
    var j :| 0 <= j < n && j < |out| && out[j].FileEntry? && out[j].name == first;
    assert (out + [e])[j] == out[j];
  }

  lemma EmitKeepsSound(w: Walked, e: Entry)
    requires Sound(w) && e.name !in w.seen
    requires e.HardEntry? ==> WrittenBefore(w.out, |w.out|, e.first)
    ensures Sound(Emit(w, e.name, e))
  {
    var t := Emit(w, e.name, e);
    forall p
      ensures p in t.seen <==> exists j :: 0 <= j < |t.out| && t.out[j].name == p
    {
      if p in w.seen {
        var j :| 0 <= j < |w.out| && w.out[j].name == p;
        assert t.out[j].name == p;
      }
      assert t.out[|w.out|].name == e.name;
    }
    forall ino | ino in t.hardlinks
      ensures WrittenBefore(t.out, |t.out|, t.hardlinks[ino])
    {
      WrittenStays(w.out, e, |w.out|, w.hardlinks[ino]);
    }
    forall i | 0 <= i < |t.out| && t.out[i].HardEntry?
      ensures WrittenBefore(t.out, i, t.out[i].first)
    {
      if i < |w.out| {
        WrittenStays(w.out, e, i, w.out[i].first);
      } else {
        WrittenStays(w.out, e, |w.out|, e.first);
      }
    }
    assert NamesDistinct(t.out) by {
      assert forall i :: 0 <= i < |w.out| ==> w.out[i].name in w.seen;
    }
  }

  lemma WalkFileKeepsSound(w: Walked, name: Path, node: Node)
    requires Sound(w) && name !in w.seen && node.File?
    ensures Sound(WalkFile(w, name, node))
  {
    if node.nlink >= 2 && node.ino in w.hardlinks {
      EmitKeepsSound(w, HardEntry(name, w.hardlinks[node.ino]));
    } else {
      var e := FileEntry(name, node.mode, node.data);
      EmitKeepsSound(w, e);
      var t := Emit(w, name, e);
      assert t.out[|w.out|] == e && WrittenBefore(t.out, |t.out|, name);
    }
  }

  lemma {:induction false} WalkKeepsSound(w: Walked, name: Path, node: Node)
    requires Sound(w)
    ensures Sound(Walk(w, name, node))
    decreases node
  {
    hide Sound;
    if name != [] && name !in w.seen {
      match node
      case Dir(mode, kids) =>
        EmitKeepsSound(w, DirEntry(name, mode));
        WalkKidsKeepsSound(Emit(w, name, DirEntry(name, mode)), name, kids);
      case Link(target) => EmitKeepsSound(w, SymEntry(name, target));
      case File(_, _, _, _) => WalkFileKeepsSound(w, name, node);
    }
  }

  lemma {:induction false} WalkKidsKeepsSound(w: Walked, name: Path, kids: seq<Kid>)
    requires Sound(w)
    ensures Sound(WalkKids(w, name, kids))
    decreases kids
  {
    hide Sound;
    if kids != [] {
      var last := |kids| - 1;
      WalkKidsKeepsSound(w, name, kids[..last]);
      WalkKeepsSound(WalkKids(w, name, kids[..last]), name + [kids[last].name], kids[last].node);
    }
  }

  /** Whatever roots are archived, even overlapping ones, no name is used twice and each hard link names an earlier file entry. */
  lemma {:induction false} ArchiveIsSound(baseDir: Option<Path>, roots: seq<Root>)
    ensures Sound(WalkRoots(baseDir, roots))
  {
    if roots != [] {
      var last := |roots| - 1;
      ArchiveIsSound(baseDir, roots[..last]);
      WalkKeepsSound(WalkRoots(baseDir, roots[..last]), RelName(baseDir, roots[last].path), roots[last].node);
    }
  }

  // ---------------------------------------------------------------------------
  // Which roots are archived
  // ---------------------------------------------------------------------------

  lemma {:induction false} WalkAppends(w: Walked, name: Path, node: Node)
    ensures w.out <= Walk(w, name, node).out
    ensures name != [] && name !in w.seen ==>
              |w.out| < |Walk(w, name, node).out| && Walk(w, name, node).out[|w.out|].name == name
    decreases node
  {
    if name != [] && name !in w.seen && node.Dir? {
      KidsAppend(Emit(w, name, DirEntry(name, node.mode)), name, node.kids);
    }
  }

  lemma {:induction false} KidsAppend(w: Walked, name: Path, kids: seq<Kid>)
    ensures w.out <= WalkKids(w, name, kids).out
    decreases kids
  {
    if kids != [] {
      var last := |kids| - 1;
      KidsAppend(w, name, kids[..last]);
      WalkAppends(WalkKids(w, name, kids[..last]), name + [kids[last].name], kids[last].node);
    }
  }

  /** Walking root `i` adds entries to those of the roots before it. */
  ghost predicate Contributes(baseDir: Option<Path>, roots: seq<Root>, i: nat)
    requires i < |roots|
  {
    |WalkRoots(baseDir, roots[..i]).out| < |WalkRoots(baseDir, roots[..i + 1]).out|
  }

  /** An entry of the roots before `i` already has this name. */
  ghost predicate NameTaken(baseDir: Option<Path>, roots: seq<Root>, i: nat, name: Path)
    requires i <= |roots|
  {
    var before := WalkRoots(baseDir, roots[..i]).out;
    exists j :: 0 <= j < |before| && before[j].name == name
  }

  /**
   * A root is archived, beginning with the entry of its own name, exactly when it has a name that no entry
   * of an earlier root has taken. Otherwise it leaves no trace: the walk goes on as if it had not been listed.
   */
  lemma RootIsArchivedExactlyWhenItsNameIsFree(baseDir: Option<Path>, roots: seq<Root>, i: nat)
    requires i < |roots|
    ensures var name := RelName(baseDir, roots[i].path);
            && (Contributes(baseDir, roots, i) <==> name != [] && !NameTaken(baseDir, roots, i, name))
            && (Contributes(baseDir, roots, i) ==>
                  var before := |WalkRoots(baseDir, roots[..i]).out|;
                  WalkRoots(baseDir, roots[..i + 1]).out[before].name == name)
    ensures WalkRoots(baseDir, roots[..i]).out <= WalkRoots(baseDir, roots[..i + 1]).out
    ensures !Contributes(baseDir, roots, i) ==> WalkRoots(baseDir, roots[..i + 1]) == WalkRoots(baseDir, roots[..i])
  {
    var (w, name) := (WalkRoots(baseDir, roots[..i]), RelName(baseDir, roots[i].path));
    assert roots[..i + 1][..i] == roots[..i];
    assert WalkRoots(baseDir, roots[..i + 1]) == Walk(w, name, roots[i].node);
    ArchiveIsSound(baseDir, roots[..i]);
    assert NameTaken(baseDir, roots, i, name) <==> name in w.seen;
    WalkAppends(w, name, roots[i].node);
  }

  lemma {:induction false} TakenStaysTaken(baseDir: Option<Path>, roots: seq<Root>, i: nat, j: nat, name: Path)
    requires i <= j <= |roots| && NameTaken(baseDir, roots, i, name)
    ensures NameTaken(baseDir, roots, j, name)
    decreases j - i
  {
    if i < j {
      RootIsArchivedExactlyWhenItsNameIsFree(baseDir, roots, i);
      var (before, after) := (WalkRoots(baseDir, roots[..i]).out, WalkRoots(baseDir, roots[..i + 1]).out);
      var k :| 0 <= k < |before| && before[k].name == name;
      assert after[k].name == name;
      TakenStaysTaken(baseDir, roots, i + 1, j, name);
    }
  }

  lemma OwnNameIsTaken(baseDir: Option<Path>, roots: seq<Root>, i: nat)
    requires i < |roots| && RelName(baseDir, roots[i].path) != []
    ensures NameTaken(baseDir, roots, i + 1, RelName(baseDir, roots[i].path))
  {
    RootIsArchivedExactlyWhenItsNameIsFree(baseDir, roots, i);
    hide WalkRoots;
  }

  /** Of two roots that get the same name, wherever they stand in the list, the later one is dropped. */
  lemma SameNamedRootIsDropped(baseDir: Option<Path>, roots: seq<Root>, i: nat, j: nat)
    requires i < j < |roots| && RelName(baseDir, roots[i].path) == RelName(baseDir, roots[j].path)
    ensures !Contributes(baseDir, roots, j)
    ensures WalkRoots(baseDir, roots[..j + 1]) == WalkRoots(baseDir, roots[..j])
  {
    var name := RelName(baseDir, roots[j].path);
    if name != [] {
      OwnNameIsTaken(baseDir, roots, i);
      TakenStaysTaken(baseDir, roots, i + 1, j, name);
    }
    RootIsArchivedExactlyWhenItsNameIsFree(baseDir, roots, j);
  }
}
