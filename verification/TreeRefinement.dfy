/**
 * A reference file system: a directory tree keyed by path components whose entries are inode numbers,
 * and a table of inodes. The flat map with its string-prefix tests refines it.
 */
module TreeRefinement {
  import opened Common
  import opened Paths
  import opened Layers
  import opened LayerInvariant

  datatype Tree = Tree(here: Option<nat>, children: map<string, Tree>)

  datatype FileSystem = FileSystem(root: Tree, table: map<nat, Attrs>, next: nat)

  const EMPTY_FILE_SYSTEM := FileSystem(Tree(None, map[]), map[], 0)

  /** The components of a relative path; the layer root has none. */
  function Components(path: string): seq<string> {
    if path == "" then [] else Split(path)
  }

  // ---------------------------------------------------------------- the tree

  function Find(t: Tree, path: seq<string>): Option<nat> {
    if path == [] then t.here
    else if path[0] in t.children then Find(t.children[path[0]], path[1..])
    else None
  }

  /** Names `ino` at `path` and keeps whatever is below. */
  function Put(t: Tree, path: seq<string>, ino: nat): Tree
    decreases |path|
  {
    if path == [] then t.(here := Some(ino))
    else
      var child := if path[0] in t.children then t.children[path[0]] else Tree(None, map[]);
      t.(children := t.children[path[0] := Put(child, path[1..], ino)])
  }

  /** Unlinks the subtree at a non-empty `path`. */
  function Unlink(t: Tree, path: seq<string>): Tree {
    if path == [] then Tree(None, map[])
    else if path[0] !in t.children then t
    else if |path| == 1 then t.(children := t.children - {path[0]})
    else t.(children := t.children[path[0] := Unlink(t.children[path[0]], path[1..])])
  }

  /** Drops every child of the directory at `path`. */
  function Hollow(t: Tree, path: seq<string>): Tree {
    if path == [] then t.(children := map[])
    else if path[0] !in t.children then t
    else t.(children := t.children[path[0] := Hollow(t.children[path[0]], path[1..])])
  }

  lemma {:induction false} FindAfterPut(t: Tree, path: seq<string>, ino: nat, q: seq<string>)
    ensures Find(Put(t, path, ino), q) == if q == path then Some(ino) else Find(t, q)
    decreases |path|
  {
    if path != [] && q != [] && q[0] == path[0] {
      var child := if path[0] in t.children then t.children[path[0]] else Tree(None, map[]);
      FindAfterPut(child, path[1..], ino, q[1..]);
      assert q == [q[0]] + q[1..] && path == [path[0]] + path[1..];
    }
  }

  lemma {:induction false} FindAfterUnlink(t: Tree, path: seq<string>, q: seq<string>)
    requires path != []
    ensures Find(Unlink(t, path), q) == if path <= q then None else Find(t, q)
    decreases |path|
  {
    if q != [] && q[0] == path[0] {
      assert path <= q <==> path[1..] <= q[1..] by {
        assert q == [q[0]] + q[1..] && path == [path[0]] + path[1..];
      }
      if path[0] in t.children && |path| > 1 {
        FindAfterUnlink(t.children[path[0]], path[1..], q[1..]);
      }
    }
  }

  lemma {:induction false} FindAfterHollow(t: Tree, path: seq<string>, q: seq<string>)
    ensures Find(Hollow(t, path), q) == if path < q then None else Find(t, q)
    decreases |path|
  {
    if path != [] && q != [] && q[0] == path[0] {
      assert path < q <==> path[1..] < q[1..] by {
        assert q == [q[0]] + q[1..] && path == [path[0]] + path[1..];
      }
      if path[0] in t.children {
        FindAfterHollow(t.children[path[0]], path[1..], q[1..]);
      }
    }
  }

  // ---------------------------------------------------------------- applying a layer to the tree

  function StatAt(fs: FileSystem, path: seq<string>): Option<Attrs> {
    match Find(fs.root, path)
    case None => None
    case Some(ino) => if ino in fs.table then Some(fs.table[ino]) else None
  }

  /** Every named directory on the way to `path` is a directory. */
  predicate Walkable(fs: FileSystem, path: seq<string>) {
    forall k :: 0 < k < |path| && StatAt(fs, path[..k]).Some? ==> StatAt(fs, path[..k]).value.kind == Directory
  }

  function Create(fs: FileSystem, root: Tree, path: seq<string>, attrs: Attrs): FileSystem {
    FileSystem(Put(root, path, fs.next), fs.table[fs.next := attrs], fs.next + 1)
  }

  /** A directory keeps what is below it; anything else replaces the whole subtree. */
  function PlaceInTree(fs: FileSystem, e: Entry, packageAddition: bool): Option<FileSystem> {
    var path := Components(e.path);
    var existing := StatAt(fs, path);
    if packageAddition && !PackageAdmits(existing, e) then None
    else if !Walkable(fs, path) then None
    else match e.kind
      case HardLink =>
        if e.linkname.None? then None
        else
          var target := Components(e.linkname.value);
          if !LinkAllowed(StatAt(fs, target), e) then None
          else
            var ino := Find(fs.root, target).value;
            var attrs := fs.table[ino].(mode := e.mode, uid := e.uid, gid := e.gid);
            Some(fs.(root := Put(Unlink(fs.root, path), path, ino), table := fs.table[ino := attrs]))
      case Directory =>
        if existing.Some? && existing.value.kind == Directory then
          Some(fs.(table := fs.table[Find(fs.root, path).value := e.Metadata()]))
        else
          Some(Create(fs, fs.root, path, e.Metadata()))
      case _ =>
        Some(Create(fs, Unlink(fs.root, path), path, e.Metadata()))
  }

  function WhiteoutInTree(fs: FileSystem, w: Whiteout): FileSystem {
    match w
    case Opaque(dir) => fs.(root := Hollow(fs.root, Components(dir)))
    case Hide(target) => fs.(root := Unlink(fs.root, Components(target)))
  }

  function SweepTree(fs: FileSystem, es: seq<Entry>, packageAddition: bool): Option<FileSystem> {
    if es == [] then Some(fs)
    else
      match SweepTree(fs, Front(es), packageAddition)
      case None => None
      case Some(fs') =>
        var e := Last(es);
        if !IsWhiteout(e) then Some(fs')
        else if packageAddition || WhiteoutOf(e).None? then None
        else Some(WhiteoutInTree(fs', WhiteoutOf(e).value))
  }

  function PlaceAllInTree(fs: FileSystem, es: seq<Entry>, packageAddition: bool): Option<FileSystem> {
    if es == [] then Some(fs)
    else
      match PlaceAllInTree(fs, Front(es), packageAddition)
      case None => None
      case Some(fs') => PlaceInTree(fs', Last(es), packageAddition)
  }

  function ApplyLayerToTree(fs: FileSystem, es: seq<Entry>, packageAddition: bool): Option<FileSystem> {
    match SweepTree(fs, es, packageAddition)
    case None => None
    case Some(fs') => PlaceAllInTree(fs', Ordinary(es), packageAddition)
  }

  function ApplyLayersToTree(fs: FileSystem, layers: seq<seq<Entry>>, packageAddition: bool): Option<FileSystem> {
    if layers == [] then Some(fs)
    else
      match ApplyLayersToTree(fs, Front(layers), packageAddition)
      case None => None
      case Some(fs') => ApplyLayerToTree(fs', Last(layers), packageAddition)
  }

  // ---------------------------------------------------------------- the relation

  function Number(im: Image, p: string): Option<nat> {
    if p in im.nodes then Some(im.nodes[p].ino) else None
  }

  /** The two agree on every relative path: on the object it names and on the metadata of that object. */
  ghost predicate Agree(im: Image, fs: FileSystem) {
    && im.next == fs.next
    && (forall p :: Relative(p) ==> Find(fs.root, Components(p)) == Number(im, p))
    && (forall p :: p in im.nodes ==> im.nodes[p].ino in fs.table && fs.table[im.nodes[p].ino] == im.nodes[p].attrs)
  }

  lemma ComponentsAreFaithful(p: string, q: string)
    requires Relative(p) && Relative(q)
    ensures Components(p) == Components(q) <==> p == q
    ensures p != "" ==> (Below(q, p) <==> Components(p) < Components(q))
    ensures UnderOpaque(q, p) <==> Components(p) < Components(q)
    ensures p != "" ==> (q == p || Below(q, p) <==> Components(p) <= Components(q))
  {
    FirstComponent(p);
    FirstComponent(q);
    BelowIsProperComponentPrefix(q, p);
    if Split(p) == Split(q) {
      SplitIsInjective(p, q);
    }
    BelowIsIrreflexive(p);
  }

  lemma FirstComponent(p: string)
    ensures p != "" && p[0] != '/' ==> Split(p)[0] != ""
  {
  }

  lemma AgreeOnStat(im: Image, fs: FileSystem, p: string)
    requires Agree(im, fs) && WellFormed(im) && Relative(p)
    ensures StatAt(fs, Components(p)) == Stat(im, p)
  {
  }

  lemma AgreeOnWalk(im: Image, fs: FileSystem, path: string)
    requires Agree(im, fs) && WellFormed(im) && Relative(path)
    ensures Reachable(im, path) <==> Walkable(fs, Components(path))
  {
    var parts := Split(path);
    var c := Components(path);
    FirstComponent(path);
    forall k | 0 < k < |c|
      ensures ParentPaths(path)[k - 1] == Join(c[..k]) && StatAt(fs, c[..k]) == Stat(im, ParentPaths(path)[k - 1])
    {
      var q := Join(parts[..k]);
      PartsHaveNoSlash(path);
      SplitOfJoin(parts[..k]);
      FirstOfJoin(parts[..k]);
      assert Components(q) == c[..k];
      AgreeOnStat(im, fs, q);
    }
    if Walkable(fs, c) {
      forall parent | parent in ParentPaths(path) && parent in im.nodes
        ensures im.nodes[parent].attrs.kind == Directory
      {
        var i :| 0 <= i < |ParentPaths(path)| && ParentPaths(path)[i] == parent;
        assert StatAt(fs, c[..i + 1]) == Stat(im, ParentPaths(path)[i]);
      }
    }
  }

  lemma FirstOfJoin(parts: seq<string>)
    requires parts != [] && parts[0] != "" && '/' !in parts[0]
    ensures Join(parts) != "" && Relative(Join(parts))
  {
    assert Join(parts)[0] == parts[0][0];
  }

  // ---------------------------------------------------------------- the simulation

  lemma AgreeAfterUnlink(im: Image, fs: FileSystem, path: string)
    requires Agree(im, fs) && WellFormed(im) && Relative(path) && path != ""
    ensures Agree(RemoveTree(im, path), fs.(root := Unlink(fs.root, Components(path))))
  {
    forall q | Relative(q)
      ensures Find(Unlink(fs.root, Components(path)), Components(q)) == Number(RemoveTree(im, path), q)
    {
      FindAfterUnlink(fs.root, Components(path), Components(q));
      ComponentsAreFaithful(path, q);
    }
  }

  lemma AgreeAfterHollow(im: Image, fs: FileSystem, dir: string)
    requires Agree(im, fs) && WellFormed(im) && Relative(dir)
    ensures Agree(ClearDirectory(im, dir), fs.(root := Hollow(fs.root, Components(dir))))
  {
    forall q | Relative(q)
      ensures Find(Hollow(fs.root, Components(dir)), Components(q)) == Number(ClearDirectory(im, dir), q)
    {
      FindAfterHollow(fs.root, Components(dir), Components(q));
      ComponentsAreFaithful(dir, q);
    }
  }

  lemma AgreeAfterCreate(im: Image, fs: FileSystem, path: string, attrs: Attrs)
    requires Agree(im, fs) && WellFormed(im) && Relative(path)
    ensures Agree(Bind(im, path, attrs), Create(fs, fs.root, Components(path), attrs))
  {
    var out := Bind(im, path, attrs);
    forall q | Relative(q)
      ensures Find(Put(fs.root, Components(path), fs.next), Components(q)) == Number(out, q)
    {
      FindAfterPut(fs.root, Components(path), fs.next, Components(q));
      ComponentsAreFaithful(path, q);
    }
  }

  lemma AgreeAfterLink(im: Image, fs: FileSystem, path: string, node: Node, attrs: Attrs)
    requires Agree(im, fs) && WellFormed(im) && Relative(path)
    ensures Agree(Update(Link(im, path, node), node.ino, attrs),
                  fs.(root := Put(fs.root, Components(path), node.ino), table := fs.table[node.ino := attrs]))
  {
    var linked := Link(im, path, node);
    var out := Update(linked, node.ino, attrs);
    forall q | Relative(q)
      ensures Find(Put(fs.root, Components(path), node.ino), Components(q)) == Number(out, q)
    {
      FindAfterPut(fs.root, Components(path), node.ino, Components(q));
      ComponentsAreFaithful(path, q);
      assert q in linked.nodes <==> q in out.nodes;
    }
  }

  lemma PlaceOneSimulates(im: Image, fs: FileSystem, e: Entry, packageAddition: bool)
    requires Agree(im, fs) && WellFormed(im) && EntryOk(e)
    ensures PlaceOne(im, e, packageAddition).Some? <==> PlaceInTree(fs, e, packageAddition).Some?
    ensures PlaceOne(im, e, packageAddition).Some?
            ==> Agree(PlaceOne(im, e, packageAddition).value, PlaceInTree(fs, e, packageAddition).value)
  {
    var path := Components(e.path);
    AgreeOnStat(im, fs, e.path);
    AgreeOnWalk(im, fs, e.path);
    if e.kind == HardLink && e.linkname.Some? {
      AgreeOnStat(im, fs, e.linkname.value);
    }
    if PlaceOne(im, e, packageAddition).Some? {
      if e.kind == HardLink {
        var target := im.nodes[e.linkname.value];
        var removed := RemoveTree(im, e.path);
        SmallerImageIsWellFormed(im, removed);
        AgreeAfterUnlink(im, fs, e.path);
        AgreeAfterLink(removed, fs.(root := Unlink(fs.root, path)), e.path, target,
                       target.attrs.(mode := e.mode, uid := e.uid, gid := e.gid));
      } else {
        PlaceNodeSimulates(im, fs, e, packageAddition);
      }
    }
  }

  /** A directory entry where no directory is bound removes at most the leaf at its own path. */
  lemma DirectoryReplacesNothing(im: Image, e: Entry)
    requires WellFormed(im) && e.kind == Directory
    requires e.path !in im.nodes || im.nodes[e.path].attrs.kind != Directory
    ensures PlaceNode(im, e) == Bind(im, e.path, e.Metadata())
  {
    hide Below, SharingIsHarmless, Coherent;
    if e.path in im.nodes || !HasDescendant(im, e.path) {
      assert !HasDescendant(im, e.path);
      assert RemoveTree(im, e.path).nodes[e.path := Node(im.next, e.Metadata())]
          == im.nodes[e.path := Node(im.next, e.Metadata())];
    }
  }

  lemma PlaceDirectorySimulates(im: Image, fs: FileSystem, e: Entry, packageAddition: bool)
    requires Agree(im, fs) && WellFormed(im) && EntryOk(e) && e.kind == Directory
    requires PlaceInTree(fs, e, packageAddition).Some?
    ensures Agree(PlaceNode(im, e), PlaceInTree(fs, e, packageAddition).value)
  {
    hide Find, Put, Unlink, Components, PackageAdmits, Walkable, Split, LeavesAreLeaves, SharingIsHarmless;
    AgreeOnStat(im, fs, e.path);
    if e.path in im.nodes && im.nodes[e.path].attrs.kind == Directory {
      UpdateDirectoryIsWellFormed(im, e.path, e.Metadata());
    } else {
      DirectoryReplacesNothing(im, e);
      AgreeAfterCreate(im, fs, e.path, e.Metadata());
    }
  }

  lemma PlaceLeafSimulates(im: Image, fs: FileSystem, e: Entry, packageAddition: bool)
    requires Agree(im, fs) && WellFormed(im) && EntryOk(e) && e.kind != HardLink && e.kind != Directory
    requires PlaceInTree(fs, e, packageAddition).Some?
    ensures Agree(PlaceNode(im, e), PlaceInTree(fs, e, packageAddition).value)
  {
    hide Find, Put, Unlink, Components, PackageAdmits, Walkable, Split, LeavesAreLeaves, SharingIsHarmless;
    var removed := RemoveTree(im, e.path);
    SmallerImageIsWellFormed(im, removed);
    AgreeAfterUnlink(im, fs, e.path);
    AgreeAfterCreate(removed, fs.(root := Unlink(fs.root, Components(e.path))), e.path, e.Metadata());
  }

  lemma PlaceNodeSimulates(im: Image, fs: FileSystem, e: Entry, packageAddition: bool)
    requires Agree(im, fs) && WellFormed(im) && EntryOk(e) && e.kind != HardLink
    requires PlaceInTree(fs, e, packageAddition).Some?
    ensures Agree(PlaceNode(im, e), PlaceInTree(fs, e, packageAddition).value)
  {
    hide Agree, WellFormed, PlaceInTree, PlaceNode, EntryOk;
    if e.kind == Directory {
      PlaceDirectorySimulates(im, fs, e, packageAddition);
    } else {
      PlaceLeafSimulates(im, fs, e, packageAddition);
    }
  }

  lemma WhiteoutIsRelative(e: Entry)
    requires EntryOk(e) && IsWhiteout(e) && WhiteoutOf(e).Some?
    ensures match WhiteoutOf(e).value
            case Opaque(dir) => Relative(dir)
            case Hide(target) => Relative(target) && target != ""
  {
    var parts := Split(e.path);
    FirstComponent(e.path);
    PartsHaveNoSlash(e.path);
    if |parts| > 1 {
      FirstOfJoin(Front(parts));
    }
  }

  lemma {:induction false} SweepSimulates(im: Image, fs: FileSystem, es: seq<Entry>, packageAddition: bool)
    requires Agree(im, fs) && WellFormed(im) && EntriesOk(es)
    ensures Swept(im, es, packageAddition).Some? <==> SweepTree(fs, es, packageAddition).Some?
    ensures Swept(im, es, packageAddition).Some?
            ==> Agree(Swept(im, es, packageAddition).value, SweepTree(fs, es, packageAddition).value)
  {
    if es != [] {
      SweepSimulates(im, fs, Front(es), packageAddition);
      if Swept(im, es, packageAddition).Some? && IsWhiteout(Last(es)) {
        var mid := Swept(im, Front(es), packageAddition).value;
        var midTree := SweepTree(fs, Front(es), packageAddition).value;
        SweptIsWellFormed(im, Front(es), packageAddition);
        WhiteoutIsRelative(Last(es));
        match WhiteoutOf(Last(es)).value {
          case Opaque(dir) => AgreeAfterHollow(mid, midTree, dir);
          case Hide(target) => AgreeAfterUnlink(mid, midTree, target);
        }
      }
    }
  }

  lemma {:induction false} PlacedSimulates(im: Image, fs: FileSystem, es: seq<Entry>, packageAddition: bool)
    requires Agree(im, fs) && WellFormed(im) && EntriesOk(es)
    ensures Placed(im, es, packageAddition).Some? <==> PlaceAllInTree(fs, es, packageAddition).Some?
    ensures Placed(im, es, packageAddition).Some?
            ==> Agree(Placed(im, es, packageAddition).value, PlaceAllInTree(fs, es, packageAddition).value)
  {
    if es != [] {
      PlacedSimulates(im, fs, Front(es), packageAddition);
      if Placed(im, Front(es), packageAddition).Some? {
        PlacedIsWellFormed(im, Front(es), packageAddition);
        PlaceOneSimulates(Placed(im, Front(es), packageAddition).value,
                          PlaceAllInTree(fs, Front(es), packageAddition).value, Last(es), packageAddition);
      }
    }
  }

  /**
   * For every list of layers, the flat engine and the tree accept the same layers and then agree on
   * every path: presence, metadata, and which names share an object.
   */
  lemma {:induction false} FlatEngineRefinesTree(im: Image, fs: FileSystem, layers: seq<seq<Entry>>,
                                                 packageAddition: bool)
    requires Agree(im, fs) && WellFormed(im) && LayersOk(layers)
    ensures ApplyLayers(im, layers, packageAddition).Some? <==> ApplyLayersToTree(fs, layers, packageAddition).Some?
    ensures ApplyLayers(im, layers, packageAddition).Some?
            ==> Agree(ApplyLayers(im, layers, packageAddition).value,
                      ApplyLayersToTree(fs, layers, packageAddition).value)
  {
    if layers != [] {
      FlatEngineRefinesTree(im, fs, Front(layers), packageAddition);
      if ApplyLayers(im, Front(layers), packageAddition).Some? {
        var mid := ApplyLayers(im, Front(layers), packageAddition).value;
        var midTree := ApplyLayersToTree(fs, Front(layers), packageAddition).value;
        HeapInvariant(im, Front(layers), packageAddition);
        SweepSimulates(mid, midTree, Last(layers), packageAddition);
        if Swept(mid, Last(layers), packageAddition).Some? {
          SweptIsWellFormed(mid, Last(layers), packageAddition);
          OrdinaryIsOk(Last(layers));
          PlacedSimulates(Swept(mid, Last(layers), packageAddition).value,
                          SweepTree(midTree, Last(layers), packageAddition).value,
                          Ordinary(Last(layers)), packageAddition);
        }
      }
    }
  }

  lemma EmptyImagesAgree()
    ensures Agree(EMPTY_IMAGE, EMPTY_FILE_SYSTEM) && WellFormed(EMPTY_IMAGE)
  {
  }
}
