/**
 * What applying one OCI layer means, as functions on a flat image: a map from path strings to nodes.
 * A node carries an inode number that stands for the identity of the mutable `FsNode` object, so two
 * paths with one number are two names for one object.
 */
module Layers {
  import opened Common
  import opened Paths

  datatype Kind = File | HardLink | SymLink | CharacterDevice | BlockDevice | Directory | Fifo

  /** One member of a layer, `LayerEntry`. */
  datatype Entry = Entry(
    path: string, kind: Kind, mode: nat, uid: nat, gid: nat, size: nat,
    linkname: Option<string>, xattrs: map<string, Bytes>)
  {
    function Metadata(): Attrs {
      Attrs(kind, mode, uid, gid, xattrs)
    }
  }

  predicate DistinctPaths(es: seq<Entry>) {
    forall i, j :: 0 <= i < j < |es| ==> es[i].path != es[j].path
  }

  /** The fields of an `FsNode`. */
  datatype Attrs = Attrs(kind: Kind, mode: nat, uid: nat, gid: nat, xattrs: map<string, Bytes>)

  datatype Node = Node(ino: nat, attrs: Attrs)

  /** `rootfs`; `next` is above every inode number in use. */
  datatype Image = Image(nodes: map<string, Node>, next: nat)

  const EMPTY_IMAGE := Image(map[], 0)

  const PACKAGE_PATH := "opt/insight/package"
  const STRUCTURAL_PARENTS: set<string> := {"opt", "opt/insight"}

  /** `mode & (S_ISUID | S_ISGID)`: bits 0o4000 and 0o2000. */
  predicate SetId(mode: nat) {
    mode / 0x800 % 2 == 1 || mode / 0x400 % 2 == 1
  }

  // ---------------------------------------------------------------- deletion

  /** The names left after `remove_tree(rootfs, path)`. */
  function RemoveTree(im: Image, path: string): Image {
    im.(nodes := map q | q in im.nodes && q != path && !Below(q, path) :: im.nodes[q])
  }

  /** An opaque whiteout in `dir` hides everything below it; the layer root is written as the empty path. */
  predicate UnderOpaque(q: string, dir: string) {
    q != dir && (dir == "" || Below(q, dir))
  }

  function ClearDirectory(im: Image, dir: string): Image {
    im.(nodes := map q | q in im.nodes && !UnderOpaque(q, dir) :: im.nodes[q])
  }

  // ---------------------------------------------------------------- whiteouts

  predicate IsWhiteout(e: Entry) {
    ".wh." <= BaseName(e.path)
  }

  datatype Whiteout = Opaque(dir: string) | Hide(target: string)

  /** What `validate_whiteout` returns, or None where it fails. */
  function WhiteoutOf(e: Entry): Option<Whiteout>
    requires IsWhiteout(e)
  {
    var base := BaseName(e.path);
    var parent := ParentName(e.path);
    if e.kind != File || e.size != 0 || e.xattrs != map[] || SetId(e.mode) then None
    else if base == ".wh..wh..opq" then Some(Opaque(parent))
    else
      var name := base[4..];
      if name == "" || name == "." || name == ".." || ".wh." <= name then None
      else Some(Hide(if parent == "" then name else parent + "/" + name))
  }

  function ApplyWhiteout(im: Image, w: Whiteout): Image {
    match w
    case Opaque(dir) => ClearDirectory(im, dir)
    case Hide(target) => RemoveTree(im, target)
  }

  /** The whiteout pass over a list of entries. */
  function Swept(im: Image, es: seq<Entry>, packageAddition: bool): Option<Image> {
    if es == [] then Some(im)
    else
      match Swept(im, Front(es), packageAddition)
      case None => None
      case Some(im') =>
        var e := Last(es);
        if !IsWhiteout(e) then Some(im')
        else if packageAddition || WhiteoutOf(e).None? then None
        else Some(ApplyWhiteout(im', WhiteoutOf(e).value))
  }

  /** The entries of a layer that are not whiteouts, in order. */
  function Ordinary(es: seq<Entry>): seq<Entry> {
    if es == [] then []
    else if IsWhiteout(Last(es)) then Ordinary(Front(es))
    else Ordinary(Front(es)) + [Last(es)]
  }

  // ---------------------------------------------------------------- ordinary entries

  predicate InPackage(path: string) {
    path == PACKAGE_PATH || Below(path, PACKAGE_PATH)
  }

  /** `rootfs.get(path)`, by value. */
  function Stat(im: Image, path: string): Option<Attrs> {
    if path in im.nodes then Some(im.nodes[path].attrs) else None
  }

  /** The checks an ordinary entry of a package layer has to pass, given what is bound at its path. */
  predicate PackageAdmits(existing: Option<Attrs>, e: Entry) {
    var structural := e.path in STRUCTURAL_PARENTS;
    && (structural || InPackage(e.path))
    && (structural ==> e.kind == Directory && e.mode == 0x1ed && e.uid == 0 && e.gid == 0)
    && (e.kind == File || e.kind == Directory)
    && e.xattrs == map[]
    && !SetId(e.mode)
    && (structural && existing.Some? ==> existing.value == Attrs(Directory, e.mode, e.uid, e.gid, map[]))
  }

  /** No bound ancestor of `path` is anything but a directory. */
  predicate Reachable(im: Image, path: string) {
    forall parent :: parent in ParentPaths(path) && parent in im.nodes ==> im.nodes[parent].attrs.kind == Directory
  }

  /** A new node under a fresh number. */
  function Bind(im: Image, path: string, attrs: Attrs): Image {
    Image(im.nodes[path := Node(im.next, attrs)], im.next + 1)
  }

  /** An in-place update of the object `ino`, seen through every path that names it. */
  function Update(im: Image, ino: nat, attrs: Attrs): Image {
    im.(nodes := map q | q in im.nodes :: if im.nodes[q].ino == ino then Node(ino, attrs) else im.nodes[q])
  }

  /** A second name for the object of `node`. */
  function Link(im: Image, path: string, node: Node): Image {
    im.(nodes := im.nodes[path := node])
  }

  /** A hard link may only alias an unprivileged regular file. */
  predicate LinkAllowed(target: Option<Attrs>, e: Entry) {
    && target.Some?
    && target.value.kind == File
    && target.value.xattrs == map[]
    && !SetId(target.value.mode)
    && e.xattrs == map[]
    && !SetId(e.mode)
  }

  /** What the link name of a hard-link entry is bound to. */
  function LinkTarget(im: Image, e: Entry): Option<Attrs> {
    if e.linkname.Some? then Stat(im, e.linkname.value) else None
  }

  function PlaceHardLink(im: Image, e: Entry): Image
    requires LinkTarget(im, e).Some?
  {
    var target := im.nodes[e.linkname.value];
    Update(Link(RemoveTree(im, e.path), e.path, target), target.ino,
           target.attrs.(mode := e.mode, uid := e.uid, gid := e.gid))
  }

  predicate HasDescendant(im: Image, path: string) {
    exists q :: q in im.nodes && Below(q, path)
  }

  function PlaceNode(im: Image, e: Entry): Image {
    if e.kind == Directory && e.path in im.nodes && im.nodes[e.path].attrs.kind == Directory then
      Update(im, im.nodes[e.path].ino, e.Metadata())
    else if e.kind == Directory && e.path !in im.nodes && HasDescendant(im, e.path) then
      Bind(im, e.path, e.Metadata())
    else
      Bind(RemoveTree(im, e.path), e.path, e.Metadata())
  }

  /** One pass of the second loop of `apply_layer`. */
  function PlaceOne(im: Image, e: Entry, packageAddition: bool): Option<Image> {
    if packageAddition && !PackageAdmits(Stat(im, e.path), e) then None
    else if !Reachable(im, e.path) then None
    else if e.kind == HardLink then
      if LinkAllowed(LinkTarget(im, e), e) then Some(PlaceHardLink(im, e)) else None
    else Some(PlaceNode(im, e))
  }

  function Placed(im: Image, es: seq<Entry>, packageAddition: bool): Option<Image> {
    if es == [] then Some(im)
    else
      match Placed(im, Front(es), packageAddition)
      case None => None
      case Some(im') => PlaceOne(im', Last(es), packageAddition)
  }

  /** `apply_layer`: every whiteout first, then every ordinary entry. */
  function ApplyLayer(im: Image, es: seq<Entry>, packageAddition: bool): Option<Image> {
    match Swept(im, es, packageAddition)
    case None => None
    case Some(im') => Placed(im', Ordinary(es), packageAddition)
  }

  function ApplyLayers(im: Image, layers: seq<seq<Entry>>, packageAddition: bool): Option<Image> {
    if layers == [] then Some(im)
    else
      match ApplyLayers(im, Front(layers), packageAddition)
      case None => None
      case Some(im') => ApplyLayer(im', Last(layers), packageAddition)
  }
}
