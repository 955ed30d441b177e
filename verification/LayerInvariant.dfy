/** The heap invariant of the layer engine, and what it gives for layers that only add a package. */
module LayerInvariant {
  import opened Common
  import opened Paths
  import opened Layers

  // ---------------------------------------------------------------- the invariant

  predicate Unprivileged(a: Attrs) {
    a.kind == File && a.xattrs == map[] && !SetId(a.mode)
  }

  /** Inode numbers are in range and one object has one value. */
  ghost predicate Coherent(im: Image) {
    && (forall p :: p in im.nodes ==> im.nodes[p].ino < im.next)
    && (forall p, q :: p in im.nodes && q in im.nodes && im.nodes[p].ino == im.nodes[q].ino
                       ==> im.nodes[p].attrs == im.nodes[q].attrs)
  }

  /** Only regular files without xattrs and without SUID or SGID have two names. */
  ghost predicate SharingIsHarmless(im: Image) {
    forall p, q :: p in im.nodes && q in im.nodes && p != q && im.nodes[p].ino == im.nodes[q].ino
                   ==> Unprivileged(im.nodes[p].attrs)
  }

  /** Nothing is bound below anything but a directory. */
  ghost predicate LeavesAreLeaves(im: Image) {
    forall p, q :: p in im.nodes && q in im.nodes && Below(q, p) ==> im.nodes[p].attrs.kind == Directory
  }

  ghost predicate KindsAreResolved(im: Image) {
    && (forall p :: p in im.nodes ==> im.nodes[p].attrs.kind != HardLink)
    && ("" in im.nodes ==> im.nodes[""].attrs.kind == Directory)
    && (forall p :: p in im.nodes ==> Relative(p))
  }

  ghost predicate WellFormed(im: Image) {
    Coherent(im) && SharingIsHarmless(im) && LeavesAreLeaves(im) && KindsAreResolved(im)
  }

  /** A relative path; the empty path is the layer root. */
  predicate Relative(path: string) {
    path == "" || path[0] != '/'
  }

  /** What the tar scanner guarantees of its entries: relative paths, and only a directory is the layer root. */
  predicate EntryOk(e: Entry) {
    && Relative(e.path)
    && (e.path == "" ==> e.kind == Directory)
    && (e.kind == HardLink && e.linkname.Some? ==> Relative(e.linkname.value))
  }

  predicate EntriesOk(es: seq<Entry>) {
    forall i :: 0 <= i < |es| ==> EntryOk(es[i])
  }

  predicate LayersOk(layers: seq<seq<Entry>>) {
    forall i :: 0 <= i < |layers| ==> EntriesOk(layers[i])
  }

  // ---------------------------------------------------------------- every step keeps it

  lemma SmallerImageIsWellFormed(im: Image, im': Image)
    requires WellFormed(im) && im'.next == im.next
    requires forall p :: p in im'.nodes ==> p in im.nodes && im'.nodes[p] == im.nodes[p]
    ensures WellFormed(im')
  {
  }

  lemma BindIsWellFormed(im: Image, path: string, attrs: Attrs)
    requires WellFormed(im) && Reachable(im, path) && attrs.kind != HardLink
    requires Relative(path) && (path == "" ==> attrs.kind == Directory)
    requires attrs.kind == Directory || !HasDescendant(im, path)
    ensures WellFormed(Bind(im, path, attrs))
  {
    forall p | p in im.nodes && Below(path, p)
      ensures im.nodes[p].attrs.kind == Directory
    {
      ParentPathsAreTheAncestors(path, p);
    }
    BelowIsIrreflexive(path);
  }

  lemma HardLinkIsWellFormed(im: Image, e: Entry)
    requires WellFormed(im) && Reachable(im, e.path) && LinkAllowed(LinkTarget(im, e), e) && e.path != ""
    requires Relative(e.path)
    ensures WellFormed(PlaceHardLink(im, e))
  {
    var target := im.nodes[e.linkname.value];
    var attrs := target.attrs.(mode := e.mode, uid := e.uid, gid := e.gid);
    var removed := RemoveTree(im, e.path);
    var linked := Link(removed, e.path, target);
    var out := PlaceHardLink(im, e);
    forall p | p in im.nodes && Below(e.path, p)
      ensures im.nodes[p].attrs.kind == Directory
    {
      ParentPathsAreTheAncestors(e.path, p);
    }
    BelowIsIrreflexive(e.path);
    forall p | p in out.nodes
      ensures p in linked.nodes && out.nodes[p].attrs.kind == linked.nodes[p].attrs.kind
      ensures out.nodes[p].ino == linked.nodes[p].ino
    {
      if p != e.path {
        assert im.nodes[p] == linked.nodes[p];
      }
    }
    assert SharingIsHarmless(out);
    assert LeavesAreLeaves(out);
  }

  lemma UpdateDirectoryIsWellFormed(im: Image, path: string, attrs: Attrs)
    requires WellFormed(im) && path in im.nodes && im.nodes[path].attrs.kind == Directory && attrs.kind == Directory
    ensures WellFormed(Update(im, im.nodes[path].ino, attrs))
    ensures Update(im, im.nodes[path].ino, attrs).nodes == im.nodes[path := Node(im.nodes[path].ino, attrs)]
  {
  }

  lemma PlaceOneIsWellFormed(im: Image, e: Entry, packageAddition: bool)
    requires WellFormed(im) && EntryOk(e) && PlaceOne(im, e, packageAddition).Some?
    ensures WellFormed(PlaceOne(im, e, packageAddition).value)
  {
    if e.kind == HardLink {
      HardLinkIsWellFormed(im, e);
    } else if e.kind == Directory && e.path in im.nodes && im.nodes[e.path].attrs.kind == Directory {
      UpdateDirectoryIsWellFormed(im, e.path, e.Metadata());
    } else if e.kind == Directory && e.path !in im.nodes && HasDescendant(im, e.path) {
      BindIsWellFormed(im, e.path, e.Metadata());
    } else {
      SmallerImageIsWellFormed(im, RemoveTree(im, e.path));
      BindIsWellFormed(RemoveTree(im, e.path), e.path, e.Metadata());
    }
  }

  lemma {:induction false} PlacedIsWellFormed(im: Image, es: seq<Entry>, packageAddition: bool)
    requires WellFormed(im) && EntriesOk(es) && Placed(im, es, packageAddition).Some?
    ensures WellFormed(Placed(im, es, packageAddition).value)
  {
    if es != [] {
      PlacedIsWellFormed(im, Front(es), packageAddition);
      PlaceOneIsWellFormed(Placed(im, Front(es), packageAddition).value, Last(es), packageAddition);
    }
  }

  lemma {:induction false} SweptIsWellFormed(im: Image, es: seq<Entry>, packageAddition: bool)
    requires WellFormed(im) && Swept(im, es, packageAddition).Some?
    ensures WellFormed(Swept(im, es, packageAddition).value)
  {
    if es != [] {
      SweptIsWellFormed(im, Front(es), packageAddition);
      SmallerImageIsWellFormed(Swept(im, Front(es), packageAddition).value, Swept(im, es, packageAddition).value);
    }
  }

  lemma {:induction false} OrdinaryIsOk(es: seq<Entry>)
    requires EntriesOk(es)
    ensures EntriesOk(Ordinary(es))
  {
    if es != [] {
      OrdinaryIsOk(Front(es));
    }
  }

  lemma ApplyLayerIsWellFormed(im: Image, es: seq<Entry>, packageAddition: bool)
    requires WellFormed(im) && EntriesOk(es) && ApplyLayer(im, es, packageAddition).Some?
    ensures WellFormed(ApplyLayer(im, es, packageAddition).value)
  {
    SweptIsWellFormed(im, es, packageAddition);
    OrdinaryIsOk(es);
    PlacedIsWellFormed(Swept(im, es, packageAddition).value, Ordinary(es), packageAddition);
  }

  /** The heap invariant holds in every image that layers build from the empty one. */
  lemma {:induction false} HeapInvariant(im: Image, layers: seq<seq<Entry>>, packageAddition: bool)
    requires WellFormed(im) && LayersOk(layers) && ApplyLayers(im, layers, packageAddition).Some?
    ensures WellFormed(ApplyLayers(im, layers, packageAddition).value)
  {
    if layers != [] {
      HeapInvariant(im, Front(layers), packageAddition);
      ApplyLayerIsWellFormed(ApplyLayers(im, Front(layers), packageAddition).value, Last(layers), packageAddition);
    }
  }

  // ---------------------------------------------------------------- package layers only extend the package

  /** Paths a package layer has no say over. */
  predicate Protected(path: string) {
    path !in STRUCTURAL_PARENTS && !InPackage(path)
  }

  /** A node no package layer could have made privileged. */
  predicate Inert(a: Attrs) {
    (a.kind == File || a.kind == Directory) && a.xattrs == map[] && !SetId(a.mode)
  }

  /** `after` differs from `before` only as a package may make it differ. */
  ghost predicate ExtendsPackage(before: Image, after: Image) {
    && (forall p :: p in after.nodes && Protected(p) ==> p in before.nodes)
    && (forall p :: p in before.nodes && !InPackage(p) ==> p in after.nodes && after.nodes[p] == before.nodes[p])
    && (forall p :: p in after.nodes && p in STRUCTURAL_PARENTS && p !in before.nodes
                    ==> after.nodes[p].attrs == Attrs(Directory, 0x1ed, 0, 0, map[]))
    && (forall p :: p in after.nodes && (p !in before.nodes || after.nodes[p] != before.nodes[p])
                    ==> Inert(after.nodes[p].attrs))
  }

  lemma BelowPackage(path: string, e: string)
    requires InPackage(e) && Below(path, e)
    ensures InPackage(path)
  {
    if e != PACKAGE_PATH {
      BelowIsTransitive(path, e, PACKAGE_PATH);
    }
  }

  lemma StructuralParentsAreOutside()
    ensures forall p :: p in STRUCTURAL_PARENTS ==> !InPackage(p)
  {
  }

  lemma RefreshedDirectoryExtends(im: Image, e: Entry)
    requires WellFormed(im) && PackageAdmits(Stat(im, e.path), e)
    requires e.kind == Directory && e.path in im.nodes && im.nodes[e.path].attrs.kind == Directory
    ensures ExtendsPackage(im, PlaceNode(im, e))
  {
    StructuralParentsAreOutside();
    UpdateDirectoryIsWellFormed(im, e.path, e.Metadata());
  }

  lemma NewStructuralParentExtends(im: Image, e: Entry)
    requires PackageAdmits(Stat(im, e.path), e) && e.path in STRUCTURAL_PARENTS && e.path !in im.nodes
    ensures ExtendsPackage(im, PlaceNode(im, e))
  {
    StructuralParentsAreOutside();
    var out := PlaceNode(im, e);
    assert forall q :: q in im.nodes ==> q in out.nodes && out.nodes[q] == im.nodes[q] by {
      if !HasDescendant(im, e.path) {
        assert RemoveTree(im, e.path).nodes == im.nodes;
      }
    }
  }

  lemma PackagePayloadExtends(im: Image, e: Entry)
    requires PackageAdmits(Stat(im, e.path), e) && InPackage(e.path)
    requires !(e.kind == Directory && e.path in im.nodes && im.nodes[e.path].attrs.kind == Directory)
    ensures ExtendsPackage(im, PlaceNode(im, e))
  {
    StructuralParentsAreOutside();
    var out := PlaceNode(im, e);
    forall q | q in im.nodes && !InPackage(q)
      ensures q in out.nodes && out.nodes[q] == im.nodes[q]
    {
      if Below(q, e.path) {
        BelowPackage(q, e.path);
      }
    }
    assert forall q :: q in out.nodes && q != e.path ==> q in im.nodes && out.nodes[q] == im.nodes[q];
  }

  lemma PackageEntryExtends(im: Image, e: Entry)
    requires WellFormed(im) && EntryOk(e) && PlaceOne(im, e, true).Some?
    ensures ExtendsPackage(im, PlaceOne(im, e, true).value)
  {
    if e.kind == Directory && e.path in im.nodes && im.nodes[e.path].attrs.kind == Directory {
      RefreshedDirectoryExtends(im, e);
    } else if e.path in STRUCTURAL_PARENTS {
      NewStructuralParentExtends(im, e);
    } else {
      PackagePayloadExtends(im, e);
    }
  }

  lemma ExtendsIsTransitive(a: Image, b: Image, c: Image)
    requires ExtendsPackage(a, b) && ExtendsPackage(b, c)
    ensures ExtendsPackage(a, c)
  {
    forall p | p in c.nodes && (p !in a.nodes || c.nodes[p] != a.nodes[p])
      ensures Inert(c.nodes[p].attrs)
    {
      if p in b.nodes && c.nodes[p] == b.nodes[p] {
        assert Inert(b.nodes[p].attrs);
      }
    }
  }

  lemma {:induction false} PackageEntriesExtend(im: Image, es: seq<Entry>)
    requires WellFormed(im) && EntriesOk(es) && Placed(im, es, true).Some?
    ensures ExtendsPackage(im, Placed(im, es, true).value)
  {
    if es != [] {
      var front := Front(es);
      PackageEntriesExtend(im, front);
      PlacedIsWellFormed(im, front, true);
      PackageEntryExtends(Placed(im, front, true).value, Last(es));
      ExtendsIsTransitive(im, Placed(im, front, true).value, Placed(im, es, true).value);
    }
  }

  lemma {:induction false} PackageSweepChangesNothing(im: Image, es: seq<Entry>)
    requires Swept(im, es, true).Some?
    ensures Swept(im, es, true).value == im
  {
    if es != [] {
      PackageSweepChangesNothing(im, Front(es));
    }
  }

  /**
   * The frame theorem: any number of accepted package layers leave every node outside the package
   * subtree in place, object and metadata, add nothing outside it but plain structural parents, and
   * whatever they add or change is inert.
   */
  lemma {:induction false} PackageLayersOnlyExtend(im: Image, layers: seq<seq<Entry>>)
    requires WellFormed(im) && LayersOk(layers) && ApplyLayers(im, layers, true).Some?
    ensures ExtendsPackage(im, ApplyLayers(im, layers, true).value)
  {
    if layers != [] {
      var front := Front(layers);
      var mid := ApplyLayers(im, front, true).value;
      PackageLayersOnlyExtend(im, front);
      HeapInvariant(im, front, true);
      PackageSweepChangesNothing(mid, Last(layers));
      OrdinaryIsOk(Last(layers));
      PackageEntriesExtend(mid, Ordinary(Last(layers)));
      ExtendsIsTransitive(im, mid, ApplyLayers(im, layers, true).value);
    }
  }
}
