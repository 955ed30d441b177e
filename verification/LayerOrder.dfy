/** What the order of the entries within one layer can and cannot change. */
module LayerOrder {
  import opened Common
  import opened Paths
  import opened Layers
  import opened LayerInvariant

  // ---------------------------------------------------------------- whiteouts are one filter

  predicate Hides(w: Whiteout, q: string) {
    match w
    case Opaque(dir) => UnderOpaque(q, dir)
    case Hide(target) => q == target || Below(q, target)
  }

  predicate HiddenBy(e: Entry, q: string) {
    IsWhiteout(e) && WhiteoutOf(e).Some? && Hides(WhiteoutOf(e).value, q)
  }

  /** Some whiteout of the layer hides `q`. */
  predicate Hidden(es: seq<Entry>, q: string) {
    exists e :: e in es && HiddenBy(e, q)
  }

  predicate WhiteoutsAccepted(es: seq<Entry>, packageAddition: bool) {
    forall e :: e in es && IsWhiteout(e) ==> !packageAddition && WhiteoutOf(e).Some?
  }

  lemma MembersOfFront(es: seq<Entry>)
    requires es != []
    ensures forall e :: e in es <==> e in Front(es) || e == Last(es)
  {
    assert es == Front(es) + [Last(es)];
  }

  /** All the whiteouts of a layer together are one filter of the lower image. */
  lemma {:induction false} SweepIsOneFilter(im: Image, es: seq<Entry>, packageAddition: bool)
    ensures Swept(im, es, packageAddition).Some? <==> WhiteoutsAccepted(es, packageAddition)
    ensures Swept(im, es, packageAddition).Some?
            ==> Swept(im, es, packageAddition).value
                == im.(nodes := map q | q in im.nodes && !Hidden(es, q) :: im.nodes[q])
  {
    if es == [] {
      assert (map q | q in im.nodes && !Hidden(es, q) :: im.nodes[q]) == im.nodes;
    } else {
      SweepIsOneFilter(im, Front(es), packageAddition);
      MembersOfFront(es);
      if Swept(im, es, packageAddition).Some? {
        var out := Swept(im, es, packageAddition).value;
        forall q
          ensures q in out.nodes <==> q in im.nodes && !Hidden(es, q)
          ensures q in out.nodes ==> out.nodes[q] == im.nodes[q]
        {
          assert Hidden(es, q) <==> Hidden(Front(es), q) || HiddenBy(Last(es), q);
        }
      }
    }
  }

  predicate WhiteoutsWithin(es: seq<Entry>, fs: seq<Entry>) {
    forall e :: e in es && IsWhiteout(e) ==> e in fs
  }

  lemma MoreWhiteoutsHideMore(es: seq<Entry>, fs: seq<Entry>, q: string)
    requires WhiteoutsWithin(es, fs)
    ensures Hidden(es, q) ==> Hidden(fs, q)
  {
    if Hidden(es, q) {
      var e :| e in es && HiddenBy(e, q);
      assert e in fs;
    }
  }

  lemma SameWhiteoutsSameSweep(im: Image, es: seq<Entry>, fs: seq<Entry>, packageAddition: bool)
    requires WhiteoutsWithin(es, fs) && WhiteoutsWithin(fs, es)
    ensures Swept(im, es, packageAddition) == Swept(im, fs, packageAddition)
  {
    SweepIsOneFilter(im, es, packageAddition);
    SweepIsOneFilter(im, fs, packageAddition);
    var a := map q | q in im.nodes && !Hidden(es, q) :: im.nodes[q];
    var b := map q | q in im.nodes && !Hidden(fs, q) :: im.nodes[q];
    assert a == b by {
      forall q
        ensures q in a <==> q in b
      {
        MoreWhiteoutsHideMore(es, fs, q);
        MoreWhiteoutsHideMore(fs, es, q);
      }
    }
    if WhiteoutsAccepted(fs, packageAddition) {
      WhiteoutsAcceptedAlike(es, fs, packageAddition);
    } else if WhiteoutsAccepted(es, packageAddition) {
      WhiteoutsAcceptedAlike(fs, es, packageAddition);
    }
  }

  lemma WhiteoutsAcceptedAlike(es: seq<Entry>, fs: seq<Entry>, packageAddition: bool)
    requires WhiteoutsWithin(es, fs) && WhiteoutsAccepted(fs, packageAddition)
    ensures WhiteoutsAccepted(es, packageAddition)
  {
  }

  /** Where the whiteouts of a layer stand, and in which order, never matters. */
  lemma WhiteoutsMayStandAnywhere(im: Image, es: seq<Entry>, fs: seq<Entry>, packageAddition: bool)
    requires Ordinary(es) == Ordinary(fs)
    requires WhiteoutsWithin(es, fs) && WhiteoutsWithin(fs, es)
    ensures ApplyLayer(im, es, packageAddition) == ApplyLayer(im, fs, packageAddition)
  {
    SameWhiteoutsSameSweep(im, es, fs, packageAddition);
  }

  // ---------------------------------------------------------------- entries settle to one overlay

  /** `q` lies strictly below an entry that is not a directory. */
  predicate Covered(es: seq<Entry>, q: string) {
    exists f :: f in es && f.kind != Directory && Below(q, f.path)
  }

  predicate Named(es: seq<Entry>, q: string) {
    exists e :: e in es && e.path == q
  }

  predicate Touched(es: seq<Entry>, q: string) {
    Covered(es, q) || Named(es, q)
  }

  /** Two names of one object. */
  predicate Shares(im: Image, p: string, q: string) {
    p in im.nodes && q in im.nodes && im.nodes[p].ino == im.nodes[q].ino
  }

  /** The overlay of the entries on `im`, path by path, without any reference to their order. */
  ghost predicate SettlesTo(im: Image, es: seq<Entry>, out: Image) {
    && (forall q :: Covered(es, q) ==> Stat(out, q).None?)
    && (forall e :: e in es && !Covered(es, e.path) ==> Stat(out, e.path) == Some(e.Metadata()))
    && (forall q :: !Touched(es, q) ==> Stat(out, q) == Stat(im, q))
    && (forall p, q :: p != q ==> (Shares(out, p, q) <==> Shares(im, p, q) && !Touched(es, p) && !Touched(es, q)))
  }

  predicate NoHardLinks(es: seq<Entry>) {
    forall i :: 0 <= i < |es| ==> es[i].kind != HardLink
  }

  /** Whether placing an entry that is not a hard link takes the node at `q` away or sets it. */
  predicate Replaces(e: Entry, q: string) {
    q == e.path || (e.kind != Directory && Below(q, e.path))
  }

  lemma RefreshesInPlace(im: Image, e: Entry)
    requires WellFormed(im) && e.kind == Directory && e.path in im.nodes && im.nodes[e.path].attrs.kind == Directory
    ensures PlaceNode(im, e).nodes == im.nodes[e.path := Node(im.nodes[e.path].ino, e.Metadata())]
  {
    UpdateDirectoryIsWellFormed(im, e.path, e.Metadata());
  }

  /** By value, a directory entry adds one path and any other entry replaces one subtree. */
  lemma PlaceNodeByValue(im: Image, e: Entry, q: string)
    requires WellFormed(im) && e.kind != HardLink
    ensures Stat(PlaceNode(im, e), q)
         == if q == e.path then Some(e.Metadata()) else if Replaces(e, q) then None else Stat(im, q)
  {
    if e.kind == Directory && e.path in im.nodes && im.nodes[e.path].attrs.kind == Directory {
      RefreshesInPlace(im, e);
    }
  }

  /** What it sets is an object of its own, and all other sharing stays. */
  lemma PlaceNodeSharing(im: Image, e: Entry, p: string, q: string)
    requires WellFormed(im) && e.kind != HardLink && p != q
    ensures Shares(PlaceNode(im, e), p, q) <==> Shares(im, p, q) && !Replaces(e, p) && !Replaces(e, q)
  {
    if e.kind == Directory && e.path in im.nodes && im.nodes[e.path].attrs.kind == Directory {
      RefreshesInPlace(im, e);
    }
  }

  /** An accepted path has no non-directory entry of the same layer above it. */
  lemma {:induction false} AcceptedIsNotCovered(im: Image, es: seq<Entry>, out: Image, path: string, f: Entry)
    requires SettlesTo(im, es, out) && Reachable(out, path)
    requires f in es && Below(path, f.path)
    ensures f.kind == Directory
    decreases |f.path|
  {
    if Covered(es, f.path) {
      var g :| g in es && g.kind != Directory && Below(f.path, g.path);
      BelowIsTransitive(path, f.path, g.path);
      AcceptedIsNotCovered(im, es, out, path, g);
    } else {
      ParentPathsAreTheAncestors(path, f.path);
    }
  }

  /** One more entry, at a path that is not covered. */
  lemma TouchedBySnoc(es: seq<Entry>, e: Entry, q: string)
    ensures Covered(es + [e], q) <==> Covered(es, q) || (e.kind != Directory && Below(q, e.path))
    ensures Named(es + [e], q) <==> Named(es, q) || q == e.path
    ensures Touched(es + [e], q) <==> Touched(es, q) || Replaces(e, q)
  {
    assert forall x :: x in es + [e] <==> x in es || x == e;
  }

  lemma SettleOneMore(im: Image, es: seq<Entry>, mid: Image, e: Entry)
    requires SettlesTo(im, es, mid) && WellFormed(mid) && e.kind != HardLink && !Covered(es, e.path)
    requires !Named(es, e.path)
    ensures SettlesTo(im, es + [e], PlaceNode(mid, e))
  {
    hide WellFormed, PlaceNode, Covered, Named;
    var out := PlaceNode(mid, e);
    BelowIsIrreflexive(e.path);
    forall q
      ensures Covered(es + [e], q) <==> Covered(es, q) || (e.kind != Directory && Below(q, e.path))
      ensures Named(es + [e], q) <==> Named(es, q) || q == e.path
      ensures Touched(es + [e], q) <==> Touched(es, q) || Replaces(e, q)
      ensures Stat(out, q) == if q == e.path then Some(e.Metadata()) else if Replaces(e, q) then None else Stat(mid, q)
    {
      TouchedBySnoc(es, e, q);
      PlaceNodeByValue(mid, e, q);
    }
    forall p, q | p != q
      ensures Shares(out, p, q) <==> Shares(im, p, q) && !Touched(es + [e], p) && !Touched(es + [e], q)
    {
      PlaceNodeSharing(mid, e, p, q);
    }
    forall x | x in es + [e] && !Covered(es + [e], x.path)
      ensures Stat(out, x.path) == Some(x.Metadata())
    {
      if x in es {
        assert x.path != e.path by { NamedByMember(es, x); }
      }
    }
  }

  lemma NamedByMember(es: seq<Entry>, e: Entry)
    requires e in es
    ensures Named(es, e.path)
  {
  }

  lemma {:induction false} EntriesSettle(im: Image, es: seq<Entry>, packageAddition: bool)
    requires WellFormed(im) && EntriesOk(es) && NoHardLinks(es) && DistinctPaths(es)
    requires Placed(im, es, packageAddition).Some?
    ensures SettlesTo(im, es, Placed(im, es, packageAddition).value)
  {
    hide WellFormed, PlaceNode, SettlesTo, Reachable;
    if es == [] {
      NothingSettles(im);
    } else {
      var front, e := Front(es), Last(es);
      var mid := Placed(im, front, packageAddition).value;
      EntriesSettle(im, front, packageAddition);
      PlacedIsWellFormed(im, front, packageAddition);
      assert es == front + [e];
      if Covered(front, e.path) {
        var f :| f in front && f.kind != Directory && Below(e.path, f.path);
        AcceptedIsNotCovered(im, front, mid, e.path, f);
      }
      SettleOneMore(im, front, mid, e);
    }
  }

  lemma NothingSettles(im: Image)
    ensures SettlesTo(im, [], im)
  {
  }

  // ---------------------------------------------------------------- equal up to the numbering of objects

  /** The same names with the same values, and the same names share an object. */
  ghost predicate Alike(a: Image, b: Image) {
    && (forall q :: Stat(a, q) == Stat(b, q))
    && (forall p, q :: Shares(a, p, q) <==> Shares(b, p, q))
  }

  lemma {:induction false} OverlayIsUnique(im: Image, jm: Image, es: seq<Entry>, fs: seq<Entry>, a: Image, b: Image)
    requires Alike(im, jm) && SettlesTo(im, es, a) && SettlesTo(jm, fs, b)
    requires forall e :: e in es <==> e in fs
    ensures Alike(a, b)
  {
    forall q
      ensures Covered(es, q) <==> Covered(fs, q)
      ensures Touched(es, q) <==> Touched(fs, q)
      ensures Stat(a, q) == Stat(b, q)
    {
      assert Covered(es, q) <==> Covered(fs, q);
      if !Covered(es, q) && Named(es, q) {
        var e :| e in es && e.path == q;
        assert Stat(a, e.path) == Some(e.Metadata()) == Stat(b, e.path);
      }
    }
    forall p, q
      ensures Shares(a, p, q) <==> Shares(b, p, q)
    {
      assert p == q ==> (Shares(a, p, q) <==> Stat(a, p).Some?) && (Shares(b, p, q) <==> Stat(b, p).Some?);
    }
  }

  lemma HardLinkRespectsAlike(a: Image, b: Image, e: Entry)
    requires Alike(a, b) && LinkTarget(a, e).Some? && LinkTarget(b, e).Some?
    ensures Alike(PlaceHardLink(a, e), PlaceHardLink(b, e))
  {
    var t := e.linkname.value;
    forall q
      ensures Stat(PlaceHardLink(a, e), q) == Stat(PlaceHardLink(b, e), q)
    {
      assert Shares(a, q, t) <==> Shares(b, q, t);
      assert Stat(a, q) == Stat(b, q) && Stat(a, t) == Stat(b, t);
    }
    forall p, q
      ensures Shares(PlaceHardLink(a, e), p, q) <==> Shares(PlaceHardLink(b, e), p, q)
    {
      var p', q' := if p == e.path then t else p, if q == e.path then t else q;
      assert Shares(a, p', q') <==> Shares(b, p', q');
      assert Stat(a, p) == Stat(b, p) && Stat(a, q) == Stat(b, q);
    }
  }

  lemma ReachableAlike(a: Image, b: Image, path: string)
    requires Alike(a, b) && Reachable(a, path)
    ensures Reachable(b, path)
  {
    forall parent | parent in ParentPaths(path) && parent in b.nodes
      ensures b.nodes[parent].attrs.kind == Directory
    {
      assert Stat(a, parent) == Stat(b, parent);
    }
  }

  /** Placing one entry cannot tell apart two rootfs that are equal up to numbering. */
  lemma PlaceOneRespectsAlike(a: Image, b: Image, e: Entry, packageAddition: bool)
    requires Alike(a, b) && WellFormed(a) && WellFormed(b)
    ensures PlaceOne(a, e, packageAddition).Some? <==> PlaceOne(b, e, packageAddition).Some?
    ensures PlaceOne(a, e, packageAddition).Some?
            ==> Alike(PlaceOne(a, e, packageAddition).value, PlaceOne(b, e, packageAddition).value)
  {
    hide WellFormed, PlaceNode, PlaceHardLink, PackageAdmits, LinkAllowed;
    assert Stat(a, e.path) == Stat(b, e.path);
    assert LinkTarget(a, e) == LinkTarget(b, e);
    if Reachable(a, e.path) {
      ReachableAlike(a, b, e.path);
    }
    if Reachable(b, e.path) {
      ReachableAlike(b, a, e.path);
    }
    if PlaceOne(a, e, packageAddition).Some? {
      if e.kind == HardLink {
        LinkAllowedIsFound(LinkTarget(a, e), e);
        HardLinkRespectsAlike(a, b, e);
      } else {
        NodeRespectsAlike(a, b, e);
      }
    }
  }

  lemma LinkAllowedIsFound(target: Option<Attrs>, e: Entry)
    requires LinkAllowed(target, e)
    ensures target.Some?
  {
  }

  lemma NodeRespectsAlike(a: Image, b: Image, e: Entry)
    requires Alike(a, b) && WellFormed(a) && WellFormed(b) && e.kind != HardLink
    ensures Alike(PlaceNode(a, e), PlaceNode(b, e))
  {
    hide WellFormed, PlaceNode;
    forall q
      ensures Stat(PlaceNode(a, e), q) == Stat(PlaceNode(b, e), q)
    {
      PlaceNodeByValue(a, e, q);
      PlaceNodeByValue(b, e, q);
    }
    forall p, q
      ensures Shares(PlaceNode(a, e), p, q) <==> Shares(PlaceNode(b, e), p, q)
    {
      if p != q {
        PlaceNodeSharing(a, e, p, q);
        PlaceNodeSharing(b, e, p, q);
      } else {
        assert Stat(PlaceNode(a, e), p) == Stat(PlaceNode(b, e), p);
      }
    }
  }

  lemma {:induction false} PlacedRespectsAlike(a: Image, b: Image, es: seq<Entry>, packageAddition: bool)
    requires Alike(a, b) && WellFormed(a) && WellFormed(b) && EntriesOk(es)
    ensures Placed(a, es, packageAddition).Some? <==> Placed(b, es, packageAddition).Some?
    ensures Placed(a, es, packageAddition).Some?
            ==> Alike(Placed(a, es, packageAddition).value, Placed(b, es, packageAddition).value)
  {
    hide Alike, WellFormed, PlaceOne;
    if es != [] {
      PlacedRespectsAlike(a, b, Front(es), packageAddition);
      if Placed(a, Front(es), packageAddition).Some? {
        PlacedIsWellFormed(a, Front(es), packageAddition);
        PlacedIsWellFormed(b, Front(es), packageAddition);
        PlaceOneRespectsAlike(Placed(a, Front(es), packageAddition).value, Placed(b, Front(es), packageAddition).value,
                              Last(es), packageAddition);
      }
    }
  }

  lemma {:induction false} PlacedConcat(im: Image, xs: seq<Entry>, ys: seq<Entry>, packageAddition: bool)
    ensures Placed(im, xs + ys, packageAddition)
         == match Placed(im, xs, packageAddition)
            case None => None
            case Some(mid) => Placed(mid, ys, packageAddition)
  {
    hide PlaceOne;
    if ys == [] {
      assert xs + ys == xs;
    } else {
      assert Front(xs + ys) == xs + Front(ys) && Last(xs + ys) == Last(ys);
      PlacedConcat(im, xs, Front(ys), packageAddition);
    }
  }

  lemma {:induction false} OrdinaryMembers(es: seq<Entry>)
    ensures forall e :: e in Ordinary(es) <==> e in es && !IsWhiteout(e)
  {
    if es != [] {
      OrdinaryMembers(Front(es));
      MembersOfFront(es);
    }
  }

  lemma {:induction false} OrdinaryKeepsDistinctPaths(es: seq<Entry>)
    requires DistinctPaths(es)
    ensures DistinctPaths(Ordinary(es))
  {
    if es != [] {
      OrdinaryKeepsDistinctPaths(Front(es));
      OrdinaryMembers(Front(es));
      var front := Ordinary(Front(es));
      forall i | 0 <= i < |front|
        ensures front[i].path != Last(es).path
      {
        assert front[i] in Front(es);
      }
    }
  }
}
