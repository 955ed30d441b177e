/** Which entries of a layer may change places: all but a hard link and the entry at its target. */
module LayerReorder {
  import opened Common
  import opened Paths
  import opened Layers
  import opened LayerInvariant
  import opened LayerOrder

  // ---------------------------------------------------------------- hard links by value

  /** What a hard link makes of the attributes of its target. */
  function LinkedAttrs(target: Attrs, l: Entry): Attrs {
    target.(mode := l.mode, uid := l.uid, gid := l.gid)
  }

  /** The path whose object is at `p` after the link. */
  function Source(l: Entry, p: string): string
    requires l.linkname.Some?
  {
    if p == l.path then l.linkname.value else p
  }

  /** By value, a hard link replaces one subtree and changes every name of its target. */
  lemma HardLinkByValue(im: Image, l: Entry, q: string)
    requires LinkTarget(im, l).Some?
    ensures Stat(PlaceHardLink(im, l), q)
         == if q == l.path || (!Below(q, l.path) && Shares(im, q, l.linkname.value))
            then Some(LinkedAttrs(LinkTarget(im, l).value, l))
            else if Below(q, l.path) then None else Stat(im, q)
  {
  }

  /** It adds one name to its target, and all other sharing stays. */
  lemma HardLinkSharing(im: Image, l: Entry, p: string, q: string)
    requires LinkTarget(im, l).Some?
    ensures Shares(PlaceHardLink(im, l), p, q)
            <==> && (p == l.path || !Below(p, l.path)) && (q == l.path || !Below(q, l.path))
                 && Shares(im, Source(l, p), Source(l, q))
  {
  }

  // ---------------------------------------------------------------- passing a hard link

  /** `x` and then `y`, as one layer places them. */
  function PlaceTwo(im: Image, x: Entry, y: Entry, packageAddition: bool): Option<Image> {
    match PlaceOne(im, x, packageAddition)
    case None => None
    case Some(mid) => PlaceOne(mid, y, packageAddition)
  }

  /** What both accepted orders say about the paths involved. */
  lemma PathsApart(im: Image, x: Entry, l: Entry, packageAddition: bool)
    requires WellFormed(im) && EntryOk(x) && EntryOk(l) && x.kind != HardLink && l.kind == HardLink && x.path != l.path
    requires PlaceTwo(im, x, l, packageAddition).Some? && PlaceTwo(im, l, x, packageAddition).Some?
    ensures l.linkname.Some? && LinkTarget(im, l).Some? && LinkTarget(PlaceNode(im, x), l).Some?
    ensures PlaceOne(im, x, packageAddition) == Some(PlaceNode(im, x))
    ensures PlaceOne(im, l, packageAddition) == Some(PlaceHardLink(im, l))
    ensures PlaceTwo(im, x, l, packageAddition) == Some(PlaceHardLink(PlaceNode(im, x), l))
    ensures PlaceTwo(im, l, x, packageAddition) == Some(PlaceNode(PlaceHardLink(im, l), x))
    ensures WellFormed(PlaceHardLink(im, l))
    ensures !Replaces(x, l.path) && !Below(x.path, l.path)
    ensures l.linkname.value != x.path ==> !Replaces(x, l.linkname.value)
  {
    PlaceOneIsWellFormed(im, l, packageAddition);
    hide WellFormed, PackageAdmits, PlaceNode, PlaceHardLink;
    var xm, lm := PlaceNode(im, x), PlaceHardLink(im, l);
    PlaceNodeByValue(im, x, x.path);
    PlaceNodeByValue(im, x, l.linkname.value);
    HardLinkByValue(im, l, l.path);
    if Below(l.path, x.path) {
      ParentPathsAreTheAncestors(l.path, x.path);
      assert Stat(xm, x.path) == Some(x.Metadata());
    }
    if Below(x.path, l.path) {
      ParentPathsAreTheAncestors(x.path, l.path);
    }
  }

  /** What `PathsApart` establishes when the entry is not at the target of the link. */
  ghost predicate Apart(im: Image, x: Entry, l: Entry) {
    && WellFormed(im) && x.kind != HardLink && x.path != l.path
    && LinkTarget(im, l).Some? && LinkTarget(PlaceNode(im, x), l).Some? && WellFormed(PlaceHardLink(im, l))
    && !Replaces(x, l.path) && !Below(x.path, l.path) && !Replaces(x, l.linkname.value)
  }

  lemma PassValues(im: Image, x: Entry, l: Entry, q: string)
    requires Apart(im, x, l)
    ensures Stat(PlaceHardLink(PlaceNode(im, x), l), q) == Stat(PlaceNode(PlaceHardLink(im, l), x), q)
  {
    var t := l.linkname.value;
    hide WellFormed, PlaceNode, PlaceHardLink;
    HardLinkByValue(PlaceNode(im, x), l, q);
    PlaceNodeByValue(im, x, q);
    PlaceNodeByValue(im, x, t);
    PlaceNodeByValue(PlaceHardLink(im, l), x, q);
    HardLinkByValue(im, l, q);
    if q != t {
      PlaceNodeSharing(im, x, q, t);
    }
  }

  lemma PassSharing(im: Image, x: Entry, l: Entry, p: string, q: string)
    requires Apart(im, x, l) && p != q
    ensures Shares(PlaceHardLink(PlaceNode(im, x), l), p, q) <==> Shares(PlaceNode(PlaceHardLink(im, l), x), p, q)
  {
    hide WellFormed, PlaceNode, PlaceHardLink;
    var p', q' := Source(l, p), Source(l, q);
    HardLinkSharing(PlaceNode(im, x), l, p, q);
    PlaceNodeSharing(PlaceHardLink(im, l), x, p, q);
    HardLinkSharing(im, l, p, q);
    if p' != q' {
      PlaceNodeSharing(im, x, p', q');
    } else {
      PlaceNodeByValue(im, x, p');
    }
  }

  lemma PassedAlike(im: Image, x: Entry, l: Entry)
    requires Apart(im, x, l)
    ensures Alike(PlaceHardLink(PlaceNode(im, x), l), PlaceNode(PlaceHardLink(im, l), x))
  {
    hide Apart, PlaceNode, PlaceHardLink;
    ApartTargets(im, x, l);
    var xl, lx := PlaceHardLink(PlaceNode(im, x), l), PlaceNode(PlaceHardLink(im, l), x);
    forall q
      ensures Stat(xl, q) == Stat(lx, q)
    {
      PassValues(im, x, l, q);
    }
    forall p, q
      ensures Shares(xl, p, q) <==> Shares(lx, p, q)
    {
      if p != q {
        PassSharing(im, x, l, p, q);
      } else {
        PassValues(im, x, l, p);
      }
    }
  }

  lemma ApartTargets(im: Image, x: Entry, l: Entry)
    requires Apart(im, x, l)
    ensures LinkTarget(im, l).Some? && LinkTarget(PlaceNode(im, x), l).Some?
  {
  }

  /** After the link the entry shares its object; before it, it does not. */
  lemma PassedTarget(im: Image, x: Entry, l: Entry)
    requires x.kind != HardLink && x.path != l.path && l.linkname == Some(x.path) && !Below(x.path, l.path)
    requires LinkTarget(im, l).Some? && LinkTarget(PlaceNode(im, x), l).Some?
    requires WellFormed(im) && WellFormed(PlaceHardLink(im, l))
    ensures !Alike(PlaceHardLink(PlaceNode(im, x), l), PlaceNode(PlaceHardLink(im, l), x))
  {
    hide WellFormed, PlaceNode, PlaceHardLink;
    var xl, lx := PlaceHardLink(PlaceNode(im, x), l), PlaceNode(PlaceHardLink(im, l), x);
    HardLinkSharing(PlaceNode(im, x), l, x.path, l.path);
    PlaceNodeByValue(im, x, x.path);
    PlaceNodeSharing(PlaceHardLink(im, l), x, x.path, l.path);
    assert Shares(xl, x.path, l.path) && !Shares(lx, x.path, l.path);
  }

  /**
   * Passing a hard link: when both orders of another entry and a hard link are accepted, they give the
   * same values and sharing if and only if the link does not name the path of the entry.
   */
  lemma PassingExactly(im: Image, x: Entry, l: Entry, packageAddition: bool)
    requires WellFormed(im) && EntryOk(x) && EntryOk(l) && x.kind != HardLink && l.kind == HardLink && x.path != l.path
    requires PlaceTwo(im, x, l, packageAddition).Some? && PlaceTwo(im, l, x, packageAddition).Some?
    ensures Alike(PlaceTwo(im, x, l, packageAddition).value, PlaceTwo(im, l, x, packageAddition).value)
            <==> l.linkname != Some(x.path)
  {
    hide WellFormed, PlaceNode, PlaceHardLink, PlaceTwo, PlaceOne, Alike, Replaces, EntryOk;
    PathsApart(im, x, l, packageAddition);
    if l.linkname != Some(x.path) {
      PassedAlike(im, x, l);
    } else {
      PassedTarget(im, x, l);
    }
  }

  // ---------------------------------------------------------------- kinds settle, hard links included

  function KindAt(im: Image, q: string): Option<Kind> {
    if q in im.nodes then Some(im.nodes[q].attrs.kind) else None
  }

  /** The kind of node an entry leaves: a hard link is another name for a file. */
  function Leaves(e: Entry): Kind {
    if e.kind == HardLink then File else e.kind
  }

  lemma PlaceOneKinds(im: Image, e: Entry, packageAddition: bool, q: string)
    requires WellFormed(im) && PlaceOne(im, e, packageAddition).Some?
    ensures KindAt(PlaceOne(im, e, packageAddition).value, q)
         == if q == e.path then Some(Leaves(e)) else if Replaces(e, q) then None else KindAt(im, q)
  {
    hide WellFormed, PackageAdmits, PlaceNode, PlaceHardLink, Reachable;
    if e.kind == HardLink {
      HardLinkByValue(im, e, q);
      if Shares(im, q, e.linkname.value) {
        SharedKind(im, q, e.linkname.value);
      }
      assert KindAt(PlaceHardLink(im, e), q) == KindOfStat(Stat(PlaceHardLink(im, e), q));
      assert KindAt(im, q) == KindOfStat(Stat(im, q));
    } else {
      PlaceNodeByValue(im, e, q);
      assert KindAt(PlaceNode(im, e), q) == KindOfStat(Stat(PlaceNode(im, e), q));
      assert KindAt(im, q) == KindOfStat(Stat(im, q));
    }
  }

  function KindOfStat(a: Option<Attrs>): Option<Kind> {
    if a.Some? then Some(a.value.kind) else None
  }

  lemma SharedKind(im: Image, p: string, q: string)
    requires WellFormed(im) && Shares(im, p, q)
    ensures KindAt(im, p) == KindAt(im, q)
  {
  }

  /** What the accepted entries make of the kinds, whatever their order. */
  ghost predicate KindsSettle(im: Image, es: seq<Entry>, out: Image) {
    && (forall q :: Covered(es, q) ==> KindAt(out, q).None?)
    && (forall e :: e in es && !Covered(es, e.path) ==> KindAt(out, e.path) == Some(Leaves(e)))
    && (forall q :: !Touched(es, q) ==> KindAt(out, q) == KindAt(im, q))
  }

  /** An accepted path has no entry of the layer above it that is not a directory. */
  lemma {:induction false} AcceptedIsUncovered(im: Image, es: seq<Entry>, out: Image, path: string, f: Entry)
    requires KindsSettle(im, es, out) && Reachable(out, path)
    requires f in es && Below(path, f.path)
    ensures f.kind == Directory
    decreases |f.path|
  {
    if Covered(es, f.path) {
      var g :| g in es && g.kind != Directory && Below(f.path, g.path);
      BelowIsTransitive(path, f.path, g.path);
      AcceptedIsUncovered(im, es, out, path, g);
    } else {
      ParentPathsAreTheAncestors(path, f.path);
      assert KindAt(out, f.path) == Some(Leaves(f));
    }
  }

  lemma KindsSettleOneMore(im: Image, es: seq<Entry>, mid: Image, e: Entry, packageAddition: bool)
    requires KindsSettle(im, es, mid) && WellFormed(mid) && PlaceOne(mid, e, packageAddition).Some?
    requires !Covered(es, e.path) && !Named(es, e.path)
    ensures KindsSettle(im, es + [e], PlaceOne(mid, e, packageAddition).value)
  {
    hide WellFormed, PlaceOne, Covered, Named;
    var out := PlaceOne(mid, e, packageAddition).value;
    BelowIsIrreflexive(e.path);
    forall q
      ensures Covered(es + [e], q) <==> Covered(es, q) || (e.kind != Directory && Below(q, e.path))
      ensures Touched(es + [e], q) <==> Touched(es, q) || Replaces(e, q)
      ensures KindAt(out, q) == if q == e.path then Some(Leaves(e)) else if Replaces(e, q) then None else KindAt(mid, q)
    {
      TouchedBySnoc(es, e, q);
      PlaceOneKinds(mid, e, packageAddition, q);
    }
    forall x | x in es + [e] && !Covered(es + [e], x.path)
      ensures KindAt(out, x.path) == Some(Leaves(x))
    {
      if x in es {
        assert x.path != e.path by { NamedByMember(es, x); }
      }
    }
  }

  lemma {:induction false} PlacedKinds(im: Image, es: seq<Entry>, packageAddition: bool)
    requires WellFormed(im) && EntriesOk(es) && DistinctPaths(es) && Placed(im, es, packageAddition).Some?
    ensures KindsSettle(im, es, Placed(im, es, packageAddition).value)
  {
    hide WellFormed, PlaceOne, KindsSettle, Reachable;
    if es == [] {
      NoKindsSettle(im);
    } else {
      var front, e := Front(es), Last(es);
      var mid := Placed(im, front, packageAddition).value;
      PlacedKinds(im, front, packageAddition);
      PlacedIsWellFormed(im, front, packageAddition);
      assert es == front + [e];
      if Covered(front, e.path) {
        var f :| f in front && f.kind != Directory && Below(e.path, f.path);
        AcceptedIsReachable(mid, e, packageAddition);
        AcceptedIsUncovered(im, front, mid, e.path, f);
      }
      KindsSettleOneMore(im, front, mid, e, packageAddition);
    }
  }

  lemma NoKindsSettle(im: Image)
    ensures KindsSettle(im, [], im)
  {
  }

  lemma AcceptedIsReachable(im: Image, e: Entry, packageAddition: bool)
    requires PlaceOne(im, e, packageAddition).Some?
    ensures Reachable(im, e.path)
  {
  }

  // ---------------------------------------------------------------- two neighbours

  /** Entries whose order matters: two hard links, or a hard link and the entry at its target. */
  predicate Tied(a: Entry, b: Entry) {
    || (a.kind == HardLink && b.kind == HardLink)
    || (a.kind == HardLink && a.linkname == Some(b.path))
    || (b.kind == HardLink && b.linkname == Some(a.path))
  }

  /** `b` may come before `e`, as far as `b` is concerned with what `e` stands on. */
  ghost predicate NotUnder(e: Entry, b: Entry) {
    b.kind != Directory ==>
      !Below(e.path, b.path) && (e.kind == HardLink && e.linkname.Some? ==> !Below(e.linkname.value, b.path))
  }

  lemma FirstReachable(m: Image, e: Entry, b: Entry, packageAddition: bool)
    requires WellFormed(m) && PlaceTwo(m, e, b, packageAddition).Some? && e.path != b.path
    requires Below(b.path, e.path) && e.path in m.nodes ==> KindAt(m, e.path) == Some(Directory)
    ensures Reachable(m, b.path) && !Replaces(e, b.path)
  {
    hide WellFormed, PlaceOne;
    var me := PlaceOne(m, e, packageAddition).value;
    AcceptedIsReachable(me, b, packageAddition);
    PlaceOneKinds(m, e, packageAddition, e.path);
    if Below(b.path, e.path) {
      ParentPathsAreTheAncestors(b.path, e.path);
      assert e.kind == Directory;
    }
    forall p | p in ParentPaths(b.path) && p in m.nodes
      ensures m.nodes[p].attrs.kind == Directory
    {
      ParentPathsAreTheAncestors(b.path, p);
      PlaceOneKinds(m, e, packageAddition, p);
      if Below(p, e.path) {
        BelowIsTransitive(b.path, p, e.path);
      }
      assert KindAt(m, p) == Some(m.nodes[p].attrs.kind);
    }
  }

  lemma SecondReachable(m: Image, e: Entry, b: Entry, packageAddition: bool)
    requires WellFormed(m) && PlaceOne(m, b, packageAddition).Some? && Reachable(m, e.path) && NotUnder(e, b)
    ensures Reachable(PlaceOne(m, b, packageAddition).value, e.path)
  {
    hide WellFormed, PlaceOne;
    var mb := PlaceOne(m, b, packageAddition).value;
    forall p | p in ParentPaths(e.path) && p in mb.nodes
      ensures mb.nodes[p].attrs.kind == Directory
    {
      ParentPathsAreTheAncestors(e.path, p);
      PlaceOneKinds(m, b, packageAddition, p);
      assert KindAt(mb, p) == Some(mb.nodes[p].attrs.kind);
    }
  }

  /** What `PlaceOne` looks at apart from the parents. */
  predicate Admitted(im: Image, e: Entry, packageAddition: bool) {
    && (packageAddition ==> PackageAdmits(Stat(im, e.path), e))
    && (e.kind == HardLink ==> LinkAllowed(LinkTarget(im, e), e))
  }

  lemma AcceptedExactly(im: Image, e: Entry, packageAddition: bool)
    ensures PlaceOne(im, e, packageAddition).Some? <==> Reachable(im, e.path) && Admitted(im, e, packageAddition)
  {
    hide Reachable, PackageAdmits, LinkAllowed;
  }

  /** An entry that does not touch what `y` looks at does not change whether `y` is admitted. */
  lemma AdmittedAlike(m: Image, x: Entry, y: Entry, packageAddition: bool)
    requires WellFormed(m) && PlaceOne(m, x, packageAddition).Some? && !Replaces(x, y.path) && !Tied(x, y)
    requires y.kind == HardLink && y.linkname.Some? ==> !Replaces(x, y.linkname.value)
    ensures Admitted(m, y, packageAddition) <==> Admitted(PlaceOne(m, x, packageAddition).value, y, packageAddition)
  {
    hide WellFormed, Reachable, LinkAllowed, PlaceNode, PlaceHardLink;
    if x.kind != HardLink {
      PlaceNodeByValue(m, x, y.path);
      if y.kind == HardLink && y.linkname.Some? {
        PlaceNodeByValue(m, x, y.linkname.value);
      }
    } else {
      assert !packageAddition;
    }
  }

  /** Where the target of a link is after `x`, `x` did not take it away. */
  lemma TargetStays(m: Image, x: Entry, l: Entry, packageAddition: bool)
    requires WellFormed(m) && PlaceTwo(m, x, l, packageAddition).Some? && l.kind == HardLink && !Tied(x, l)
    ensures l.linkname.Some? && !Replaces(x, l.linkname.value)
  {
    hide WellFormed, Reachable, PlaceNode, PlaceHardLink, PackageAdmits;
    PlaceNodeByValue(m, x, l.linkname.value);
  }

  /** Two untied neighbours may change places. */
  lemma NeighboursSwap(m: Image, e: Entry, b: Entry, packageAddition: bool)
    requires WellFormed(m) && EntryOk(e) && EntryOk(b) && e.path != b.path && !Tied(e, b)
    requires PlaceTwo(m, e, b, packageAddition).Some? && NotUnder(e, b)
    requires Below(b.path, e.path) && e.path in m.nodes ==> KindAt(m, e.path) == Some(Directory)
    ensures PlaceTwo(m, b, e, packageAddition).Some?
  {
    hide WellFormed, PlaceOne, Admitted, Reachable;
    var me := PlaceOne(m, e, packageAddition).value;
    AcceptedExactly(m, e, packageAddition);
    AcceptedExactly(me, b, packageAddition);
    FirstReachable(m, e, b, packageAddition);
    if b.kind == HardLink {
      TargetStays(m, e, b, packageAddition);
    }
    AdmittedAlike(m, e, b, packageAddition);
    AcceptedExactly(m, b, packageAddition);
    var mb := PlaceOne(m, b, packageAddition).value;
    SecondReachable(m, e, b, packageAddition);
    AdmittedAlike(m, b, e, packageAddition);
    AcceptedExactly(mb, e, packageAddition);
  }

  /** And untied neighbours that have changed places give the same rootfs. */
  lemma NeighboursAlike(m: Image, e: Entry, b: Entry, packageAddition: bool)
    requires WellFormed(m) && EntryOk(e) && EntryOk(b) && e.path != b.path && !Tied(e, b)
    requires PlaceTwo(m, e, b, packageAddition).Some? && PlaceTwo(m, b, e, packageAddition).Some?
    ensures Alike(PlaceTwo(m, e, b, packageAddition).value, PlaceTwo(m, b, e, packageAddition).value)
  {
    hide WellFormed, PlaceOne, PlaceTwo, Alike, SettlesTo;
    if e.kind != HardLink && b.kind == HardLink {
      PassingExactly(m, e, b, packageAddition);
    } else if e.kind == HardLink && b.kind != HardLink {
      PassingExactly(m, b, e, packageAddition);
      AlikeBack(PlaceTwo(m, b, e, packageAddition).value, PlaceTwo(m, e, b, packageAddition).value);
    } else {
      var eb, be := [e, b], [b, e];
      PlacedTwo(m, e, b, packageAddition);
      PlacedTwo(m, b, e, packageAddition);
      EntriesSettle(m, eb, packageAddition);
      EntriesSettle(m, be, packageAddition);
      SameAsItself(m);
      assert forall x :: x in eb <==> x in be;
      OverlayIsUnique(m, m, eb, be, PlaceTwo(m, e, b, packageAddition).value, PlaceTwo(m, b, e, packageAddition).value);
    }
  }

  lemma PlacedTwo(m: Image, x: Entry, y: Entry, packageAddition: bool)
    ensures Placed(m, [x, y], packageAddition) == PlaceTwo(m, x, y, packageAddition)
  {
    hide PlaceOne;
    var one, two := [x], [x, y];
    assert Front(two) == one && Front(one) == [] && Last(two) == y && Last(one) == x;
    assert Placed(m, one, packageAddition) == PlaceOne(m, x, packageAddition);
  }

  lemma SameAsItself(m: Image)
    ensures Alike(m, m)
  {
  }

  lemma AlikeBack(a: Image, b: Image)
    requires Alike(a, b)
    ensures Alike(b, a)
  {
  }

  lemma AlikeThen(a: Image, b: Image, c: Image)
    requires Alike(a, b) && Alike(b, c)
    ensures Alike(a, c)
  {
    forall q
      ensures Stat(a, q) == Stat(c, q)
    {
      assert Stat(a, q) == Stat(b, q);
    }
    forall p, q
      ensures Shares(a, p, q) <==> Shares(c, p, q)
    {
      assert Shares(a, p, q) <==> Shares(b, p, q);
    }
  }

  // ---------------------------------------------------------------- an entry that may be the last

  /** What an accepted order that ends with `e` says of the other entries. */
  ghost predicate MayBeLast(im: Image, others: seq<Entry>, e: Entry) {
    && (forall b :: b in others ==> NotUnder(e, b))
    && (e.path in im.nodes && (exists b :: b in others && Below(b.path, e.path))
        ==> KindAt(im, e.path) == Some(Directory))
  }

  lemma PrefixAccepted(im: Image, es: seq<Entry>, n: nat, packageAddition: bool)
    requires n <= |es| && Placed(im, es, packageAddition).Some?
    ensures Placed(im, es[..n], packageAddition).Some?
  {
    assert es == es[..n] + es[n..];
    PlacedConcat(im, es[..n], es[n..], packageAddition);
  }

  lemma LastIsNotUnder(im: Image, others: seq<Entry>, e: Entry, packageAddition: bool, b: Entry)
    requires WellFormed(im) && EntriesOk(others) && DistinctPaths(others) && EntryOk(e) && b in others
    requires Placed(im, others, packageAddition).Some?
    requires PlaceOne(Placed(im, others, packageAddition).value, e, packageAddition).Some?
    ensures NotUnder(e, b)
  {
    hide WellFormed, Reachable, KindsSettle, PackageAdmits, PlaceNode, PlaceHardLink;
    var mid := Placed(im, others, packageAddition).value;
    PlacedKinds(im, others, packageAddition);
    if Below(e.path, b.path) {
      AcceptedIsUncovered(im, others, mid, e.path, b);
    }
    if e.kind == HardLink && e.linkname.Some? && b.kind != Directory && Below(e.linkname.value, b.path) {
      assert Covered(others, e.linkname.value);
      CoveredIsAbsent(im, others, mid, e.linkname.value);
    }
  }

  lemma CoveredIsAbsent(im: Image, es: seq<Entry>, out: Image, q: string)
    requires KindsSettle(im, es, out) && Covered(es, q)
    ensures Stat(out, q).None?
  {
    assert KindAt(out, q) == KindOfStat(Stat(out, q));
  }

  lemma UntouchedKind(im: Image, es: seq<Entry>, q: string, packageAddition: bool)
    requires WellFormed(im) && EntriesOk(es) && DistinctPaths(es) && Placed(im, es, packageAddition).Some?
    requires !Touched(es, q)
    ensures KindAt(Placed(im, es, packageAddition).value, q) == KindAt(im, q)
  {
    PlacedKinds(im, es, packageAddition);
  }

  /** Nobody of the others names the path of `e` or covers it. */
  lemma LastIsUntouched(others: seq<Entry>, e: Entry)
    requires forall b :: b in others ==> b.path != e.path && NotUnder(e, b)
    ensures !Touched(others, e.path)
  {
  }

  /** Above an entry that came before `e` there was no file at the path of `e`. */
  lemma LastStandsOnDirectory(im: Image, others: seq<Entry>, e: Entry, packageAddition: bool, j: nat)
    requires WellFormed(im) && EntriesOk(others) && DistinctPaths(others) && Placed(im, others, packageAddition).Some?
    requires forall b :: b in others ==> b.path != e.path && NotUnder(e, b)
    requires j < |others| && Below(others[j].path, e.path) && e.path in im.nodes
    ensures KindAt(im, e.path) == Some(Directory)
  {
    hide WellFormed, PlaceOne, KindsSettle, NotUnder, EntryOk;
    var prefix, b := others[..j], others[j];
    assert others[..j + 1] == prefix + [b] && Front(prefix + [b]) == prefix;
    PrefixAccepted(im, others, j + 1, packageAddition);
    PrefixAccepted(im, others, j, packageAddition);
    LastIsUntouched(prefix, e);
    UntouchedKind(im, prefix, e.path, packageAddition);
    AcceptedIsReachable(Placed(im, prefix, packageAddition).value, b, packageAddition);
    ParentPathsAreTheAncestors(b.path, e.path);
  }

  lemma LastMayBeLast(im: Image, others: seq<Entry>, e: Entry, packageAddition: bool)
    requires WellFormed(im) && EntriesOk(others + [e]) && DistinctPaths(others + [e])
    requires Placed(im, others + [e], packageAddition).Some?
    ensures MayBeLast(im, others, e)
  {
    hide WellFormed, PlaceOne, NotUnder, EntryOk;
    PlacedConcat(im, others, [e], packageAddition);
    OneMore(Placed(im, others, packageAddition).value, e, packageAddition);
    PartsOfSnoc(others, e);
    forall b | b in others
      ensures NotUnder(e, b)
    {
      LastIsNotUnder(im, others, e, packageAddition, b);
    }
    if e.path in im.nodes && exists b :: b in others && Below(b.path, e.path) {
      var b :| b in others && Below(b.path, e.path);
      var j :| 0 <= j < |others| && others[j] == b;
      LastStandsOnDirectory(im, others, e, packageAddition, j);
    }
  }

  lemma OneMore(m: Image, e: Entry, packageAddition: bool)
    ensures Placed(m, [e], packageAddition) == PlaceOne(m, e, packageAddition)
  {
    assert Front([e]) == [];
  }

  lemma PartsOfSnoc(es: seq<Entry>, e: Entry)
    requires EntriesOk(es + [e]) && DistinctPaths(es + [e])
    ensures EntriesOk(es) && EntryOk(e) && DistinctPaths(es)
    ensures forall b :: b in es ==> b.path != e.path
  {
    hide EntryOk;
    var all := es + [e];
    assert forall i :: 0 <= i < |es| ==> es[i] == all[i];
    assert all[|es|] == e;
    forall b | b in es
      ensures b.path != e.path
    {
      var i :| 0 <= i < |es| && es[i] == b;
      assert all[i].path != all[|es|].path;
    }
  }

  // ---------------------------------------------------------------- moving an entry to the end

  /** `e` may move over the entries of `back`. */
  ghost predicate Movable(im: Image, front: seq<Entry>, e: Entry, back: seq<Entry>) {
    && EntriesOk(front + [e] + back) && DistinctPaths(front + [e] + back)
    && MayBeLast(im, front + back, e)
    && forall b :: b in back ==> !Tied(e, b)
  }

  lemma SwapTwo(front: seq<Entry>, e: Entry, b: Entry, rest: seq<Entry>)
    requires EntriesOk(front + [e, b] + rest) && DistinctPaths(front + [e, b] + rest)
    ensures EntriesOk(front + [b, e] + rest) && DistinctPaths(front + [b, e] + rest)
    ensures EntriesOk(front) && DistinctPaths(front) && EntryOk(e) && EntryOk(b) && EntriesOk(rest) && e.path != b.path
    ensures forall x :: x in front ==> x.path != e.path
  {
    hide EntryOk;
    var n := |front|;
    var was, now := front + [e, b] + rest, front + [b, e] + rest;
    assert was[n] == e && was[n + 1] == b;
    assert forall i :: 0 <= i < n ==> front[i] == was[i];
    assert forall i :: 0 <= i < |rest| ==> rest[i] == was[n + 2 + i];
    assert forall i :: 0 <= i < |now| ==> now[i] == was[if i == n then n + 1 else if i == n + 1 then n else i];
    forall x | x in front
      ensures x.path != e.path
    {
      var i :| 0 <= i < n && front[i] == x;
      assert was[i].path != was[n].path;
    }
  }

  lemma MovableNext(im: Image, front: seq<Entry>, e: Entry, back: seq<Entry>)
    requires Movable(im, front, e, back) && back != []
    ensures Movable(im, front + [back[0]], e, back[1..])
    ensures EntriesOk(front) && DistinctPaths(front) && EntryOk(e) && EntryOk(back[0]) && EntriesOk(back[1..])
    ensures e.path != back[0].path && !Tied(e, back[0]) && NotUnder(e, back[0])
    ensures forall x :: x in front ==> x.path != e.path && NotUnder(e, x)
    ensures Below(back[0].path, e.path) && e.path in im.nodes ==> KindAt(im, e.path) == Some(Directory)
  {
    hide EntryOk, NotUnder, Tied, KindAt, EntriesOk, DistinctPaths;
    var b, rest := back[0], back[1..];
    assert front + [e] + back == front + [e, b] + rest;
    assert front + [b] + [e] + rest == front + [b, e] + rest;
    assert front + [b] + rest == front + back;
    SwapTwo(front, e, b, rest);
    assert b in front + back && b in back;
    assert forall x :: x in front ==> x in front + back;
  }

  /** The kind at the path of `e` is the one it had at the start. */
  lemma StandsAsAtFirst(im: Image, front: seq<Entry>, e: Entry, packageAddition: bool)
    requires WellFormed(im) && EntriesOk(front) && DistinctPaths(front) && Placed(im, front, packageAddition).Some?
    requires forall x :: x in front ==> x.path != e.path && NotUnder(e, x)
    ensures var m := Placed(im, front, packageAddition).value;
            WellFormed(m) && KindAt(m, e.path) == KindAt(im, e.path)
  {
    PlacedIsWellFormed(im, front, packageAddition);
    hide WellFormed, Placed;
    LastIsUntouched(front, e);
    UntouchedKind(im, front, e.path, packageAddition);
  }

  /** One neighbour further. */
  lemma MoveOnce(im: Image, front: seq<Entry>, e: Entry, b: Entry, packageAddition: bool)
    requires WellFormed(im) && EntriesOk(front) && DistinctPaths(front) && EntryOk(e) && EntryOk(b)
    requires e.path != b.path && !Tied(e, b) && NotUnder(e, b)
    requires forall x :: x in front ==> x.path != e.path && NotUnder(e, x)
    requires Below(b.path, e.path) && e.path in im.nodes ==> KindAt(im, e.path) == Some(Directory)
    requires Placed(im, front + [e, b], packageAddition).Some?
    ensures Placed(im, front + [b, e], packageAddition).Some?
    ensures Alike(Placed(im, front + [e, b], packageAddition).value, Placed(im, front + [b, e], packageAddition).value)
  {
    hide WellFormed, Placed, PlaceTwo, Alike, NotUnder, Tied, EntryOk;
    PlacedConcat(im, front, [e, b], packageAddition);
    PlacedConcat(im, front, [b, e], packageAddition);
    StandsAsAtFirst(im, front, e, packageAddition);
    var m := Placed(im, front, packageAddition).value;
    PlacedTwo(m, e, b, packageAddition);
    PlacedTwo(m, b, e, packageAddition);
    assert e.path in m.nodes <==> e.path in im.nodes by {
      assert KindAt(m, e.path).Some? <==> KindAt(im, e.path).Some?;
    }
    NeighboursSwap(m, e, b, packageAddition);
    NeighboursAlike(m, e, b, packageAddition);
  }

  lemma {:induction false} MoveToEnd(im: Image, front: seq<Entry>, e: Entry, back: seq<Entry>, packageAddition: bool)
    requires WellFormed(im) && Movable(im, front, e, back) && Placed(im, front + [e] + back, packageAddition).Some?
    ensures Placed(im, front + back + [e], packageAddition).Some?
    ensures Alike(Placed(im, front + [e] + back, packageAddition).value,
                  Placed(im, front + back + [e], packageAddition).value)
    decreases |back|
  {
    hide WellFormed, Placed, PlaceTwo, Alike, NotUnder, Tied, EntryOk, Movable;
    if back == [] {
      assert front + [e] + back == front + back + [e];
      SameAsItself(Placed(im, front + [e] + back, packageAddition).value);
    } else {
      var b, rest := back[0], back[1..];
      MovableNext(im, front, e, back);
      assert front + [e] + back == (front + [e, b]) + rest;
      assert (front + [b]) + [e] + rest == (front + [b, e]) + rest;
      assert (front + [b]) + rest + [e] == front + back + [e];
      PlacedConcat(im, front + [e, b], rest, packageAddition);
      PlacedConcat(im, front + [b, e], rest, packageAddition);
      MoveOnce(im, front, e, b, packageAddition);
      TwoMoreWellFormed(im, front, e, b, packageAddition);
      TwoMoreWellFormed(im, front, b, e, packageAddition);
      PlacedRespectsAlike(Placed(im, front + [e, b], packageAddition).value,
                          Placed(im, front + [b, e], packageAddition).value, rest, packageAddition);
      MoveToEnd(im, front + [b], e, rest, packageAddition);
      AlikeThen(Placed(im, front + [e] + back, packageAddition).value,
                Placed(im, (front + [b]) + [e] + rest, packageAddition).value,
                Placed(im, front + back + [e], packageAddition).value);
    }
  }

  lemma TwoMoreWellFormed(im: Image, front: seq<Entry>, x: Entry, y: Entry, packageAddition: bool)
    requires WellFormed(im) && EntriesOk(front) && EntryOk(x) && EntryOk(y)
    requires Placed(im, front + [x, y], packageAddition).Some?
    ensures WellFormed(Placed(im, front + [x, y], packageAddition).value)
  {
    hide WellFormed, EntryOk, Placed;
    assert forall i :: 0 <= i < |front + [x, y]| ==> (front + [x, y])[i] in front + [x, y];
    PlacedIsWellFormed(im, front + [x, y], packageAddition);
  }

  // ---------------------------------------------------------------- the order of a layer

  ghost predicate Before(es: seq<Entry>, a: Entry, b: Entry) {
    exists i, j :: 0 <= i < j < |es| && es[i] == a && es[j] == b
  }

  /** The same entries; hard links keep their order, and so do a hard link and the entry at its target. */
  ghost predicate Rearranged(es: seq<Entry>, fs: seq<Entry>) {
    && (forall e :: e in es <==> e in fs) && DistinctPaths(es) && DistinctPaths(fs)
    && forall a, b :: Tied(a, b) && Before(es, a, b) ==> Before(fs, a, b)
  }

  lemma NothingIsAfterLast(fs: seq<Entry>, b: Entry)
    requires fs != [] && DistinctPaths(fs)
    ensures !Before(fs, Last(fs), b)
  {
  }

  function Without(es: seq<Entry>, i: nat): seq<Entry>
    requires i < |es|
  {
    es[..i] + es[i + 1..]
  }

  lemma WithoutAt(es: seq<Entry>, i: nat)
    requires i < |es|
    ensures |Without(es, i)| == |es| - 1
    ensures forall k :: 0 <= k < |es| - 1 ==> Without(es, i)[k] == es[if k < i then k else k + 1]
  {
  }

  lemma WithoutMembers(es: seq<Entry>, i: nat)
    requires i < |es| && DistinctPaths(es)
    ensures DistinctPaths(Without(es, i))
    ensures forall x :: x in Without(es, i) <==> x in es && x != es[i]
  {
    WithoutAt(es, i);
    hide Without;
    forall x
      ensures x in Without(es, i) <==> x in es && x != es[i]
    {
      if x in Without(es, i) {
        WithoutKeeps(es, i, x);
      }
      if x in es && x != es[i] {
        StaysWithout(es, i, x);
      }
    }
  }

  lemma WithoutKeeps(es: seq<Entry>, i: nat, x: Entry)
    requires i < |es| && DistinctPaths(es) && x in Without(es, i)
    ensures x in es && x != es[i]
  {
    WithoutAt(es, i);
    hide Without;
    var k :| 0 <= k < |es| - 1 && Without(es, i)[k] == x;
    assert es[if k < i then k else k + 1].path != es[i].path;
  }

  lemma StaysWithout(es: seq<Entry>, i: nat, x: Entry)
    requires i < |es| && x in es && x != es[i]
    ensures x in Without(es, i)
  {
    WithoutAt(es, i);
    hide Without;
    var k :| 0 <= k < |es| && es[k] == x;
    assert Without(es, i)[if k < i then k else k - 1] == x;
  }

  lemma BeforeWithout(es: seq<Entry>, i: nat, a: Entry, b: Entry)
    requires i < |es| && Before(Without(es, i), a, b)
    ensures Before(es, a, b)
  {
    WithoutAt(es, i);
    hide Without;
    var less := Without(es, i);
    var k, l :| 0 <= k < l < |less| && less[k] == a && less[l] == b;
    assert es[if k < i then k else k + 1] == a && es[if l < i then l else l + 1] == b;
  }

  lemma BeforeInFront(fs: seq<Entry>, a: Entry, b: Entry)
    requires fs != [] && Before(fs, a, b) && b != Last(fs)
    ensures Before(Front(fs), a, b)
  {
    var i, j :| 0 <= i < j < |fs| && fs[i] == a && fs[j] == b;
    assert Front(fs)[i] == a && Front(fs)[j] == b;
  }

  lemma RearrangedWithout(es: seq<Entry>, fs: seq<Entry>, i: nat)
    requires Rearranged(es, fs) && fs != [] && i < |es| && es[i] == Last(fs)
    ensures Rearranged(Without(es, i), Front(fs))
    ensures forall b :: b in es[i + 1..] ==> !Tied(es[i], b)
  {
    hide Tied, Before;
    var e, less, front := es[i], Without(es, i), Front(fs);
    WithoutMembers(es, i);
    assert Without(fs, |fs| - 1) == front;
    WithoutMembers(fs, |fs| - 1);
    forall a, b | Tied(a, b) && Before(less, a, b)
      ensures Before(front, a, b)
    {
      MembersOfBefore(less, a, b);
      BeforeWithout(es, i, a, b);
      BeforeInFront(fs, a, b);
    }
    forall b | b in es[i + 1..]
      ensures !Tied(e, b)
    {
      NothingIsAfterLast(fs, b);
      LaterIsAfter(es, i, b);
    }
  }

  lemma MembersOfBefore(es: seq<Entry>, a: Entry, b: Entry)
    requires Before(es, a, b)
    ensures a in es && b in es
  {
  }

  lemma LaterIsAfter(es: seq<Entry>, i: nat, b: Entry)
    requires i < |es| && b in es[i + 1..]
    ensures Before(es, es[i], b)
  {
    var j :| 0 <= j < |es[i + 1..]| && es[i + 1..][j] == b;
    assert es[i + 1 + j] == b;
  }

  lemma SameLastMovable(im: Image, es: seq<Entry>, fs: seq<Entry>, i: nat, packageAddition: bool)
    requires WellFormed(im) && EntriesOk(es) && EntriesOk(fs) && Rearranged(es, fs)
    requires fs != [] && i < |es| && es[i] == Last(fs) && Placed(im, fs, packageAddition).Some?
    ensures Movable(im, es[..i], es[i], es[i + 1..])
  {
    hide WellFormed, Placed, EntryOk, Tied, NotUnder;
    var e := es[i];
    assert fs == Front(fs) + [e];
    LastMayBeLast(im, Front(fs), e, packageAddition);
    RearrangedWithout(es, fs, i);
    assert es == es[..i] + [e] + es[i + 1..];
    assert forall x :: x in Without(es, i) ==> x in Front(fs);
  }

  lemma WithoutIsOk(es: seq<Entry>, i: nat)
    requires i < |es| && EntriesOk(es)
    ensures EntriesOk(Without(es, i))
  {
    hide EntryOk, Without;
    WithoutAt(es, i);
  }

  lemma EmptyOrInhabited(es: seq<Entry>)
    ensures es == [] || exists e :: e in es
  {
    if es != [] {
      assert es[0] in es;
    }
  }

  /** Two accepted rearrangements give the same values and sharing. */
  lemma {:induction false} RearrangedAgree(im: Image, es: seq<Entry>, fs: seq<Entry>, packageAddition: bool)
    requires WellFormed(im) && EntriesOk(es) && EntriesOk(fs) && Rearranged(es, fs)
    requires Placed(im, es, packageAddition).Some? && Placed(im, fs, packageAddition).Some?
    ensures Alike(Placed(im, es, packageAddition).value, Placed(im, fs, packageAddition).value)
    decreases |fs|
  {
    hide WellFormed, Placed, PlaceOne, Alike, EntryOk, Movable, Rearranged;
    if fs == [] {
      SameMembers(es, fs);
      EmptyOrInhabited(es);
      SameAsItself(Placed(im, es, packageAddition).value);
    } else {
      var e := Last(fs);
      SameMembers(es, fs);
      assert e in fs && e in es && fs == Front(fs) + [e];
      var i :| 0 <= i < |es| && es[i] == e;
      var front, back := es[..i], es[i + 1..];
      assert es == front + [e] + back;
      SameLastMovable(im, es, fs, i, packageAddition);
      MoveToEnd(im, front, e, back, packageAddition);
      RearrangedWithout(es, fs, i);
      WithoutIsOk(es, i);
      assert Without(es, i) == front + back;
      LastApart(im, front + back, e, packageAddition);
      LastApart(im, Front(fs), e, packageAddition);
      RearrangedAgree(im, front + back, Front(fs), packageAddition);
      SameLast(im, front + back, Front(fs), e, packageAddition);
      AlikeThen(Placed(im, es, packageAddition).value, Placed(im, front + back + [e], packageAddition).value,
                Placed(im, fs, packageAddition).value);
    }
  }

  lemma SameMembers(es: seq<Entry>, fs: seq<Entry>)
    requires Rearranged(es, fs)
    ensures forall e :: e in es <==> e in fs
  {
  }

  lemma SameLast(im: Image, es: seq<Entry>, fs: seq<Entry>, e: Entry, packageAddition: bool)
    requires WellFormed(im) && EntriesOk(es) && EntriesOk(fs)
    requires Placed(im, es, packageAddition).Some? && Placed(im, fs, packageAddition).Some?
    requires Alike(Placed(im, es, packageAddition).value, Placed(im, fs, packageAddition).value)
    requires Placed(im, es + [e], packageAddition).Some? && Placed(im, fs + [e], packageAddition).Some?
    ensures Alike(Placed(im, es + [e], packageAddition).value, Placed(im, fs + [e], packageAddition).value)
  {
    hide WellFormed, Placed, PlaceOne, Alike, EntryOk;
    PlacedIsWellFormed(im, es, packageAddition);
    PlacedIsWellFormed(im, fs, packageAddition);
    LastApart(im, es, e, packageAddition);
    LastApart(im, fs, e, packageAddition);
    PlaceOneRespectsAlike(Placed(im, es, packageAddition).value, Placed(im, fs, packageAddition).value, e,
                          packageAddition);
  }

  lemma LastApart(im: Image, es: seq<Entry>, e: Entry, packageAddition: bool)
    requires Placed(im, es + [e], packageAddition).Some?
    ensures Placed(im, es, packageAddition).Some?
    ensures Placed(im, es + [e], packageAddition) == PlaceOne(Placed(im, es, packageAddition).value, e, packageAddition)
  {
    assert Front(es + [e]) == es && Last(es + [e]) == e;
  }

  /**
   * Two accepted orders of one layer give rootfs with the same values and sharing: the whiteouts may stand
   * anywhere; of the other entries, hard links keep their order, and an entry stays on its side of the
   * hard links that name it.
   */
  lemma AcceptedOrdersAgree(im: Image, es: seq<Entry>, fs: seq<Entry>, packageAddition: bool)
    requires WellFormed(im) && EntriesOk(es) && EntriesOk(fs)
    requires WhiteoutsWithin(es, fs) && WhiteoutsWithin(fs, es) && Rearranged(Ordinary(es), Ordinary(fs))
    requires ApplyLayer(im, es, packageAddition).Some? && ApplyLayer(im, fs, packageAddition).Some?
    ensures Alike(ApplyLayer(im, es, packageAddition).value, ApplyLayer(im, fs, packageAddition).value)
  {
    hide WellFormed, Rearranged, Placed, Swept, EntryOk, Alike;
    SameWhiteoutsSameSweep(im, es, fs, packageAddition);
    SweptIsWellFormed(im, es, packageAddition);
    OrdinaryIsOk(es);
    OrdinaryIsOk(fs);
    RearrangedAgree(Swept(im, es, packageAddition).value, Ordinary(es), Ordinary(fs), packageAddition);
  }

  /** In particular, every accepted order of a layer without hard links gives the same rootfs. */
  lemma LinkFreeOrdersAgree(im: Image, es: seq<Entry>, fs: seq<Entry>, packageAddition: bool)
    requires WellFormed(im) && EntriesOk(es) && EntriesOk(fs)
    requires NoHardLinks(es) && DistinctPaths(es) && DistinctPaths(fs)
    requires forall e :: e in es <==> e in fs
    requires ApplyLayer(im, es, packageAddition).Some? && ApplyLayer(im, fs, packageAddition).Some?
    ensures Alike(ApplyLayer(im, es, packageAddition).value, ApplyLayer(im, fs, packageAddition).value)
  {
    hide WellFormed, ApplyLayer, EntryOk, Alike;
    OrdinaryMembers(es);
    OrdinaryMembers(fs);
    OrdinaryKeepsDistinctPaths(es);
    OrdinaryKeepsDistinctPaths(fs);
    forall a, b | Before(Ordinary(es), a, b)
      ensures !Tied(a, b)
    {
      MembersOfBefore(Ordinary(es), a, b);
      assert a in es && b in es;
    }
    AcceptedOrdersAgree(im, es, fs, packageAddition);
  }

  // ---------------------------------------------------------------- an entry at the target of a link

  lemma FlatName(im: Image, name: string)
    requires name == "t" || name == "h"
    ensures BaseName(name) == name && Reachable(im, name)
  {
    SplitWithoutSlash(name);
  }

  /** Both orders of a file and a link to its path can be accepted; then the results differ. */
  lemma BothSidesOfALink(plain: Entry, link: Entry)
    requires plain.path == "t" && plain.kind == File && plain.xattrs == map[] && plain.mode == 0x180
    requires link.path == "h" && link.kind == HardLink && link.linkname == Some("t")
    requires link.xattrs == map[] && link.mode == 0x1a4
    ensures var im := Bind(EMPTY_IMAGE, "t", plain.Metadata());
            var a, b := PlaceTwo(im, plain, link, false), PlaceTwo(im, link, plain, false);
            WellFormed(im) && a.Some? && b.Some? && !Alike(a.value, b.value)
  {
    var im := Bind(EMPTY_IMAGE, "t", plain.Metadata());
    FlatName(im, "t");
    FlatName(im, "h");
    FlatName(PlaceHardLink(im, link), "t");
    FlatName(PlaceNode(im, plain), "h");
    BelowIsIrreflexive("t");
    hide Alike;
    PassingExactly(im, plain, link, false);
  }
}
