/**
 * What a layer does, in terms of the path strings of its entries: which names a whiteout hides, which
 * entries are accepted, and what is bound where afterwards.
 */
module LayerMeaning {
  import opened Common
  import opened Paths
  import opened PathNames
  import opened Layers
  import opened LayerInvariant
  import opened LayerOrder

  // ---------------------------------------------------------------- privilege bits

  /** SUID and SGID are the two higher bits of the fourth octal digit of a mode; the sticky bit is not one of them. */
  lemma SetIdIsTheFourthDigit(digit: nat, permissions: nat)
    requires permissions < 512
    ensures SetId(digit * 512 + permissions) <==> digit % 8 >= 2
  {
    OctalPlaces(digit, permissions);
    OctalBits(digit / 8, digit % 8);
  }

  lemma OctalBits(rest: nat, last: nat)
    requires last < 8
    ensures var digit := rest * 8 + last; digit / 2 % 2 == 1 || digit / 4 % 2 == 1 <==> last >= 2
  {
    var digit := rest * 8 + last;
    assert digit / 2 == 2 * (rest * 2) + last / 2 && digit / 4 == 2 * rest + last / 4;
  }

  lemma OctalPlaces(digit: nat, permissions: nat)
    requires permissions < 512
    ensures var mode := digit * 512 + permissions; mode / 0x400 == digit / 2 && mode / 0x800 == digit / 4
  {
    var mode := digit * 512 + permissions;
    var half, odd := digit / 2, digit % 2;
    var quarter, odd2 := half / 2, half % 2;
    assert digit == 2 * half + odd && half == 2 * quarter + odd2 && digit / 4 == quarter;
    assert mode == 0x400 * half + (512 * odd + permissions);
    assert mode == 0x800 * quarter + (0x400 * odd2 + 512 * odd + permissions);
  }

  /** Neither SUID nor SGID. */
  predicate Plain(mode: nat) {
    mode / 512 % 8 < 2
  }

  lemma PlainExactly(mode: nat)
    ensures SetId(mode) <==> !Plain(mode)
  {
    SetIdIsTheFourthDigit(mode / 512, mode % 512);
  }

  // ---------------------------------------------------------------- whiteouts

  /** A whiteout has to be an empty regular file without attributes and privileges. */
  predicate EmptyFile(e: Entry) {
    e.kind == File && e.size == 0 && e.xattrs == map[] && Plain(e.mode)
  }

  /** What may follow `.wh.` in the name of a whiteout. */
  predicate Hideable(name: string) {
    name == ".wh..opq" || (name != "" && name != "." && name != ".." && !(".wh." <= name))
  }

  /** `path` is that of the whiteout of `name` in `directory`, the layer root being the empty path. */
  predicate IsWhiteoutOf(path: string, directory: string, name: string) {
    '/' !in name && (path == directory + "/.wh." + name || (directory == "" && path == ".wh." + name))
  }

  /** It hides `q`: everything below the directory, or the name and everything below it. */
  predicate Erases(directory: string, name: string, q: string) {
    var inside := if directory == "" then "" else directory + "/";
    if name == ".wh..opq" then q != "" && inside <= q
    else q == inside + name || inside + name + "/" <= q
  }

  lemma WhiteoutNames(path: string, directory: string, name: string)
    requires IsWhiteoutOf(path, directory, name)
    ensures BaseName(path) == ".wh." + name && ParentName(path) == directory
  {
    if path == directory + "/.wh." + name {
      assert path == directory + "/" + (".wh." + name);
      NameAndParent(directory, ".wh." + name);
    } else {
      NameAndParent("", ".wh." + name);
    }
  }

  /** `directory/.wh.name` is accepted exactly for an empty file and a name that can be hidden, and then hides it. */
  lemma WhiteoutExactly(e: Entry, directory: string, name: string, q: string)
    requires IsWhiteoutOf(e.path, directory, name)
    ensures IsWhiteout(e)
    ensures WhiteoutOf(e).Some? <==> EmptyFile(e) && Hideable(name)
    ensures HiddenBy(e, q) <==> EmptyFile(e) && Hideable(name) && Erases(directory, name, q)
  {
    WhiteoutNames(e.path, directory, name);
    PlainExactly(e.mode);
    var base := ".wh." + name;
    assert base[4..] == name;
    assert base == ".wh..wh..opq" <==> name == ".wh..opq" by {
      assert ".wh..wh..opq"[4..] == ".wh..opq";
    }
    if directory != "" && directory + "/" <= q {
      assert q != directory && q != "";
    }
    hide BaseName, ParentName, SetId;
  }

  /** A whiteout is an entry of such a path, and no other. */
  lemma WhiteoutsAreNamed(e: Entry)
    ensures IsWhiteout(e) <==> exists directory, name :: IsWhiteoutOf(e.path, directory, name)
  {
    EveryPathIsNamed(e.path);
    if IsWhiteout(e) {
      var base, name := BaseName(e.path), BaseName(e.path)[4..];
      assert base == ".wh." + name;
      if '/' in e.path {
        assert e.path == ParentName(e.path) + "/" + base == ParentName(e.path) + "/.wh." + name;
        assert IsWhiteoutOf(e.path, ParentName(e.path), name);
      } else {
        assert IsWhiteoutOf(e.path, "", name);
      }
    }
    if directory, name :| IsWhiteoutOf(e.path, directory, name) {
      WhiteoutExactly(e, directory, name, "");
    }
  }

  /** Some entry of the layer is the whiteout of a name that hides `q`. */
  ghost predicate Erased(es: seq<Entry>, q: string) {
    exists e, directory, name :: e in es && IsWhiteoutOf(e.path, directory, name) && Erases(directory, name, q)
  }

  /** Every entry with the path of a whiteout is one that may be there. */
  ghost predicate WhiteoutsFit(es: seq<Entry>) {
    forall e, directory, name :: e in es && IsWhiteoutOf(e.path, directory, name) ==> EmptyFile(e) && Hideable(name)
  }

  lemma ErasedExactly(es: seq<Entry>, q: string)
    requires WhiteoutsFit(es)
    ensures Hidden(es, q) <==> Erased(es, q)
  {
    hide IsWhiteout, IsWhiteoutOf, Erases, WhiteoutOf, Hides, EmptyFile, Hideable;
    if Hidden(es, q) {
      var e :| e in es && HiddenBy(e, q);
      WhiteoutsAreNamed(e);
      var directory, name :| IsWhiteoutOf(e.path, directory, name);
      WhiteoutExactly(e, directory, name, q);
    }
    if e, directory, name :| e in es && IsWhiteoutOf(e.path, directory, name) && Erases(directory, name, q) {
      WhiteoutExactly(e, directory, name, q);
    }
  }

  lemma FittingExactly(es: seq<Entry>, packageAddition: bool)
    ensures WhiteoutsAccepted(es, packageAddition)
            <==> WhiteoutsFit(es)
                 && (packageAddition ==>
                       forall e, directory, name :: e in es ==> !IsWhiteoutOf(e.path, directory, name))
  {
    hide IsWhiteout, IsWhiteoutOf, EmptyFile, Hideable, WhiteoutOf;
    forall e | e in es
      ensures IsWhiteout(e) <==> exists directory, name :: IsWhiteoutOf(e.path, directory, name)
      ensures forall directory, name :: IsWhiteoutOf(e.path, directory, name) ==>
                (WhiteoutOf(e).Some? <==> EmptyFile(e) && Hideable(name))
    {
      WhiteoutsAreNamed(e);
      forall directory, name | IsWhiteoutOf(e.path, directory, name)
        ensures WhiteoutOf(e).Some? <==> EmptyFile(e) && Hideable(name)
      {
        WhiteoutExactly(e, directory, name, "");
      }
    }
  }

  /**
   * The whiteouts of a layer, by their names: the layer is accepted exactly if each is an empty file of a
   * name that can be hidden, and none stands in a package layer; what they erase is gone, and nothing else.
   */
  lemma WhiteoutsByName(im: Image, es: seq<Entry>, packageAddition: bool, q: string)
    ensures var swept := Swept(im, es, packageAddition);
            && (swept.Some? <==> WhiteoutsFit(es) && (packageAddition ==>
                  forall e, directory, name :: e in es ==> !IsWhiteoutOf(e.path, directory, name)))
            && (swept.Some? ==> Stat(swept.value, q) == if Erased(es, q) then None else Stat(im, q))
  {
    hide Erased, Hidden, WhiteoutsFit, WhiteoutsAccepted, IsWhiteoutOf;
    SweepIsOneFilter(im, es, packageAddition);
    FittingExactly(es, packageAddition);
    if WhiteoutsFit(es) {
      ErasedExactly(es, q);
    }
  }

  // ---------------------------------------------------------------- which entries are accepted

  /** Whatever is bound to an ancestor of the path is a directory. */
  ghost predicate StandsOnDirectories(im: Image, path: string) {
    forall p :: p in im.nodes && p + "/" <= path ==> im.nodes[p].attrs.kind == Directory
  }

  lemma ReachableExactly(im: Image, path: string)
    ensures Reachable(im, path) <==> StandsOnDirectories(im, path)
  {
    forall p
      ensures p in ParentPaths(path) <==> p + "/" <= path
    {
      ParentPathsAreTheAncestors(path, p);
    }
  }

  /** A regular file without extended attributes and privileges. */
  predicate Harmless(a: Attrs) {
    a.kind == File && a.xattrs == map[] && Plain(a.mode)
  }

  /** An entry of a runner layer is accepted exactly if it stands on directories and, as a hard link, is harmless. */
  lemma EntryAcceptedExactly(im: Image, e: Entry)
    ensures PlaceOne(im, e, false).Some?
            <==> && StandsOnDirectories(im, e.path)
                 && (e.kind == HardLink ==>
                       && e.linkname.Some? && e.linkname.value in im.nodes
                       && Harmless(im.nodes[e.linkname.value].attrs)
                       && e.xattrs == map[] && Plain(e.mode))
  {
    ReachableExactly(im, e.path);
    PlainExactly(e.mode);
    if e.linkname.Some? && e.linkname.value in im.nodes {
      PlainExactly(im.nodes[e.linkname.value].attrs.mode);
    }
    hide Reachable, StandsOnDirectories, SetId, Plain;
  }

  /** A parent of the package: root:root, mode 0755, without attributes. */
  const PARENT_ATTRS := Attrs(Directory, 7 * 64 + 5 * 8 + 5, 0, 0, map[])

  /**
   * An entry of a package layer is accepted exactly if it is a plain file or directory of the package, or one
   * of the two parents as the plain directory that it has to be and, if it is there, is already; and if it
   * stands on directories.
   */
  lemma PackageEntryAcceptedExactly(im: Image, e: Entry)
    ensures PlaceOne(im, e, true).Some?
            <==> && StandsOnDirectories(im, e.path)
                 && e.kind in {File, Directory} && e.xattrs == map[] && Plain(e.mode)
                 && if e.path == "opt" || e.path == "opt/insight" then
                      && e.Metadata() == PARENT_ATTRS
                      && (e.path in im.nodes ==> im.nodes[e.path].attrs == PARENT_ATTRS)
                    else e.path == "opt/insight/package" || "opt/insight/package/" <= e.path
  {
    ReachableExactly(im, e.path);
    PlainExactly(e.mode);
    ParentsAreNotInThePackage();
    assert PACKAGE_PATH + "/" == "opt/insight/package/";
    hide Reachable, StandsOnDirectories, SetId, Plain;
  }

  lemma ParentsAreNotInThePackage()
    ensures !("opt/insight/package/" <= "opt") && !("opt/insight/package/" <= "opt/insight")
  {
  }

  // ---------------------------------------------------------------- the whole layer

  /** `q` lies below an entry that is not a directory. */
  ghost predicate BelowAFile(es: seq<Entry>, q: string) {
    exists e :: e in es && e.kind != Directory && e.path + "/" <= q
  }

  lemma {:induction false} OrdinaryMembers(es: seq<Entry>, e: Entry)
    ensures e in Ordinary(es) <==> e in es && !IsWhiteout(e)
  {
    hide IsWhiteout;
    if es != [] {
      OrdinaryMembers(Front(es), e);
      MembersOfFront(es);
    }
  }

  lemma {:induction false} OrdinaryEntriesAreOk(es: seq<Entry>)
    requires EntriesOk(es) && DistinctPaths(es)
    ensures EntriesOk(Ordinary(es)) && DistinctPaths(Ordinary(es))
  {
    hide IsWhiteout, EntryOk;
    if es != [] {
      var front := Front(es);
      assert forall i :: 0 <= i < |front| ==> front[i] == es[i];
      OrdinaryEntriesAreOk(front);
      forall i | 0 <= i < |Ordinary(front)|
        ensures Ordinary(front)[i].path != Last(es).path
      {
        var e := Ordinary(front)[i];
        OrdinaryMembers(front, e);
        var j :| 0 <= j < |front| && front[j] == e;
        assert es[j].path != es[|es| - 1].path;
      }
    }
  }

  /**
   * An accepted layer without hard links, path by path: what it names has the metadata it names, unless a
   * file of the layer is above it; what its whiteouts erase and it does not name is gone; the rest stays.
   */
  lemma LayerByPath(im: Image, es: seq<Entry>, packageAddition: bool, q: string)
    requires WellFormed(im) && EntriesOk(es) && DistinctPaths(es) && ApplyLayer(im, es, packageAddition).Some?
    requires forall e :: e in es ==> e.kind != HardLink
    ensures var out := ApplyLayer(im, es, packageAddition).value;
            && (BelowAFile(Ordinary(es), q) ==> q !in out.nodes)
            && (!BelowAFile(Ordinary(es), q) ==>
                  && (forall e :: e in Ordinary(es) && e.path == q ==>
                        q in out.nodes && out.nodes[q].attrs == Attrs(e.kind, e.mode, e.uid, e.gid, e.xattrs))
                  && ((forall e :: e in Ordinary(es) ==> e.path != q) ==>
                        Stat(out, q) == if Erased(es, q) then None else Stat(im, q)))
  {
    var swept := Swept(im, es, packageAddition).value;
    var ordinary := Ordinary(es);
    WhiteoutsByName(im, es, packageAddition, q);
    SweptIsWellFormed(im, es, packageAddition);
    OrdinaryEntriesAreOk(es);
    forall e | e in ordinary
      ensures e.kind != HardLink
    {
      OrdinaryMembers(es, e);
    }
    EntriesSettle(swept, ordinary, packageAddition);
    assert BelowAFile(ordinary, q) <==> Covered(ordinary, q);
    hide Erased, WellFormed, Swept, Placed, Covered, EntriesOk, DistinctPaths;
  }
}
