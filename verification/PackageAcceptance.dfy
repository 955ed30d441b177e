/** What the composition check is sure to accept: plain packages, written as archives, on any good runner. */
module PackageAcceptance {
  import opened Common
  import opened Text
  import opened Paths
  import opened Pax
  import opened Layers
  import opened LayerInvariant
  import opened LayerOrder
  import opened LayerReorder
  import opened TarScan
  import opened TarFraming
  import opened TarRoundTrip
  import opened TarWriter
  import opened TreeRefinement
  import opened PackageImage

  // ---------------------------------------------------------------- the final checks survive a package

  /** What only extends the package keeps the final checks. */
  lemma ExtensionKeepsChecks(base: Image, im: Image)
    requires ExtendsPackage(base, im) && FinalChecks(base)
    ensures FinalChecks(im)
  {
    hide SetId, InPackage, Protected;
    LauncherIsProtected();
    var had := set p | p in base.nodes && CAPABILITY in base.nodes[p].attrs.xattrs;
    var has := set p | p in im.nodes && CAPABILITY in im.nodes[p].attrs.xattrs;
    forall p
      ensures p in has <==> p == RUNNER_LAUNCHER_PATH
    {
      if p in has {
        assert p in base.nodes && im.nodes[p] == base.nodes[p];
        assert p in had;
      }
    }
    forall p | p in im.nodes
      ensures !SetId(im.nodes[p].attrs.mode)
    {
      assert p in base.nodes && im.nodes[p] == base.nodes[p] ==> !SetId(base.nodes[p].attrs.mode);
    }
  }

  // ---------------------------------------------------------------- plain packages

  /** Files and directories of the package without privileges, no file above another entry. */
  ghost predicate PlainPackage(es: seq<Entry>) {
    && (forall e :: e in es ==>
          && InPackage(e.path) && (e.kind == File || e.kind == Directory)
          && e.xattrs == map[] && !SetId(e.mode) && !IsWhiteout(e))
    && (forall e, f :: e in es && f in es && Below(e.path, f.path) ==> f.kind == Directory)
  }

  /** Nothing of the package is there yet, and nothing but directories stands above it. */
  ghost predicate AwaitsPackage(base: Image) {
    && (forall p :: p in base.nodes ==> !InPackage(p))
    && (forall p :: p in base.nodes && Below(PACKAGE_PATH, p) ==> base.nodes[p].attrs.kind == Directory)
  }

  /** The paths above a path of the package that are not in the package are above the package. */
  lemma AbovePackage(path: string, p: string)
    requires InPackage(path) && Below(path, p) && !InPackage(p)
    ensures Below(PACKAGE_PATH, p)
  {
    if path != PACKAGE_PATH {
      AncestorsAreOrdered(path, p, PACKAGE_PATH);
    }
  }

  lemma AncestorsAreOrdered(path: string, p: string, q: string)
    requires Below(path, p) && Below(path, q)
    ensures p == q || Below(p, q) || Below(q, p)
  {
    assert p == path[..|p|] && q == path[..|q|];
    if |p| < |q| {
      assert p + "/" == path[..|p| + 1] == q[..|p| + 1];
    } else if |q| < |p| {
      assert q + "/" == path[..|q| + 1] == p[..|q| + 1];
    }
  }

  lemma PlainEntryIsReachable(base: Image, es: seq<Entry>, e: Entry)
    requires WellFormed(base) && AwaitsPackage(base) && PlainPackage(es + [e]) && EntriesOk(es) && DistinctPaths(es)
    requires Placed(base, es, true).Some?
    ensures Reachable(Placed(base, es, true).value, e.path)
  {
    PlacedKinds(base, es, true);
    hide WellFormed, Placed, EntryOk, IsWhiteout, SetId, InPackage;
    var m := Placed(base, es, true).value;
    assert e in es + [e] && forall f :: f in es ==> f in es + [e];
    forall p | p in ParentPaths(e.path) && p in m.nodes
      ensures m.nodes[p].attrs.kind == Directory
    {
      ParentPathsAreTheAncestors(e.path, p);
      assert KindAt(m, p) == Some(m.nodes[p].attrs.kind);
      if Named(es, p) {
        var f :| f in es && f.path == p;
      } else {
        assert !Touched(es, p);
        AbovePackage(e.path, p);
      }
    }
  }

  lemma PlainFront(front: seq<Entry>, e: Entry)
    requires PlainPackage(front + [e])
    ensures PlainPackage(front) && PlainPackage([e])
  {
    hide InPackage, IsWhiteout, SetId;
    assert forall f :: f in front + [e] <==> f in front || f == e;
  }

  lemma PlainIsAdmitted(m: Image, e: Entry)
    requires PlainPackage([e]) && Reachable(m, e.path)
    ensures PlaceOne(m, e, true).Some?
  {
    hide IsWhiteout, SetId, InPackage, Reachable;
    StructuralParentsAreOutside();
    assert e in [e];
  }

  lemma PlainIsNext(base: Image, es: seq<Entry>, e: Entry)
    requires WellFormed(base) && AwaitsPackage(base) && PlainPackage(es + [e]) && EntriesOk(es) && DistinctPaths(es)
    requires Placed(base, es, true).Some?
    ensures Placed(base, es + [e], true).Some?
  {
    hide WellFormed, AwaitsPackage, PlaceOne, EntriesOk, DistinctPaths, PlainPackage, Placed, Reachable;
    PlainFront(es, e);
    PlainEntryIsReachable(base, es, e);
    PlainIsAdmitted(Placed(base, es, true).value, e);
    PlacedConcat(base, es, [e], true);
    OneMore(Placed(base, es, true).value, e, true);
  }

  lemma {:induction false} PlainPackageIsPlaced(base: Image, es: seq<Entry>)
    requires WellFormed(base) && AwaitsPackage(base) && PlainPackage(es) && EntriesOk(es) && DistinctPaths(es)
    ensures Placed(base, es, true).Some?
  {
    hide WellFormed, AwaitsPackage, PlaceOne, EntriesOk, DistinctPaths, PlainPackage;
    if es != [] {
      var front, e := Front(es), Last(es);
      assert es == front + [e];
      PartsOfSnoc(front, e);
      PlainFront(front, e);
      PlainPackageIsPlaced(base, front);
      PlainIsNext(base, front, e);
    }
  }

  lemma {:induction false} NoWhiteouts(im: Image, es: seq<Entry>)
    requires forall e :: e in es ==> !IsWhiteout(e)
    ensures Ordinary(es) == es && Swept(im, es, true) == Some(im)
  {
    hide IsWhiteout;
    if es != [] {
      assert es == Front(es) + [Last(es)];
      assert forall e :: e in Front(es) ==> e in es;
      assert Last(es) in es;
      NoWhiteouts(im, Front(es));
    }
  }

  /** A plain package applies to any image that awaits one, and only extends it. */
  lemma PlainPackageApplies(base: Image, es: seq<Entry>)
    requires WellFormed(base) && AwaitsPackage(base) && PlainPackage(es) && EntriesOk(es) && DistinctPaths(es)
    ensures ApplyLayer(base, es, true).Some? && ExtendsPackage(base, ApplyLayer(base, es, true).value)
  {
    PlainPackageIsPlaced(base, es);
    NoWhiteouts(base, es);
    PackageEntriesExtend(base, es);
  }

  // ---------------------------------------------------------------- written archives are accepted

  /** A layer with the archive of the members, described as the writer finds it. */
  ghost function WrittenLayer(ms: seq<Member>, descriptor: string, env: Platform): Layer
    requires WritableMembers(ms)
  {
    Layer(descriptor, env.digest(Archive(ms)), Archive(ms), true)
  }

  ghost predicate WritableLayer(ms: seq<Member>) {
    && WritableMembers(ms) && 0 < |ms| <= MAX_LAYER_MEMBERS && DistinctPaths(Entries(ms))
  }

  lemma WrittenLayerScans(ms: seq<Member>, descriptor: string, env: Platform)
    requires WritableLayer(ms)
    ensures LayerEntries(WrittenLayer(ms, descriptor, env), env) == Some(Entries(ms))
    ensures EntriesOk(Entries(ms)) && Entries(ms) != []
  {
    hide Scan, Archive, WritableMembers, EntryOk;
    var es := Entries(ms);
    assert forall i :: 0 <= i < |ms| ==> es[i] == ms[i].entry;
    TarRoundTrips(ms, LayerRules(env));
    AcceptedEntriesAreCanonical(Archive(ms), LayerRules(env));
  }

  lemma OneLayerScans(layer: Layer, env: Platform, es: seq<Entry>)
    requires LayerEntries(layer, env) == Some(es)
    ensures ScanAll([layer], env) == Some([es])
  {
    hide LayerEntries;
    assert Front([layer]) == [] && Last([layer]) == layer;
    assert ScanAll([], env) == Some([]);
    assert [] + [es] == [es];
  }

  lemma OneLayerApplies(im: Image, es: seq<Entry>, packageAddition: bool)
    ensures ApplyLayers(im, [es], packageAddition) == ApplyLayer(im, es, packageAddition)
  {
    hide ApplyLayer;
    assert Front([es]) == [] && Last([es]) == es;
    assert ApplyLayers(im, [], packageAddition) == Some(im);
  }

  /** The package image that adds one layer to a runner. */
  function WithLayer(runner: ImageMetadata, layer: Layer): ImageMetadata {
    ImageMetadata(runner.layers + [layer], runner.runtimeConfig)
  }

  lemma WithLayerExtends(runner: ImageMetadata, layer: Layer)
    requires forall i :: 0 <= i < |runner.layers| ==> runner.layers[i].stored
    ensures StrictlyExtends(runner, WithLayer(runner, layer)) && PrefixStored(runner, WithLayer(runner, layer))
    ensures Added(runner, WithLayer(runner, layer)) == [layer]
  {
  }

  /**
   * Every plain package, written as an archive on top of a runner that passes the final checks by itself and
   * has no package yet, is accepted.
   */
  lemma PlainPackageIsAccepted(runner: ImageMetadata, base: Image, ms: seq<Member>, descriptor: string, env: Platform)
    requires RunnerImage(runner, env) == Some(base) && FinalChecks(base) && AwaitsPackage(base)
    requires forall i :: 0 <= i < |runner.layers| ==> runner.layers[i].stored
    requires WritableLayer(ms) && PlainPackage(Entries(ms))
    ensures var package := WithLayer(runner, WrittenLayer(ms, descriptor, env));
            && Composition(runner, package, env).Some?
            && Composition(runner, package, env) == ApplyLayer(base, Entries(ms), true)
  {
    hide LayerEntries, ApplyLayer, FinalChecks, ScanAll, ApplyLayers, PlainPackage, AwaitsPackage, WritableLayer;
    hide EntryOk;
    hide WellFormed, ExtendsPackage, WrittenLayer;
    PathsOfLayer(ms);
    var layer, es := WrittenLayer(ms, descriptor, env), Entries(ms);
    RunnerIsWellFormed(runner, base, env);
    WrittenLayerScans(ms, descriptor, env);
    OneLayerScans(layer, env, es);
    OneLayerApplies(base, es, true);
    WithLayerExtends(runner, layer);
    PlainPackageApplies(base, es);
    ExtensionKeepsChecks(base, ApplyLayer(base, es, true).value);
  }

  lemma PathsOfLayer(ms: seq<Member>)
    requires WritableLayer(ms)
    ensures WritableMembers(ms) && DistinctPaths(Entries(ms))
  {
  }

  lemma RunnerIsWellFormed(runner: ImageMetadata, base: Image, env: Platform)
    requires RunnerImage(runner, env) == Some(base)
    ensures WellFormed(base)
  {
    hide ScanAll, ApplyLayers, WellFormed;
    ScannedLayersAreOk(runner.layers, env);
    EmptyImagesAgree();
    HeapInvariant(EMPTY_IMAGE, ScanAll(runner.layers, env).value, false);
  }

  // ---------------------------------------------------------------- one accepted composition

  const LAUNCHER :=
    Entry(RUNNER_LAUNCHER_PATH, File, 0x1ed, 0, 0, 0, None, map[CAPABILITY := EXPECTED_RUNNER_CAPABILITY])
  const PACKAGE := Entry(PACKAGE_PATH, Directory, 0x1ed, 0, 0, 0, None, map[])

  lemma SplitAtSlash(s: string, k: nat)
    requires k < |s| && s[k] == '/' && '/' !in s[..k]
    ensures Split(s) == [s[..k]] + Split(s[k + 1..])
  {
    assert s == s[..k] + "/" + s[k + 1..];
    SplitOfConcat(s[..k], s[k + 1..]);
    SplitWithoutSlash(s[..k]);
  }

  predicate NoSlash(s: string, i: nat, j: nat)
    requires i <= j <= |s|
  {
    forall k :: i <= k < j ==> s[k] != '/'
  }

  lemma ThreeParts(s: string, i: nat, j: nat)
    requires i < j < |s| && s[i] == '/' && s[j] == '/' && NoSlash(s, 0, i) && NoSlash(s, i + 1, j)
    requires NoSlash(s, j + 1, |s|)
    ensures Split(s) == [s[..i], s[i + 1..j], s[j + 1..]]
  {
    hide Split;
    var rest := s[i + 1..];
    assert rest[..j - i - 1] == s[i + 1..j] && rest[j - i..] == s[j + 1..];
    SplitAtSlash(s, i);
    SplitAtSlash(rest, j - i - 1);
    SplitWithoutSlash(s[j + 1..]);
  }

  /** Slashes after 3, 9 and 13 characters and nowhere else. */
  predicate ThreeSlashes(p: string) {
    && |p| > 14 && p[3] == '/' && p[9] == '/' && p[13] == '/'
    && NoSlash(p, 0, 3) && NoSlash(p, 4, 9) && NoSlash(p, 10, 13) && NoSlash(p, 14, |p|)
  }

  lemma FourParts(p: string)
    requires ThreeSlashes(p)
    ensures Split(p) == [p[..3]] + [p[4..][..5], p[4..][6..9], p[4..][10..]]
  {
    hide Split;
    SplitAtSlash(p, 3);
    ThreeParts(p[4..], 5, 9);
  }

  lemma LauncherSlashes()
    ensures ThreeSlashes(RUNNER_LAUNCHER_PATH)
  {
  }

  lemma LauncherParts()
    ensures var p := RUNNER_LAUNCHER_PATH; Split(p) == [p[..3]] + [p[4..][..5], p[4..][6..9], p[4..][10..]]
  {
    hide Split, ThreeSlashes;
    LauncherSlashes();
    FourParts(RUNNER_LAUNCHER_PATH);
  }

  lemma PackageParts()
    ensures var p := PACKAGE_PATH; Split(p) == [p[..3], p[4..11], p[12..]]
  {
    hide Split;
    ThreeParts(PACKAGE_PATH, 3, 11);
  }

  lemma PackagePathIsGood()
    ensures IsCanonical(PACKAGE_PATH) && ValidUtf8(PACKAGE_PATH)
  {
    hide Split, ValidUtf8;
    PackageParts();
    AsciiIsUtf8(PACKAGE_PATH);
  }

  lemma PackageIsWritable()
    ensures WritableLayer([Member(PACKAGE, "", Posix)])
  {
    hide IsCanonical, ValidUtf8, XattrRecords, PaxText;
    PackagePathIsGood();
    NoXattrRecords();
    assert Power(8, 7) == 2097152;
    assert PaxOf(PACKAGE) == [] by { assert PathFits(PACKAGE_PATH); }
    assert Writable(PACKAGE);
    assert Entries([Member(PACKAGE, "", Posix)]) == [PACKAGE];
  }

  lemma NotAWhiteout(base: string)
    requires base != "" && base[0] == 'p'
    ensures !(".wh." <= base)
  {
    assert ".wh."[0] == '.';
  }

  lemma PackageIsPlain()
    ensures PlainPackage(Entries([Member(PACKAGE, "", Posix)]))
  {
    hide Split;
    PackageParts();
    NotAWhiteout(PACKAGE_PATH[12..]);
    assert !IsWhiteout(PACKAGE);
    assert Entries([Member(PACKAGE, "", Posix)]) == [PACKAGE];
    BelowIsIrreflexive(PACKAGE_PATH);
  }

  lemma NoXattrRecords()
    ensures XattrRecords(map[]) == [] && PaxText([]) == ""
  {
  }

  lemma OneRecordIsShort(r: Record)
    requires |Body(r)| < 100
    ensures |PaxText([r])| <= 102
  {
    var rest := |Body(r)|;
    SelfCountCounts(rest);
    NumeralLength(rest, 2);
    assert Power(10, 2) == 100;
    assert PaxText([r]) == RecordText(r) + PaxText([]);
  }

  const CAPABILITY_KEY: string := SCHILY_XATTR_PREFIX + CAPABILITY

  lemma CapabilityKeyIsText()
    ensures ValidUtf8(CAPABILITY_KEY)
  {
    hide ValidUtf8;
    assert Ascii(SCHILY_XATTR_PREFIX) && Ascii(CAPABILITY);
    AsciiIsUtf8(CAPABILITY_KEY);
  }

  lemma CapabilityIsAName()
    ensures XattrName(CAPABILITY)
  {
    hide ValidUtf8;
    CapabilityKeyIsText();
    assert '=' !in SCHILY_XATTR_PREFIX && '=' !in CAPABILITY;
  }

  lemma CapabilityRecord()
    ensures PaxOf(LAUNCHER) == [Record(CAPABILITY_KEY, EXPECTED_RUNNER_CAPABILITY)]
  {
    hide ValidUtf8, PaxText, Numeral, Split, XattrName;
    var xattrs := LAUNCHER.xattrs;
    assert CAPABILITY in xattrs;
    var name := PickedName(xattrs);
    assert name == CAPABILITY && xattrs - {name} == map[];
    NoXattrRecords();
    assert PathFits(RUNNER_LAUNCHER_PATH) && NameRecords(LAUNCHER) == [];
  }

  lemma CapabilityIsShort()
    ensures |PaxText(PaxOf(LAUNCHER))| <= MAX_PAX_BYTES
  {
    hide PaxText, PaxOf;
    CapabilityRecord();
    OneRecordIsShort(Record(CAPABILITY_KEY, EXPECTED_RUNNER_CAPABILITY));
  }

  lemma LauncherIsPlain()
    ensures PlainName(RUNNER_LAUNCHER_PATH)
  {
  }

  lemma LauncherIsText()
    ensures ValidUtf8(RUNNER_LAUNCHER_PATH)
  {
    hide ValidUtf8;
    AsciiIsUtf8(RUNNER_LAUNCHER_PATH);
  }

  lemma LauncherPathIsGood()
    ensures IsCanonical(RUNNER_LAUNCHER_PATH) && ValidUtf8(RUNNER_LAUNCHER_PATH)
  {
    hide Split, ValidUtf8, PlainName;
    LauncherIsPlain();
    LauncherIsText();
    LauncherParts();
  }

  lemma LauncherIsWritable()
    ensures WritableLayer([Member(LAUNCHER, "", Posix)])
  {
    hide IsCanonical, ValidUtf8, PaxText, PaxOf, XattrName;
    LauncherPathIsGood();
    CapabilityIsAName();
    CapabilityIsShort();
    assert Power(8, 7) == 2097152;
    assert forall name :: name in LAUNCHER.xattrs ==> name == CAPABILITY;
    assert Writable(LAUNCHER);
    var ms := [Member(LAUNCHER, "", Posix)];
    assert Entries(ms) == [LAUNCHER];
  }

  /** The image that holds the launcher and nothing else. */
  const LAUNCHER_IMAGE := Bind(EMPTY_IMAGE, RUNNER_LAUNCHER_PATH, LAUNCHER.Metadata())

  lemma LauncherImagePasses()
    ensures FinalChecks(LAUNCHER_IMAGE) && AwaitsPackage(LAUNCHER_IMAGE)
  {
    LauncherIsProtected();
    assert RUNNER_LAUNCHER_PATH[0] != PACKAGE_PATH[0];
    var im := LAUNCHER_IMAGE;
    assert (set p | p in im.nodes && CAPABILITY in im.nodes[p].attrs.xattrs) == {RUNNER_LAUNCHER_PATH};
  }

  lemma FirstFile(e: Entry)
    requires e.kind == File && !IsWhiteout(e)
    ensures ApplyLayer(EMPTY_IMAGE, [e], false) == Some(Bind(EMPTY_IMAGE, e.path, e.Metadata()))
  {
    hide IsWhiteout, ParentPaths;
    assert Front([e]) == [] && Last([e]) == e;
    assert Ordinary(Front([e])) == [] && Swept(EMPTY_IMAGE, Front([e]), false) == Some(EMPTY_IMAGE);
    assert Swept(EMPTY_IMAGE, [e], false) == Some(EMPTY_IMAGE) && Ordinary([e]) == [e];
    assert RemoveTree(EMPTY_IMAGE, e.path) == EMPTY_IMAGE;
    OneMore(EMPTY_IMAGE, e, false);
  }

  lemma LauncherApplies()
    ensures ApplyLayer(EMPTY_IMAGE, [LAUNCHER], false) == Some(LAUNCHER_IMAGE)
  {
    hide Split, ApplyLayer;
    LauncherParts();
    NotAWhiteout(RUNNER_LAUNCHER_PATH[4..][10..]);
    FirstFile(LAUNCHER);
  }

  /** A launcher with the exact capability and an empty package directory, written as archives, are accepted. */
  lemma SomethingIsAccepted(env: Platform)
    ensures var launcher, package := [Member(LAUNCHER, "", Posix)], [Member(PACKAGE, "", Posix)];
            && WritableMembers(launcher) && WritableMembers(package)
            && var runner := ImageMetadata([WrittenLayer(launcher, "runner", env)], "");
               Composition(runner, WithLayer(runner, WrittenLayer(package, "package", env)), env).Some?
  {
    hide WritableLayer, PlainPackage, FinalChecks, AwaitsPackage, LayerEntries, Composition, WrittenLayer, ApplyLayer;
    var launcher, package := [Member(LAUNCHER, "", Posix)], [Member(PACKAGE, "", Posix)];
    LauncherIsWritable();
    PackageIsWritable();
    PackageIsPlain();
    PathsOfLayer(launcher);
    PathsOfLayer(package);
    var layer := WrittenLayer(launcher, "runner", env);
    var runner := ImageMetadata([layer], "");
    assert Entries(launcher) == [LAUNCHER];
    WrittenLayerScans(launcher, "runner", env);
    OneLayerScans(layer, env, [LAUNCHER]);
    OneLayerApplies(EMPTY_IMAGE, [LAUNCHER], false);
    LauncherApplies();
    LauncherImagePasses();
    WrittenIsStored(launcher, "runner", env);
    PlainPackageIsAccepted(runner, LAUNCHER_IMAGE, package, "package", env);
  }

  lemma WrittenIsStored(ms: seq<Member>, descriptor: string, env: Platform)
    requires WritableMembers(ms)
    ensures WrittenLayer(ms, descriptor, env).stored
  {
  }
}
