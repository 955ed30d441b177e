/** The composition check: runner layers, then package layers, then the final checks on the rootfs. */
module PackageImage {
  import opened Common
  import opened Text
  import opened Layers
  import opened LayerEngine
  import opened LayerInvariant
  import opened LayerMeaning
  import opened TarScan
  import opened TarFraming
  import opened TreeRefinement

  const RUNNER_LAUNCHER_PATH := "usr/local/bin/platform-sandbox-runner"
  const CAPABILITY := "security.capability"
  const MAX_LAYER_MEMBERS: nat := 1_000_000

  /** `bytes.fromhex("01000002e0000000000000000000000000000000")`. */
  const EXPECTED_RUNNER_CAPABILITY: Bytes := "\U{01}\0\0\U{02}\U{E0}" + Zeros(15)

  /**
   * A layer: its descriptor, its DiffID in the config, and the uncompressed tar stream of its blob. `stored`
   * says that the layout holds the blob, with the size and digest of the descriptor.
   */
  datatype Layer = Layer(descriptor: string, diffId: string, tar: Bytes, stored: bool)

  /** What `load_image_metadata` yields; `runtimeConfig` is the canonical text of the compared config fields. */
  datatype ImageMetadata = ImageMetadata(layers: seq<Layer>, runtimeConfig: Bytes)

  /** The uninterpreted parts: which byte strings `float` reads, and SHA-256 in its textual form. */
  datatype Platform = Platform(isTimestamp: Bytes -> bool, digest: Bytes -> string)

  function LayerRules(env: Platform): Rules {
    Rules(true, MAX_LAYER_MEMBERS, env.isTimestamp)
  }

  /** `verify_layer_blob` and the comparison of its DiffID. */
  function LayerEntries(layer: Layer, env: Platform): Option<seq<Entry>> {
    if layer.stored && env.digest(layer.tar) == layer.diffId then Scan(layer.tar, LayerRules(env)) else None
  }

  // ---------------------------------------------------------------- specification

  /** The entries of every layer, or None when one of them does not scan. */
  function ScanAll(layers: seq<Layer>, env: Platform): Option<seq<seq<Entry>>> {
    if layers == [] then Some([])
    else
      match ScanAll(Front(layers), env)
      case None => None
      case Some(front) =>
        match LayerEntries(Last(layers), env)
        case None => None
        case Some(es) => Some(front + [es])
  }

  predicate NoneEmpty(layers: seq<seq<Entry>>) {
    forall i :: 0 <= i < |layers| ==> layers[i] != []
  }

  /** The package keeps the descriptors, the DiffIDs and the runtime config of the runner and adds layers. */
  predicate StrictlyExtends(runner: ImageMetadata, package: ImageMetadata) {
    && |package.layers| > |runner.layers|
    && (forall i :: 0 <= i < |runner.layers| ==> package.layers[i].descriptor == runner.layers[i].descriptor)
    && package.runtimeConfig == runner.runtimeConfig
    && (forall i :: 0 <= i < |runner.layers| ==> package.layers[i].diffId == runner.layers[i].diffId)
  }

  /** The package layout holds the runner's layers as well. */
  predicate PrefixStored(runner: ImageMetadata, package: ImageMetadata)
    requires |runner.layers| <= |package.layers|
  {
    forall i :: 0 <= i < |runner.layers| ==> package.layers[i].stored
  }

  /** The layers on top of the runner's. */
  function Added(runner: ImageMetadata, package: ImageMetadata): seq<Layer>
    requires |runner.layers| <= |package.layers|
  {
    package.layers[|runner.layers|..]
  }

  /** The rootfs after the runner layers. */
  function RunnerImage(runner: ImageMetadata, env: Platform): Option<Image> {
    match ScanAll(runner.layers, env)
    case None => None
    case Some(layers) => ApplyLayers(EMPTY_IMAGE, layers, false)
  }

  /** The rootfs after the added layers on top of `im`. */
  function ExtendedImage(im: Image, added: seq<Layer>, env: Platform): Option<Image> {
    match ScanAll(added, env)
    case None => None
    case Some(layers) => if NoneEmpty(layers) then ApplyLayers(im, layers, true) else None
  }

  /** The checks on the final rootfs. */
  predicate FinalChecks(im: Image) {
    && (set p | p in im.nodes && CAPABILITY in im.nodes[p].attrs.xattrs) == {RUNNER_LAUNCHER_PATH}
    && RUNNER_LAUNCHER_PATH in im.nodes
    && im.nodes[RUNNER_LAUNCHER_PATH].attrs.kind == File
    && CAPABILITY in im.nodes[RUNNER_LAUNCHER_PATH].attrs.xattrs
    && im.nodes[RUNNER_LAUNCHER_PATH].attrs.xattrs[CAPABILITY] == EXPECTED_RUNNER_CAPABILITY
    && forall p :: p in im.nodes ==> !SetId(im.nodes[p].attrs.mode)
  }

  /** The final rootfs of an accepted composition. */
  function Composition(runner: ImageMetadata, package: ImageMetadata, env: Platform): Option<Image> {
    if !StrictlyExtends(runner, package) || !PrefixStored(runner, package) then None
    else
      match RunnerImage(runner, env)
      case None => None
      case Some(base) =>
        match ExtendedImage(base, Added(runner, package), env)
        case None => None
        case Some(im) => if FinalChecks(im) then Some(im) else None
  }

  // ---------------------------------------------------------------- the verifier

  /** Scans and applies the given layers in turn. */
  method ApplyAll(rootfs: Rootfs, layers: seq<Layer>, packageAddition: bool, env: Platform) returns (ok: bool)
    requires rootfs.Valid()
    modifies rootfs, rootfs.nodes.Values
    ensures rootfs.Valid()
    ensures forall n :: n in rootfs.nodes.Values ==> n in old(rootfs.nodes.Values) || fresh(n)
    ensures ok <==> Applied(old(rootfs.View()), layers, packageAddition, env).Some?
    ensures ok ==> Some(rootfs.View()) == Applied(old(rootfs.View()), layers, packageAddition, env)
  {
    ok := true;
    for i := 0 to |layers|
      invariant rootfs.Valid()
      invariant forall n :: n in rootfs.nodes.Values ==> n in old(rootfs.nodes.Values) || fresh(n)
      invariant Applied(old(rootfs.View()), layers[..i], packageAddition, env) == Some(rootfs.View())
    {
      assert Front(layers[..i + 1]) == layers[..i];
      var entries := ScanRawTar(layers[i].tar, LayerRules(env));
      if !layers[i].stored || entries.None? || env.digest(layers[i].tar) != layers[i].diffId
         || (packageAddition && entries.value == []) {
        AppliedFailsEarly(old(rootfs.View()), layers, i + 1, packageAddition, env);
        return false;
      }
      ok := rootfs.ApplyLayer(entries.value, packageAddition);
      if !ok {
        AppliedFailsEarly(old(rootfs.View()), layers, i + 1, packageAddition, env);
        return;
      }
    }
    assert layers[..|layers|] == layers;
  }

  /** `verify_package_image` from the two lists of layers on. */
  method VerifyPackageImage(runner: ImageMetadata, package: ImageMetadata, env: Platform)
    returns (ok: bool, rootfs: Rootfs)
    ensures fresh(rootfs) && rootfs.Valid()
    ensures ok <==> Composition(runner, package, env).Some?
    ensures ok ==> Some(rootfs.View()) == Composition(runner, package, env)
  {
    hide Applied, ScanAll, ApplyLayers, FinalChecks, NoneEmpty;
    rootfs := new Rootfs();
    if |package.layers| <= |runner.layers| {
      return false, rootfs;
    }
    if exists i :: 0 <= i < |runner.layers| && package.layers[i].descriptor != runner.layers[i].descriptor {
      return false, rootfs;
    }
    if package.runtimeConfig != runner.runtimeConfig {
      return false, rootfs;
    }
    if exists i :: 0 <= i < |runner.layers| && package.layers[i].diffId != runner.layers[i].diffId {
      return false, rootfs;
    }
    assert StrictlyExtends(runner, package);
    AppliedIsScanThenApply(EMPTY_IMAGE, runner.layers, false, env);
    ok := ApplyAll(rootfs, runner.layers, false, env);
    if !ok {
      return;
    }
    if exists i :: 0 <= i < |runner.layers| && !package.layers[i].stored {
      return false, rootfs;
    }
    ghost var base := rootfs.View();
    AppliedIsScanThenApply(base, Added(runner, package), true, env);
    ok := ApplyAll(rootfs, Added(runner, package), true, env);
    if !ok {
      return;
    }
    ok := CheckRootfs(rootfs);
  }

  /** The checks after the layer loops. */
  method CheckRootfs(rootfs: Rootfs) returns (ok: bool)
    requires rootfs.Valid()
    ensures ok == FinalChecks(rootfs.View())
  {
    ghost var im := rootfs.View();
    var capabilityPaths := set p | p in rootfs.nodes && CAPABILITY in rootfs.nodes[p].xattrs;
    assert capabilityPaths == set p | p in im.nodes && CAPABILITY in im.nodes[p].attrs.xattrs;
    if capabilityPaths != {RUNNER_LAUNCHER_PATH} {
      return false;
    }
    assert RUNNER_LAUNCHER_PATH in capabilityPaths;
    var launcher := rootfs.nodes[RUNNER_LAUNCHER_PATH];
    assert im.nodes[RUNNER_LAUNCHER_PATH].attrs == launcher.Metadata();
    if launcher.kind != File || launcher.xattrs[CAPABILITY] != EXPECTED_RUNNER_CAPABILITY {
      return false;
    }
    if exists p :: p in rootfs.nodes && SetId(rootfs.nodes[p].mode) {
      var p :| p in rootfs.nodes && SetId(rootfs.nodes[p].mode);
      assert SetId(im.nodes[p].attrs.mode);
      return false;
    }
    ok := true;
  }

  /** What the layer loop computes: scanning and applying in turn. */
  function Applied(im: Image, layers: seq<Layer>, packageAddition: bool, env: Platform): Option<Image> {
    if layers == [] then Some(im)
    else
      match Applied(im, Front(layers), packageAddition, env)
      case None => None
      case Some(im') =>
        match LayerEntries(Last(layers), env)
        case None => None
        case Some(es) => if packageAddition && es == [] then None else ApplyLayer(im', es, packageAddition)
  }

  lemma {:induction false} AppliedFailsEarly(im: Image, layers: seq<Layer>, n: nat, packageAddition: bool,
                                             env: Platform)
    requires n <= |layers| && Applied(im, layers[..n], packageAddition, env).None?
    ensures Applied(im, layers, packageAddition, env).None?
    decreases |layers| - n
  {
    hide LayerEntries, ApplyLayer;
    if n < |layers| {
      assert Front(layers[..n + 1]) == layers[..n];
      AppliedFailsEarly(im, layers, n + 1, packageAddition, env);
    } else {
      assert layers[..n] == layers;
    }
  }

  /** Scanning and applying in turn is scanning everything first and applying then. */
  lemma {:induction false} AppliedIsScanThenApply(im: Image, layers: seq<Layer>, packageAddition: bool, env: Platform)
    ensures Applied(im, layers, packageAddition, env)
         == match ScanAll(layers, env)
            case None => None
            case Some(entries) =>
              if packageAddition && !NoneEmpty(entries) then None else ApplyLayers(im, entries, packageAddition)
  {
    hide LayerEntries, ApplyLayer;
    if layers != [] {
      var front := Front(layers);
      AppliedIsScanThenApply(im, front, packageAddition, env);
      if ScanAll(layers, env).Some? {
        var entries := ScanAll(layers, env).value;
        assert Front(entries) == ScanAll(front, env).value;
        assert NoneEmpty(entries) <==> NoneEmpty(Front(entries)) && Last(entries) != [] by {
          if NoneEmpty(Front(entries)) && Last(entries) != [] {
            assert forall i :: 0 <= i < |Front(entries)| ==> entries[i] == Front(entries)[i];
          }
          if NoneEmpty(entries) {
            assert forall i :: 0 <= i < |Front(entries)| ==> entries[i] == Front(entries)[i];
          }
        }
      }
    }
  }

  // ---------------------------------------------------------------- what acceptance requires

  /** The entries of the layers, in order, are `entries`. */
  ghost predicate Scanned(layers: seq<Layer>, entries: seq<seq<Entry>>, env: Platform) {
    && |entries| == |layers|
    && forall i :: 0 <= i < |layers| ==>
         && layers[i].stored && env.digest(layers[i].tar) == layers[i].diffId
         && Scan(layers[i].tar, Rules(true, 1000 * 1000, env.isTimestamp)) == Some(entries[i])
  }

  lemma {:induction false} ScanAllExactly(layers: seq<Layer>, entries: seq<seq<Entry>>, env: Platform)
    ensures ScanAll(layers, env) == Some(entries) <==> Scanned(layers, entries, env)
  {
    hide Scan;
    if layers != [] {
      var front := Front(layers);
      assert forall i :: 0 <= i < |front| ==> front[i] == layers[i];
      if entries != [] {
        assert forall i :: 0 <= i < |Front(entries)| ==> Front(entries)[i] == entries[i];
        assert entries == Front(entries) + [Last(entries)];
        ScanAllExactly(front, Front(entries), env);
      }
    }
  }

  /** Twenty bytes: revision 2 of a capability with the effective flag, and one word of permitted capabilities. */
  predicate IsRunnerCapability(capability: Bytes) {
    && |capability| == 20
    && capability[0] == '\U{01}' && capability[3] == '\U{02}' && capability[4] == '\U{E0}'
    && forall k :: 0 <= k < 20 && k != 0 && k != 3 && k != 4 ==> capability[k] == '\0'
  }

  lemma CapabilityExactly(capability: Bytes)
    ensures capability == EXPECTED_RUNNER_CAPABILITY <==> IsRunnerCapability(capability)
  {
  }

  /** The launcher is the one path with a file capability, that one, on a regular file; nothing is SUID or SGID. */
  ghost predicate OnlyTheLauncherIsPrivileged(im: Image) {
    && "usr/local/bin/platform-sandbox-runner" in im.nodes
    && (var launcher := im.nodes["usr/local/bin/platform-sandbox-runner"].attrs;
        && launcher.kind == File && "security.capability" in launcher.xattrs
        && IsRunnerCapability(launcher.xattrs["security.capability"]))
    && (forall p :: p in im.nodes && p != "usr/local/bin/platform-sandbox-runner"
                    ==> "security.capability" !in im.nodes[p].attrs.xattrs)
    && (forall p :: p in im.nodes ==> im.nodes[p].attrs.mode / 512 % 8 < 2)
  }

  lemma FinalChecksExactly(im: Image)
    ensures FinalChecks(im) <==> OnlyTheLauncherIsPrivileged(im)
  {
    var found := set p | p in im.nodes && CAPABILITY in im.nodes[p].attrs.xattrs;
    forall p | p in im.nodes
      ensures SetId(im.nodes[p].attrs.mode) <==> im.nodes[p].attrs.mode / 512 % 8 >= 2
    {
      PlainExactly(im.nodes[p].attrs.mode);
    }
    if RUNNER_LAUNCHER_PATH in im.nodes && CAPABILITY in im.nodes[RUNNER_LAUNCHER_PATH].attrs.xattrs {
      CapabilityExactly(im.nodes[RUNNER_LAUNCHER_PATH].attrs.xattrs[CAPABILITY]);
      assert RUNNER_LAUNCHER_PATH in found;
    }
    hide SetId, IsRunnerCapability;
    if FinalChecks(im) {
      assert forall p :: p in im.nodes && CAPABILITY in im.nodes[p].attrs.xattrs ==> p in found;
    }
    if OnlyTheLauncherIsPrivileged(im) {
      assert RUNNER_LAUNCHER_PATH in found;
      assert forall p :: p in found ==> p == RUNNER_LAUNCHER_PATH;
      assert found == {RUNNER_LAUNCHER_PATH};
    }
  }

  /**
   * A composition is accepted, with the rootfs `im`, exactly if the package has the runner's runtime config
   * and strictly more layers, the first ones with the runner's descriptors and DiffIDs; every layer of the
   * runner, and every layer of the package, is held by its layout; every layer that is applied has the
   * digest its DiffID says and scans; no added layer is empty; the runner's layers and then the added ones
   * apply to `im`; and there only the launcher is privileged.
   */
  lemma AcceptedExactly(runner: ImageMetadata, package: ImageMetadata, env: Platform, im: Image)
    ensures Composition(runner, package, env) == Some(im)
            <==> && package.runtimeConfig == runner.runtimeConfig
                 && |runner.layers| < |package.layers|
                 && (forall i :: 0 <= i < |runner.layers| ==>
                       && package.layers[i].descriptor == runner.layers[i].descriptor
                       && package.layers[i].diffId == runner.layers[i].diffId
                       && package.layers[i].stored)
                 && exists lower, upper, base ::
                      && Scanned(runner.layers, lower, env)
                      && Scanned(package.layers[|runner.layers|..], upper, env)
                      && (forall i :: 0 <= i < |upper| ==> upper[i] != [])
                      && ApplyLayers(EMPTY_IMAGE, lower, false) == Some(base)
                      && ApplyLayers(base, upper, true) == Some(im)
                      && OnlyTheLauncherIsPrivileged(im)
  {
    hide ScanAll, Scanned, ApplyLayers, FinalChecks, OnlyTheLauncherIsPrivileged;
    FinalChecksExactly(im);
    forall layers, entries
      ensures ScanAll(layers, env) == Some(entries) <==> Scanned(layers, entries, env)
    {
      ScanAllExactly(layers, entries, env);
    }
    if Composition(runner, package, env) == Some(im) {
      var lower, upper := ScanAll(runner.layers, env).value, ScanAll(Added(runner, package), env).value;
      var base := RunnerImage(runner, env).value;
      assert Scanned(runner.layers, lower, env) && Scanned(package.layers[|runner.layers|..], upper, env);
    }
  }

  // ---------------------------------------------------------------- what acceptance means

  lemma {:induction false} ScannedLayersAreOk(layers: seq<Layer>, env: Platform)
    requires ScanAll(layers, env).Some?
    ensures LayersOk(ScanAll(layers, env).value)
  {
    hide Scan, EntriesOk;
    if layers != [] {
      ScannedLayersAreOk(Front(layers), env);
      AcceptedEntriesAreCanonical(Last(layers).tar, LayerRules(env));
    }
  }

  /**
   * Acceptance, from bytes: the rootfs satisfies the heap invariant and extends the one the runner
   * layers build only inside the package; the launcher is the runner's very node and carries the exact
   * capability; no other path has one, and nothing is SUID or SGID.
   */
  lemma AcceptedCompositionIsInert(runner: ImageMetadata, package: ImageMetadata, env: Platform)
    requires Composition(runner, package, env).Some?
    ensures RunnerImage(runner, env).Some?
    ensures var base := RunnerImage(runner, env).value;
            var im := Composition(runner, package, env).value;
            && WellFormed(base) && WellFormed(im)
            && ExtendsPackage(base, im)
            && RUNNER_LAUNCHER_PATH in base.nodes && RUNNER_LAUNCHER_PATH in im.nodes
            && im.nodes[RUNNER_LAUNCHER_PATH] == base.nodes[RUNNER_LAUNCHER_PATH]
            && CAPABILITY in base.nodes[RUNNER_LAUNCHER_PATH].attrs.xattrs
            && base.nodes[RUNNER_LAUNCHER_PATH].attrs.xattrs[CAPABILITY] == EXPECTED_RUNNER_CAPABILITY
            && (forall p :: p in im.nodes && CAPABILITY in im.nodes[p].attrs.xattrs ==> p == RUNNER_LAUNCHER_PATH)
            && (forall p :: p in base.nodes && !InPackage(p) ==> !SetId(base.nodes[p].attrs.mode))
  {
    hide ScanAll, ApplyLayers, WellFormed, FinalChecks, ExtendsPackage, InPackage, SetId;
    FinalWellFormed(runner, package, env);
    CheckedExtension(RunnerImage(runner, env).value, Composition(runner, package, env).value);
  }

  lemma CheckedExtension(base: Image, im: Image)
    requires ExtendsPackage(base, im) && FinalChecks(im)
    ensures RUNNER_LAUNCHER_PATH in base.nodes && RUNNER_LAUNCHER_PATH in im.nodes
    ensures im.nodes[RUNNER_LAUNCHER_PATH] == base.nodes[RUNNER_LAUNCHER_PATH]
    ensures CAPABILITY in base.nodes[RUNNER_LAUNCHER_PATH].attrs.xattrs
    ensures base.nodes[RUNNER_LAUNCHER_PATH].attrs.xattrs[CAPABILITY] == EXPECTED_RUNNER_CAPABILITY
    ensures forall p :: p in im.nodes && CAPABILITY in im.nodes[p].attrs.xattrs ==> p == RUNNER_LAUNCHER_PATH
    ensures forall p :: p in base.nodes && !InPackage(p) ==> !SetId(base.nodes[p].attrs.mode)
  {
    hide SetId, InPackage, Protected;
    LauncherIsProtected();
    var found := set q | q in im.nodes && CAPABILITY in im.nodes[q].attrs.xattrs;
    assert forall p :: p in im.nodes && CAPABILITY in im.nodes[p].attrs.xattrs ==> p in found;
  }

  lemma LauncherIsProtected()
    ensures Protected(RUNNER_LAUNCHER_PATH) && !InPackage(RUNNER_LAUNCHER_PATH)
  {
    assert RUNNER_LAUNCHER_PATH[0] != PACKAGE_PATH[0];
    assert forall p :: p in STRUCTURAL_PARENTS ==> p[0] == 'o';
  }

  lemma FinalWellFormed(runner: ImageMetadata, package: ImageMetadata, env: Platform)
    requires Composition(runner, package, env).Some?
    ensures var base := RunnerImage(runner, env).value;
            var im := Composition(runner, package, env).value;
            WellFormed(base) && WellFormed(im) && ExtendsPackage(base, im)
  {
    hide ScanAll, ApplyLayers, FinalChecks, WellFormed, ExtendsPackage;
    var layers := ScanAll(runner.layers, env).value;
    var added := ScanAll(Added(runner, package), env).value;
    var base := RunnerImage(runner, env).value;
    ScannedLayersAreOk(runner.layers, env);
    ScannedLayersAreOk(Added(runner, package), env);
    EmptyImagesAgree();
    HeapInvariant(EMPTY_IMAGE, layers, false);
    HeapInvariant(base, added, true);
    PackageLayersOnlyExtend(base, added);
  }

  /** In the heap: an object that an accepted rootfs binds to two paths is an unprivileged regular file. */
  lemma SharedObjectsAreHarmless(runner: ImageMetadata, package: ImageMetadata, env: Platform,
                                 rootfs: Rootfs, p: string, q: string)
    requires rootfs.Valid() && Composition(runner, package, env) == Some(rootfs.View())
    requires p != q && p in rootfs.nodes && q in rootfs.nodes && rootfs.nodes[p] == rootfs.nodes[q]
    ensures Unprivileged(rootfs.nodes[p].Metadata())
  {
    hide ScanAll, ApplyLayers, FinalChecks, ExtendsPackage;
    FinalWellFormed(runner, package, env);
    assert rootfs.View().nodes[p].ino == rootfs.View().nodes[q].ino;
  }

  /** The accepted rootfs is the one the directory tree computes from the same layers. */
  lemma AcceptedCompositionIsATree(runner: ImageMetadata, package: ImageMetadata, env: Platform)
    requires Composition(runner, package, env).Some?
    ensures var lower := ApplyLayersToTree(EMPTY_FILE_SYSTEM, ScanAll(runner.layers, env).value, false);
            && lower.Some?
            && var upper := ApplyLayersToTree(lower.value, ScanAll(Added(runner, package), env).value, true);
               upper.Some? && Agree(Composition(runner, package, env).value, upper.value)
  {
    hide ScanAll, ApplyLayers, ApplyLayersToTree, FinalChecks, WellFormed, Agree;
    var layers := ScanAll(runner.layers, env).value;
    var added := ScanAll(Added(runner, package), env).value;
    var base := RunnerImage(runner, env).value;
    ScannedLayersAreOk(runner.layers, env);
    ScannedLayersAreOk(Added(runner, package), env);
    EmptyImagesAgree();
    FlatEngineRefinesTree(EMPTY_IMAGE, EMPTY_FILE_SYSTEM, layers, false);
    HeapInvariant(EMPTY_IMAGE, layers, false);
    FlatEngineRefinesTree(base, ApplyLayersToTree(EMPTY_FILE_SYSTEM, layers, false).value, added, true);
  }
}
