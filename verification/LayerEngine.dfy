/** The layer engine in place: a map from paths to shared, mutable `FsNode` objects. */
module LayerEngine {
  import opened Common
  import opened Paths
  import opened Layers

  class FsNode {
    ghost const ino: nat  // the identity of the object
    var kind: Kind
    var mode: nat
    var uid: nat
    var gid: nat
    var xattrs: map<string, Bytes>

    constructor (ghost ino: nat, e: Entry)
      ensures this.ino == ino && Metadata() == e.Metadata()
    {
      this.ino := ino;
      kind, mode, uid, gid, xattrs := e.kind, e.mode, e.uid, e.gid, e.xattrs;
    }

    function Metadata(): Attrs
      reads this
    {
      Attrs(kind, mode, uid, gid, xattrs)
    }
  }

  /** The flat map that a dictionary of objects represents. */
  ghost function NodesOf(nodes: map<string, FsNode>): (m: map<string, Node>)
    reads nodes.Values
    ensures m.Keys == nodes.Keys
    ensures forall p :: p in nodes ==> m[p] == Node(nodes[p].ino, nodes[p].Metadata())
  {
    map p | p in nodes :: Node(nodes[p].ino, nodes[p].Metadata())
  }

  lemma NodesAfterDeletion(nodes: map<string, FsNode>, doomed: set<string>)
    ensures NodesOf(nodes - doomed) == NodesOf(nodes) - doomed
  {
  }

  lemma NodesAfterBinding(nodes: map<string, FsNode>, path: string, node: FsNode)
    ensures NodesOf(nodes[path := node]) == NodesOf(nodes)[path := Node(node.ino, node.Metadata())]
  {
  }

  /** Numbers are in range, and one number is one object. */
  ghost predicate Numbered(nodes: map<string, FsNode>, next: nat) {
    && (forall p :: p in nodes ==> nodes[p].ino < next)
    && (forall p, q :: p in nodes && q in nodes && nodes[p].ino == nodes[q].ino ==> nodes[p] == nodes[q])
  }

  lemma ValidAfterBinding(nodes: map<string, FsNode>, path: string, node: FsNode, next: nat)
    requires Numbered(nodes, next) && node.ino == next
    ensures Numbered(nodes[path := node], next + 1)
  {
  }

  /** A change of one object shows at exactly the paths bound to it. */
  lemma UpdatedPathwise(before: Image, after: Image, ino: nat, attrs: Attrs)
    requires after.next == before.next && after.nodes.Keys == before.nodes.Keys
    requires forall q :: q in before.nodes ==>
               after.nodes[q] == if before.nodes[q].ino == ino then Node(ino, attrs) else before.nodes[q]
    ensures after == Update(before, ino, attrs)
  {
  }

  class Rootfs {
    var nodes: map<string, FsNode>
    ghost var next: nat

    /** Inode numbers are below `next` and tell objects apart. */
    ghost predicate Valid()
      reads this
    {
      Numbered(nodes, next)
    }

    /** The flat image this heap represents. */
    ghost function View(): Image
      reads this, nodes.Values
    {
      Image(NodesOf(nodes), next)
    }

    constructor ()
      ensures Valid() && View() == EMPTY_IMAGE
      ensures nodes == map[]
    {
      nodes, next := map[], 0;
    }

    /** `remove_tree`: the candidates of a snapshot, in any order. */
    method RemoveTree(path: string)
      requires Valid()
      modifies this
      ensures Valid() && View() == Layers.RemoveTree(old(View()), path)
      ensures forall p :: p in nodes ==> p in old(nodes) && nodes[p] == old(nodes)[p]
    {
      hide Below;
      ghost var doomed := set q | q in nodes && (q == path || Below(q, path));
      var pending := nodes.Keys;
      while pending != {}
        invariant next == old(next) && pending <= old(nodes).Keys
        invariant nodes == old(nodes) - (doomed - pending)
      {
        var candidate :| candidate in pending;
        if candidate == path || Below(candidate, path) {
          nodes := nodes - {candidate};
        }
        pending := pending - {candidate};
      }
      assert doomed - pending == doomed;
      NodesAfterDeletion(old(nodes), doomed);
      assert NodesOf(old(nodes)) - doomed == Layers.RemoveTree(old(View()), path).nodes;
    }

    /** The deletion loop of an opaque whiteout. */
    method ClearDirectory(dir: string)
      requires Valid()
      modifies this
      ensures Valid() && View() == Layers.ClearDirectory(old(View()), dir)
      ensures forall p :: p in nodes ==> p in old(nodes) && nodes[p] == old(nodes)[p]
    {
      hide UnderOpaque;
      ghost var hidden := set q | q in nodes && UnderOpaque(q, dir);
      var prefix := if dir != "" then dir + "/" else "";
      var pending := nodes.Keys;
      while pending != {}
        invariant next == old(next) && pending <= old(nodes).Keys
        invariant nodes == old(nodes) - (hidden - pending)
      {
        var candidate :| candidate in pending;
        OpaquePrefix(candidate, dir);
        if prefix <= candidate && candidate != dir {
          nodes := nodes - {candidate};
        }
        pending := pending - {candidate};
      }
      assert hidden - pending == hidden;
      NodesAfterDeletion(old(nodes), hidden);
      assert NodesOf(old(nodes)) - hidden == Layers.ClearDirectory(old(View()), dir).nodes;
    }

    /** The first loop of `apply_layer`. */
    method Sweep(entries: seq<Entry>, packageAddition: bool) returns (ok: bool, ordinary: seq<Entry>)
      requires Valid()
      modifies this
      ensures Valid() && nodes.Values <= old(nodes.Values)
      ensures ok <==> Swept(old(View()), entries, packageAddition).Some?
      ensures ok ==> Some(View()) == Swept(old(View()), entries, packageAddition) && ordinary == Ordinary(entries)
    {
      ordinary := [];
      for i := 0 to |entries|
        invariant Valid() && nodes.Values <= old(nodes.Values)
        invariant Swept(old(View()), entries[..i], packageAddition) == Some(View())
        invariant ordinary == Ordinary(entries[..i])
      {
        var entry := entries[i];
        assert Front(entries[..i + 1]) == entries[..i];
        if IsWhiteout(entry) {
          if packageAddition || WhiteoutOf(entry).None? {
            SweptFailsEarly(old(View()), entries, i + 1, packageAddition);
            return false, ordinary;
          }
          match WhiteoutOf(entry).value {
            case Opaque(dir) => ClearDirectory(dir);
            case Hide(target) => RemoveTree(target);
          }
        } else {
          ordinary := ordinary + [entry];
        }
      }
      assert entries[..|entries|] == entries;
      ok := true;
    }

    /** The checks on an entry of a package layer. */
    method AdmitsPackageEntry(entry: Entry) returns (ok: bool)
      requires Valid()
      ensures ok == PackageAdmits(Stat(View(), entry.path), entry)
    {
      var structural := entry.path in STRUCTURAL_PARENTS;
      if !(structural || InPackage(entry.path)) { return false; }
      if structural && entry.kind != Directory { return false; }
      if structural && (entry.mode != 0x1ed || entry.uid != 0 || entry.gid != 0) { return false; }
      if entry.kind != File && entry.kind != Directory { return false; }
      if entry.xattrs != map[] { return false; }
      if SetId(entry.mode) { return false; }
      if structural && entry.path in nodes {
        var parent := nodes[entry.path];
        assert View().nodes[entry.path].attrs == parent.Metadata();
        if parent.kind != Directory || parent.mode != entry.mode || parent.uid != entry.uid
           || parent.gid != entry.gid || parent.xattrs != map[] {
          return false;
        }
      }
      return true;
    }

    /** The parent loop of `apply_layer`. */
    method ParentsAreDirectories(path: string) returns (ok: bool)
      requires Valid()
      ensures ok == Reachable(View(), path)
    {
      var parents := ParentPaths(path);
      for i := 0 to |parents|
        invariant forall k :: 0 <= k < i && parents[k] in nodes ==> nodes[parents[k]].kind == Directory
      {
        if parents[i] in nodes && nodes[parents[i]].kind != Directory {
          assert View().nodes[parents[i]].attrs.kind != Directory;
          return false;
        }
      }
      return true;
    }

    /** The hard-link branch: a second name for the target object, whose metadata is then replaced in place. */
    method AddHardLink(entry: Entry) returns (ok: bool)
      requires Valid()
      modifies this, nodes.Values
      ensures Valid() && nodes.Values <= old(nodes.Values)
      ensures ok == LinkAllowed(LinkTarget(old(View()), entry), entry)
      ensures ok ==> View() == PlaceHardLink(old(View()), entry)
    {
      if entry.linkname.None? || entry.linkname.value !in nodes { return false; }
      var target := nodes[entry.linkname.value];
      assert View().nodes[entry.linkname.value] == Node(target.ino, target.Metadata());
      if target.kind != File { return false; }
      if target.xattrs != map[] || SetId(target.mode) { return false; }
      if entry.xattrs != map[] || SetId(entry.mode) { return false; }
      RemoveTree(entry.path);
      Alias(entry.path, target);
      assert nodes[entry.path] == target;
      Refresh(target, entry.mode, entry.uid, entry.gid);
      return true;
    }

    /** `rootfs[path] = target`. */
    method Alias(path: string, target: FsNode)
      requires Valid() && target.ino < next
      requires forall p :: p in nodes && nodes[p].ino == target.ino ==> nodes[p] == target
      modifies this`nodes
      ensures Valid() && View() == Link(old(View()), path, Node(target.ino, target.Metadata()))
      ensures nodes == old(nodes)[path := target]
    {
      NodesAfterBinding(nodes, path, target);
      nodes := nodes[path := target];
    }

    /** An in-place change of a bound object. */
    method Refresh(target: FsNode, mode: nat, uid: nat, gid: nat)
      requires Valid() && target in nodes.Values
      modifies target
      ensures target.Metadata() == old(target.Metadata()).(mode := mode, uid := uid, gid := gid)
      ensures Valid() && View() == Update(old(View()), target.ino, target.Metadata())
    {
      target.mode := mode;
      target.uid := uid;
      target.gid := gid;
      UpdatedPathwise(old(View()), View(), target.ino, target.Metadata());
    }

    /** The same for an existing directory, whose xattrs are replaced as well. */
    method RefreshDirectory(existing: FsNode, entry: Entry)
      requires Valid() && existing in nodes.Values && existing.kind == entry.kind
      modifies existing
      ensures existing.Metadata() == entry.Metadata()
      ensures Valid() && View() == Update(old(View()), existing.ino, existing.Metadata())
    {
      existing.mode := entry.mode;
      existing.uid := entry.uid;
      existing.gid := entry.gid;
      existing.xattrs := entry.xattrs;
      UpdatedPathwise(old(View()), View(), existing.ino, existing.Metadata());
    }

    /** The other kinds: refresh an existing directory in place, or replace what is there. */
    method AddNode(entry: Entry)
      requires Valid()
      modifies this, nodes.Values
      ensures Valid()
      ensures forall n :: n in nodes.Values ==> n in old(nodes.Values) || fresh(n)
      ensures View() == PlaceNode(old(View()), entry)
    {
      ghost var before := View();
      if entry.kind == Directory && entry.path in nodes && nodes[entry.path].kind == Directory {
        var existing := nodes[entry.path];
        RefreshDirectory(existing, entry);
        return;
      }
      assert !(&& entry.kind == Directory && entry.path in before.nodes
               && before.nodes[entry.path].attrs.kind == Directory);
      if entry.kind == Directory && entry.path !in nodes && exists q :: q in nodes && Below(q, entry.path) {
        assert HasDescendant(before, entry.path);
        Bind(entry);
        return;
      }
      RemoveTree(entry.path);
      Bind(entry);
    }

    /** One pass of the second loop of `apply_layer`. */
    method Place(entry: Entry, packageAddition: bool) returns (ok: bool)
      requires Valid()
      modifies this, nodes.Values
      ensures Valid()
      ensures forall n :: n in nodes.Values ==> n in old(nodes.Values) || fresh(n)
      ensures ok <==> PlaceOne(old(View()), entry, packageAddition).Some?
      ensures ok ==> Some(View()) == PlaceOne(old(View()), entry, packageAddition)
    {
      hide PackageAdmits, Reachable, LinkAllowed, PlaceNode, PlaceHardLink, View, Valid;
      ok := true;
      if packageAddition {
        ok := AdmitsPackageEntry(entry);
      }
      if ok {
        ok := ParentsAreDirectories(entry.path);
      }
      if ok && entry.kind == HardLink {
        ok := AddHardLink(entry);
      } else if ok {
        AddNode(entry);
      }
    }

    /** `rootfs[entry.path] = FsNode(...)`. */
    method Bind(entry: Entry)
      requires Valid()
      modifies this
      ensures Valid() && View() == Layers.Bind(old(View()), entry.path, entry.Metadata())
      ensures forall n :: n in nodes.Values ==> n in old(nodes.Values) || fresh(n)
    {
      ghost var before := NodesOf(nodes);
      var node := new FsNode(next, entry);
      assert NodesOf(nodes) == before;
      NodesAfterBinding(nodes, entry.path, node);
      assert node !in nodes.Values;
      ValidAfterBinding(nodes, entry.path, node, next);
      hide NodesOf;
      nodes := nodes[entry.path := node];
      next := next + 1;
    }

    /** `apply_layer`. A failure leaves the map half updated, as the exception does. */
    method ApplyLayer(entries: seq<Entry>, packageAddition: bool) returns (ok: bool)
      requires Valid()
      modifies this, nodes.Values
      ensures Valid()
      ensures forall n :: n in nodes.Values ==> n in old(nodes.Values) || fresh(n)
      ensures ok <==> Layers.ApplyLayer(old(View()), entries, packageAddition).Some?
      ensures ok ==> Some(View()) == Layers.ApplyLayer(old(View()), entries, packageAddition)
    {
      var ordinary;
      ok, ordinary := Sweep(entries, packageAddition);
      if !ok { return; }
      ghost var lower := View();
      for i := 0 to |ordinary|
        invariant Valid()
        invariant forall n :: n in nodes.Values ==> n in old(nodes.Values) || fresh(n)
        invariant Placed(lower, ordinary[..i], packageAddition) == Some(View())
      {
        assert Front(ordinary[..i + 1]) == ordinary[..i];
        ok := Place(ordinary[i], packageAddition);
        if !ok {
          PlacedFailsEarly(lower, ordinary, i + 1, packageAddition);
          return;
        }
      }
      assert ordinary[..|ordinary|] == ordinary;
    }
  }

  lemma OpaquePrefix(q: string, dir: string)
    ensures (if dir != "" then dir + "/" else "") <= q && q != dir <==> UnderOpaque(q, dir)
  {
  }

  lemma {:induction false} SweptFailsEarly(im: Image, es: seq<Entry>, n: nat, packageAddition: bool)
    requires n <= |es| && Swept(im, es[..n], packageAddition).None?
    ensures Swept(im, es, packageAddition).None?
    decreases |es| - n
  {
    if n < |es| {
      assert Front(es[..n + 1]) == es[..n];
      SweptFailsEarly(im, es, n + 1, packageAddition);
    } else {
      assert es[..n] == es;
    }
  }

  lemma {:induction false} PlacedFailsEarly(im: Image, es: seq<Entry>, n: nat, packageAddition: bool)
    requires n <= |es| && Placed(im, es[..n], packageAddition).None?
    ensures Placed(im, es, packageAddition).None?
    decreases |es| - n
  {
    if n < |es| {
      assert Front(es[..n + 1]) == es[..n];
      PlacedFailsEarly(im, es, n + 1, packageAddition);
    } else {
      assert es[..n] == es;
    }
  }
}
