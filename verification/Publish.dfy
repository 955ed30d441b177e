/**
 * No-replace publication of a private file. A directory, its inodes, at most one publisher (the lock is
 * exclusive), and foreign processes that may create the destination at any moment while it is absent.
 * The publisher may be killed between any two file-system operations.
 */
module Publish {
  import opened Common

  // ---------------------------------------------------------------- the file system

  datatype Inode = Inode(data: Bytes, links: nat, regular: bool, owned: bool, mode: nat)

  /** Names in the directory: the destination, and the staged file in the k-th temporary directory. */
  datatype Name = Destination | Staged(k: nat)

  datatype Disk = Disk(names: map<Name, nat>, inodes: map<nat, Inode>, nextInode: nat, nextTemporary: nat)

  // ---------------------------------------------------------------- the publisher

  datatype Pc =
    | Look                            // does the destination exist?
    | Confirm                         // yes: read it and compare
    | Create                          // no: stage the bytes under a temporary name
    | Write(ino: nat, k: nat)         // some of the bytes are staged
    | Recheck(ino: nat, k: nat)       // all of them are staged and synced
    | Link(ino: nat, k: nat)
    | Unlink(ino: nat, k: nat)
    | CleanUp(ino: nat, k: nat)       // a failure removes the temporary directory
    | Done | Failed

  datatype Publisher = Publisher(data: Bytes, maximum: nat, pc: Pc)

  /** `published` and `foreign` remember the bytes publishers were started with and the inodes of others. */
  datatype World = World(disk: Disk, publisher: Option<Publisher>, published: set<Bytes>, foreign: set<nat>)

  const PRIVATE_MODE: nat := 0x180  // 0o600

  /** `read_private`: the bytes, or None where it fails. */
  function ReadPrivate(d: Disk, name: Name, maximum: nat): Option<Bytes> {
    if name !in d.names || d.names[name] !in d.inodes then None
    else
      var i := d.inodes[d.names[name]];
      if i.regular && i.links == 1 && i.owned && i.mode == PRIVATE_MODE && 0 < |i.data| <= maximum then Some(i.data)
      else None
  }

  function Goto(w: World, p: Publisher, d: Disk, pc: Pc): World {
    w.(disk := d, publisher := Some(p.(pc := pc)))
  }

  function WithInode(d: Disk, ino: nat, i: Inode): Disk {
    d.(inodes := d.inodes[ino := i])
  }

  /** Removes a name; the inode stays as long as another name has it. */
  function Removed(d: Disk, name: Name): Disk {
    if name !in d.names || d.names[name] !in d.inodes || d.inodes[d.names[name]].links == 0 then d
    else
      var ino := d.names[name];
      WithInode(d, ino, d.inodes[ino].(links := d.inodes[ino].links - 1)).(names := d.names - {name})
  }

  /** One operation of `_publish`; `n` is how many bytes a write gets down. None where it has ended. */
  function Proceed(w: World, p: Publisher, n: nat): Option<World> {
    var d := w.disk;
    match p.pc
    case Look => Some(Goto(w, p, d, if Destination in d.names then Confirm else Create))
    case Confirm => Some(Goto(w, p, d, if ReadPrivate(d, Destination, p.maximum) == Some(p.data) then Done else Failed))
    case Create =>
      var d' := Disk(d.names[Staged(d.nextTemporary) := d.nextInode],
                     d.inodes[d.nextInode := Inode("", 1, true, true, PRIVATE_MODE)],
                     d.nextInode + 1, d.nextTemporary + 1);
      Some(Goto(w, p, d', Write(d.nextInode, d.nextTemporary)))
    case Write(ino, k) =>
      if ino !in d.inodes || |d.inodes[ino].data| > |p.data| then None
      else
        var had := |d.inodes[ino].data|;
        if had + n > |p.data| then None
        else if had + n < |p.data| then
          Some(Goto(w, p, WithInode(d, ino, d.inodes[ino].(data := p.data[..had + n])), Write(ino, k)))
        else Some(Goto(w, p, WithInode(d, ino, d.inodes[ino].(data := p.data)), Recheck(ino, k)))
    case Recheck(ino, k) => Some(Goto(w, p, d, if Destination in d.names then CleanUp(ino, k) else Link(ino, k)))
    case Link(ino, k) =>
      if Destination in d.names || ino !in d.inodes then Some(Goto(w, p, d, CleanUp(ino, k)))
      else
        var d' := WithInode(d, ino, d.inodes[ino].(links := d.inodes[ino].links + 1));
        Some(Goto(w, p, d'.(names := d.names[Destination := ino]), Unlink(ino, k)))
    case Unlink(ino, k) => Some(Goto(w, p, Removed(d, Staged(k)), Done))
    case CleanUp(ino, k) => Some(Goto(w, p, Removed(d, Staged(k)), Failed))
    case Done => None
    case Failed => None
  }

  datatype Action =
    | Launch(data: Bytes, maximum: nat) | Crash | Step(n: nat)
    | ForeignCreate(i: Inode)  // by a process that does not take the lock

  function Do(w: World, a: Action): Option<World> {
    match a
    case Launch(data, maximum) =>
      if w.publisher.Some? then None
      else Some(w.(publisher := Some(Publisher(data, maximum, Look)), published := w.published + {data}))
    case Crash => Some(w.(publisher := None))
    case Step(n) => if w.publisher.None? then None else Proceed(w, w.publisher.value, n)
    case ForeignCreate(i) =>
      var d := w.disk;
      if Destination in d.names then None
      else Some(w.(disk := d.(names := d.names[Destination := d.nextInode], inodes := d.inodes[d.nextInode := i],
                              nextInode := d.nextInode + 1), foreign := w.foreign + {d.nextInode}))
  }

  function Run(w: World, actions: seq<Action>): Option<World> {
    if actions == [] then Some(w)
    else
      match Run(w, Front(actions))
      case None => None
      case Some(w') => Do(w', Last(actions))
  }

  const EMPTY := World(Disk(map[], map[], 0, 0), None, {}, {})

  // ---------------------------------------------------------------- the invariant

  ghost predicate DiskOk(d: Disk) {
    && (forall name :: name in d.names ==> d.names[name] in d.inodes)
    && (forall ino :: ino in d.inodes ==> ino < d.nextInode)
    && (forall k: nat :: Staged(k) in d.names ==> k < d.nextTemporary)
    && (forall k: nat, l: nat :: Staged(k) in d.names && Staged(l) in d.names ==>
          d.names[Staged(k)] == d.names[Staged(l)] ==> k == l)
    && (forall k: nat :: Staged(k) in d.names ==> d.inodes[d.names[Staged(k)]].links == Links(d, d.names[Staged(k)]))
  }

  /** A staged inode has its temporary name, and the destination if that is bound to it. */
  function Links(d: Disk, ino: nat): nat {
    1 + if Destination in d.names && d.names[Destination] == ino then 1 else 0
  }

  ghost predicate PublisherOk(w: World) {
    w.publisher.Some? ==>
      var p, d := w.publisher.value, w.disk;
      && p.data in w.published
      && (match p.pc
          case Write(ino, k) => Mine(d, ino, k) && Private(d.inodes[ino]) && d.inodes[ino].data <= p.data
          case Recheck(ino, k) => Mine(d, ino, k) && Private(d.inodes[ino]) && d.inodes[ino].data == p.data
          case Link(ino, k) => Mine(d, ino, k) && Private(d.inodes[ino]) && d.inodes[ino].data == p.data
          case Unlink(ino, k) =>
            && Staged(k) in d.names && d.names[Staged(k)] == ino
            && Destination in d.names && d.names[Destination] == ino
            && ino in d.inodes && Private(d.inodes[ino]) && d.inodes[ino].data == p.data
          case CleanUp(ino, k) => Mine(d, ino, k)
          case Done => Published(d, p.data)
          case _ => true)
  }

  predicate Private(i: Inode) {
    i.regular && i.owned && i.mode == PRIVATE_MODE
  }

  /** The destination is a private, singly linked regular file with exactly these bytes. */
  predicate Published(d: Disk, data: Bytes) {
    && Destination in d.names && d.names[Destination] in d.inodes
    && d.inodes[d.names[Destination]] == Inode(data, 1, true, true, PRIVATE_MODE)
  }

  /** A staged inode that is not the destination. */
  predicate Mine(d: Disk, ino: nat, k: nat) {
    && Staged(k) in d.names && d.names[Staged(k)] == ino && ino in d.inodes
    && (Destination in d.names ==> d.names[Destination] != ino)
  }

  /** The destination is foreign, or holds the full bytes of some publisher. */
  ghost predicate DestinationWhole(w: World) {
    Destination in w.disk.names && w.disk.names[Destination] in w.disk.inodes ==>
      var ino := w.disk.names[Destination];
      ino in w.foreign || w.disk.inodes[ino].data in w.published
  }

  ghost predicate Inv(w: World) {
    DiskOk(w.disk) && PublisherOk(w) && DestinationWhole(w)
  }

  lemma WriteKeepsInv(w: World, n: nat)
    requires Inv(w) && w.publisher.Some? && w.publisher.value.pc.Write? && Proceed(w, w.publisher.value, n).Some?
    ensures Inv(Proceed(w, w.publisher.value, n).value)
  {
  }

  lemma LinkKeepsInv(w: World, n: nat)
    requires Inv(w) && w.publisher.Some? && w.publisher.value.pc.Link?
    ensures Inv(Proceed(w, w.publisher.value, n).value)
  {
  }

  lemma RemovalKeepsInv(w: World, n: nat)
    requires Inv(w) && w.publisher.Some? && (w.publisher.value.pc.Unlink? || w.publisher.value.pc.CleanUp?)
    ensures Inv(Proceed(w, w.publisher.value, n).value)
  {
  }

  lemma ProceedKeepsInv(w: World, n: nat)
    requires Inv(w) && w.publisher.Some? && Proceed(w, w.publisher.value, n).Some?
    ensures Inv(Proceed(w, w.publisher.value, n).value)
  {
    match w.publisher.value.pc
    case Write(_, _) => hide Inv, Proceed; WriteKeepsInv(w, n);
    case Link(_, _) => hide Inv, Proceed; LinkKeepsInv(w, n);
    case Unlink(_, _) => hide Inv, Proceed; RemovalKeepsInv(w, n);
    case CleanUp(_, _) => hide Inv, Proceed; RemovalKeepsInv(w, n);
    case _ =>
  }

  lemma DoKeepsInv(w: World, a: Action)
    requires Inv(w) && Do(w, a).Some?
    ensures Inv(Do(w, a).value)
  {
    if a.Step? {
      hide Inv, Proceed;
      ProceedKeepsInv(w, a.n);
    }
  }

  lemma {:induction false} RunsKeepInv(actions: seq<Action>)
    requires Run(EMPTY, actions).Some?
    ensures Inv(Run(EMPTY, actions).value)
  {
    hide Do;
    if actions != [] {
      hide Inv;
      RunsKeepInv(Front(actions));
      DoKeepsInv(Run(EMPTY, Front(actions)).value, Last(actions));
    }
  }

  /**
   * What `read_private` reads: a regular file of the owner with mode 0600 and one link, that is not empty and
   * within the bound.
   */
  lemma ReadPrivateExactly(d: Disk, name: Name, maximum: nat, data: Bytes)
    ensures ReadPrivate(d, name, maximum) == Some(data)
            <==> && name in d.names && d.names[name] in d.inodes
                 && d.inodes[d.names[name]] == Inode(data, 1, true, true, 6 * 64)
                 && data != "" && |data| <= maximum
  {
  }

  // ---------------------------------------------------------------- what a finished publisher leaves

  predicate NoCrash(actions: seq<Action>) {
    forall i :: 0 <= i < |actions| ==> actions[i].Step? || actions[i].ForeignCreate?
  }

  /** The staged file that a publisher still has, if it has one. */
  predicate Stages(p: Publisher, k: nat) {
    match p.pc
    case Write(_, l) => k == l
    case Recheck(_, l) => k == l
    case Link(_, l) => k == l
    case Unlink(_, l) => k == l
    case CleanUp(_, l) => k == l
    case _ => false
  }

  /** The staged files are those of `d` and that of the publisher. */
  ghost predicate OnlyOwnStaged(d: Disk, w: World) {
    && w.publisher.Some? && d.nextTemporary <= w.disk.nextTemporary
    && (forall k: nat :: Staged(k) in d.names ==> k < d.nextTemporary)
    && (forall k: nat :: Stages(w.publisher.value, k) ==> d.nextTemporary <= k)
    && forall k: nat :: Staged(k) in w.disk.names <==> Staged(k) in d.names || Stages(w.publisher.value, k)
  }

  lemma RemovedName(d: Disk, k: nat)
    requires DiskOk(d) && Staged(k) in d.names
    ensures Removed(d, Staged(k)).names == d.names - {Staged(k)}
    ensures Removed(d, Staged(k)).nextTemporary == d.nextTemporary
  {
  }

  lemma RemovalKeepsOwnStaged(d: Disk, w: World, n: nat)
    requires Inv(w) && OnlyOwnStaged(d, w) && (w.publisher.value.pc.Unlink? || w.publisher.value.pc.CleanUp?)
    ensures OnlyOwnStaged(d, Proceed(w, w.publisher.value, n).value)
  {
    var own := w.publisher.value.pc.k;
    RemovedName(w.disk, own);
    assert Stages(w.publisher.value, own);
    hide Inv, Removed;
  }

  lemma StepKeepsOwnStaged(d: Disk, w: World, a: Action)
    requires Inv(w) && OnlyOwnStaged(d, w) && (a.Step? || a.ForeignCreate?) && Do(w, a).Some?
    ensures OnlyOwnStaged(d, Do(w, a).value)
  {
    var pc := w.publisher.value.pc;
    if a.Step? && (pc.Unlink? || pc.CleanUp?) {
      RemovalKeepsOwnStaged(d, w, a.n);
    } else {
      hide Inv, Removed;
      var w', own := Do(w, a).value, w.disk.nextTemporary;
      if a.Step? && pc.Create? {
        assert w'.publisher.value.pc.Write? && w'.publisher.value.pc.k == own;
        assert forall k: nat :: Stages(w'.publisher.value, k) <==> k == own;
        assert forall k: nat :: Staged(k) in w'.disk.names <==> Staged(k) in w.disk.names || k == own;
      } else {
        assert forall k: nat :: Stages(w'.publisher.value, k) <==> Stages(w.publisher.value, k);
        assert forall k: nat :: Staged(k) in w'.disk.names <==> Staged(k) in w.disk.names;
      }
    }
  }

  lemma {:induction false} RunsKeepOwnStaged(d: Disk, w: World, actions: seq<Action>)
    requires Inv(w) && OnlyOwnStaged(d, w) && NoCrash(actions) && Run(w, actions).Some?
    ensures Inv(Run(w, actions).value) && OnlyOwnStaged(d, Run(w, actions).value)
  {
    hide Inv, OnlyOwnStaged, Do;
    if actions != [] {
      assert forall i :: 0 <= i < |Front(actions)| ==> Front(actions)[i] == actions[i];
      RunsKeepOwnStaged(d, w, Front(actions));
      DoKeepsInv(Run(w, Front(actions)).value, Last(actions));
      StepKeepsOwnStaged(d, Run(w, Front(actions)).value, Last(actions));
    }
  }

  /** A publisher that is not killed, whether it returns or raises, leaves no staged file of its own behind. */
  lemma NothingIsLeftBehind(before: seq<Action>, data: Bytes, maximum: nat, actions: seq<Action>, k: nat)
    requires Run(EMPTY, before).Some? && Run(EMPTY, before).value.publisher.None? && NoCrash(actions)
    requires var started := Do(Run(EMPTY, before).value, Launch(data, maximum));
             && started.Some? && Run(started.value, actions).Some?
             && Run(started.value, actions).value.publisher.Some?
             && Run(started.value, actions).value.publisher.value.pc in {Done, Failed}
    ensures var w := Run(EMPTY, before).value;
            Staged(k) in Run(Do(w, Launch(data, maximum)).value, actions).value.disk.names
            <==> Staged(k) in w.disk.names
  {
    var w := Run(EMPTY, before).value;
    var started := Do(w, Launch(data, maximum)).value;
    RunsKeepInv(before);
    DoKeepsInv(w, Launch(data, maximum));
    assert OnlyOwnStaged(w.disk, started);
    hide Inv, Do;
    RunsKeepOwnStaged(w.disk, started, actions);
  }

  // ---------------------------------------------------------------- what every run guarantees

  /** At every crash point the destination is absent, foreign, or holds exactly the full bytes of a publisher. */
  lemma DestinationIsNeverPartial(actions: seq<Action>)
    requires Run(EMPTY, actions).Some?
    ensures var w := Run(EMPTY, actions).value; var d := w.disk;
            Destination in d.names ==>
              && d.names[Destination] in d.inodes
              && (d.names[Destination] in w.foreign || d.inodes[d.names[Destination]].data in w.published)
  {
    RunsKeepInv(actions);
  }

  /** What the destination is bound to, and the bytes there. */
  function Shown(d: Disk): Option<(nat, Bytes)> {
    if Destination in d.names && d.names[Destination] in d.inodes
    then Some((d.names[Destination], d.inodes[d.names[Destination]].data))
    else None
  }

  lemma StepNeverReplaces(w: World, a: Action)
    requires Inv(w) && Do(w, a).Some? && Shown(w.disk).Some?
    ensures Shown(Do(w, a).value.disk) == Shown(w.disk)
  {
  }

  /** An existing destination, whoever made it, is never replaced and its bytes never change. */
  lemma {:induction false} DestinationIsNeverReplaced(before: seq<Action>, after: seq<Action>)
    requires Run(EMPTY, before).Some? && Run(Run(EMPTY, before).value, after).Some?
    requires Shown(Run(EMPTY, before).value.disk).Some?
    ensures Inv(Run(Run(EMPTY, before).value, after).value)
    ensures Shown(Run(Run(EMPTY, before).value, after).value.disk) == Shown(Run(EMPTY, before).value.disk)
    decreases |after|
  {
    hide Inv, Do, Shown;
    if after == [] {
      RunsKeepInv(before);
    } else {
      DestinationIsNeverReplaced(before, Front(after));
      var mid := Run(Run(EMPTY, before).value, Front(after)).value;
      DoKeepsInv(mid, Last(after));
      StepNeverReplaces(mid, Last(after));
    }
  }

  /** A new publication of `data` on an existing destination: two operations decide it. */
  lemma ReplayConfirmsExactly(w: World, data: Bytes, maximum: nat, n: nat)
    requires Inv(w) && w.publisher.None? && Destination in w.disk.names
    ensures var end := Run(w, [Launch(data, maximum), Step(n), Step(n)]);
            var i := w.disk.inodes[w.disk.names[Destination]];
            && end.Some? && end.value.disk == w.disk
            && end.value.publisher == Some(Publisher(data, maximum,
                 if Private(i) && i.links == 1 && 0 < |i.data| <= maximum && i.data == data then Done else Failed))
  {
    hide Inv;
    var one, two := [Launch(data, maximum)], [Launch(data, maximum), Step(n)];
    var three := [Launch(data, maximum), Step(n), Step(n)];
    assert Front(three) == two && Front(two) == one && Front(one) == [];
    assert Destination in w.disk.names && w.disk.names[Destination] in w.disk.inodes by { RevealDestination(w); }
    var w1 := Do(w, Launch(data, maximum)).value;
    assert Run(w, one) == Some(w1);
    var w2 := Do(w1, Step(n)).value;
    assert Run(w, two) == Some(w2);
  }

  lemma RevealDestination(w: World)
    requires Inv(w) && Destination in w.disk.names
    ensures w.disk.names[Destination] in w.disk.inodes
  {
  }

  /** The destination still has its temporary name as well: a publisher was killed between link and unlink. */
  ghost predicate HalfPublished(w: World) {
    && Destination in w.disk.names
    && (exists k: nat :: Staged(k) in w.disk.names && w.disk.names[Staged(k)] == w.disk.names[Destination])
    && (w.publisher.Some? ==> w.publisher.value.pc in {Look, Confirm, Failed})
  }

  lemma HalfPublishedHasTwoLinks(w: World)
    requires Inv(w) && HalfPublished(w)
    ensures w.disk.inodes[w.disk.names[Destination]].links == 2
  {
  }

  /** From there every publication is rejected, for ever; the state is kept as evidence. */
  lemma HalfPublishedForEver(w: World, a: Action)
    requires Inv(w) && HalfPublished(w) && Do(w, a).Some?
    ensures HalfPublished(Do(w, a).value) && Do(w, a).value.disk == w.disk
  {
    HalfPublishedHasTwoLinks(w);
  }

  lemma {:induction false} NothingIsEverConfirmed(w: World, actions: seq<Action>)
    requires Inv(w) && HalfPublished(w) && Run(w, actions).Some?
    ensures var end := Run(w, actions).value;
            && Inv(end) && HalfPublished(end) && end.disk == w.disk
            && (end.publisher.Some? ==> end.publisher.value.pc != Done)
  {
    hide Inv, Do;
    if actions != [] {
      NothingIsEverConfirmed(w, Front(actions));
      DoKeepsInv(Run(w, Front(actions)).value, Last(actions));
      HalfPublishedForEver(Run(w, Front(actions)).value, Last(actions));
    }
  }

  /** Being killed between link and unlink leads there. */
  lemma KilledBetweenLinkAndUnlink(w: World)
    requires Inv(w) && w.publisher.Some? && w.publisher.value.pc.Unlink?
    ensures HalfPublished(Do(w, Crash).value)
  {
  }

  // ---------------------------------------------------------------- what a publication achieves

  lemma StepKeepsPublished(w: World, a: Action, data: Bytes)
    requires Inv(w) && Do(w, a).Some? && Published(w.disk, data)
    ensures Published(Do(w, a).value.disk, data)
  {
  }

  lemma DoneIsPublished(w: World)
    requires Inv(w) && w.publisher.Some? && w.publisher.value.pc == Done
    ensures Published(w.disk, w.publisher.value.data)
  {
  }

  /** Once published, always published: nothing that happens later changes the file or its metadata. */
  lemma {:induction false} PublishedForEver(w: World, actions: seq<Action>, data: Bytes)
    requires Inv(w) && Published(w.disk, data) && Run(w, actions).Some?
    ensures Inv(Run(w, actions).value) && Published(Run(w, actions).value.disk, data)
  {
    hide Inv, Do, Published;
    if actions != [] {
      PublishedForEver(w, Front(actions), data);
      DoKeepsInv(Run(w, Front(actions)).value, Last(actions));
      StepKeepsPublished(Run(w, Front(actions)).value, Last(actions), data);
    }
  }

  /**
   * In every run, a publication that returns has published its own bytes, as a private regular file with
   * one link, and they stay published whatever happens afterwards.
   */
  lemma DoneMeansPublished(before: seq<Action>, after: seq<Action>)
    requires Run(EMPTY, before).Some? && Run(Run(EMPTY, before).value, after).Some?
    requires var p := Run(EMPTY, before).value.publisher; p.Some? && p.value.pc == Done
    ensures Published(Run(Run(EMPTY, before).value, after).value.disk, Run(EMPTY, before).value.publisher.value.data)
  {
    hide Do, Published;
    RunsKeepInv(before);
    DoneIsPublished(Run(EMPTY, before).value);
    PublishedForEver(Run(EMPTY, before).value, after, Run(EMPTY, before).value.publisher.value.data);
  }

  /**
   * After a publication of `data` has returned, and after anything that happened since, a publication of
   * `again` is confirmed if and only if it has the same bytes, not none, and within its bound.
   */
  lemma ReplayAfterDone(before: seq<Action>, after: seq<Action>, again: Bytes, maximum: nat, n: nat)
    requires Run(EMPTY, before).Some? && Run(Run(EMPTY, before).value, after).Some?
    requires var p := Run(EMPTY, before).value.publisher; p.Some? && p.value.pc == Done
    requires Run(Run(EMPTY, before).value, after).value.publisher.None?
    ensures var data := Run(EMPTY, before).value.publisher.value.data;
            var end := Run(Run(Run(EMPTY, before).value, after).value, [Launch(again, maximum), Step(n), Step(n)]);
            && end.Some?
            && end.value.publisher
               == Some(Publisher(again, maximum, if again == data && 0 < |data| <= maximum then Done else Failed))
  {
    hide Inv, Do;
    var data := Run(EMPTY, before).value.publisher.value.data;
    RunsKeepInv(before);
    DoneIsPublished(Run(EMPTY, before).value);
    PublishedForEver(Run(EMPTY, before).value, after, data);
    ReplayConfirmsExactly(Run(Run(EMPTY, before).value, after).value, again, maximum, n);
  }

  /** The undisturbed publication: every write gets all the bytes down. */
  function Undisturbed(data: Bytes, maximum: nat): seq<Action> {
    [Launch(data, maximum), Step(0), Step(0), Step(|data|), Step(0), Step(0), Step(0)]
  }

  lemma RunSnoc(w: World, actions: seq<Action>, a: Action)
    requires Run(w, actions).Some?
    ensures Run(w, actions + [a]) == Do(Run(w, actions).value, a)
  {
    assert Front(actions + [a]) == actions && Last(actions + [a]) == a;
  }

  /** Any bytes can be published while nothing has the name, the empty file and one above the bound included. */
  lemma UndisturbedIsDone(w: World, data: Bytes, maximum: nat)
    requires w.publisher.None? && Destination !in w.disk.names
    ensures Run(w, Undisturbed(data, maximum)).Some?
    ensures Run(w, Undisturbed(data, maximum)).value.publisher == Some(Publisher(data, maximum, Done))
  {
    hide Do;
    var worlds := UndisturbedSteps(w, data, maximum);
    RunFollows(worlds, Undisturbed(data, maximum));
  }

  /** A run may be given by all its worlds. */
  lemma {:induction false} RunFollows(worlds: seq<World>, actions: seq<Action>)
    requires |worlds| == |actions| + 1
    requires forall i :: 0 <= i < |actions| ==> Do(worlds[i], actions[i]) == Some(worlds[i + 1])
    ensures Run(worlds[0], actions) == Some(Last(worlds))
  {
    hide Do;
    if actions != [] {
      RunFollows(Front(worlds), Front(actions));
    }
  }

  lemma UndisturbedSteps(w: World, data: Bytes, maximum: nat) returns (worlds: seq<World>)
    requires w.publisher.None? && Destination !in w.disk.names
    ensures |worlds| == 8 && worlds[0] == w && worlds[7].publisher == Some(Publisher(data, maximum, Done))
    ensures worlds[6].publisher.Some? && worlds[6].publisher.value.pc.Unlink?
    ensures forall i :: 0 <= i < 7 ==> Do(worlds[i], Undisturbed(data, maximum)[i]) == Some(worlds[i + 1])
  {
    var all := Undisturbed(data, maximum);
    var w1 := Do(w, all[0]).value;
    var w2 := Do(w1, all[1]).value;
    var w3 := Do(w2, all[2]).value;
    var w4 := Do(w3, all[3]).value;
    var w5 := Do(w4, all[4]).value;
    var w6 := Do(w5, all[5]).value;
    var w7 := Do(w6, all[6]).value;
    worlds := [w, w1, w2, w3, w4, w5, w6, w7];
  }

  /**
   * Publishing and replaying: the first publication always returns; its replay is rejected exactly when
   * the file is empty or above the bound.
   */
  lemma ReplayIsRejectedExactly(data: Bytes, maximum: nat, n: nat)
    ensures Run(EMPTY, Undisturbed(data, maximum) + [Crash]).Some?
    ensures var first := Run(EMPTY, Undisturbed(data, maximum) + [Crash]).value;
            var end := Run(first, [Launch(data, maximum), Step(n), Step(n)]);
            && Published(first.disk, data) && end.Some?
            && end.value.publisher
               == Some(Publisher(data, maximum, if data == "" || |data| > maximum then Failed else Done))
  {
    hide Published;
    var all := Undisturbed(data, maximum);
    UndisturbedIsDone(EMPTY, data, maximum);
    var done := Run(EMPTY, all).value;
    RunSnoc(EMPTY, all, Crash);
    var first := done.(publisher := None);
    assert Run(done, []) == Some(done);
    RunSnoc(done, [], Crash);
    assert [] + [Crash] == [Crash];
    DoneMeansPublished(all, [Crash]);
    ReplayAfterDone(all, [Crash], data, maximum, n);
  }

  /** At that input: the empty file is published, and its replay is rejected. */
  lemma EmptyFileIsNeverConfirmed(maximum: nat)
    ensures var first := Run(EMPTY, Undisturbed("", maximum) + [Crash]);
            && first.Some? && Published(first.value.disk, "")
            && var end := Run(first.value, [Launch("", maximum), Step(0), Step(0)]);
               end.Some? && end.value.publisher == Some(Publisher("", maximum, Failed))
  {
    ReplayIsRejectedExactly("", maximum, 0);
  }

  // ---------------------------------------------------------------- when a publication can return

  /** Some continuation has a publication of `data` return. */
  ghost predicate CanReturn(w: World, data: Bytes, maximum: nat) {
    exists actions :: Run(w, actions).Some? && Run(w, actions).value.publisher == Some(Publisher(data, maximum, Done))
  }

  /** While the destination exists, publishers only read it. */
  predicate OnlyReads(d: Disk, w: World) {
    && w.disk == d
    && (w.publisher.Some? ==>
          var p := w.publisher.value;
          && p.pc in {Look, Confirm, Done, Failed}
          && (p.pc == Done ==> ReadPrivate(d, Destination, p.maximum) == Some(p.data)))
  }

  lemma {:induction false} RunsOnlyRead(w: World, actions: seq<Action>)
    requires Destination in w.disk.names && w.publisher.None? && Run(w, actions).Some?
    ensures OnlyReads(w.disk, Run(w, actions).value)
  {
    if actions != [] {
      RunsOnlyRead(w, Front(actions));
    }
  }

  /**
   * After any run that has left no publisher, whatever it has left in the directory, a publication can
   * still return if and only if the name is free, or the file there is readable and has the same bytes.
   */
  lemma CanReturnExactly(before: seq<Action>, data: Bytes, maximum: nat)
    requires Run(EMPTY, before).Some? && Run(EMPTY, before).value.publisher.None?
    ensures var w := Run(EMPTY, before).value;
            CanReturn(w, data, maximum)
            <==> Destination !in w.disk.names || ReadPrivate(w.disk, Destination, maximum) == Some(data)
  {
    RunsKeepInv(before);
    hide Inv, Do, ReadPrivate;
    var w := Run(EMPTY, before).value;
    if Destination !in w.disk.names {
      UndisturbedIsDone(w, data, maximum);
    } else {
      if ReadPrivate(w.disk, Destination, maximum) == Some(data) {
        ReadMeans(w, data, maximum);
        ReplayConfirmsExactly(w, data, maximum, 0);
      }
      forall actions | Run(w, actions).Some? && Run(w, actions).value.publisher == Some(Publisher(data, maximum, Done))
        ensures ReadPrivate(w.disk, Destination, maximum) == Some(data)
      {
        RunsOnlyRead(w, actions);
      }
    }
  }

  lemma ReadMeans(w: World, data: Bytes, maximum: nat)
    requires Inv(w) && Destination in w.disk.names && ReadPrivate(w.disk, Destination, maximum) == Some(data)
    ensures w.disk.names[Destination] in w.disk.inodes
    ensures var i := w.disk.inodes[w.disk.names[Destination]];
            i.regular && i.links == 1 && i.owned && i.mode == PRIVATE_MODE && 0 < |i.data| <= maximum && i.data == data
  {
  }

  /** A publisher can be killed between link and unlink; then no publication of anything can return any more. */
  lemma TwoLinksAreFinal(data: Bytes, maximum: nat, again: Bytes, bound: nat)
    ensures var end := Run(EMPTY, Undisturbed(data, maximum)[..6] + [Crash]);
            end.Some? && end.value.publisher.None? && HalfPublished(end.value) && !CanReturn(end.value, again, bound)
  {
    hide Do, CanReturn, HalfPublished, ReadPrivate;
    var all := Undisturbed(data, maximum);
    var worlds := UndisturbedSteps(EMPTY, data, maximum);
    RunFollows(worlds[..7], all[..6]);
    assert Last(worlds[..7]) == worlds[6];
    RunSnoc(EMPTY, all[..6], Crash);
    CrashLeaves(worlds[6]);
    var w := Do(worlds[6], Crash).value;
    RunsKeepInv(all[..6]);
    RunsKeepInv(all[..6] + [Crash]);
    KilledBetweenLinkAndUnlink(worlds[6]);
    HalfPublishedIsUnreadable(w, bound);
    CanReturnExactly(all[..6] + [Crash], again, bound);
  }

  lemma CrashLeaves(w: World)
    ensures Do(w, Crash) == Some(w.(publisher := None))
  {
  }

  lemma HalfPublishedIsUnreadable(w: World, maximum: nat)
    requires Inv(w) && HalfPublished(w)
    ensures Destination in w.disk.names && ReadPrivate(w.disk, Destination, maximum).None?
  {
    HalfPublishedHasTwoLinks(w);
  }
}
