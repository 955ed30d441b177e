/**
 * What the hand-over guarantees: a monitor says which traces are safe, every trace of the protocol is, and
 * its events say what the answer is and why.
 */
module HandOverSafety {
  import opened Common
  import opened HandOver

  // ---------------------------------------------------------------- the monitor

  /** What a trace has established so far. `None` means nothing is known about a container. */
  datatype Monitor = Monitor(
    initializer: Option<Option<ContainerState>>, server: Option<Option<ContainerState>>,
    permission: Option<Permission>, identity: Option<string>, ready: bool,
    initializerStarts: nat, serverStarts: nat)

  const FIRST := Monitor(None, None, None, None, false, 0, 0)

  predicate KnownIdle(seen: Option<Option<ContainerState>>) {
    seen.Some? && (seen.value.None? || !seen.value.value.running)
  }

  predicate KnownAbsent(seen: Option<Option<ContainerState>>) {
    seen == Some(None)
  }

  predicate KnownLive(seen: Option<Option<ContainerState>>, identity: string) {
    seen == Some(Some(ContainerState(identity, true)))
  }

  /** Which events are safe. */
  predicate Allowed(m: Monitor, e: Event) {
    match e
    case Started(Initializer) =>
      // once, on an explicit first permission, with both containers seen absent
      && m.permission == Some(InitializeOnce) && m.initializerStarts == 0
      && KnownAbsent(m.initializer) && KnownAbsent(m.server)
    case Started(Server) =>
      // once, with the initializer and the server both last seen not running
      && m.permission.Some? && m.permission != Some(Refused)
      && m.serverStarts == 0 && KnownIdle(m.initializer) && KnownIdle(m.server)
    case Stopped(Initializer, identity) => m.ready && KnownLive(m.initializer, identity)
    case Stopped(Server, _) => false
    case Asked(_) => m.permission.None?
    case Observed(_) => m.permission.Some? && m.permission != Some(Refused)
    case _ => true
  }

  function Noted(m: Monitor, e: Event, inputDigest: string): Monitor {
    match e
    case Looked(Initializer, seen) => m.(initializer := Some(seen))
    case Looked(Server, seen) => m.(server := Some(seen))
    case Asked(reply) =>
      var permission := Granted(reply, inputDigest);
      m.(permission := Some(permission),
         identity := if permission in {InitializeOnce, Serve} then Some(reply.value.identityDigest) else None)
    case Observed(reply) =>
      var ready := reply.Object? && CheckedEnvelope(reply.value, inputDigest, "phase", m.identity);
      m.(ready := ready,
         identity := if ready then Some(reply.value.identityDigest) else m.identity)
    case Started(Initializer) => m.(initializer := None, initializerStarts := m.initializerStarts + 1)
    case Started(Server) => m.(server := None, serverStarts := m.serverStarts + 1)
    case Stopped(Initializer, _) => m.(initializer := None)
    case Stopped(Server, _) => m.(server := None)
    case _ => m
  }

  /** The monitor after a trace. */
  function After(t: seq<Event>, inputDigest: string): Monitor {
    if t == [] then FIRST else Noted(After(Front(t), inputDigest), Last(t), inputDigest)
  }

  /** Every event of the trace was safe when it happened. */
  predicate Safe(t: seq<Event>, inputDigest: string) {
    t == [] || (Safe(Front(t), inputDigest) && Allowed(After(Front(t), inputDigest), Last(t)))
  }

  lemma Snoc(t: seq<Event>, e: Event, inputDigest: string)
    ensures After(t + [e], inputDigest) == Noted(After(t, inputDigest), e, inputDigest)
    ensures Safe(t + [e], inputDigest) <==> Safe(t, inputDigest) && Allowed(After(t, inputDigest), e)
  {
    assert Front(t + [e]) == t && Last(t + [e]) == e;
  }

  function SeenOf(m: Monitor, service: Service): Option<Option<ContainerState>> {
    if service == Initializer then m.initializer else m.server
  }

  // ---------------------------------------------------------------- every trace of the protocol is safe

  predicate Given(permission: Option<Permission>) {
    permission.Some? && permission != Some(Refused)
  }

  /** The server has not been started, and may be. */
  predicate ServerIsNext(m: Monitor) {
    Given(m.permission) && m.serverStarts == 0
  }

  /** The container that is waited for runs, and was seen so last. */
  predicate WaitsWell(m: Monitor, service: Service, expected: Option<ContainerState>) {
    && Given(m.permission) && (service == Initializer ==> ServerIsNext(m))
    && Runs(expected) && SeenOf(m, service) == Some(expected)
  }

  /** What the monitor knows at a stage of the protocol. */
  predicate Agrees(s: Stage, m: Monitor) {
    match s
    case Begun => m == FIRST
    case SeenOne(a) => m == FIRST.(initializer := Some(a))
    case SeenBoth(a, b) => m == FIRST.(initializer := Some(a), server := Some(b))
    case Permitted(known) =>
      && m.permission == Some(InitializeOnce) && m.identity == Some(known)
      && m.initializer == Some(None) && m.server == Some(None) && m.initializerStarts == 0 && m.serverStarts == 0
    case InitializerStarted(known) => m.identity == Some(known) && ServerIsNext(m)
    case Waiting(service, expected, identity) => m.identity == identity && WaitsWell(m, service, expected)
    case Matched(service, expected, identity) => m.identity == identity && WaitsWell(m, service, expected)
    case Deferred(service, expected, identity) => m.identity == identity && WaitsWell(m, service, expected)
    case Reported(service, expected, value) =>
      m.identity == Some(value.identityDigest) && WaitsWell(m, service, expected) && m.ready
    case Retiring(container, known) =>
      && m.identity == Some(known) && ServerIsNext(m) && m.ready && KnownLive(m.initializer, container)
    case Retired(_, known) => m.identity == Some(known) && ServerIsNext(m)
    case Serving(known) => m.identity == Some(known) && ServerIsNext(m) && KnownIdle(m.initializer)
    case ServerDown(known) =>
      m.identity == Some(known) && ServerIsNext(m) && KnownIdle(m.initializer) && KnownIdle(m.server)
    case ServerStarted(known) => m.identity == Some(known) && Given(m.permission)
    case Ended(answer) =>
      answer.Some? ==>
        m.ready && m.identity == Some(answer.value.identityDigest) && m.server.Some? && Runs(m.server.value)
  }

  lemma OneMoreEvent(s: Stage, m: Monitor, e: Event, inputDigest: string)
    requires Agrees(s, m) && Follow(s, e, inputDigest).Some?
    ensures Allowed(m, e) && Agrees(Follow(s, e, inputDigest).value, Noted(m, e, inputDigest))
  {
    hide CheckedEnvelope;
  }

  /** The traces of the protocol are safe, and a returned envelope carries the identity of its trace. */
  lemma {:induction false} EveryTraceIsSafe(t: seq<Event>, inputDigest: string)
    requires StageOf(t, inputDigest).Some?
    ensures Safe(t, inputDigest) && Agrees(StageOf(t, inputDigest).value, After(t, inputDigest))
  {
    assert Agrees(Begun, FIRST);
    hide Follow, Allowed, Noted, Agrees;
    if t != [] {
      EveryTraceIsSafe(Front(t), inputDigest);
      OneMoreEvent(StageOf(Front(t), inputDigest).value, After(Front(t), inputDigest), Last(t), inputDigest);
    }
  }

  // ---------------------------------------------------------------- what safe traces guarantee

  lemma {:induction false} SafePrefix(t: seq<Event>, n: nat, inputDigest: string)
    requires Safe(t, inputDigest) && n <= |t|
    ensures Safe(t[..n], inputDigest)
    decreases |t|
  {
    if n == |t| {
      assert t[..n] == t;
    } else {
      SafePrefix(Front(t), n, inputDigest);
      assert Front(t)[..n] == t[..n];
    }
  }

  /** Once the owner's identity digest is known it stays the one digest of the whole trace. */
  lemma {:induction false} IdentityIsKept(t: seq<Event>, n: nat, inputDigest: string)
    requires Safe(t, inputDigest) && n <= |t|
    requires After(t[..n], inputDigest).identity.Some?
    ensures After(t, inputDigest).identity == After(t[..n], inputDigest).identity
    decreases |t|
  {
    if n == |t| {
      assert t[..n] == t;
    } else {
      assert Front(t)[..n] == t[..n];
      IdentityIsKept(Front(t), n, inputDigest);
      KnownIdentityWasAsked(Front(t), inputDigest);
    }
  }

  lemma {:induction false} KnownIdentityWasAsked(t: seq<Event>, inputDigest: string)
    requires Safe(t, inputDigest)
    ensures After(t, inputDigest).identity.Some? ==> After(t, inputDigest).permission.Some?
  {
    if t != [] {
      KnownIdentityWasAsked(Front(t), inputDigest);
    }
  }

  /** How often an event occurs. */
  function Count(t: seq<Event>, e: Event): nat {
    if t == [] then 0 else Count(Front(t), e) + if Last(t) == e then 1 else 0
  }

  lemma {:induction false} StartsAreCounted(t: seq<Event>, inputDigest: string)
    requires Safe(t, inputDigest)
    ensures Count(t, Started(Initializer)) == After(t, inputDigest).initializerStarts <= 1
    ensures Count(t, Started(Server)) == After(t, inputDigest).serverStarts <= 1
  {
    if t != [] {
      StartsAreCounted(Front(t), inputDigest);
    }
  }

  /** What the owner answered is never forgotten, and the initializer is only started on a first permission. */
  lemma {:induction false} InitializerNeedsPermission(t: seq<Event>, inputDigest: string)
    requires Safe(t, inputDigest) && Started(Initializer) in t
    ensures exists i :: 0 <= i < |t| && t[i].Asked? && Granted(t[i].reply, inputDigest) == InitializeOnce
    ensures forall i :: 0 <= i < |t| && t[i].Asked? ==> Granted(t[i].reply, inputDigest) == InitializeOnce
  {
    if Last(t) == Started(Initializer) {
      PermissionWasAsked(Front(t), inputDigest);
      assert forall i :: 0 <= i < |Front(t)| ==> Front(t)[i] == t[i];
    } else {
      assert Started(Initializer) in Front(t);
      InitializerNeedsPermission(Front(t), inputDigest);
      var i :| 0 <= i < |Front(t)| && Front(t)[i].Asked?;
      assert t[i] == Front(t)[i];
      PermissionWasAsked(Front(t), inputDigest);
      assert forall k :: 0 <= k < |Front(t)| ==> Front(t)[k] == t[k];
      assert After(Front(t), inputDigest).permission.Some?;
    }
  }

  lemma {:induction false} PermissionWasAsked(t: seq<Event>, inputDigest: string)
    requires Safe(t, inputDigest)
    ensures var p := After(t, inputDigest).permission;
            && (p.Some? ==> exists i :: 0 <= i < |t| && t[i].Asked? && Granted(t[i].reply, inputDigest) == p.value)
            && (forall i :: 0 <= i < |t| && t[i].Asked? ==> p == Some(Granted(t[i].reply, inputDigest)))
  {
    if t != [] {
      var front := Front(t);
      PermissionWasAsked(front, inputDigest);
      if Last(t).Asked? {
        assert t[|t| - 1].Asked?;
      } else if After(front, inputDigest).permission.Some? {
        var i :| 0 <= i < |front| && front[i].Asked?
                 && Granted(front[i].reply, inputDigest) == After(front, inputDigest).permission.value;
        assert t[i] == front[i];
      }
      assert forall i :: 0 <= i < |front| ==> front[i] == t[i];
    }
  }

  // ---------------------------------------------------------------- every start, in terms of events alone

  predicate Concerns(e: Event, service: Service) {
    (e.Looked? || e.Started? || e.Stopped?) && e.service == service
  }

  /** Of all that concerns `service` in the first `k` events, the last is a look that gave `seen`. */
  predicate LastSeen(t: seq<Event>, k: nat, service: Service, seen: Option<ContainerState>) {
    && k <= |t|
    && exists i :: 0 <= i < k && t[i] == Looked(service, seen) && (forall j :: i < j < k ==> !Concerns(t[j], service))
  }

  /** What an event says about a container. */
  lemma NotedSeen(m: Monitor, e: Event, service: Service, inputDigest: string)
    ensures var seen := SeenOf(Noted(m, e, inputDigest), service);
            seen == if !Concerns(e, service) then SeenOf(m, service) else if e.Looked? then Some(e.seen) else None
  {
    hide CheckedEnvelope, Granted;
  }

  lemma {:induction false} KnownIsLastSeen(t: seq<Event>, service: Service, inputDigest: string)
    requires SeenOf(After(t, inputDigest), service).Some?
    ensures LastSeen(t, |t|, service, SeenOf(After(t, inputDigest), service).value)
  {
    assert t != [] by { assert After([], inputDigest) == FIRST; }
    NotedSeen(After(Front(t), inputDigest), Last(t), service, inputDigest);
    hide Noted, LastSeen;
    var front, e := Front(t), Last(t);
    assert t == front + [e];
    if Concerns(e, service) {
      LookedLast(front, service, e.seen);
    } else {
      KnownIsLastSeen(front, service, inputDigest);
      LastSeenStays(front, e, service, SeenOf(After(front, inputDigest), service).value);
    }
  }

  lemma LookedLast(t: seq<Event>, service: Service, seen: Option<ContainerState>)
    ensures LastSeen(t + [Looked(service, seen)], |t| + 1, service, seen)
  {
    assert (t + [Looked(service, seen)])[|t|] == Looked(service, seen);
  }

  lemma LastSeenStays(t: seq<Event>, e: Event, service: Service, seen: Option<ContainerState>)
    requires LastSeen(t, |t|, service, seen) && !Concerns(e, service)
    ensures LastSeen(t + [e], |t| + 1, service, seen)
  {
    var longer := t + [e];
    var i :| 0 <= i < |t| && t[i] == Looked(service, seen) && (forall j :: i < j < |t| ==> !Concerns(t[j], service));
    assert longer[i] == t[i] && forall j :: i < j < |t| ==> longer[j] == t[j];
  }

  lemma LastSeenInPrefix(t: seq<Event>, k: nat, service: Service, seen: Option<ContainerState>)
    requires k <= |t| && LastSeen(t[..k], k, service, seen)
    ensures LastSeen(t, k, service, seen)
  {
    var u := t[..k];
    var i :| 0 <= i < k && u[i] == Looked(service, seen) && (forall j :: i < j < k ==> !Concerns(u[j], service));
    assert t[i] == u[i] && forall j :: i < j < k ==> t[j] == u[j];
  }

  lemma {:induction false} UncountedIsAbsent(t: seq<Event>, e: Event)
    requires Count(t, e) == 0
    ensures e !in t
  {
    if t != [] {
      UncountedIsAbsent(Front(t), e);
      assert t == Front(t) + [Last(t)];
    }
  }

  /** What an event needs that is the `k`-th of a safe trace. */
  lemma AllowedWhenItHappened(t: seq<Event>, k: nat, inputDigest: string)
    requires Safe(t, inputDigest) && k < |t|
    ensures Safe(t[..k], inputDigest) && Allowed(After(t[..k], inputDigest), t[k])
  {
    hide Allowed;
    SafePrefix(t, k + 1, inputDigest);
    assert Front(t[..k + 1]) == t[..k] && Last(t[..k + 1]) == t[k];
  }

  lemma NoEarlierStart(t: seq<Event>, k: nat, service: Service, inputDigest: string)
    requires Safe(t, inputDigest) && k < |t| && t[k] == Started(service)
    ensures forall j :: 0 <= j < k ==> t[j] != Started(service)
  {
    hide After;
    AllowedWhenItHappened(t, k, inputDigest);
    StartsAreCounted(t[..k], inputDigest);
    UncountedIsAbsent(t[..k], Started(service));
    assert forall j :: 0 <= j < k ==> t[j] in t[..k];
  }

  /** A container that is gone or does not run. */
  predicate Idle(seen: Option<ContainerState>) {
    seen.None? || !seen.value.running
  }

  /**
   * Wherever a safe trace starts a container, it is the only start of that container; the last thing
   * known of both containers is a look since which nothing was done to them: for the initializer both
   * were absent and the owner had said `initialize_once`, for the server neither ran.
   */
  lemma EveryStartWasDue(t: seq<Event>, k: nat, service: Service, inputDigest: string)
    requires Safe(t, inputDigest) && k < |t| && t[k] == Started(service)
    ensures forall j :: 0 <= j < |t| && t[j] == Started(service) ==> j == k
    ensures service == Initializer ==>
              && LastSeen(t, k, Initializer, None) && LastSeen(t, k, Server, None)
              && exists i :: 0 <= i < k && t[i].Asked? && Granted(t[i].reply, inputDigest) == InitializeOnce
    ensures service == Server ==>
              exists a, b :: Idle(a) && Idle(b) && LastSeen(t, k, Initializer, a) && LastSeen(t, k, Server, b)
  {
    hide After, Safe, LastSeen;
    forall j | 0 <= j < |t| && t[j] == Started(service)
      ensures j == k
    {
      NoEarlierStart(t, k, service, inputDigest);
      NoEarlierStart(t, j, service, inputDigest);
    }
    AllowedWhenItHappened(t, k, inputDigest);
    var m := After(t[..k], inputDigest);
    KnownIsLastSeen(t[..k], Initializer, inputDigest);
    KnownIsLastSeen(t[..k], Server, inputDigest);
    LastSeenInPrefix(t, k, Initializer, m.initializer.value);
    LastSeenInPrefix(t, k, Server, m.server.value);
    PermissionWasAsked(t[..k], inputDigest);
    if service == Initializer {
      var i :| 0 <= i < k && t[..k][i].Asked? && Granted(t[..k][i].reply, inputDigest) == InitializeOnce;
      assert t[i].Asked?;
    } else {
      assert Idle(m.initializer.value) && Idle(m.server.value);
    }
  }

  /** Which of the two containers run at one moment. */
  datatype Moment = Moment(initializer: bool, server: bool)

  /** A history in which containers may stop by themselves, but only this adapter starts them. */
  ghost predicate OnlyAdapterStarts(t: seq<Event>, h: seq<Moment>) {
    && |h| == |t| + 1
    && forall i :: 0 <= i < |t| ==> OneMoment(t[i], h[i], h[i + 1])
  }

  predicate OneMoment(e: Event, before: Moment, after: Moment) {
    && (after.initializer ==> before.initializer || e == Started(Initializer))
    && (after.server ==> before.server || e == Started(Server))
    && (e.Looked? && e.service == Initializer ==> Runs(e.seen) == before.initializer)
    && (e.Looked? && e.service == Server ==> Runs(e.seen) == before.server)
  }

  /** If only this adapter starts containers, the two never run together. */
  lemma {:induction false} NeverBoth(t: seq<Event>, h: seq<Moment>, inputDigest: string)
    requires Safe(t, inputDigest) && OnlyAdapterStarts(t, h) && !(h[0].initializer && h[0].server)
    ensures forall i :: 0 <= i < |h| ==> !(h[i].initializer && h[i].server)
    ensures var m := After(t, inputDigest);
            && (KnownIdle(m.initializer) ==> !Last(h).initializer)
            && (KnownIdle(m.server) ==> !Last(h).server)
  {
    if t != [] {
      NeverBoth(Front(t), Front(h), inputDigest);
      assert Front(h)[|t| - 1] == h[|t| - 1] && Last(h) == h[|t|];
      assert OneMoment(t[|t| - 1], h[|t| - 1], h[|t|]);
      assert forall i :: 0 <= i < |Front(h)| ==> Front(h)[i] == h[i];
    }
  }
}
