/**
 * The hand-over from the initialising to the serving provider container. The host is adversarial: every
 * look at a container, every reply of the installation owner and every delay is arbitrary. What the
 * protocol does is recorded in a trace, and the traces it may leave are those of a small automaton.
 */
module HandOver {
  import opened Common

  // ---------------------------------------------------------------- envelopes

  datatype ContainerState = ContainerState(identity: string, running: bool)

  /** A parsed JSON object; `content` is what its mode or phase field holds. */
  datatype Value = Value(fields: set<string>, schemaVersion: int, inputDigest: string, identityDigest: string,
                         content: string)

  /** What an owner call gives: an object, one of the closed error codes, or any other failure. */
  datatype Reply = Object(value: Value) | OwnerError(code: string) | Broken

  predicate LowerHex(c: char) {
    '0' <= c <= '9' || 'a' <= c <= 'f'
  }

  predicate DigestOk(s: string) {
    |s| == 71 && s[..7] == "sha256:" && forall i :: 7 <= i < |s| ==> LowerHex(s[i])
  }

  /** `checked_envelope`. */
  predicate CheckedEnvelope(v: Value, inputDigest: string, field: string, identity: Option<string>) {
    && (field == "mode" || field == "phase")
    && v.fields == {"schema_version", "input_digest", "identity_digest", field}
    && v.schemaVersion == 1
    && v.inputDigest == inputDigest && DigestOk(inputDigest)
    && DigestOk(v.identityDigest)
    && (identity.Some? ==> v.identityDigest == identity.value)
    && (field == "mode" ==> v.content == "initialize_once" || v.content == "serve")
    && (field == "phase" ==> v.content == "provider_ready")
  }

  /** The checked envelopes of either field are exactly these values. */
  lemma EnvelopesExactly(v: Value, inputDigest: string, identity: Option<string>)
    ensures CheckedEnvelope(v, inputDigest, "phase", identity)
            <==> && v == Value({"schema_version", "input_digest", "identity_digest", "phase"}, 1, inputDigest,
                               v.identityDigest, "provider_ready")
                 && IsSha256(inputDigest) && IsSha256(v.identityDigest)
                 && (identity == None || identity == Some(v.identityDigest))
    ensures CheckedEnvelope(v, inputDigest, "mode", identity)
            <==> && v == Value({"schema_version", "input_digest", "identity_digest", "mode"}, 1, inputDigest,
                               v.identityDigest, v.content)
                 && v.content in {"initialize_once", "serve"}
                 && IsSha256(inputDigest) && IsSha256(v.identityDigest)
                 && (identity == None || identity == Some(v.identityDigest))
  {
    DigestExactly(inputDigest);
    DigestExactly(v.identityDigest);
    hide DigestOk, IsSha256;
  }

  /** `sha256:` and 64 lower-case hexadecimal digits. */
  ghost predicate IsSha256(s: string) {
    exists digits :: s == "sha256:" + digits && |digits| == 64 && forall c :: c in digits ==> c in "0123456789abcdef"
  }

  lemma DigestExactly(s: string)
    ensures DigestOk(s) <==> IsSha256(s)
  {
    if DigestOk(s) {
      var digits := s[7..];
      assert s == "sha256:" + digits;
      forall c | c in digits
        ensures c in "0123456789abcdef"
      {
        var i :| 0 <= i < |digits| && digits[i] == c;
        assert s[7 + i] == c;
        HexExactly(c);
      }
    }
    if digits :| s == "sha256:" + digits && |digits| == 64 && forall c :: c in digits ==> c in "0123456789abcdef" {
      forall i | 7 <= i < |s|
        ensures LowerHex(s[i])
      {
        assert s[i] == digits[i - 7];
        HexExactly(s[i]);
      }
    }
  }

  lemma HexExactly(c: char)
    ensures LowerHex(c) <==> c in "0123456789abcdef"
  {
    var all := "0123456789abcdef";
    if '0' <= c <= '9' {
      assert all[c as int - '0' as int] == c;
    } else if 'a' <= c <= 'f' {
      assert all[10 + c as int - 'a' as int] == c;
    }
  }

  // ---------------------------------------------------------------- the host

  datatype Service = Initializer | Server

  datatype Event =
    | Looked(service: Service, seen: Option<ContainerState>)
    | Asked(reply: Reply)
    | Observed(reply: Reply)
    | Started(service: Service)
    | Stopped(service: Service, identity: string)
    | Raised  // the start or stop before failed, perhaps after having had an effect
    | Paused(duration: real)
    | Late    // the deadline was found to have passed

  /** The callbacks of `ensure_provider` and the clock. Every call takes an arbitrary time. */
  class Host {
    ghost var trace: seq<Event>
    var clock: real

    constructor ()
      ensures trace == []
    {
      trace := [];
      clock := *;
    }

    method Elapse()
      modifies `clock
      ensures clock >= old(clock)
    {
      var delay: real := *;
      if delay > 0.0 {
        clock := clock + delay;
      }
    }

    /** `time.monotonic()`. */
    method Now() returns (now: real)
      modifies `clock
      ensures old(clock) <= now <= clock
    {
      Elapse();
      now := clock;
      Elapse();
    }

    /** `time.monotonic() >= deadline`. */
    method IsLate(deadline: real) returns (late: bool)
      modifies this
      ensures clock >= old(clock)
      ensures late ==> clock >= deadline && trace == old(trace) + [Late]
      ensures !late ==> old(clock) < deadline && trace == old(trace)
    {
      var now := Now();
      late := now >= deadline;
      if late {
        trace := trace + [Late];
      }
    }

    method Container(service: Service) returns (seen: Option<ContainerState>)
      modifies this
      ensures trace == old(trace) + [Looked(service, seen)] && clock >= old(clock)
    {
      seen := *;
      trace := trace + [Looked(service, seen)];
      Elapse();
    }

    method RequestStart() returns (reply: Reply)
      modifies this
      ensures trace == old(trace) + [Asked(reply)] && clock >= old(clock)
    {
      reply := *;
      trace := trace + [Asked(reply)];
      Elapse();
    }

    method Observe() returns (reply: Reply)
      modifies this
      ensures trace == old(trace) + [Observed(reply)] && clock >= old(clock)
    {
      reply := *;
      trace := trace + [Observed(reply)];
      Elapse();
    }

    method Start(service: Service) returns (ok: bool)
      modifies this
      ensures trace == old(trace) + [Started(service)] + (if ok then [] else [Raised]) && clock >= old(clock)
    {
      ok := *;
      trace := trace + [Started(service)] + (if ok then [] else [Raised]);
      Elapse();
    }

    method Stop(service: Service, identity: string) returns (ok: bool)
      modifies this
      ensures trace == old(trace) + [Stopped(service, identity)] + (if ok then [] else [Raised])
      ensures clock >= old(clock)
    {
      ok := *;
      trace := trace + [Stopped(service, identity)] + (if ok then [] else [Raised]);
      Elapse();
    }

    /** Advances the clock by at least `duration`. */
    method Pause(duration: real)
      requires duration >= 0.0
      modifies this
      ensures trace == old(trace) + [Paused(duration)] && clock >= old(clock) + duration
    {
      trace := trace + [Paused(duration)];
      clock := clock + duration;
      Elapse();
    }
  }

  // ---------------------------------------------------------------- the traces

  datatype Permission = InitializeOnce | Serve | Unknown | Refused

  function Granted(reply: Reply, inputDigest: string): Permission {
    match reply
    case Object(v) =>
      if !CheckedEnvelope(v, inputDigest, "mode", None) then Refused
      else if v.content == "initialize_once" then InitializeOnce
      else Serve
    case OwnerError(code) => if code == "ExternalOutcomeUnknown" then Unknown else Refused
    case Broken => Refused
  }

  predicate Runs(seen: Option<ContainerState>) {
    seen.Some? && seen.value.running
  }

  predicate Repeatable(code: string) {
    code == "Incomplete" || code == "PrerequisiteUnavailable"
  }

  /** How far the protocol has come; `identity` is the identity digest that is known. */
  datatype Stage =
    | Begun
    | SeenOne(initial: Option<ContainerState>)
    | SeenBoth(initial: Option<ContainerState>, serving: Option<ContainerState>)
    | Permitted(known: string)                    // the initializer is to be started
    | InitializerStarted(known: string)
    | Waiting(service: Service, expected: Option<ContainerState>, identity: Option<string>)
    | Matched(service: Service, expected: Option<ContainerState>, identity: Option<string>)
    | Deferred(service: Service, expected: Option<ContainerState>, identity: Option<string>)
    | Reported(service: Service, expected: Option<ContainerState>, value: Value)
    | Retiring(container: string, known: string)  // the initializer is to be stopped
    | Retired(container: string, known: string)
    | Serving(known: string)                      // the server is to be looked at
    | ServerDown(known: string)                   // and to be started
    | ServerStarted(known: string)
    | Ended(answer: Option<Value>)

  function WaitFor(service: Service, expected: Option<ContainerState>, identity: Option<string>): Stage {
    if Runs(expected) then Waiting(service, expected, identity) else Ended(None)
  }

  /** Where the owner's reply leads. */
  function Permit(initial: Option<ContainerState>, serving: Option<ContainerState>, reply: Reply,
                  inputDigest: string): Stage
  {
    match Granted(reply, inputDigest)
    case InitializeOnce =>
      if initial.Some? || serving.Some? then Ended(None) else Permitted(reply.value.identityDigest)
    case Serve =>
      if Runs(initial) then Waiting(Initializer, initial, Some(reply.value.identityDigest))
      else Serving(reply.value.identityDigest)
    case Unknown => if Runs(initial) && serving.None? then Waiting(Initializer, initial, None) else Ended(None)
    case Refused => Ended(None)
  }

  /** Where a confirmed report leads: the server has been found, or the initializer is to be stopped. */
  function Confirmed(service: Service, expected: Option<ContainerState>, value: Value): Stage
    requires expected.Some?
  {
    if service == Server then Ended(Some(value)) else Retiring(expected.value.identity, value.identityDigest)
  }

  /** The stage after one more event, or None where the protocol never has that event. */
  function Follow(s: Stage, e: Event, inputDigest: string): Option<Stage> {
    match s
    case Begun => if e.Looked? && e.service == Initializer then Some(SeenOne(e.seen)) else None
    case SeenOne(initial) =>
      if !e.Looked? || e.service != Server then None
      else Some(if Runs(initial) && Runs(e.seen) then Ended(None) else SeenBoth(initial, e.seen))
    case SeenBoth(initial, serving) => if e.Asked? then Some(Permit(initial, serving, e.reply, inputDigest)) else None
    case Permitted(known) => if e == Started(Initializer) then Some(InitializerStarted(known)) else None
    case InitializerStarted(known) =>
      if e.Raised? then Some(Ended(None))
      else if e.Looked? && e.service == Initializer then Some(WaitFor(Initializer, e.seen, Some(known)))
      else None
    case Waiting(service, expected, identity) =>
      if e.Late? then Some(Ended(None))
      else if !e.Looked? || e.service != service then None
      else Some(if e.seen == expected then Matched(service, expected, identity) else Ended(None))
    case Matched(service, expected, identity) =>
      if !e.Observed? then None
      else
        (match e.reply
         case Broken => Some(Ended(None))
         case OwnerError(code) => Some(if Repeatable(code) then Deferred(service, expected, identity) else Ended(None))
         case Object(value) =>
           Some(if CheckedEnvelope(value, inputDigest, "phase", identity) then Reported(service, expected, value)
                else Ended(None)))
    case Deferred(service, expected, identity) =>
      if e.Late? then Some(Ended(None))
      else if e.Paused? && 0.0 <= e.duration <= 1.0 then Some(Waiting(service, expected, identity))
      else None
    case Reported(service, expected, value) =>
      if e.Late? then Some(Ended(None))
      else if !e.Looked? || e.service != service then None
      else Some(if e.seen == expected && expected.Some? then Confirmed(service, expected, value) else Ended(None))
    case Retiring(container, known) =>
      if e == Stopped(Initializer, container) then Some(Retired(container, known)) else None
    case Retired(container, known) =>
      if e.Raised? then Some(Ended(None))
      else if !e.Looked? || e.service != Initializer then None
      else
        Some(if e.seen.None? || e.seen == Some(ContainerState(container, false)) then Serving(known) else Ended(None))
    case Serving(known) =>
      if !e.Looked? || e.service != Server then None
      else Some(if Runs(e.seen) then Waiting(Server, e.seen, Some(known)) else ServerDown(known))
    case ServerDown(known) => if e == Started(Server) then Some(ServerStarted(known)) else None
    case ServerStarted(known) =>
      if e.Raised? then Some(Ended(None))
      else if e.Looked? && e.service == Server then Some(WaitFor(Server, e.seen, Some(known)))
      else None
    case Ended(_) => None
  }

  /** The stage after a trace. */
  function StageOf(t: seq<Event>, inputDigest: string): Option<Stage> {
    if t == [] then Some(Begun)
    else
      match StageOf(Front(t), inputDigest)
      case None => None
      case Some(s) => Follow(s, Last(t), inputDigest)
  }

  lemma StageOfSnoc(t: seq<Event>, e: Event, inputDigest: string)
    requires StageOf(t, inputDigest).Some?
    ensures StageOf(t + [e], inputDigest) == Follow(StageOf(t, inputDigest).value, e, inputDigest)
  {
    assert Front(t + [e]) == t && Last(t + [e]) == e;
  }

  /** How often the owner was observed. */
  function Observations(t: seq<Event>): nat {
    if t == [] then 0 else Observations(Front(t)) + if Last(t).Observed? then 1 else 0
  }

  lemma ObservationsSnoc(t: seq<Event>, e: Event)
    ensures Observations(t + [e]) == Observations(t) + if e.Observed? then 1 else 0
  {
    assert Front(t + [e]) == t && Last(t + [e]) == e;
  }

  /** One more event of the protocol. */
  lemma Happened(t: seq<Event>, e: Event, inputDigest: string)
    requires StageOf(t, inputDigest).Some?
    ensures StageOf(t + [e], inputDigest) == Follow(StageOf(t, inputDigest).value, e, inputDigest)
    ensures Observations(t + [e]) == Observations(t) + if e.Observed? then 1 else 0
    ensures Late in t + [e] <==> Late in t || e == Late
  {
    StageOfSnoc(t, e, inputDigest);
    ObservationsSnoc(t, e);
  }

  /** The events of waiting, and where each of them leads. */
  lemma WaitingEvents(s: Stage, inputDigest: string)
    requires s.Waiting? || s.Matched? || s.Deferred? || (s.Reported? && s.expected.Some?)
    ensures !s.Matched? ==> Follow(s, Late, inputDigest) == Some(Ended(None))
    ensures s.Waiting? ==> forall seen ::
              Follow(s, Looked(s.service, seen), inputDigest)
              == Some(if seen == s.expected then Matched(s.service, s.expected, s.identity) else Ended(None))
    ensures s.Deferred? ==> forall duration :: 0.0 <= duration <= 1.0 ==>
              Follow(s, Paused(duration), inputDigest) == Some(Waiting(s.service, s.expected, s.identity))
    ensures s.Reported? ==> forall seen ::
              Follow(s, Looked(s.service, seen), inputDigest)
              == Some(if seen == s.expected then Confirmed(s.service, s.expected, s.value) else Ended(None))
  {
  }

  /** What a report leads to. */
  lemma ReportEvent(s: Stage, reply: Reply, inputDigest: string)
    requires s.Matched?
    ensures Follow(s, Observed(reply), inputDigest)
         == Some(if reply.OwnerError? && Repeatable(reply.code) then Deferred(s.service, s.expected, s.identity)
                 else if reply.Object? && CheckedEnvelope(reply.value, inputDigest, "phase", s.identity)
                 then Reported(s.service, s.expected, reply.value)
                 else Ended(None))
  {
    hide CheckedEnvelope;
  }

  // ---------------------------------------------------------------- the protocol

  /** Whole seconds left, rounded up. */
  function SecondsLeft(deadline: real, clock: real): nat {
    if clock >= deadline then 0 else -((clock - deadline).Floor)
  }

  function Min(a: real, b: real): real {
    if a < b then a else b
  }

  function Max(a: real, b: real): real {
    if a < b then b else a
  }

  /** A deadline that was found to have passed has passed. */
  predicate Honest(t: seq<Event>, deadline: real, clock: real) {
    Late in t ==> clock >= deadline
  }

  /** `wait_current`: observes one running container until the owner reports readiness. */
  method WaitCurrent(host: Host, service: Service, expected: Option<ContainerState>,
                     identity: Option<string>, inputDigest: string, deadline: real)
    returns (r: Option<Value>)
    requires StageOf(host.trace, inputDigest) == Some(WaitFor(service, expected, identity))
    requires Honest(host.trace, deadline, host.clock)
    modifies host
    ensures host.clock >= old(host.clock) && Honest(host.trace, deadline, host.clock)
    ensures Observations(host.trace) + SecondsLeft(deadline, host.clock)
            <= old(Observations(host.trace)) + SecondsLeft(deadline, old(host.clock)) + 1
    ensures r.None? ==> StageOf(host.trace, inputDigest) == Some(Ended(None))
    ensures r.Some? ==>
              && Runs(expected) && CheckedEnvelope(r.value, inputDigest, "phase", identity)
              && StageOf(host.trace, inputDigest) == Some(Confirmed(service, expected, r.value))
  {
    hide StageOf, Observations, CheckedEnvelope, SecondsLeft, Follow, Confirmed;
    if expected.None? || !expected.value.running {
      return None;
    }
    ghost var waiting, deferred := Waiting(service, expected, identity), Deferred(service, expected, identity);
    WaitingEvents(waiting, inputDigest);
    WaitingEvents(deferred, inputDigest);
    while true
      invariant StageOf(host.trace, inputDigest) == Some(Waiting(service, expected, identity))
      invariant host.clock >= old(host.clock) && Honest(host.trace, deadline, host.clock)
      invariant Observations(host.trace) + SecondsLeft(deadline, host.clock)
                <= old(Observations(host.trace)) + SecondsLeft(deadline, old(host.clock))
      decreases SecondsLeft(deadline, host.clock)
    {
      ghost var start, t := host.clock, host.trace;
      var late := host.IsLate(deadline);
      if late {
        Happened(t, Late, inputDigest);
        TimePasses(deadline, start, host.clock);
        return None;
      }
      var seen := host.Container(service);
      Happened(t, Looked(service, seen), inputDigest);
      if seen != expected {
        TimePasses(deadline, start, host.clock);
        return None;
      }
      t := host.trace;
      var reply := host.Observe();
      Happened(t, Observed(reply), inputDigest);
      ReportEvent(Matched(service, expected, identity), reply, inputDigest);
      TimePasses(deadline, start, host.clock);
      t := host.trace;
      match reply {
        case Broken => return None;
        case OwnerError(code) =>
          if !Repeatable(code) {
            return None;
          }
          late := host.IsLate(deadline);
          if late {
            Happened(t, Late, inputDigest);
            TimePasses(deadline, start, host.clock);
            return None;
          }
          var now := host.Now();
          var duration := Min(1.0, Max(0.0, deadline - now));
          host.Pause(duration);
          Happened(t, Paused(duration), inputDigest);
          PauseCounts(deadline, start, now, host.clock);
        case Object(value) =>
          if !CheckedEnvelope(value, inputDigest, "phase", identity) {
            return None;
          }
          WaitingEvents(Reported(service, expected, value), inputDigest);
          late := host.IsLate(deadline);
          if late {
            Happened(t, Late, inputDigest);
            TimePasses(deadline, start, host.clock);
            return None;
          }
          seen := host.Container(service);
          Happened(t, Looked(service, seen), inputDigest);
          TimePasses(deadline, start, host.clock);
          if seen != expected {
            return None;
          }
          return Some(value);
      }
    }
  }

  lemma TimePasses(deadline: real, earlier: real, later: real)
    requires earlier <= later
    ensures SecondsLeft(deadline, later) <= SecondsLeft(deadline, earlier)
  {
  }

  /** A pause before the deadline uses up one of the remaining seconds. */
  lemma PauseCounts(deadline: real, start: real, now: real, later: real)
    requires start < deadline && start <= now && later >= now + Min(1.0, Max(0.0, deadline - now))
    ensures SecondsLeft(deadline, later) + 1 <= SecondsLeft(deadline, start)
  {
    if now < deadline && later < deadline {
      assert later >= start + 1.0;
    }
  }

  /** Looks at both containers and asks the owner; fails on anything but a permission or an unknown outcome. */
  method Acquire(host: Host, inputDigest: string)
    returns (mode: Permission, identity: Option<string>, initial: Option<ContainerState>,
             serving: Option<ContainerState>)
    requires host.trace == []
    modifies host
    ensures host.clock >= old(host.clock) && Late !in host.trace && Observations(host.trace) == 0
    ensures mode == Refused ==> StageOf(host.trace, inputDigest) == Some(Ended(None))
    ensures mode != Refused ==>
              exists reply :: Granted(reply, inputDigest) == mode && (identity.Some? <==> mode != Unknown)
                && (identity.Some? ==> reply.Object? && identity == Some(reply.value.identityDigest))
                && (mode == Unknown ==> Runs(initial) && serving.None?)
                && StageOf(host.trace, inputDigest) == Some(Permit(initial, serving, reply, inputDigest))
  {
    assert StageOf([], inputDigest) == Some(Begun) && Observations([]) == 0;
    hide StageOf, Observations, CheckedEnvelope;
    mode, identity := Refused, None;
    initial := host.Container(Initializer);
    assert host.trace == [] + [Looked(Initializer, initial)];
    Happened([], Looked(Initializer, initial), inputDigest);
    ghost var t := host.trace;
    serving := host.Container(Server);
    Happened(t, Looked(Server, serving), inputDigest);
    if initial.Some? && initial.value.running && serving.Some? && serving.value.running {
      return;
    }
    t := host.trace;
    var reply := host.RequestStart();
    Happened(t, Asked(reply), inputDigest);
    var granted := Granted(reply, inputDigest);
    if granted == Unknown && (initial.None? || !initial.value.running || serving.Some?) {
      return;
    }
    mode := granted;
    if mode in {InitializeOnce, Serve} {
      identity := Some(reply.value.identityDigest);
    }
  }

  /** Waits for the initializer to report readiness, stops exactly that container and sees it stopped. */
  method Retire(host: Host, initial: Option<ContainerState>, identity: Option<string>, inputDigest: string,
                deadline: real)
    returns (ready: Option<Value>)
    requires StageOf(host.trace, inputDigest) == Some(WaitFor(Initializer, initial, identity))
    requires Honest(host.trace, deadline, host.clock)
    modifies host
    ensures host.clock >= old(host.clock) && Honest(host.trace, deadline, host.clock)
    ensures Observations(host.trace) + SecondsLeft(deadline, host.clock)
            <= old(Observations(host.trace)) + SecondsLeft(deadline, old(host.clock)) + 1
    ensures ready.None? ==> StageOf(host.trace, inputDigest) == Some(Ended(None))
    ensures ready.Some? ==> StageOf(host.trace, inputDigest) == Some(Serving(ready.value.identityDigest))
  {
    hide StageOf, Observations, CheckedEnvelope, SecondsLeft;
    ready := WaitCurrent(host, Initializer, initial, identity, inputDigest, deadline);
    if ready.None? {
      return;
    }
    ghost var begun, t := host.clock, host.trace;
    var ok := host.Stop(Initializer, initial.value.identity);
    Happened(t, Stopped(Initializer, initial.value.identity), inputDigest);
    TimePasses(deadline, begun, host.clock);
    t := t + [Stopped(Initializer, initial.value.identity)];
    if !ok {
      Happened(t, Raised, inputDigest);
      return None;
    }
    assert host.trace == t;
    var stopped := host.Container(Initializer);
    Happened(t, Looked(Initializer, stopped), inputDigest);
    TimePasses(deadline, begun, host.clock);
    if stopped.Some? && (stopped.value.identity != initial.value.identity || stopped.value.running) {
      return None;
    }
  }

  /** Finds or starts the serving container and waits for it. */
  method ServeProvider(host: Host, identity: string, inputDigest: string, deadline: real)
    returns (r: Option<Value>)
    requires StageOf(host.trace, inputDigest) == Some(Serving(identity))
    requires Honest(host.trace, deadline, host.clock)
    modifies host
    ensures host.clock >= old(host.clock) && Honest(host.trace, deadline, host.clock)
    ensures Observations(host.trace)
            <= old(Observations(host.trace)) + SecondsLeft(deadline, old(host.clock)) + 1
    ensures StageOf(host.trace, inputDigest) == Some(Ended(r))
  {
    hide StageOf, Observations, CheckedEnvelope, SecondsLeft;
    ghost var begun, t := host.clock, host.trace;
    var serving := host.Container(Server);
    Happened(t, Looked(Server, serving), inputDigest);
    TimePasses(deadline, begun, host.clock);
    t := host.trace;
    if serving.None? || !serving.value.running {
      var ok := host.Start(Server);
      Happened(t, Started(Server), inputDigest);
      t := t + [Started(Server)];
      if !ok {
        Happened(t, Raised, inputDigest);
        return None;
      }
      assert host.trace == t;
      serving := host.Container(Server);
      Happened(t, Looked(Server, serving), inputDigest);
    }
    TimePasses(deadline, begun, host.clock);
    r := WaitCurrent(host, Server, serving, Some(identity), inputDigest, deadline);
  }

  /** Starts the initializer on a first permission; None where that fails. */
  method Initialize(host: Host, identity: string, inputDigest: string)
    returns (initial: Option<ContainerState>, ok: bool)
    requires StageOf(host.trace, inputDigest) == Some(Permitted(identity)) && Late !in host.trace
    modifies host
    ensures host.clock >= old(host.clock) && Late !in host.trace
    ensures Observations(host.trace) == old(Observations(host.trace))
    ensures StageOf(host.trace, inputDigest)
         == Some(if ok then WaitFor(Initializer, initial, Some(identity)) else Ended(None))
  {
    hide StageOf, Observations;
    ghost var t := host.trace;
    initial := None;
    ok := host.Start(Initializer);
    Happened(t, Started(Initializer), inputDigest);
    t := t + [Started(Initializer)];
    if !ok {
      Happened(t, Raised, inputDigest);
      return;
    }
    assert host.trace == t;
    initial := host.Container(Initializer);
    Happened(t, Looked(Initializer, initial), inputDigest);
  }

  /** `ensure_provider`. */
  method EnsureProvider(host: Host, inputDigest: string, timeout: real) returns (r: Option<Value>)
    requires host.trace == []
    modifies host
    ensures timeout <= 0.0 || timeout > 600.0 ==> host.trace == [] && r.None?
    ensures 0.0 < timeout <= 600.0 ==> StageOf(host.trace, inputDigest) == Some(Ended(r))
    ensures timeout > 0.0 ==> Observations(host.trace) <= -((-timeout).Floor) + 2
    ensures Late in host.trace ==> host.clock >= old(host.clock) + timeout
  {
    hide StageOf, CheckedEnvelope, SecondsLeft;
    assert timeout > 0.0 ==> -((-timeout).Floor) >= 0;
    if !(0.0 < timeout <= 600.0) {
      return None;
    }
    var now := host.Now();
    var deadline := now + timeout;
    ghost var begun := host.clock;
    BoundedWait(deadline, timeout, begun);
    var mode, known, initial, serving := Acquire(host, inputDigest);
    hide Observations;
    if mode == Refused {
      return None;
    }
    if mode == InitializeOnce {
      if initial.Some? || serving.Some? {
        return None;
      }
      var ok;
      initial, ok := Initialize(host, known.value, inputDigest);
      if !ok {
        return None;
      }
    }
    TimePasses(deadline, begun, host.clock);
    var identity: string;
    if mode in {InitializeOnce, Unknown} || (initial.Some? && initial.value.running) {
      var ready := Retire(host, initial, known, inputDigest, deadline);
      if ready.None? {
        return None;
      }
      identity := ready.value.identityDigest;
    } else {
      identity := known.value;
    }
    r := ServeProvider(host, identity, inputDigest, deadline);
  }

  lemma BoundedWait(deadline: real, timeout: real, clock: real)
    requires deadline - timeout <= clock && timeout > 0.0
    ensures SecondsLeft(deadline, clock) <= -((-timeout).Floor)
  {
  }
}
