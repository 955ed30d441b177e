/** What `ensure_provider` answers, read off the events of its trace: how it begins, goes on and ends, and why. */
module HandOverAnswers {
  import opened Common
  import opened HandOver
  import opened HandOverSafety

  /** `t` is a whole trace of the protocol, and `answer` is what it returns. */
  predicate Complete(t: seq<Event>, inputDigest: string, answer: Option<Value>) {
    StageOf(t, inputDigest) == Some(Ended(answer))
  }

  lemma {:induction false} PrefixStage(t: seq<Event>, k: nat, inputDigest: string)
    requires StageOf(t, inputDigest).Some? && k < |t|
    ensures StageOf(t[..k], inputDigest).Some?
    ensures StageOf(t[..k + 1], inputDigest) == Follow(StageOf(t[..k], inputDigest).value, t[k], inputDigest)
    ensures StageOf(t[..k + 1], inputDigest).Some?
    decreases |t|
  {
    hide Follow;
    if k + 1 == |t| {
      assert t[..k + 1] == t && t[..k] == Front(t);
    } else {
      PrefixStage(Front(t), k, inputDigest);
      assert Front(t)[..k + 1] == t[..k + 1] && Front(t)[..k] == t[..k];
    }
  }

  /** The stage in which the k-th event happened. */
  function Before(t: seq<Event>, k: nat, inputDigest: string): Stage
    requires StageOf(t, inputDigest).Some? && k < |t|
  {
    PrefixStage(t, k, inputDigest);
    StageOf(t[..k], inputDigest).value
  }

  lemma Next(t: seq<Event>, k: nat, inputDigest: string)
    requires StageOf(t, inputDigest).Some? && k < |t|
    ensures Follow(Before(t, k, inputDigest), t[k], inputDigest).Some?
    ensures var after := Follow(Before(t, k, inputDigest), t[k], inputDigest).value;
            if k + 1 < |t| then after == Before(t, k + 1, inputDigest) && !after.Ended?
            else Some(after) == StageOf(t, inputDigest)
    ensures k == 0 ==> Before(t, k, inputDigest) == Begun
  {
    assert StageOf([], inputDigest) == Some(Begun);
    hide StageOf;
    PrefixStage(t, k, inputDigest);
    if k + 1 < |t| {
      PrefixStage(t, k + 1, inputDigest);
    } else {
      assert t[..k + 1] == t;
    }
    assert k == 0 ==> t[..k] == [];
  }

  // ---------------------------------------------------------------- how it begins

  /** Two looks; if both containers run that is all, and there is no answer; otherwise the owner is asked. */
  lemma BothRunning(t: seq<Event>, inputDigest: string, answer: Option<Value>)
    requires Complete(t, inputDigest, answer)
    ensures |t| >= 2 && t[0].Looked? && t[0].service == Initializer && t[1].Looked? && t[1].service == Server
    ensures |t| == 2 <==> Runs(t[0].seen) && Runs(t[1].seen)
    ensures |t| == 2 ==> answer == None
    ensures |t| > 2 ==> t[2].Asked? && Before(t, 2, inputDigest) == SeenBoth(t[0].seen, t[1].seen)
  {
    hide Before, CheckedEnvelope;
    assert t != [] by { assert StageOf([], inputDigest) == Some(Begun); }
    hide StageOf;
    Next(t, 0, inputDigest);
    assert |t| > 1;
    Next(t, 1, inputDigest);
    if |t| > 2 {
      Next(t, 2, inputDigest);
    }
  }

  /** A permission that can be followed, in view of what the first two looks gave. */
  predicate Usable(initial: Option<ContainerState>, serving: Option<ContainerState>, reply: Reply,
                   inputDigest: string)
  {
    match reply
    case Object(v) =>
      && CheckedEnvelope(v, inputDigest, "mode", None)
      && (v.content == "serve" || (v.content == "initialize_once" && initial.None? && serving.None?))
    case OwnerError(code) => code == "ExternalOutcomeUnknown" && Runs(initial) && serving.None?
    case Broken => false
  }

  lemma PermitExactly(initial: Option<ContainerState>, serving: Option<ContainerState>, reply: Reply,
                      inputDigest: string)
    ensures var s := Permit(initial, serving, reply, inputDigest);
            && (s.Ended? <==> !Usable(initial, serving, reply, inputDigest)) && (s.Ended? ==> s.answer == None)
            && (s.Permitted? <==>
                  && reply.Object? && Usable(initial, serving, reply, inputDigest)
                  && reply.value.content == "initialize_once")
            && (s.Ended? || s.Permitted? || s.Serving? || (s.Waiting? && s.service == Initializer))
  {
    if reply.Object? {
      EnvelopesExactly(reply.value, inputDigest, None);
    }
    hide CheckedEnvelope;
  }

  /** Without a usable permission the question is the last event, and there is no answer. */
  lemma NothingWithoutPermission(t: seq<Event>, inputDigest: string, answer: Option<Value>)
    requires Complete(t, inputDigest, answer) && |t| > 2
    ensures t[0].Looked? && t[1].Looked? && t[2].Asked?
    ensures |t| == 3 <==> !Usable(t[0].seen, t[1].seen, t[2].reply, inputDigest)
    ensures |t| == 3 ==> answer == None
  {
    BothRunning(t, inputDigest, answer);
    hide Before, StageOf, CheckedEnvelope, Usable, Permit;
    PermitExactly(t[0].seen, t[1].seen, t[2].reply, inputDigest);
    Next(t, 2, inputDigest);
  }

  /** The stages before the owner has answered are at their places, and so is the first start. */
  lemma PlaceOfStage(t: seq<Event>, k: nat, inputDigest: string)
    requires StageOf(t, inputDigest).Some? && k < |t|
    ensures var s := Before(t, k, inputDigest);
            && (s.Begun? <==> k == 0) && (s.SeenOne? <==> k == 1) && (s.SeenBoth? <==> k == 2)
            && (s.Permitted? ==> k == 3)
    decreases k
  {
    hide StageOf, Before, CheckedEnvelope;
    Next(t, k, inputDigest);
    if k > 0 {
      PlaceOfStage(t, k - 1, inputDigest);
      Next(t, k - 1, inputDigest);
    }
  }

  /** The owner is asked once, right after the first two looks. */
  lemma AskedOnce(t: seq<Event>, k: nat, inputDigest: string)
    requires StageOf(t, inputDigest).Some? && k < |t|
    ensures t[k].Asked? <==> k == 2
  {
    hide StageOf, Before, CheckedEnvelope;
    PlaceOfStage(t, k, inputDigest);
    Next(t, k, inputDigest);
  }

  /** The initializer is started exactly when the owner permits it and both containers are absent, and at once. */
  lemma InitializerStartedExactly(t: seq<Event>, k: nat, inputDigest: string, answer: Option<Value>)
    requires Complete(t, inputDigest, answer) && k < |t|
    ensures t[k] == Started(Initializer)
            <==> && k == 3 && t[2].Asked? && t[2].reply.Object? && t[0].Looked? && t[1].Looked?
                 && Usable(t[0].seen, t[1].seen, t[2].reply, inputDigest)
                 && t[2].reply.value.content == "initialize_once"
  {
    hide StageOf, Before, CheckedEnvelope, Usable, Permit;
    PlaceOfStage(t, k, inputDigest);
    Next(t, k, inputDigest);
    if k == 3 {
      BothRunning(t, inputDigest, answer);
      Next(t, 2, inputDigest);
      PermitExactly(t[0].seen, t[1].seen, t[2].reply, inputDigest);
    }
  }

  // ---------------------------------------------------------------- how it goes on

  /** A look at the server after the question. */
  predicate LookAtServer(t: seq<Event>, k: nat) {
    2 < k < |t| && t[k].Looked? && t[k].service == Server
  }

  predicate AboutServer(s: Stage) {
    match s
    case ServerDown(_) => true
    case ServerStarted(_) => true
    case Waiting(service, _, _) => service == Server
    case Matched(service, _, _) => service == Server
    case Deferred(service, _, _) => service == Server
    case Reported(service, _, _) => service == Server
    case _ => false
  }

  /** Whatever is done about the server follows a look at it. */
  lemma {:induction false} ServerWasSeen(t: seq<Event>, k: nat, inputDigest: string)
    requires StageOf(t, inputDigest).Some? && k < |t| && AboutServer(Before(t, k, inputDigest))
    ensures exists j: nat :: j < k && LookAtServer(t, j)
    decreases k
  {
    hide StageOf, Before, CheckedEnvelope;
    PlaceOfStage(t, k, inputDigest);
    Next(t, k, inputDigest);
    if k > 0 {
      Next(t, k - 1, inputDigest);
      PlaceOfStage(t, k - 1, inputDigest);
      if AboutServer(Before(t, k - 1, inputDigest)) {
        ServerWasSeen(t, k - 1, inputDigest);
      } else {
        assert LookAtServer(t, k - 1);
      }
    }
  }

  /** The first look at the server after the question: it is started if and only if it does not run, and at once. */
  lemma ServerStartedExactly(t: seq<Event>, k: nat, inputDigest: string, answer: Option<Value>)
    requires Complete(t, inputDigest, answer) && LookAtServer(t, k)
    requires forall j: nat :: j < k ==> !LookAtServer(t, j)
    ensures k + 1 < |t| && (t[k + 1] == Started(Server) <==> !Runs(t[k].seen))
  {
    hide StageOf, Before, CheckedEnvelope;
    PlaceOfStage(t, k, inputDigest);
    Next(t, k, inputDigest);
    if AboutServer(Before(t, k, inputDigest)) {
      ServerWasSeen(t, k, inputDigest);
    }
    if k + 1 < |t| {
      Next(t, k + 1, inputDigest);
    }
  }

  /** And nowhere else. */
  lemma ServerIsStartedThere(t: seq<Event>, k: nat, inputDigest: string)
    requires StageOf(t, inputDigest).Some? && k < |t| && t[k] == Started(Server)
    ensures k > 3 && t[k - 1].Looked? && t[k - 1].service == Server && !Runs(t[k - 1].seen)
  {
    hide StageOf, Before, CheckedEnvelope;
    PlaceOfStage(t, k, inputDigest);
    Next(t, k, inputDigest);
    Next(t, k - 1, inputDigest);
    PlaceOfStage(t, k - 1, inputDigest);
  }

  /** Before `k`, a look at the running container, a report from the owner, and the same look again. */
  predicate ConfirmedReport(t: seq<Event>, k: nat, service: Service, container: string, v: Value) {
    && 3 <= k <= |t| && t[k - 2] == Observed(Object(v))
    && t[k - 3] == t[k - 1] == Looked(service, Some(ContainerState(container, true)))
  }

  lemma ReportedExactly(t: seq<Event>, k: nat, service: Service, container: string, v: Value, inputDigest: string)
    requires StageOf(t, inputDigest).Some? && ConfirmedReport(t, k, service, container, v)
    ensures var s := if k < |t| then Before(t, k, inputDigest) else StageOf(t, inputDigest).value;
            s == Confirmed(service, Some(ContainerState(container, true)), v)
  {
    hide StageOf, Before, CheckedEnvelope;
    Next(t, k - 3, inputDigest);
    Next(t, k - 2, inputDigest);
    Next(t, k - 1, inputDigest);
  }

  /** The initializer is stopped exactly after its confirmed report, at once, and under the identity that was seen. */
  lemma StoppedExactly(t: seq<Event>, k: nat, container: string, inputDigest: string, answer: Option<Value>)
    requires Complete(t, inputDigest, answer) && k <= |t|
    ensures k < |t| && t[k] == Stopped(Initializer, container)
            <==> exists v :: ConfirmedReport(t, k, Initializer, container, v)
    ensures k < |t| && t[k].Stopped? ==> t[k].service == Initializer
  {
    hide StageOf, Before, CheckedEnvelope, ConfirmedReport;
    if k < |t| && t[k].Stopped? {
      Next(t, k, inputDigest);
      assert t[k].service == Initializer;
      var v := ConfirmedBefore(t, k, inputDigest);
    }
    if v :| ConfirmedReport(t, k, Initializer, container, v) {
      ReportedExactly(t, k, Initializer, container, v, inputDigest);
      assert k < |t|;
      Next(t, k, inputDigest);
    }
  }

  lemma ConfirmedBefore(t: seq<Event>, k: nat, inputDigest: string) returns (v: Value)
    requires StageOf(t, inputDigest).Some? && k < |t| && Before(t, k, inputDigest).Retiring?
    ensures ConfirmedReport(t, k, Initializer, Before(t, k, inputDigest).container, v)
  {
    hide StageOf, Before, CheckedEnvelope;
    PlaceOfStage(t, k, inputDigest);
    Next(t, k - 1, inputDigest);
    v := Before(t, k - 1, inputDigest).value;
    ReportBefore(t, k - 1, inputDigest);
  }

  /** A confirmed report was preceded by the look that it confirms. */
  lemma ReportBefore(t: seq<Event>, k: nat, inputDigest: string)
    requires StageOf(t, inputDigest).Some? && k < |t| && Before(t, k, inputDigest).Reported?
    ensures var s := Before(t, k, inputDigest);
            && k >= 2 && t[k - 1] == Observed(Object(s.value)) && t[k - 2] == Looked(s.service, s.expected)
            && Runs(s.expected)
  {
    hide StageOf, Before, CheckedEnvelope, LastSeen;
    WaitedForWasSeen(t, k, inputDigest);
    PlaceOfStage(t, k, inputDigest);
    Next(t, k - 1, inputDigest);
    PlaceOfStage(t, k - 1, inputDigest);
    Next(t, k - 2, inputDigest);
  }

  // ---------------------------------------------------------------- how it ends

  /** There is an answer exactly when the trace ends with a confirmed report about the server, and it is that report. */
  lemma AnsweredExactly(t: seq<Event>, inputDigest: string, answer: Option<Value>, v: Value)
    requires Complete(t, inputDigest, answer)
    ensures answer == Some(v) <==> exists container :: ConfirmedReport(t, |t|, Server, container, v)
  {
    BothRunning(t, inputDigest, answer);
    hide StageOf, Before, CheckedEnvelope;
    if answer == Some(v) {
      var n := |t|;
      Next(t, n - 1, inputDigest);
      PlaceOfStage(t, n - 1, inputDigest);
      LastWasConfirmed(t, inputDigest, v);
    }
    if container :| ConfirmedReport(t, |t|, Server, container, v) {
      ReportedExactly(t, |t|, Server, container, v, inputDigest);
    }
  }

  lemma LastWasConfirmed(t: seq<Event>, inputDigest: string, v: Value)
    requires Complete(t, inputDigest, Some(v)) && |t| >= 2
    ensures exists container :: ConfirmedReport(t, |t|, Server, container, v)
  {
    hide StageOf, Before, CheckedEnvelope;
    var n := |t|;
    Next(t, n - 1, inputDigest);
    var s := Before(t, n - 1, inputDigest);
    assert s.SeenBoth? ==> false by {
      if s.SeenBoth? {
        PermitExactly(s.initial, s.serving, t[n - 1].reply, inputDigest);
      }
    }
    assert s.Reported? && s.service == Server && s.value == v;
    ReportBefore(t, n - 1, inputDigest);
    assert ConfirmedReport(t, n, Server, s.expected.value.identity, v);
  }

  /** The answer is a readiness envelope, of the identity that the owner's permission named if it named one. */
  lemma AnswerIsChecked(t: seq<Event>, inputDigest: string, v: Value)
    requires Complete(t, inputDigest, Some(v))
    ensures CheckedEnvelope(v, inputDigest, "phase", None)
    ensures |t| > 3 && t[2].Asked?
    ensures t[2].reply.Object? ==> v.identityDigest == t[2].reply.value.identityDigest
  {
    hide StageOf, Before, CheckedEnvelope, After, Safe, Usable;
    BothRunning(t, inputDigest, Some(v));
    EveryTraceIsSafe(t, inputDigest);
    NothingWithoutPermission(t, inputDigest, Some(v));
    LastWasConfirmed(t, inputDigest, v);
    var container :| ConfirmedReport(t, |t|, Server, container, v);
    assert t[|t| - 2] == Observed(Object(v));
    Next(t, |t| - 2, inputDigest);
    Next(t, |t| - 1, inputDigest);
    var s := Before(t, |t| - 2, inputDigest);
    assert s.Matched? && CheckedEnvelope(v, inputDigest, "phase", s.identity);
    CheckedForAnyIdentity(v, inputDigest, s.identity);
    if t[2].reply.Object? {
      GrantedIdentity(t, inputDigest);
      IdentityIsKept(t, 3, inputDigest);
    }
  }

  lemma CheckedForAnyIdentity(v: Value, inputDigest: string, identity: Option<string>)
    requires CheckedEnvelope(v, inputDigest, "phase", identity)
    ensures CheckedEnvelope(v, inputDigest, "phase", None)
  {
  }

  lemma GrantedIdentity(t: seq<Event>, inputDigest: string)
    requires |t| > 3 && t[2].Asked? && t[2].reply.Object? && t[0].Looked? && t[1].Looked?
    requires Usable(t[0].seen, t[1].seen, t[2].reply, inputDigest)
    ensures After(t[..3], inputDigest).identity == Some(t[2].reply.value.identityDigest)
  {
    hide CheckedEnvelope;
    assert Front(t[..3]) == t[..2] && Last(t[..3]) == t[2];
  }

  /** A report that does not let the protocol go on: no envelope of the known identity, or no repeatable error. */
  predicate Refuses(reply: Reply, inputDigest: string, identity: Option<string>) {
    match reply
    case Broken => true
    case OwnerError(code) => code != "Incomplete" && code != "PrerequisiteUnavailable"
    case Object(v) => !CheckedEnvelope(v, inputDigest, "phase", identity)
  }

  /** After a report the protocol ends, notices that it is late, pauses for the next one, or looks again. */
  lemma AfterReport(t: seq<Event>, k: nat, inputDigest: string, answer: Option<Value>)
    requires Complete(t, inputDigest, answer) && k < |t| && t[k].Observed?
    ensures var identity := After(t[..k], inputDigest).identity;
            if Refuses(t[k].reply, inputDigest, identity) then k + 1 == |t| && answer == None
            else k + 1 < |t|
                 && (t[k + 1] == Late || (if t[k].reply.Object? then t[k + 1].Looked? else t[k + 1].Paused?))
  {
    hide StageOf, CheckedEnvelope, After, Before;
    IdentityAtReport(t, k, inputDigest);
    Next(t, k, inputDigest);
    if k + 1 < |t| {
      Next(t, k + 1, inputDigest);
    }
  }

  lemma IdentityAtReport(t: seq<Event>, k: nat, inputDigest: string)
    requires StageOf(t, inputDigest).Some? && k < |t| && t[k].Observed?
    ensures var s := Before(t, k, inputDigest); s.Matched? && s.identity == After(t[..k], inputDigest).identity
  {
    PrefixStage(t, k, inputDigest);
    EveryTraceIsSafe(t[..k], inputDigest);
    hide StageOf, CheckedEnvelope, After, Safe;
    Next(t, k, inputDigest);
  }

  /**
   * Lateness and a failed start or stop end the protocol; after a pause, of at most a second, it looks again
   * unless it is late.
   */
  lemma AfterOthers(t: seq<Event>, k: nat, inputDigest: string, answer: Option<Value>)
    requires Complete(t, inputDigest, answer) && k < |t|
    ensures t[k] == Late || t[k] == Raised ==> k + 1 == |t| && answer == None
    ensures t[k].Paused? ==> 0.0 <= t[k].duration <= 1.0 && k + 1 < |t| && (t[k + 1] == Late || t[k + 1].Looked?)
    ensures t[k].Started? || t[k].Stopped? ==>
              k + 1 < |t| && (t[k + 1] == Raised || (t[k + 1].Looked? && t[k + 1].service == t[k].service))
  {
    hide StageOf, Before, CheckedEnvelope;
    Next(t, k, inputDigest);
    if k + 1 < |t| {
      Next(t, k + 1, inputDigest);
    }
  }

  /** After a start the protocol goes on if the container runs, after a stop if it is gone or stopped; and only then. */
  lemma LookAfterAction(t: seq<Event>, k: nat, inputDigest: string, answer: Option<Value>)
    requires Complete(t, inputDigest, answer) && k + 1 < |t| && t[k + 1].Looked?
    ensures t[k].Started? ==> (k + 2 < |t| <==> Runs(t[k + 1].seen))
    ensures t[k].Stopped? ==>
              (k + 2 < |t| <==> t[k + 1].seen == None || t[k + 1].seen == Some(ContainerState(t[k].identity, false)))
    ensures (t[k].Started? || t[k].Stopped?) && k + 2 == |t| ==> answer == None
  {
    hide StageOf, Before, CheckedEnvelope;
    Next(t, k, inputDigest);
    Next(t, k + 1, inputDigest);
  }

  /** Until something is done about the server no look at it has been taken since the question. */
  lemma {:induction false} ServerWasNotSeen(t: seq<Event>, k: nat, inputDigest: string)
    requires StageOf(t, inputDigest).Some? && k < |t| && !AboutServer(Before(t, k, inputDigest))
    ensures forall j: nat :: j < k ==> !LookAtServer(t, j)
    decreases k
  {
    hide StageOf, Before, CheckedEnvelope;
    if k > 0 {
      Next(t, k - 1, inputDigest);
      PlaceOfStage(t, k - 1, inputDigest);
      assert !AboutServer(Before(t, k - 1, inputDigest));
      ServerWasNotSeen(t, k - 1, inputDigest);
      assert !LookAtServer(t, k - 1);
    }
  }

  lemma LastSeenIsUnique(t: seq<Event>, k: nat, service: Service, a: Option<ContainerState>, b: Option<ContainerState>)
    requires LastSeen(t, k, service, a) && LastSeen(t, k, service, b)
    ensures a == b
  {
    var i :| 0 <= i < k && t[i] == Looked(service, a) && (forall j :: i < j < k ==> !Concerns(t[j], service));
    var l :| 0 <= l < k && t[l] == Looked(service, b) && (forall j :: l < j < k ==> !Concerns(t[j], service));
    assert Concerns(t[i], service) && Concerns(t[l], service);
  }

  lemma LastSeenIsALook(t: seq<Event>, k: nat, service: Service, seen: Option<ContainerState>)
    requires LastSeen(t, k, service, seen) && k > 0
    ensures t[k - 1] != Started(service) && !(t[k - 1].Stopped? && t[k - 1].service == service)
  {
    var i :| 0 <= i < k && t[i] == Looked(service, seen) && (forall j :: i < j < k ==> !Concerns(t[j], service));
    assert i == k - 1 || !Concerns(t[k - 1], service);
  }

  /**
   * A container that was seen before, and about which nothing was done since, has to be the same: any change
   * ends the protocol without an answer. Only the first look at the server behind the question is free.
   */
  lemma ChangeEndsIt(t: seq<Event>, k: nat, before: Option<ContainerState>, inputDigest: string, answer: Option<Value>)
    requires Complete(t, inputDigest, answer) && 2 < k < |t| && t[k].Looked?
    requires LastSeen(t, k, t[k].service, before)
    requires t[k].service == Server ==> exists j: nat :: j < k && LookAtServer(t, j)
    ensures t[k].seen == before <==> k + 1 < |t| || answer.Some?
  {
    hide StageOf, Before, CheckedEnvelope, LastSeen;
    Next(t, k, inputDigest);
    PlaceOfStage(t, k, inputDigest);
    DoneBefore(t, k, inputDigest);
    LastSeenIsALook(t, k, t[k].service, before);
    var s := Before(t, k, inputDigest);
    if s.Serving? {
      ServerWasNotSeen(t, k, inputDigest);
      assert false;
    } else {
      assert s.Waiting? || s.Reported?;
      WaitedForWasSeen(t, k, inputDigest);
      LastSeenIsUnique(t, k, t[k].service, before, s.expected);
    }
  }

  /** The last look gave something else than it had to. */
  ghost predicate UnexpectedLook(t: seq<Event>) {
    && |t| > 3 && Last(t).Looked?
    && var n, service, seen := |t| - 1, Last(t).service, Last(t).seen;
       || (t[n - 1] == Started(service) && !Runs(seen))
       || (t[n - 1].Stopped? && seen.Some? && seen != Some(ContainerState(t[n - 1].identity, false)))
       || (exists before :: LastSeen(t, n, service, before) && Runs(before) && before != seen)
  }

  /** A container that is waited for was seen running, and nothing was done about it since. */
  lemma WaitedForWasSeen(t: seq<Event>, k: nat, inputDigest: string)
    requires StageOf(t, inputDigest).Some? && k < |t|
    requires Before(t, k, inputDigest).Waiting? || Before(t, k, inputDigest).Reported?
    ensures var s := Before(t, k, inputDigest); LastSeen(t, k, s.service, s.expected) && Runs(s.expected)
  {
    var s := Before(t, k, inputDigest);
    PrefixStage(t, k, inputDigest);
    EveryTraceIsSafe(t[..k], inputDigest);
    hide StageOf, CheckedEnvelope, After, Safe, LastSeen, Before;
    KnownIsLastSeen(t[..k], s.service, inputDigest);
    LastSeenInPrefix(t, k, s.service, s.expected);
  }

  /** What leads to a start or a stop that is still to be looked at. */
  lemma DoneBefore(t: seq<Event>, k: nat, inputDigest: string)
    requires StageOf(t, inputDigest).Some? && 0 < k < |t|
    ensures var s := Before(t, k, inputDigest);
            && (s.InitializerStarted? ==> t[k - 1] == Started(Initializer))
            && (s.Retired? ==> t[k - 1] == Stopped(Initializer, s.container))
            && (s.ServerStarted? ==> t[k - 1] == Started(Server))
  {
    hide StageOf, CheckedEnvelope, Before;
    PlaceOfStage(t, k - 1, inputDigest);
    Next(t, k - 1, inputDigest);
  }

  lemma LookedInVain(t: seq<Event>, inputDigest: string)
    requires Complete(t, inputDigest, None) && |t| > 3 && Last(t).Looked?
    ensures UnexpectedLook(t)
  {
    hide StageOf, CheckedEnvelope, LastSeen, Before;
    var n := |t| - 1;
    Next(t, n, inputDigest);
    PlaceOfStage(t, n, inputDigest);
    DoneBefore(t, n, inputDigest);
    var s := Before(t, n, inputDigest);
    if s.Waiting? || s.Reported? {
      WaitedForWasSeen(t, n, inputDigest);
      assert LastSeen(t, n, Last(t).service, s.expected);
    }
  }

  lemma ReportedInVain(t: seq<Event>, inputDigest: string)
    requires Complete(t, inputDigest, None) && t != [] && Last(t).Observed?
    ensures Refuses(Last(t).reply, inputDigest, After(Front(t), inputDigest).identity)
  {
    AfterReport(t, |t| - 1, inputDigest, None);
    assert t[..|t| - 1] == Front(t);
  }

  /**
   * Without an answer the trace ends for one of these reasons: both containers ran, the owner gave no usable
   * permission, a start or stop failed, time was up, a report let it not go on, or a look was unexpected.
   */
  lemma EndsForAReason(t: seq<Event>, inputDigest: string)
    requires Complete(t, inputDigest, None)
    ensures || (|t| == 2 && t[0].Looked? && t[1].Looked? && Runs(t[0].seen) && Runs(t[1].seen))
            || (|t| == 3 && t[0].Looked? && t[1].Looked? && t[2].Asked?
                && !Usable(t[0].seen, t[1].seen, t[2].reply, inputDigest))
            || (|t| > 3 && (Last(t) == Raised || Last(t) == Late || UnexpectedLook(t)))
            || (|t| > 3 && Last(t).Observed?
                && Refuses(Last(t).reply, inputDigest, After(Front(t), inputDigest).identity))
  {
    hide StageOf, CheckedEnvelope, After, Safe, LastSeen, UnexpectedLook, Before, Usable, Refuses;
    BothRunning(t, inputDigest, None);
    if |t| > 2 {
      NothingWithoutPermission(t, inputDigest, None);
    }
    if |t| > 3 {
      var n := |t| - 1;
      Next(t, n, inputDigest);
      PlaceOfStage(t, n, inputDigest);
      if Last(t).Looked? {
        LookedInVain(t, inputDigest);
      } else if Last(t).Observed? {
        ReportedInVain(t, inputDigest);
      }
    }
  }
}
