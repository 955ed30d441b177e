/**
 * The dead ends of provider initialisation: what the state file and the cluster look like when no
 * installer, however often it is started, can ever finish.
 */
module ProviderDeadEnds {
  import opened Common
  import opened ProviderMachine
  import opened ProviderSafety

  // ---------------------------------------------------------------- what is lost

  /** The Job may still end in a way that lets the installer go on. */
  predicate MayHelp(job: Job, key: Key, digest: nat) {
    match job.status
    case Active => true
    case Succeeded(d, mode, _) => d == digest && (key == StartKey ==> mode == InitializeOnce)
    case Failed(_, closedObservation) => key != StartKey && closedObservation
  }

  /** The Job of the intent is there and may help, or may still come into being. */
  predicate MayReturn(c: Cluster, intent: Intent, key: Key, digest: nat) {
    if intent.job in c.jobs then
      (intent.uid.None? || intent.uid.value == c.jobs[intent.job].uid) && MayHelp(c.jobs[intent.job], key, digest)
    else
      intent.uid.None? && intent.job in c.jobRequests
  }

  /** The intent is durable, but nothing can come of it: never requested, gone, or ended badly. */
  predicate JobLost(w: World, key: Key) {
    && w.disk.prepared.Some? && IntentOf(w.disk.provider, key).Some?
    && !MayReturn(w.cluster, IntentOf(w.disk.provider, key).value, key, w.disk.prepared.value.digest)
  }

  /** No permission to initialise was given or can still be given. */
  predicate StartLost(w: World) {
    var v := w.disk.provider;
    && v.ready.None?
    && (if v.started.Some? then v.started.value.mode != Some(InitializeOnce) else JobLost(w, StartKey))
  }

  /** The initialiser Pod was recorded but never requested, or it ended before it was observed. */
  predicate PodLost(w: World) {
    var v, c := w.disk.provider, w.cluster;
    && v.ready.None? && v.initialization.Some?
    && var n := v.initialization.value.nonce;
       n !in c.podRequests || (n in c.pods && c.pods[n].container.Terminated?)
  }

  predicate ObserveLost(w: World) {
    w.disk.provider.ready.None? && JobLost(w, ObserveKey)
  }

  /** The initialiser Pod did not stop cleanly. */
  predicate StopLost(w: World) {
    var v, c := w.disk.provider, w.cluster;
    && v.ready.Some? && v.initialization.Some? && !v.initialization.value.complete
    && var n := v.initialization.value.nonce;
       n in c.pods && c.pods[n].container.Terminated? && c.pods[n].container.exitCode != 0
  }

  predicate ServeLost(w: World) {
    JobLost(w, ServeKey)
  }

  /**
   * The current provision or verify Job, whose completion is not recorded, succeeded for another
   * installation: it is never replaced, because only a failed Job is.
   */
  predicate ResultLost(w: World) {
    var s := w.disk;
    && s.prepared.Some? && s.phase == TargetPhase(s) && Unrecorded(s)
    && Current(s) in w.cluster.jobs
    && var status := w.cluster.jobs[Current(s)].status;
       status.Succeeded? && status.digest != s.prepared.value.digest
  }

  predicate ProviderLost(w: World) {
    StartLost(w) || PodLost(w) || ObserveLost(w) || StopLost(w) || ServeLost(w)
  }

  predicate DeadEnd(w: World) {
    ProviderLost(w) || ResultLost(w)
  }

  // ---------------------------------------------------------------- more of the invariant

  predicate Used(used: set<nat>, intent: Option<Intent>) {
    intent.Some? && intent.value.uid.Some? ==> intent.value.uid.value in used
  }

  /** Recorded UIDs were minted; observations follow the initialisation they need; a stopped Pod stays stopped. */
  ghost predicate Recorded(w: World) {
    var v, c := w.disk.provider, w.cluster;
    && (forall n :: n in c.jobs ==> c.jobs[n].uid in w.log.used)
    && Used(w.log.used, v.startIntent) && Used(w.log.used, v.observeIntent) && Used(w.log.used, v.serveIntent)
    && (v.observeIntent.Some? ==> v.initialization.Some?)
    && (v.serveIntent.Some? ==> v.initialization.Some? && v.initialization.value.complete)
    && (v.initialization.Some? ==> StoppedStays(c, v.initialization.value))
    && c.jobRequests <= w.log.submitted && c.jobs.Keys <= w.log.submitted
    && (w.process.Some? ==> SeenIsTrue(w, w.process.value.pc) && FirstAsk(w, w.process.value.pc))
  }

  /** A Job that is about to be asked for has not been asked for before. */
  predicate FirstAsk(w: World, pc: Pc) {
    match pc
    case JobLook(key, first) => first ==> NeverAsked(w, key)
    case ApplySave(ForProviderJob(key)) => NeverAsked(w, key)
    case ApplySubmit(ForProviderJob(key)) => NeverAsked(w, key)
    case _ => true
  }

  predicate NeverAsked(w: World, key: Key) {
    IntentOf(w.disk.provider, key).Some? ==> IntentOf(w.disk.provider, key).value.job !in w.log.submitted
  }

  predicate StoppedStays(c: Cluster, i: Initialization) {
    i.terminated && i.nonce in c.pods ==> c.pods[i.nonce].container == Terminated(0)
  }

  /** What `provider_stop` last saw of an ended container is still so. */
  predicate SeenIsTrue(w: World, pc: Pc) {
    match pc
    case StopDelete(seen) => SeenContainer(w, seen)
    case StopWait(seen) => SeenContainer(w, seen)
    case StopUnpin(seen) => SeenContainer(w, seen)
    case _ => true
  }

  predicate SeenContainer(w: World, seen: Pod) {
    w.disk.provider.initialization.Some? && seen.container.Terminated? ==>
      var n := w.disk.provider.initialization.value.nonce;
      n in w.cluster.pods ==> w.cluster.pods[n].container == seen.container
  }

  /** Program points that nothing is recorded about. */
  predicate Quiet(pc: Pc) {
    match pc
    case ApplySave(site) => !site.ForProviderJob?
    case ApplySubmit(site) => !site.ForProviderJob?
    case _ => !pc.JobLook? && !pc.StopDelete? && !pc.StopWait? && !pc.StopUnpin?
  }

  lemma RecordedFrame(w: World, w': World)
    requires Recorded(w) && w'.disk.provider == w.disk.provider && w'.cluster == w.cluster
    requires w'.log.submitted == w.log.submitted && w.log.used <= w'.log.used
    requires w'.process.Some? ==> Quiet(w'.process.value.pc)
    ensures Recorded(w')
  {
  }

  lemma ApplyKeepsRecorded(w: World, id: nat)
    requires Inv(w) && Recorded(w) && w.process.Some?
    requires w.process.value.pc.ApplySave? || w.process.value.pc.ApplySubmit?
    requires ApplyStep(w, w.process.value, id).Some?
    ensures Recorded(ApplyStep(w, w.process.value, id).value)
  {
    assert w.process.value.mem == w.disk;
    hide Inv;
  }

  lemma RunKeepsRecorded(w: World, id: nat)
    requires Inv(w) && Recorded(w) && w.process.Some?
    requires RunStep(w, w.process.value, id).Some?
    ensures Recorded(RunStep(w, w.process.value, id).value)
  {
    assert w.process.value.mem == w.disk;
    hide Inv, Recorded;
    RecordedFrame(w, RunStep(w, w.process.value, id).value);
  }

  lemma JobIntentKeepsRecorded(w: World, id: nat)
    requires Inv(w) && Recorded(w) && w.process.Some? && w.process.value.pc.JobIntent? && id !in w.log.used
    requires JobStep(w, w.process.value, id).Some?
    ensures Recorded(JobStep(w, w.process.value, id).value)
  {
    FreshName(w, KeyPhase(w.process.value.pc.key), id);
    hide PodsOk, JobsOk, DiskOk;
  }

  lemma JobLookKeepsRecorded(w: World, id: nat)
    requires Recorded(w) && w.process.Some? && w.process.value.mem == w.disk
    requires (w.process.value.pc.JobLook? || w.process.value.pc.JobAwait?) && JobStep(w, w.process.value, id).Some?
    ensures Recorded(JobStep(w, w.process.value, id).value)
  {
    hide Used, StoppedStays, SeenContainer;
  }

  lemma JobSaveKeepsRecorded(w: World, id: nat)
    requires Recorded(w) && w.process.Some? && w.process.value.mem == w.disk
    requires (w.process.value.pc.JobRead? || w.process.value.pc.JobReturn?) && JobStep(w, w.process.value, id).Some?
    ensures Recorded(JobStep(w, w.process.value, id).value)
  {
    hide StoppedStays, SeenContainer, NeverAsked;
  }

  lemma EnsureMoveKeepsRecorded(w: World, id: nat)
    requires Inv(w) && Recorded(w) && w.process.Some? && EnsureOnlyMoves(w.process.value.pc)
    requires EnsureStep(w, w.process.value, id).Some?
    ensures Recorded(EnsureStep(w, w.process.value, id).value)
  {
    assert w.process.value.mem == w.disk;
    hide Inv, Recorded;
    RecordedFrame(w, EnsureStep(w, w.process.value, id).value);
  }

  lemma EnsureKeepsRecorded(w: World, id: nat)
    requires Inv(w) && Recorded(w) && w.process.Some?
    requires w.process.value.pc in {EnsureInitialization, EnsureCreate, EnsureUid}
    requires EnsureStep(w, w.process.value, id).Some?
    ensures Recorded(EnsureStep(w, w.process.value, id).value)
  {
    assert w.process.value.mem == w.disk;
    hide Inv;
  }

  lemma StopActKeepsRecorded(w: World)
    requires Inv(w) && Recorded(w) && w.process.Some?
    requires w.process.value.pc.StopDelete? || w.process.value.pc.StopUnpin?
    requires StopStep(w, w.process.value).Some?
    ensures Recorded(StopStep(w, w.process.value).value)
  {
    assert w.process.value.mem == w.disk;
    hide Inv;
  }

  lemma StopSaveKeepsRecorded(w: World)
    requires Inv(w) && Recorded(w) && w.process.Some?
    requires w.process.value.pc.StopWait? || w.process.value.pc in {StopLook, StopGone}
    requires StopStep(w, w.process.value).Some?
    ensures Recorded(StopStep(w, w.process.value).value)
  {
    assert w.process.value.mem == w.disk;
    hide Inv;
  }

  lemma ServeKeepsRecorded(w: World)
    requires Inv(w) && Recorded(w) && w.process.Some?
    requires ServeStep(w, w.process.value).Some?
    ensures Recorded(ServeStep(w, w.process.value).value)
  {
    assert w.process.value.mem == w.disk;
    hide Inv, Recorded;
    RecordedFrame(w, ServeStep(w, w.process.value).value);
  }

  lemma ProceedKeepsRecorded(w: World, id: nat)
    requires Inv(w) && Recorded(w) && w.process.Some? && id !in w.log.used && Proceed(w, w.process.value, id).Some?
    ensures Recorded(Proceed(w, w.process.value, id).value)
  {
    assert w.process.value.mem == w.disk;
    hide Inv, Recorded, ApplyStep, RunStep, JobStep, EnsureStep, StopStep, ServeStep;
    match w.process.value.pc
    case ApplySave(_) => ApplyKeepsRecorded(w, id);
    case ApplySubmit(_) => ApplyKeepsRecorded(w, id);
    case Begin => RunKeepsRecorded(w, id);
    case ResumeCheck => RunKeepsRecorded(w, id);
    case Choose => RunKeepsRecorded(w, id);
    case Restore => RunKeepsRecorded(w, id);
    case ChooseVerify => RunKeepsRecorded(w, id);
    case JobWait(_) => RunKeepsRecorded(w, id);
    case JobIntent(_) => JobIntentKeepsRecorded(w, id);
    case JobLook(_, _) => JobLookKeepsRecorded(w, id);
    case JobRead(_) => JobSaveKeepsRecorded(w, id);
    case JobAwait(_) => JobLookKeepsRecorded(w, id);
    case JobReturn(_, _) => JobSaveKeepsRecorded(w, id);
    case EnsureInitialization => EnsureKeepsRecorded(w, id);
    case EnsureCreate => EnsureKeepsRecorded(w, id);
    case EnsureUid => EnsureKeepsRecorded(w, id);
    case StopLook => StopSaveKeepsRecorded(w);
    case StopDelete(_) => StopActKeepsRecorded(w);
    case StopWait(_) => StopSaveKeepsRecorded(w);
    case StopUnpin(_) => StopActKeepsRecorded(w);
    case StopGone => StopSaveKeepsRecorded(w);
    case ServeBegin => ServeKeepsRecorded(w);
    case Finished =>
    case _ => EnsureMoveKeepsRecorded(w, id);
  }

  lemma EnvironmentKeepsRecorded(w: World, a: Action)
    requires Inv(w) && Recorded(w) && Environment(w, a).Some?
    ensures Recorded(Environment(w, a).value)
  {
    hide JobsOk;
  }

  lemma DoKeepsRecorded(w: World, a: Action)
    requires Inv(w) && Recorded(w) && Do(w, a).Some?
    ensures Recorded(Do(w, a).value)
  {
    match a
    case Launch(_) => hide Inv;
    case Crash => hide Inv;
    case Step(id) => hide Inv, Recorded, Proceed; ProceedKeepsRecorded(w, id);
    case _ => hide Inv, Recorded, Environment; EnvironmentKeepsRecorded(w, a);
  }

  lemma {:induction false} RunsKeepRecorded(operation: nat, actions: seq<Action>)
    requires Run(Initial(operation), actions).Some?
    ensures Inv(Run(Initial(operation), actions).value) && Recorded(Run(Initial(operation), actions).value)
  {
    hide Inv, Do;
    RunsKeepInv(operation, actions);
    if actions != [] {
      hide Recorded;
      RunsKeepRecorded(operation, Front(actions));
      DoKeepsRecorded(Run(Initial(operation), Front(actions)).value, Last(actions));
    }
  }

  // ---------------------------------------------------------------- where an installer hangs

  /** Before anything is done about the provider. */
  predicate Starting(pc: Pc) {
    pc in {Begin, ResumeCheck, Choose, EnsureStart, EnsureReady}
  }

  predicate InJob(pc: Pc, key: Key) {
    pc in {JobIntent(key), JobLook(key, false), JobRead(key), JobAwait(key)}
  }

  predicate StartHangs(p: Process) {
    || Starting(p.pc) || InJob(p.pc, StartKey)
    || (p.pc.JobReturn? && p.pc.key == StartKey && (p.pc.proof.Some? ==> p.pc.proof.value.mode != Some(InitializeOnce)))
  }

  predicate AtInitialization(pc: Pc) {
    || Starting(pc)
    || pc in {ApplySave(ForInitializer), ApplySubmit(ForInitializer)}
    || pc in {EnsureInitialization, EnsureLook(false), EnsureUid, EnsureWatch}
  }

  predicate PodHangs(p: Process) {
    AtInitialization(p.pc)
  }

  predicate ObserveHangs(p: Process) {
    AtInitialization(p.pc) || InJob(p.pc, ObserveKey)
  }

  predicate StopHangs(p: Process) {
    Starting(p.pc) || p.pc == StopLook || p.pc.StopDelete? || p.pc.StopWait?
  }

  /** A `verify` run does not observe the serving provider. */
  predicate ServeHangs(p: Process) {
    if p.operation == VerifyOnly then
      || p.pc in {Begin, ResumeCheck, Choose, ChooseVerify, JobWait(Verify), Finished}
      || p.pc in {ApplySave(ForJob(Verify)), ApplySubmit(ForJob(Verify))}
      || (p.pc == Restore && p.mem.ready.Some?)
    else
      || Starting(p.pc) || InJob(p.pc, ServeKey)
      || p.pc in {StopLook, ApplySave(ForServer), ApplySubmit(ForServer), ServeBegin}
  }

  // ---------------------------------------------------------------- what is lost stays lost

  lemma StartStepHangs(w: World, id: nat)
    requires Inv(w) && Recorded(w) && w.process.Some? && StartLost(w) && StartHangs(w.process.value)
    requires Proceed(w, w.process.value, id).Some?
    ensures var w' := Proceed(w, w.process.value, id).value;
            StartLost(w') && w'.process.Some? && StartHangs(w'.process.value)
  {
    hide PodsOk, JobsOk;
  }

  lemma PodStepHangs(w: World, id: nat)
    requires Inv(w) && Recorded(w) && w.process.Some? && PodLost(w) && PodHangs(w.process.value)
    requires Proceed(w, w.process.value, id).Some?
    ensures var w' := Proceed(w, w.process.value, id).value;
            PodLost(w') && w'.process.Some? && PodHangs(w'.process.value)
  {
    hide JobsOk;
  }

  lemma ObserveStepHangs(w: World, id: nat)
    requires Inv(w) && Recorded(w) && w.process.Some? && ObserveLost(w) && ObserveHangs(w.process.value)
    requires Proceed(w, w.process.value, id).Some?
    ensures var w' := Proceed(w, w.process.value, id).value;
            ObserveLost(w') && w'.process.Some? && ObserveHangs(w'.process.value)
  {
    hide PodsOk, JobsOk;
  }

  lemma StopStepHangs(w: World, id: nat)
    requires Inv(w) && Recorded(w) && w.process.Some? && StopLost(w) && StopHangs(w.process.value)
    requires Proceed(w, w.process.value, id).Some?
    ensures var w' := Proceed(w, w.process.value, id).value;
            StopLost(w') && w'.process.Some? && StopHangs(w'.process.value)
  {
    hide JobsOk;
  }

  lemma ServeStepHangsOnVerify(w: World, id: nat)
    requires Inv(w) && Recorded(w) && w.process.Some? && ServeLost(w) && ServeHangs(w.process.value)
    requires Proceed(w, w.process.value, id).Some? && w.process.value.operation == VerifyOnly
    ensures var w' := Proceed(w, w.process.value, id).value;
            ServeLost(w') && w'.process.Some? && ServeHangs(w'.process.value)
            && w'.process.value.operation == w.process.value.operation
  {
    hide PodsOk, JobsOk;
  }

  lemma ServeJobStepHangs(w: World, id: nat)
    requires Inv(w) && Recorded(w) && w.process.Some? && ServeLost(w) && ServeHangs(w.process.value)
    requires JobStep(w, w.process.value, id).Some? && w.process.value.operation != VerifyOnly
    ensures var w' := JobStep(w, w.process.value, id).value;
            ServeLost(w') && w'.process.Some? && ServeHangs(w'.process.value)
            && w'.process.value.operation == w.process.value.operation
  {
    hide PodsOk, JobsOk, DiskOk;
  }

  lemma ServeOtherStepHangs(w: World, id: nat)
    requires Inv(w) && Recorded(w) && w.process.Some? && ServeLost(w) && ServeHangs(w.process.value)
    requires Proceed(w, w.process.value, id).Some? && w.process.value.operation != VerifyOnly
    requires Proceed(w, w.process.value, id) != JobStep(w, w.process.value, id)
    ensures var w' := Proceed(w, w.process.value, id).value;
            ServeLost(w') && w'.process.Some? && ServeHangs(w'.process.value)
            && w'.process.value.operation == w.process.value.operation
  {
    hide PodsOk, JobsOk, JobStep;
  }

  lemma ServeStepHangs(w: World, id: nat)
    requires Inv(w) && Recorded(w) && w.process.Some? && ServeLost(w) && ServeHangs(w.process.value)
    requires Proceed(w, w.process.value, id).Some?
    ensures var w' := Proceed(w, w.process.value, id).value;
            ServeLost(w') && w'.process.Some? && ServeHangs(w'.process.value)
            && w'.process.value.operation == w.process.value.operation
  {
    hide Inv, Recorded, Proceed, JobStep, ServeHangs, ServeLost;
    if w.process.value.operation == VerifyOnly {
      ServeStepHangsOnVerify(w, id);
    } else {
      if Proceed(w, w.process.value, id) == JobStep(w, w.process.value, id) {
        ServeJobStepHangs(w, id);
      } else {
        ServeOtherStepHangs(w, id);
      }
    }
  }

  lemma JobStaysLost(w: World, a: Action, key: Key)
    requires !a.JobVanishes? && Recorded(w) && JobLost(w, key) && Environment(w, a).Some?
    ensures JobLost(Environment(w, a).value, key)
  {
  }

  lemma PodStaysLost(w: World, a: Action)
    requires Inv(w) && Environment(w, a).Some?
    ensures PodLost(w) ==> PodLost(Environment(w, a).value)
    ensures Recorded(w) && StopLost(w) ==> StopLost(Environment(w, a).value)
  {
    hide JobsOk;
  }

  // ---------------------------------------------------------------- a foreign result stays in the way

  /** Everything up to the wait for the Job whose result is lost. */
  predicate ResultHangs(p: Process) {
    || Starting(p.pc)
    || p.pc in {StopLook, ApplySave(ForServer), ApplySubmit(ForServer), ServeBegin}
    || InJob(p.pc, ServeKey) || p.pc in {JobLook(ServeKey, true), ApplySave(ForProviderJob(ServeKey))}
    || p.pc == ApplySubmit(ForProviderJob(ServeKey)) || (p.pc.JobReturn? && p.pc.key == ServeKey)
    || p.pc in {Restore, ChooseVerify}
    || (p.pc.ApplySave? && p.pc.site == ForJob(TargetPhase(p.mem)))
    || (p.pc.ApplySubmit? && p.pc.site == ForJob(TargetPhase(p.mem)))
    || p.pc == JobWait(TargetPhase(p.mem))
  }

  ghost predicate Stranded(w: World) {
    ResultLost(w) && (w.process.Some? ==> ResultHangs(w.process.value))
  }

  lemma ResultJobStepHangs(w: World, id: nat)
    requires Inv(w) && w.process.Some? && ResultLost(w) && ResultHangs(w.process.value)
    requires JobStep(w, w.process.value, id).Some?
    ensures var w' := JobStep(w, w.process.value, id).value;
            ResultLost(w') && w'.process.Some? && ResultHangs(w'.process.value)
  {
    hide PodsOk, JobsOk;
  }

  lemma ResultOtherStepHangs(w: World, id: nat)
    requires Inv(w) && w.process.Some? && ResultLost(w) && ResultHangs(w.process.value)
    requires Proceed(w, w.process.value, id).Some? && Proceed(w, w.process.value, id) != JobStep(w, w.process.value, id)
    ensures var w' := Proceed(w, w.process.value, id).value;
            ResultLost(w') && w'.process.Some? && ResultHangs(w'.process.value)
  {
    hide PodsOk, JobsOk, JobStep;
  }

  lemma ResultStepHangs(w: World, id: nat)
    requires Inv(w) && w.process.Some? && ResultLost(w) && ResultHangs(w.process.value)
    requires Proceed(w, w.process.value, id).Some?
    ensures var w' := Proceed(w, w.process.value, id).value;
            ResultLost(w') && w'.process.Some? && ResultHangs(w'.process.value)
  {
    hide *;
    if Proceed(w, w.process.value, id) == JobStep(w, w.process.value, id) {
      ResultJobStepHangs(w, id);
    } else {
      ResultOtherStepHangs(w, id);
    }
  }

  lemma EnvironmentKeepsResult(w: World, a: Action)
    requires !a.JobVanishes? && ResultLost(w) && Environment(w, a).Some?
    ensures ResultLost(Environment(w, a).value)
  {
  }

  lemma DoStaysStranded(w: World, a: Action)
    requires !a.JobVanishes? && Inv(w) && Stranded(w) && Do(w, a).Some?
    ensures Stranded(Do(w, a).value)
  {
    match a
    case Launch(_) => hide Inv;
    case Crash => hide Inv;
    case Step(id) => hide Inv, Proceed, ResultLost, ResultHangs; ResultStepHangs(w, id);
    case _ =>
      hide Inv, Environment, ResultLost, ResultHangs;
      EnvironmentLeavesInstaller(w, a);
      EnvironmentKeepsResult(w, a);
  }

  /** Nobody deletes a Job. */
  predicate JobsStay(actions: seq<Action>) {
    forall i :: 0 <= i < |actions| ==> !actions[i].JobVanishes?
  }

  lemma JobsStayInFront(actions: seq<Action>)
    requires JobsStay(actions) && actions != []
    ensures JobsStay(Front(actions)) && !Last(actions).JobVanishes?
  {
  }

  lemma {:induction false} RunsStayStranded(w: World, actions: seq<Action>)
    requires Inv(w) && Stranded(w) && JobsStay(actions) && Run(w, actions).Some?
    ensures Inv(Run(w, actions).value) && Stranded(Run(w, actions).value)
  {
    hide Inv, Stranded, Do, JobsStay;
    if actions != [] {
      JobsStayInFront(actions);
      RunsStayStranded(w, Front(actions));
      var mid := Run(w, Front(actions)).value;
      DoKeepsInv(mid, Last(actions));
      DoStaysStranded(mid, Last(actions));
    }
  }

  // ---------------------------------------------------------------- no run leaves a dead end

  /** Something is lost, and the installer, if one runs, is on its way to find that out. */
  ghost predicate Doomed(w: World) {
    || (StartLost(w) && (w.process.Some? ==> StartHangs(w.process.value)))
    || (PodLost(w) && (w.process.Some? ==> PodHangs(w.process.value)))
    || (ObserveLost(w) && (w.process.Some? ==> ObserveHangs(w.process.value)))
    || (StopLost(w) && (w.process.Some? ==> StopHangs(w.process.value)))
    || (ServeLost(w) && (w.process.Some? ==> ServeHangs(w.process.value)))
  }

  lemma StepStaysDoomed(w: World, id: nat)
    requires Inv(w) && Recorded(w) && Doomed(w) && w.process.Some? && Proceed(w, w.process.value, id).Some?
    ensures Doomed(Proceed(w, w.process.value, id).value)
  {
    hide Inv, Recorded, Proceed, StartLost, PodLost, ObserveLost, StopLost, ServeLost;
    hide StartHangs, PodHangs, ObserveHangs, StopHangs, ServeHangs;
    var p := w.process.value;
    if StartLost(w) && StartHangs(p) {
      StartStepHangs(w, id);
    } else if PodLost(w) && PodHangs(p) {
      PodStepHangs(w, id);
    } else if ObserveLost(w) && ObserveHangs(p) {
      ObserveStepHangs(w, id);
    } else if StopLost(w) && StopHangs(p) {
      StopStepHangs(w, id);
    } else {
      ServeStepHangs(w, id);
    }
  }

  lemma EnvironmentStaysDoomed(w: World, a: Action)
    requires !a.JobVanishes? && Inv(w) && Recorded(w) && Doomed(w) && Environment(w, a).Some?
    ensures Doomed(Environment(w, a).value)
  {
    hide Inv, Recorded, Environment, JobLost, PodLost, StopLost;
    EnvironmentLeavesInstaller(w, a);
    PodStaysLost(w, a);
    if JobLost(w, StartKey) {
      JobStaysLost(w, a, StartKey);
    }
    if JobLost(w, ObserveKey) {
      JobStaysLost(w, a, ObserveKey);
    }
    if JobLost(w, ServeKey) {
      JobStaysLost(w, a, ServeKey);
    }
  }

  lemma DoStaysDoomed(w: World, a: Action)
    requires !a.JobVanishes? && Inv(w) && Recorded(w) && Doomed(w) && Do(w, a).Some?
    ensures Doomed(Do(w, a).value)
  {
    match a
    case Launch(_) => hide Inv, Recorded;
    case Crash => hide Inv, Recorded;
    case Step(id) => hide Inv, Recorded, Doomed, Proceed; StepStaysDoomed(w, id);
    case _ => hide Inv, Recorded, Doomed, Environment; EnvironmentStaysDoomed(w, a);
  }

  /** An installation that is not ready does not become ready any more. */
  lemma StaysUnready(w: World, a: Action)
    requires Inv(w) && Doomed(w) && w.disk.ready.None? && Do(w, a).Some?
    ensures Do(w, a).value.disk.ready.None?
  {
    hide PodsOk, JobsOk, DiskOk, StartLost, PodLost, ObserveLost, StopLost, ServeLost;
    if a.Step? {
      hide ApplyStep, JobStep, EnsureStep, StopStep, ServeStep;
      OnlyJobsMakeReady(w, a.id);
    } else if !a.Launch? && !a.Crash? {
      hide Environment;
      EnvironmentLeavesInstaller(w, a);
    }
  }

  lemma OnlyJobsMakeReady(w: World, id: nat)
    requires w.process.Some? && w.process.value.mem == w.disk && !w.process.value.pc.JobWait?
    requires Proceed(w, w.process.value, id).Some?
    ensures Proceed(w, w.process.value, id).value.disk.ready == w.disk.ready
  {
  }

  lemma {:induction false} RunsStayDoomed(w: World, actions: seq<Action>)
    requires Inv(w) && Recorded(w) && Doomed(w) && JobsStay(actions) && Run(w, actions).Some?
    ensures var w' := Run(w, actions).value;
            && Inv(w') && Recorded(w') && Doomed(w') && (w.disk.ready.None? ==> w'.disk.ready.None?)
  {
    hide Inv, Recorded, Doomed, Do, JobsStay;
    if actions != [] {
      JobsStayInFront(actions);
      RunsStayDoomed(w, Front(actions));
      var mid := Run(w, Front(actions)).value;
      DoKeepsInv(mid, Last(actions));
      DoKeepsRecorded(mid, Last(actions));
      DoStaysDoomed(mid, Last(actions));
      if mid.disk.ready.None? {
        StaysUnready(mid, Last(actions));
      }
    }
  }

  predicate FinishedBy(w: World, operation: Operation) {
    w.process.Some? && w.process.value.pc == Finished && w.process.value.operation == operation
  }

  lemma DoomedIsUnfinished(w: World, operation: Operation)
    requires Inv(w) && Doomed(w)
    ensures operation != VerifyOnly ==> !FinishedBy(w, operation)
    ensures FinishedBy(w, operation) ==> w.disk.ready.Some?
  {
    hide PodsOk, JobsOk;
  }
}
