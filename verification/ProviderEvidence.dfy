/**
 * What the installer does and records is due and true: every effect and every record of every run, in terms
 * of the state file and of the cluster alone.
 */
module ProviderEvidence {
  import opened Common
  import opened ProviderMachine
  import opened ProviderSafety
  import opened ProviderDeadEnds

  // ---------------------------------------------------------------- proofs are true

  /** The Job of the proof exists under the UID of the proof and succeeded with its digest, Pod and mode. */
  predicate TrueProof(c: Cluster, proof: Proof) {
    && proof.job in c.jobs && c.jobs[proof.job].uid == proof.jobUid
    && var status := c.jobs[proof.job].status;
       && status.Succeeded? && status.digest == proof.digest && status.podUid == proof.podUid
       && (proof.mode.Some? ==> proof.mode.value == status.mode)
  }

  predicate TrueIfAny(c: Cluster, proof: Option<Proof>) {
    proof.Some? ==> TrueProof(c, proof.value)
  }

  /** A Job that has succeeded, or has failed and has no active Pod. */
  predicate Over(c: Cluster, name: JobName) {
    name in c.jobs && (c.jobs[name].status.Succeeded? || (c.jobs[name].status.Failed? && !c.jobs[name].status.active))
  }

  /** The recorded proofs are of the right Jobs. */
  predicate ProofsOfPhases(s: State) {
    && (s.prepared.Some? ==> s.prepared.value.job.phase == Prepare)
    && (s.ready.Some? ==> s.ready.value.job.phase in {Provision, Verify})
  }

  predicate ProofsTrue(c: Cluster, s: State) {
    && TrueIfAny(c, s.prepared) && TrueIfAny(c, s.ready)
    && TrueIfAny(c, s.provider.started) && TrueIfAny(c, s.provider.ready)
  }

  /** The Job of the intent gave this proof, or failed in one of the two ways that permit another observation. */
  predicate ReturnTrue(w: World, key: Key, proof: Option<Proof>) {
    && IntentOf(w.disk.provider, key).Some?
    && var job := IntentOf(w.disk.provider, key).value.job;
       if proof.Some? then proof.value.job == job && TrueProof(w.cluster, proof.value)
       else job in w.cluster.jobs && w.cluster.jobs[job].status.Failed? && w.cluster.jobs[job].status.closedObservation
  }

  /** Every proof that is recorded, or about to be, is true, and what was settled is over. */
  ghost predicate Proven(w: World) {
    && ProofsTrue(w.cluster, w.disk) && ProofsOfPhases(w.disk)
    && (w.process.Some? && w.process.value.pc.JobReturn? ==>
          ReturnTrue(w, w.process.value.pc.key, w.process.value.pc.proof))
    && (forall name :: name in w.log.settled ==> Over(w.cluster, name))
  }

  /** `w'` and `w` agree on everything that makes proofs true, and none is about to be recorded. */
  predicate SameProofs(w: World, w': World) {
    && w'.cluster.jobs == w.cluster.jobs && w'.log.settled == w.log.settled
    && w'.disk.prepared == w.disk.prepared && w'.disk.ready == w.disk.ready
    && w'.disk.provider.started == w.disk.provider.started && w'.disk.provider.ready == w.disk.provider.ready
    && (w'.process.Some? ==> !w'.process.value.pc.JobReturn?)
  }

  lemma ProvenFrame(w: World, w': World)
    requires Proven(w) && SameProofs(w, w')
    ensures Proven(w')
  {
  }

  lemma RunStepKeepsProven(w: World, id: nat)
    requires Inv(w) && Proven(w) && w.process.Some? && RunStep(w, w.process.value, id).Some?
    ensures Proven(RunStep(w, w.process.value, id).value)
  {
    assert w.process.value.mem == w.disk;
    assert w.process.value.pc.JobWait? ==> w.process.value.pc.phase in {Prepare, Provision, Verify};
    hide Inv;
  }

  lemma AwaitKeepsProven(w: World, id: nat)
    requires Proven(w) && w.process.Some? && w.process.value.mem == w.disk
    requires w.process.value.pc.JobAwait? && JobStep(w, w.process.value, id).Some?
    ensures Proven(JobStep(w, w.process.value, id).value)
  {
    hide Over;
  }

  lemma ReturnKeepsProven(w: World, id: nat)
    requires Proven(w) && w.process.Some? && w.process.value.mem == w.disk
    requires w.process.value.pc.JobReturn? && JobStep(w, w.process.value, id).Some?
    ensures Proven(JobStep(w, w.process.value, id).value)
  {
    hide Over, TrueProof;
  }

  lemma JobStepKeepsProven(w: World, id: nat)
    requires Proven(w) && w.process.Some? && w.process.value.mem == w.disk && JobStep(w, w.process.value, id).Some?
    ensures Proven(JobStep(w, w.process.value, id).value)
  {
    hide Proven;
    if w.process.value.pc.JobAwait? {
      AwaitKeepsProven(w, id);
    } else if w.process.value.pc.JobReturn? {
      ReturnKeepsProven(w, id);
    } else {
      ProvenFrame(w, JobStep(w, w.process.value, id).value);
    }
  }

  lemma ApplyKeepsProven(w: World, id: nat)
    requires Proven(w) && w.process.Some? && w.process.value.mem == w.disk
    requires w.process.value.pc.ApplySave? || w.process.value.pc.ApplySubmit?
    ensures Proven(ApplyStep(w, w.process.value, id).value)
  {
    hide Proven;
    ProvenFrame(w, ApplyStep(w, w.process.value, id).value);
  }

  lemma EnsureKeepsProven(w: World, id: nat)
    requires Proven(w) && w.process.Some? && w.process.value.mem == w.disk && EnsureStep(w, w.process.value, id).Some?
    ensures Proven(EnsureStep(w, w.process.value, id).value)
  {
    hide Proven;
    ProvenFrame(w, EnsureStep(w, w.process.value, id).value);
  }

  lemma StopKeepsProven(w: World)
    requires Proven(w) && w.process.Some? && w.process.value.mem == w.disk && StopStep(w, w.process.value).Some?
    ensures Proven(StopStep(w, w.process.value).value)
  {
    hide Proven;
    ProvenFrame(w, StopStep(w, w.process.value).value);
  }

  lemma StepKeepsProven(w: World, id: nat)
    requires Inv(w) && Proven(w) && w.process.Some? && Proceed(w, w.process.value, id).Some?
    ensures Proven(Proceed(w, w.process.value, id).value)
  {
    var p, next := w.process.value, Proceed(w, w.process.value, id);
    assert p.mem == w.disk;
    hide Inv, Proven, ApplyStep, RunStep, JobStep, EnsureStep, StopStep;
    if p.pc.ApplySave? || p.pc.ApplySubmit? {
      ApplyKeepsProven(w, id);
    } else if next == RunStep(w, p, id) {
      RunStepKeepsProven(w, id);
    } else if next == JobStep(w, p, id) {
      JobStepKeepsProven(w, id);
    } else if next == EnsureStep(w, p, id) {
      EnsureKeepsProven(w, id);
    } else if next == StopStep(w, p) {
      StopKeepsProven(w);
    } else {
      ProvenFrame(w, next.value);
    }
  }

  /** Jobs end, and ended Jobs stay as they are but for their Pods. */
  predicate OnlyEnds(before: Job, after: Job) {
    && after.uid == before.uid
    && (after == before || before.status.Active?
        || (before.status.Failed? && after.status == Failed(false, before.status.closedObservation)))
  }

  lemma EnvironmentOnlyEndsJobs(w: World, a: Action, name: JobName)
    requires Environment(w, a).Some? && !a.JobVanishes? && name in w.cluster.jobs
    ensures name in Environment(w, a).value.cluster.jobs
    ensures OnlyEnds(w.cluster.jobs[name], Environment(w, a).value.cluster.jobs[name])
  {
  }

  lemma EnvironmentSettlesNothing(w: World, a: Action)
    requires Environment(w, a).Some?
    ensures Environment(w, a).value.log.settled == w.log.settled
  {
  }

  lemma EnvironmentKeepsProven(w: World, a: Action)
    requires Proven(w) && Environment(w, a).Some? && !a.JobVanishes?
    ensures Proven(Environment(w, a).value)
  {
    var w' := Environment(w, a).value;
    EnvironmentLeavesInstaller(w, a);
    EnvironmentSettlesNothing(w, a);
    forall name | name in w.cluster.jobs
      ensures name in w'.cluster.jobs && OnlyEnds(w.cluster.jobs[name], w'.cluster.jobs[name])
    {
      EnvironmentOnlyEndsJobs(w, a, name);
    }
    hide Environment;
  }

  lemma DoKeepsProven(w: World, a: Action)
    requires Inv(w) && Proven(w) && Do(w, a).Some? && !a.JobVanishes?
    ensures Proven(Do(w, a).value)
  {
    hide Inv, Proven, Proceed, Environment;
    match a
    case Launch(_) => ProvenFrame(w, Do(w, a).value);
    case Crash => ProvenFrame(w, Do(w, a).value);
    case Step(id) => StepKeepsProven(w, id);
    case _ => EnvironmentKeepsProven(w, a);
  }

  /**
   * In every run in which nobody deletes a Job, every recorded proof is true: its Job is there, under that
   * UID, and succeeded with that digest, that Pod and that mode.
   */
  lemma {:induction false} ProofsAreTrue(operation: nat, actions: seq<Action>)
    requires Run(Initial(operation), actions).Some? && JobsStay(actions)
    ensures Proven(Run(Initial(operation), actions).value)
    ensures var w := Run(Initial(operation), actions).value; ProofsTrue(w.cluster, w.disk) && ProofsOfPhases(w.disk)
  {
    hide Inv, Do, JobsStay, TrueProof, Over;
    if actions != [] {
      JobsStayInFront(actions);
      ProofsAreTrue(operation, Front(actions));
      RunsKeepInv(operation, Front(actions));
      DoKeepsProven(Run(Initial(operation), Front(actions)).value, Last(actions));
    }
  }

  /** The Job may have an active Pod, now or when its request takes effect. */
  predicate MayRun(c: Cluster, name: JobName) {
    if name in c.jobs then
      c.jobs[name].status.Active? || (c.jobs[name].status.Failed? && c.jobs[name].status.active)
    else name in c.jobRequests
  }

  /** At most one prepare, provision or verify Job can ever run at a time: the current one of the state file. */
  lemma OneLastingJobAtATime(operation: nat, actions: seq<Action>, name: JobName)
    requires Run(Initial(operation), actions).Some? && JobsStay(actions)
    requires name.phase in {Prepare, Provision, Verify} && MayRun(Run(Initial(operation), actions).value.cluster, name)
    ensures name == JobName(Run(Initial(operation), actions).value.disk.phase,
                            Run(Initial(operation), actions).value.disk.operation)
  {
    hide Run, JobsStay;
    ProofsAreTrue(operation, actions);
    RunsKeepRecorded(operation, actions);
    var w := Run(Initial(operation), actions).value;
    assert name in w.log.submitted && name !in w.log.settled;
    PendingJobsKeepTheirName(operation, actions, name);
  }

  /**
   * `resume` goes past its check exactly when the current lasting Job cannot have an active Pod, and gives the
   * operation a new name exactly when that Job is there and has failed. `up` and `verify` do not look.
   */
  lemma ResumeExactly(w: World, id: nat)
    requires w.process.Some? && w.process.value.mem == w.disk && w.process.value.pc == ResumeCheck
    ensures var s := w.disk;
            var looks := w.process.value.operation == Resume && s.phase in {Prepare, Provision, Verify}
                         && Current(s) in w.cluster.jobs;
            var next := Proceed(w, w.process.value, id);
            && (next.Some? <==> !looks || !MayRun(w.cluster, Current(s)))
            && (next.Some? ==>
                  && next.value.cluster == w.cluster
                  && next.value.process.Some? && next.value.process.value.pc == Choose
                  && next.value.disk == if looks && w.cluster.jobs[Current(s)].status.Failed?
                                        then s.(operation := id) else s)
  {
  }

  // ---------------------------------------------------------------- stopping

  /** Once termination is recorded, the Pod that `provider_stop` looks at has exited cleanly. */
  predicate SeenStopped(w: World) {
    w.process.Some? && w.disk.provider.initialization.Some? && w.disk.provider.initialization.value.terminated ==>
      match w.process.value.pc
      case StopDelete(seen) => seen.container == Terminated(0)
      case StopWait(seen) => seen.container == Terminated(0)
      case _ => true
  }

  lemma StopKeepsSeenStopped(w: World)
    requires Inv(w) && Recorded(w) && SeenStopped(w) && w.process.Some? && StopStep(w, w.process.value).Some?
    ensures SeenStopped(StopStep(w, w.process.value).value)
  {
    hide PodsOk, JobsOk, DiskOk;
  }

  lemma OthersKeepSeenStopped(w: World, id: nat)
    requires w.process.Some? && Proceed(w, w.process.value, id).Some?
    requires Proceed(w, w.process.value, id) != StopStep(w, w.process.value)
    ensures SeenStopped(Proceed(w, w.process.value, id).value)
  {
    hide StopStep;
  }

  lemma DoKeepsSeenStopped(w: World, a: Action)
    requires Inv(w) && Recorded(w) && SeenStopped(w) && Do(w, a).Some?
    ensures SeenStopped(Do(w, a).value)
  {
    hide Inv, Recorded, Proceed, StopStep, Environment;
    if a.Step? {
      if Proceed(w, w.process.value, a.id) == StopStep(w, w.process.value) {
        StopKeepsSeenStopped(w);
      } else {
        OthersKeepSeenStopped(w, a.id);
      }
    } else if !a.Launch? && !a.Crash? {
      EnvironmentLeavesInstaller(w, a);
    }
  }

  lemma {:induction false} RunsKeepSeenStopped(operation: nat, actions: seq<Action>)
    requires Run(Initial(operation), actions).Some?
    ensures SeenStopped(Run(Initial(operation), actions).value)
  {
    hide Inv, Recorded, Do, SeenStopped;
    if actions == [] {
      NoProcessYet(operation);
    } else {
      RunsKeepSeenStopped(operation, Front(actions));
      RunsKeepRecorded(operation, Front(actions));
      DoKeepsSeenStopped(Run(Initial(operation), Front(actions)).value, Last(actions));
    }
  }

  lemma NoProcessYet(operation: nat)
    ensures SeenStopped(Initial(operation))
  {
  }

  /** The program points of `provider_stop`. */
  predicate Stops(pc: Pc) {
    pc == StopLook || pc.StopDelete? || pc.StopWait? || pc.StopUnpin? || pc == StopGone
  }

  lemma StopStepExactly(w: World)
    requires Inv(w) && SeenStopped(w) && w.process.Some? && Stops(w.process.value.pc)
    ensures var pc := w.process.value.pc;
            StopStep(w, w.process.value).None?
            <==> pc.StopWait? && pc.seen.container.Terminated? && pc.seen.container.exitCode != 0
  {
    hide JobsOk;
  }

  /**
   * At every point of every run `provider_stop` can take its next step, waiting steps included, unless the
   * container ended with another exit code than 0: then, and only then, it raises.
   */
  lemma StoppingRaisesExactly(operation: nat, actions: seq<Action>, id: nat)
    requires Run(Initial(operation), actions).Some?
    requires var w := Run(Initial(operation), actions).value;
             id !in w.log.used && w.process.Some? && Stops(w.process.value.pc)
    ensures var w := Run(Initial(operation), actions).value; var pc := w.process.value.pc;
            Do(w, Step(id)).None?
            <==> pc.StopWait? && pc.seen.container.Terminated? && pc.seen.container.exitCode != 0
  {
    hide Run, Inv, SeenStopped;
    RunsKeepInv(operation, actions);
    RunsKeepSeenStopped(operation, actions);
    StopStepExactly(Run(Initial(operation), actions).value);
  }

  // ---------------------------------------------------------------- effects are due

  /** A Job that may be asked for, given the state file. */
  predicate RequestDue(s: State, job: JobName) {
    match job.phase
    case Prepare => s.prepared.None? && job == Current(s)
    case ProviderStart =>
      && s.prepared.Some? && s.provider.started.None?
      && s.provider.startIntent.Some? && s.provider.startIntent.value.job == job
    case ProviderObserve =>
      || (&& s.provider.observeIntent.Some? && s.provider.observeIntent.value.job == job && s.provider.ready.None?
          && s.provider.started.Some? && s.provider.started.value.mode == Some(InitializeOnce)
          && s.provider.initialization.Some? && s.provider.initialization.value.uid.Some?
          && !s.provider.initialization.value.deleting)
      || (&& s.provider.serveIntent.Some? && s.provider.serveIntent.value.job == job
          && s.provider.ready.Some? && s.provider.initialization.Some? && s.provider.initialization.value.complete)
    case Provision =>
      && job == Current(s) && s.ready.None?
      && s.provider.ready.Some? && s.provider.initialization.Some? && s.provider.initialization.value.complete
    case Verify =>
      && job == Current(s) && s.ready.Some? && s.ready.value.job != job
      && s.provider.ready.Some? && s.provider.initialization.Some? && s.provider.initialization.value.complete
    case _ => false
  }

  /** The only Pod that may be asked for: once, under the durable nonce, on a first permission. */
  predicate PodDue(w: World, nonce: nat) {
    var v := w.disk.provider;
    && w.cluster.podRequests == {} && v.ready.None?
    && v.started.Some? && v.started.value.mode == Some(InitializeOnce)
    && v.initialization.Some? && v.initialization.value.nonce == nonce
  }

  /** A Pod may be deleted after readiness is recorded, and lose its finalizer after its termination is. */
  predicate PodChangeDue(s: State, before: Pod, after: Pod) {
    && s.provider.initialization.Some? && s.provider.initialization.value.uid == Some(before.uid)
    && (|| (after == before.(deleting := true) && s.provider.initialization.value.deleting && s.provider.ready.Some?)
        || (after == before.(finalizer := false) && s.provider.initialization.value.terminated))
  }

  /** What the step from `w` to `w'` does to the cluster is due. */
  ghost predicate EffectsDue(w: World, w': World) {
    && (w'.cluster != w.cluster ==> w'.disk == w.disk)
    && w'.cluster.jobs == w.cluster.jobs
    && (w'.cluster.jobRequests != w.cluster.jobRequests ==>
          exists job :: w'.cluster.jobRequests == w.cluster.jobRequests + {job} && RequestDue(w.disk, job))
    && (w'.cluster.podRequests != w.cluster.podRequests ==>
          exists nonce :: w'.cluster.podRequests == {nonce} && PodDue(w, nonce))
    && (w'.cluster.pods != w.cluster.pods ==>
          exists nonce, pod ::
            && nonce in w.cluster.pods && w'.cluster.pods == w.cluster.pods[nonce := pod]
            && IsNonce(w.disk, nonce) && PodChangeDue(w.disk, w.cluster.pods[nonce], pod))
  }

  lemma SubmitIsDue(w: World, id: nat)
    requires Inv(w) && w.process.Some? && w.process.value.pc.ApplySubmit?
    ensures EffectsDue(w, ApplyStep(w, w.process.value, id).value)
  {
    hide PodsOk, JobsOk;
    var p := w.process.value;
    var w' := ApplyStep(w, p, id).value;
    if SubmittedJob(p.mem, p.pc.site).Some? {
      var job := SubmittedJob(p.mem, p.pc.site).value;
      assert w'.cluster.jobRequests == w.cluster.jobRequests + {job};
      assert RequestDue(w.disk, job);
    }
  }

  lemma CreateIsDue(w: World, id: nat)
    requires Inv(w) && w.process.Some? && w.process.value.pc == EnsureCreate
    ensures EffectsDue(w, EnsureStep(w, w.process.value, id).value)
  {
    hide JobsOk;
    var w' := EnsureStep(w, w.process.value, id).value;
    var nonce := w.disk.provider.initialization.value.nonce;
    assert w'.cluster.podRequests == {nonce} && PodDue(w, nonce);
  }

  lemma StopIsDue(w: World)
    requires Inv(w) && w.process.Some? && (w.process.value.pc.StopDelete? || w.process.value.pc.StopUnpin?)
    ensures EffectsDue(w, StopStep(w, w.process.value).value)
  {
    hide JobsOk;
    var i := w.disk.provider.initialization.value;
    var w' := StopStep(w, w.process.value).value;
    if w'.cluster.pods != w.cluster.pods {
      assert w'.cluster.pods == w.cluster.pods[i.nonce := w'.cluster.pods[i.nonce]];
      assert PodChangeDue(w.disk, w.cluster.pods[i.nonce], w'.cluster.pods[i.nonce]);
    }
  }

  /** Program points at which a step acts on the cluster. */
  predicate Acts(pc: Pc) {
    pc.ApplySubmit? || pc == EnsureCreate || pc.StopDelete? || pc.StopUnpin?
  }

  lemma OthersDoNotAct(w: World, id: nat)
    requires w.process.Some? && !Acts(w.process.value.pc) && Proceed(w, w.process.value, id).Some?
    ensures Proceed(w, w.process.value, id).value.cluster == w.cluster
  {
  }

  /**
   * At every point of every run a step either saves or acts, and what it asks for, deletes or releases is due
   * by what the state file already says.
   */
  lemma EveryEffectIsDue(operation: nat, actions: seq<Action>, id: nat)
    requires Run(Initial(operation), actions + [Step(id)]).Some?
    ensures Run(Initial(operation), actions).Some?
    ensures EffectsDue(Run(Initial(operation), actions).value, Run(Initial(operation), actions + [Step(id)]).value)
  {
    assert Front(actions + [Step(id)]) == actions && Last(actions + [Step(id)]) == Step(id);
    hide Inv, ApplyStep, EnsureStep, StopStep, Initial;
    var w := Run(Initial(operation), actions).value;
    RunsKeepInv(operation, actions);
    var p := w.process.value;
    if p.pc.ApplySubmit? {
      SubmitIsDue(w, id);
    } else if p.pc == EnsureCreate {
      CreateIsDue(w, id);
    } else if p.pc.StopDelete? || p.pc.StopUnpin? {
      StopIsDue(w);
    } else {
      OthersDoNotAct(w, id);
    }
  }

  // ---------------------------------------------------------------- records are due

  /** The initialisation is recorded step by step: nonce, UID, deletion, termination, completion. */
  predicate InitializationDue(w: World, before: Option<Initialization>, after: Option<Initialization>) {
    if before.None? then
      after.Some? ==> after.value == Initialization(after.value.nonce, None, false, false, false)
                      && after.value.nonce !in w.log.used
    else
      && after.Some?
      && var i, pods := before.value, w.cluster.pods;
         || after.value == i
         || (after.value == i.(uid := after.value.uid) && i.nonce in pods && after.value.uid == Some(pods[i.nonce].uid))
         || (after.value == i.(deleting := true) && w.disk.provider.ready.Some? && i.nonce in pods)
         || (after.value == i.(terminated := true) && i.deleting)
         || (after.value == i.(complete := true) && i.terminated && i.nonce !in pods)
  }

  /** A new intent names a Job nobody has asked for; then it gets the UID that Job has; only an ended one is dropped. */
  predicate IntentDue(w: World, key: Key, before: Option<Intent>, after: Option<Intent>) {
    if before.None? then
      after.Some? ==> after.value == Intent(JobName(KeyPhase(key), after.value.job.operation), None)
                      && after.value.job.operation !in w.log.used
    else
      var job := before.value.job;
      || after == before
      || (job in w.cluster.jobs && after == Some(Intent(job, Some(w.cluster.jobs[job].uid))))
      || (after.None? && key != StartKey && job in w.cluster.jobs && !w.cluster.jobs[job].status.Active?)
  }

  /** What the step from `w` to `w'` records is due. */
  ghost predicate RecordsDue(w: World, w': World) {
    var s, s', i := w.disk, w'.disk, w.disk.provider.initialization;
    && (s'.prepared != s.prepared ==> s.prepared.None?)
    && (s'.provider.started != s.provider.started ==> s.provider.started.None?)
    && (s'.provider.ready != s.provider.ready ==>
          && s.provider.ready.None?
          && i.Some? && i.value.nonce in w.cluster.pods && w.cluster.pods[i.value.nonce].container == Running
          && i.value.uid == Some(w.cluster.pods[i.value.nonce].uid))
    && (s'.ready != s.ready ==> s'.ready.Some? && s'.ready.value.job == Current(s))
    && InitializationDue(w, i, s'.provider.initialization)
    && forall key :: IntentDue(w, key, IntentOf(s.provider, key), IntentOf(s'.provider, key))
  }

  lemma ApplyRecordsDue(w: World, id: nat)
    requires Inv(w) && w.process.Some? && (w.process.value.pc.ApplySave? || w.process.value.pc.ApplySubmit?)
    ensures RecordsDue(w, ApplyStep(w, w.process.value, id).value)
  {
    assert w.process.value.mem == w.disk;
    hide Inv;
  }

  lemma RunRecordsDue(w: World, id: nat)
    requires Inv(w) && w.process.Some? && RunStep(w, w.process.value, id).Some?
    ensures RecordsDue(w, RunStep(w, w.process.value, id).value)
  {
    hide PodsOk, JobsOk, ProviderStateOk;
  }

  lemma ReturnRecordsDue(w: World, id: nat)
    requires Inv(w) && Proven(w) && w.process.Some? && w.process.value.pc.JobReturn?
    requires JobStep(w, w.process.value, id).Some?
    ensures RecordsDue(w, JobStep(w, w.process.value, id).value)
  {
    hide PodsOk, JobsOk, ProviderStateOk, Over;
  }

  lemma JobRecordsDue(w: World, id: nat)
    requires Inv(w) && w.process.Some? && !w.process.value.pc.JobReturn? && id !in w.log.used
    requires JobStep(w, w.process.value, id).Some?
    ensures RecordsDue(w, JobStep(w, w.process.value, id).value)
  {
    hide PodsOk, JobsOk, ProviderStateOk;
  }

  lemma EnsureRecordsDue(w: World, id: nat)
    requires Inv(w) && w.process.Some? && EnsureStep(w, w.process.value, id).Some? && id !in w.log.used
    ensures RecordsDue(w, EnsureStep(w, w.process.value, id).value)
  {
    hide JobsOk;
  }

  lemma StopRecordsDue(w: World)
    requires Inv(w) && w.process.Some? && StopStep(w, w.process.value).Some?
    ensures RecordsDue(w, StopStep(w, w.process.value).value)
  {
    hide JobsOk;
  }

  lemma ServeRecordsDue(w: World)
    requires Inv(w) && w.process.Some? && ServeStep(w, w.process.value).Some?
    ensures RecordsDue(w, ServeStep(w, w.process.value).value)
  {
    hide PodsOk, JobsOk;
  }

  lemma StepRecordsDue(w: World, id: nat)
    requires Inv(w) && Proven(w) && w.process.Some? && Proceed(w, w.process.value, id).Some? && id !in w.log.used
    ensures RecordsDue(w, Proceed(w, w.process.value, id).value)
  {
    hide Inv, Proven, RecordsDue, ApplyStep, RunStep, JobStep, EnsureStep, StopStep, ServeStep;
    var p, next := w.process.value, Proceed(w, w.process.value, id);
    if p.pc.ApplySave? || p.pc.ApplySubmit? {
      ApplyRecordsDue(w, id);
    } else if next == RunStep(w, p, id) {
      RunRecordsDue(w, id);
    } else if p.pc.JobReturn? {
      ReturnRecordsDue(w, id);
    } else if next == JobStep(w, p, id) {
      JobRecordsDue(w, id);
    } else if next == EnsureStep(w, p, id) {
      EnsureRecordsDue(w, id);
    } else if next == StopStep(w, p) {
      StopRecordsDue(w);
    } else {
      ServeRecordsDue(w);
    }
  }

  /** When nobody deletes a Job, everything a step records follows from the state file and the cluster. */
  lemma EveryRecordIsDue(operation: nat, actions: seq<Action>, id: nat)
    requires Run(Initial(operation), actions + [Step(id)]).Some? && JobsStay(actions)
    ensures Run(Initial(operation), actions).Some?
    ensures RecordsDue(Run(Initial(operation), actions).value, Run(Initial(operation), actions + [Step(id)]).value)
  {
    assert Front(actions + [Step(id)]) == actions && Last(actions + [Step(id)]) == Step(id);
    hide Inv, Proven, RecordsDue, Proceed, Initial, JobsStay;
    RunsKeepInv(operation, actions);
    ProofsAreTrue(operation, actions);
    StepRecordsDue(Run(Initial(operation), actions).value, id);
  }
}
