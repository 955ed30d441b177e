/** The invariant of the provider machine and what it guarantees over every run. */
module ProviderSafety {
  import opened Common
  import opened ProviderMachine

  // ---------------------------------------------------------------- the durable state

  predicate ReadyIsBacked(s: State) {
    s.ready.Some? ==>
      && s.prepared.Some? && s.ready.value.digest == s.prepared.value.digest
      && InitializationComplete(s)
  }

  /** A recorded provider proof and a completed initialisation. */
  predicate InitializationComplete(s: State) {
    && s.provider.ready.Some?
    && s.provider.initialization.Some? && s.provider.initialization.value.complete
  }

  predicate PhaseIsBacked(s: State) {
    && (s.phase != Prepare ==> s.prepared.Some?)
    && (s.phase in {Provision, Serving, Verify} ==> InitializationComplete(s))
    && (s.phase in {Serving, Verify} ==> s.ready.Some?)
    && (s.prepared.None? ==> s.provider == NO_PROVIDER)
    && (s.provider.initialization.Some? && s.provider.initialization.value.deleting ==> s.provider.ready.Some?)
  }

  predicate DiskOk(s: State) {
    ProviderStateOk(s.provider, s.prepared) && ReadyIsBacked(s) && PhaseIsBacked(s)
  }

  // ---------------------------------------------------------------- cluster and log

  predicate IsNonce(s: State, n: nat) {
    s.provider.initialization.Some? && s.provider.initialization.value.nonce == n
  }

  /** At most one initialiser Pod was asked for, and what became of it is known. */
  ghost predicate PodsOk(w: World) {
    var s, c := w.disk, w.cluster;
    && w.log.creates <= 1
    && (s.provider.initialization.None? ==> w.log.creates == 0)
    && (w.log.creates == 0 ==> c.podRequests == {})
    && (forall n: nat :: n in c.podRequests ==> IsNonce(s, n))
    && w.log.landed <= c.podRequests
    && c.pods.Keys <= w.log.landed
    && (forall n: nat :: n in c.pods && c.pods[n].container == Terminated(0) ==> c.pods[n].uid in w.log.cleanExits)
    && (s.provider.initialization.Some? ==> EvidenceOk(w, s.provider.initialization.value))
  }

  /** Until termination is recorded the Pod keeps its finalizer; what is recorded was seen. */
  predicate EvidenceOk(w: World, i: Initialization) {
    && (i.uid.Some? ==> i.nonce in w.log.landed)
    && (!i.terminated && i.nonce in w.log.landed ==>
          && i.nonce in w.cluster.pods && w.cluster.pods[i.nonce].finalizer)
    && (i.uid.Some? && i.nonce in w.cluster.pods ==> w.cluster.pods[i.nonce].uid == i.uid.value)
    && (i.terminated ==> i.uid.Some? && i.uid.value in w.log.cleanExits)
  }

  predicate Lasting(phase: Phase) {
    phase in {Prepare, Provision, Verify}
  }

  /** `name` was handed to Helm and nothing has settled it. */
  predicate Outstanding(w: World, name: JobName) {
    name in w.log.submitted && name !in w.log.settled
  }

  /** A lasting Job that is outstanding is the current one, and only before its completion is recorded. */
  ghost predicate JobsOk(w: World) {
    var s := w.disk;
    && w.log.startSubmits <= 1
    && (s.provider.startIntent.None? ==> w.log.startSubmits == 0)
    && (forall n: JobName :: n in w.log.submitted ==> n.operation in w.log.used)
    && (forall n: JobName :: n in w.log.settled ==> n.operation in w.log.used)
    && s.operation in w.log.used
    && (forall n: JobName :: Lasting(n.phase) && Outstanding(w, n) ==> n == Current(s))
    && (s.ready.Some? ==> s.ready.value.job in w.log.settled)
    && (s.prepared.Some? && s.phase == Prepare ==> !Outstanding(w, Current(s)))
    && (s.ready.Some? && s.phase == Provision ==> !Outstanding(w, Current(s)))
  }

  // ---------------------------------------------------------------- the process

  predicate AtEnsure(s: State) {
    s.prepared.Some? && s.ready.None?
  }

  predicate AtInitializer(s: State) {
    && AtEnsure(s) && s.provider.ready.None?
    && s.provider.started.Some? && s.provider.started.value.mode == Some(InitializeOnce)
  }

  predicate AtStop(s: State) {
    s.prepared.Some? && s.provider.ready.Some?
  }

  predicate Stopping(w: World, s: State, seen: Pod) {
    && AtStop(s) && s.provider.initialization.Some?
    && var i := s.provider.initialization.value;
       && i.deleting && !i.complete && i.uid == Some(seen.uid)
       && (seen.container == Terminated(0) ==> seen.uid in w.log.cleanExits)
  }

  predicate AtServer(s: State) {
    s.prepared.Some? && InitializationComplete(s)
  }

  /** Where `provider_job` may be for a given key. */
  predicate AtProviderJob(s: State, key: Key) {
    match key
    case StartKey => AtEnsure(s) && s.provider.started.None?
    case ObserveKey =>
      && AtInitializer(s) && s.provider.initialization.Some?
      && s.provider.initialization.value.uid.Some? && !s.provider.initialization.value.deleting
    case ServeKey => AtServer(s)
  }

  predicate HasIntent(s: State, key: Key) {
    IntentOf(s.provider, key).Some?
  }

  /** The Job about to be submitted for the first time is the one of the intent. */
  predicate Minted(w: World, s: State, key: Key) {
    && HasIntent(s, key)
    && (key != ServeKey ==> s.phase == KeyPhase(key) && IntentOf(s.provider, key).value.job == Current(s))
    && (key == StartKey ==> w.log.startSubmits == 0)
    && IntentOf(s.provider, key).value.job.operation in w.log.used
  }

  predicate SiteOk(w: World, s: State, site: Site) {
    match site
    case ForJob(phase) =>
      (match phase
       case Prepare => s.prepared.None? && s.ready.None?
       case Provision => AtServer(s) && s.ready.None?
       case Verify => AtServer(s) && s.ready.Some? && s.phase == Verify && Unrecorded(s)
       case _ => false)
    case ForInitializer => AtInitializer(s)
    case ForServer => AtServer(s)
    case ForServing => AtServer(s) && s.ready.Some? && s.phase in {Provision, Verify} && !Unrecorded(s)
    case ForProviderJob(key) => AtProviderJob(s, key) && Minted(w, s, key)
  }

  predicate PcOk(w: World, s: State, pc: Pc) {
    match pc
    case Begin => true
    case ResumeCheck => true
    case Choose => true
    case ApplySave(site) => SiteOk(w, s, site)
    case ApplySubmit(site) =>
      if site == ForServing then s.ready.Some? else SiteOk(w, s, site) && (site.ForJob? ==> s.phase == site.phase)
    case JobWait(phase) => SiteOk(w, s, ForJob(phase)) && s.phase == phase
    case JobIntent(key) => AtProviderJob(s, key)
    case JobLook(key, first) => AtProviderJob(s, key) && HasIntent(s, key) && (first ==> Minted(w, s, key))
    case JobRead(key) => AtProviderJob(s, key) && HasIntent(s, key)
    case JobAwait(key) => AtProviderJob(s, key) && HasIntent(s, key)
    case JobReturn(key, proof) =>
      && AtProviderJob(s, key) && HasIntent(s, key)
      && ProofOk(proof, IntentOf(s.provider, key), s.prepared)
      && (proof.Some? ==> (proof.value.mode.Some? <==> key == StartKey))
    case EnsureStart => AtEnsure(s)
    case EnsureReady => AtEnsure(s) && s.provider.started.Some?
    case EnsureInitialization => AtInitializer(s)
    case EnsureLook(first) =>
      AtInitializer(s) && s.provider.initialization.Some? && (first ==> w.log.creates == 0)
    case EnsureCreate => AtInitializer(s) && s.provider.initialization.Some? && w.log.creates == 0
    case EnsureUid => AtInitializer(s) && s.provider.initialization.Some?
    case EnsureWatch =>
      AtInitializer(s) && s.provider.initialization.Some? && s.provider.initialization.value.uid.Some?
    case StopLook => AtStop(s)
    case StopDelete(seen) => Stopping(w, s, seen)
    case StopWait(seen) => Stopping(w, s, seen)
    case StopUnpin(seen) => Stopping(w, s, seen) && s.provider.initialization.value.terminated
    case StopGone =>
      && AtStop(s) && s.provider.initialization.Some? && s.provider.initialization.value.terminated
    case ServeBegin => AtServer(s)
    case Restore => AtServer(s)
    case ChooseVerify => AtServer(s) && s.ready.Some?
    case Finished => s.ready.Some?
  }

  /** While `run` remembers a pending operation it is still the current, unrecorded one. */
  predicate PendingOk(s: State, pending: Option<nat>) {
    pending.Some? ==> s.phase == TargetPhase(s) && s.operation == pending.value && Unrecorded(s)
  }

  /** Before `run` has chosen, and after it has restored, nothing is remembered. */
  predicate ProcessOk(w: World, p: Process) {
    p.mem == w.disk && PcOk(w, p.mem, p.pc) && (p.pending.Some? ==> PendingLives(p.pc) && PendingOk(p.mem, p.pending))
  }

  /** Program points between choosing and restoring. */
  predicate PendingLives(pc: Pc) {
    !(pc.Begin? || pc.ResumeCheck? || pc.Choose? || pc.ChooseVerify? || pc.JobWait? || pc.Finished?
      || (pc.ApplySave? && (pc.site == ForServing || (pc.site.ForJob? && pc.site.phase != Prepare)))
      || (pc.ApplySubmit? && (pc.site == ForServing || (pc.site.ForJob? && pc.site.phase != Prepare))))
  }

  ghost predicate Inv(w: World) {
    DiskOk(w.disk) && PodsOk(w) && JobsOk(w) && (w.process.Some? ==> ProcessOk(w, w.process.value))
  }

  // ---------------------------------------------------------------- every step keeps it

  /** `w'` and `w` agree on everything the invariant of Jobs looks at. */
  predicate SameJobs(w: World, w': World) {
    && w'.disk.phase == w.disk.phase && w'.disk.operation == w.disk.operation
    && w'.disk.ready == w.disk.ready && w'.disk.prepared == w.disk.prepared
    && (w.disk.provider.startIntent.Some? ==> w'.disk.provider.startIntent.Some?)
    && w'.log.submitted == w.log.submitted && w'.log.settled == w.log.settled
    && w'.log.startSubmits == w.log.startSubmits && w.log.used <= w'.log.used
  }

  lemma JobsFrame(w: World, w': World)
    requires JobsOk(w) && SameJobs(w, w')
    ensures JobsOk(w')
  {
  }

  /** `w'` and `w` agree on everything the invariant of Pods looks at. */
  predicate SamePods(w: World, w': World) {
    && w'.disk.provider.initialization == w.disk.provider.initialization
    && w'.cluster.podRequests == w.cluster.podRequests && w'.cluster.pods == w.cluster.pods
    && w'.log.creates == w.log.creates && w'.log.landed == w.log.landed && w'.log.cleanExits == w.log.cleanExits
  }

  lemma PodsFrame(w: World, w': World)
    requires PodsOk(w) && SamePods(w, w')
    ensures PodsOk(w')
  {
  }

  /** The identifiers in the log are not the fresh one. */
  lemma FreshName(w: World, phase: Phase, id: nat)
    requires JobsOk(w) && id !in w.log.used
    ensures JobName(phase, id) !in w.log.submitted && JobName(phase, id) !in w.log.settled
  {
  }

  // ----------------------------------------------------------------

  lemma ApplySaveKeepsInv(w: World, id: nat)
    requires Inv(w) && w.process.Some? && id !in w.log.used && w.process.value.pc.ApplySave?
    ensures Inv(ApplyStep(w, w.process.value, id).value)
  {
    var p := w.process.value;
    var s, site := p.mem, p.pc.site;
    var s' := Applied(s, site, id);
    var w' := ApplyStep(w, p, id).value;
    assert DiskOk(s') && (s' != s ==> !(Lasting(s.phase) && Outstanding(w, Current(s)))) by { hide PodsOk; }
    assert PodsOk(w') by { hide JobsOk, DiskOk; PodsFrame(w, w'); }
    assert JobsOk(w') by { hide PodsOk, DiskOk, PcOk; FreshName(w, PhaseOf(site), id); }
    assert ProcessOk(w', w'.process.value) by { hide PodsOk, JobsOk; }
  }

  lemma SubmitKeepsJobsOk(w: World, site: Site)
    requires JobsOk(w) && SiteOk(w, w.disk, site) && (site.ForJob? ==> w.disk.phase == site.phase)
    requires ProviderStateOk(w.disk.provider, w.disk.prepared)
    ensures JobsOk(Submit(w, w.disk, site))
  {
  }

  lemma ApplySubmitKeepsInv(w: World, id: nat)
    requires Inv(w) && w.process.Some? && w.process.value.pc.ApplySubmit?
    ensures Inv(ApplyStep(w, w.process.value, id).value)
  {
    var p := w.process.value;
    var site := p.pc.site;
    var submitted := Submit(w, w.disk, site);
    var w' := ApplyStep(w, p, id).value;
    assert SamePods(w, submitted) && submitted.disk == w.disk by { hide Inv; }
    assert PodsOk(submitted) by { hide JobsOk, DiskOk, Submit; PodsFrame(w, submitted); }
    assert JobsOk(submitted) by {
      hide PodsOk, JobsOk, SiteOk;
      if site == ForServing {
        assert submitted == w;
      } else {
        SubmitKeepsJobsOk(w, site);
      }
    }
    assert JobsOk(w') && PodsOk(w') by {
      hide Inv, Submit;
      JobsFrame(submitted, w');
      PodsFrame(submitted, w');
    }
    assert ProcessOk(w', w'.process.value) by { hide PodsOk, JobsOk; }
  }

  lemma ResumeCheckKeepsInv(w: World, id: nat)
    requires Inv(w) && w.process.Some? && id !in w.log.used
    requires w.process.value.pc == ResumeCheck && RunStep(w, w.process.value, id).Some?
    ensures Inv(RunStep(w, w.process.value, id).value)
  {
    var w' := RunStep(w, w.process.value, id).value;
    assert PodsOk(w') by { hide JobsOk, DiskOk; PodsFrame(w, w'); }
    assert JobsOk(w') by { hide PodsOk, DiskOk; FreshName(w, w.disk.phase, id); }
    assert DiskOk(w'.disk) by { hide PodsOk, JobsOk; }
  }

  lemma ChooseKeepsInv(w: World, id: nat)
    requires Inv(w) && w.process.Some?
    requires w.process.value.pc in {Begin, Choose} && RunStep(w, w.process.value, id).Some?
    ensures Inv(RunStep(w, w.process.value, id).value)
  {
    var w' := RunStep(w, w.process.value, id).value;
    assert w' == w.(process := w'.process);
    assert PodsOk(w') by { hide JobsOk, DiskOk; PodsFrame(w, w'); }
    assert JobsOk(w') by { hide PodsOk, DiskOk; JobsFrame(w, w'); }
    assert ProcessOk(w', w'.process.value) by { hide PodsOk, JobsOk; }
  }

  /** Restoring a pending operation changes nothing: it is still the current one. */
  lemma RestoreChangesNothing(w: World, id: nat)
    requires Inv(w) && w.process.Some?
    requires w.process.value.pc == Restore && RunStep(w, w.process.value, id).Some?
    ensures RunStep(w, w.process.value, id).value.disk == w.disk
  {
    hide PodsOk, JobsOk, DiskOk;
  }

  lemma RestoreKeepsInv(w: World, id: nat)
    requires Inv(w) && w.process.Some?
    requires w.process.value.pc == Restore && RunStep(w, w.process.value, id).Some?
    ensures Inv(RunStep(w, w.process.value, id).value)
  {
    var w' := RunStep(w, w.process.value, id).value;
    RestoreChangesNothing(w, id);
    assert PodsOk(w') by { hide JobsOk, DiskOk; PodsFrame(w, w'); }
    assert JobsOk(w') by { hide PodsOk, DiskOk; JobsFrame(w, w'); }
    assert ProcessOk(w', w'.process.value) by { hide PodsOk, JobsOk; }
  }

  lemma ChooseVerifyKeepsInv(w: World, id: nat)
    requires Inv(w) && w.process.Some? && id !in w.log.used
    requires w.process.value.pc == ChooseVerify && RunStep(w, w.process.value, id).Some?
    ensures Inv(RunStep(w, w.process.value, id).value)
  {
    var w' := RunStep(w, w.process.value, id).value;
    assert PodsOk(w') by { hide JobsOk, DiskOk; PodsFrame(w, w'); }
    assert JobsOk(w') by { hide PodsOk; FreshName(w, Verify, id); }
    assert DiskOk(w'.disk) by { hide PodsOk, JobsOk; }
    assert ProcessOk(w', w'.process.value) by { hide PodsOk; }
  }

  lemma JobWaitKeepsDisk(w: World, id: nat)
    requires Inv(w) && w.process.Some?
    requires w.process.value.pc.JobWait? && RunStep(w, w.process.value, id).Some?
    ensures var w' := RunStep(w, w.process.value, id).value;
            DiskOk(w'.disk) && w'.process.Some? && ProcessOk(w', w'.process.value)
  {
    hide PodsOk, JobsOk;
  }

  lemma JobWaitKeepsInv(w: World, id: nat)
    requires Inv(w) && w.process.Some?
    requires w.process.value.pc.JobWait? && RunStep(w, w.process.value, id).Some?
    ensures Inv(RunStep(w, w.process.value, id).value)
  {
    JobWaitKeepsDisk(w, id);
    var w' := RunStep(w, w.process.value, id).value;
    assert PodsOk(w') by { hide JobsOk, DiskOk, ProcessOk; PodsFrame(w, w'); }
    assert JobsOk(w') by { hide PodsOk; }
  }

  // ----------------------------------------------------------------

  lemma OldIntentKeepsInv(w: World, id: nat)
    requires Inv(w) && w.process.Some? && w.process.value.pc.JobIntent?
    requires IntentOf(w.disk.provider, w.process.value.pc.key).Some?
    ensures Inv(JobStep(w, w.process.value, id).value)
  {
    var w' := JobStep(w, w.process.value, id).value;
    assert w' == w.(process := w'.process);
    assert PodsOk(w') by { hide JobsOk, DiskOk; PodsFrame(w, w'); }
    assert JobsOk(w') by { hide PodsOk, DiskOk; JobsFrame(w, w'); }
    assert ProcessOk(w', w'.process.value) by { hide PodsOk, JobsOk, DiskOk; }
  }

  lemma NewIntentKeepsInv(w: World, id: nat)
    requires Inv(w) && w.process.Some? && id !in w.log.used && w.process.value.pc.JobIntent?
    requires IntentOf(w.disk.provider, w.process.value.pc.key).None?
    ensures Inv(JobStep(w, w.process.value, id).value)
  {
    var p := w.process.value;
    var key := p.pc.key;
    var w' := JobStep(w, p, id).value;
    assert PodsOk(w') by { hide JobsOk, DiskOk; PodsFrame(w, w'); }
    assert DiskOk(w'.disk) by { hide PodsOk, JobsOk; }
    assert key != ServeKey ==> !(Lasting(w.disk.phase) && Outstanding(w, Current(w.disk))) by { hide PodsOk; }
    assert JobsOk(w') by { hide PodsOk, DiskOk, PcOk; FreshName(w, KeyPhase(key), id); }
    assert ProcessOk(w', w'.process.value) by { hide PodsOk; }
  }

  lemma JobIntentKeepsInv(w: World, id: nat)
    requires Inv(w) && w.process.Some? && id !in w.log.used && w.process.value.pc.JobIntent?
    ensures Inv(JobStep(w, w.process.value, id).value)
  {
    hide Inv, JobStep;
    if IntentOf(w.disk.provider, w.process.value.pc.key).Some? {
      OldIntentKeepsInv(w, id);
    } else {
      NewIntentKeepsInv(w, id);
    }
  }

  lemma JobLookKeepsInv(w: World, id: nat)
    requires Inv(w) && w.process.Some?
    requires w.process.value.pc.JobLook? && JobStep(w, w.process.value, id).Some?
    ensures Inv(JobStep(w, w.process.value, id).value)
  {
    var w' := JobStep(w, w.process.value, id).value;
    assert PodsOk(w') by { hide JobsOk, DiskOk; PodsFrame(w, w'); }
    assert JobsOk(w') by { hide PodsOk, DiskOk; JobsFrame(w, w'); }
    assert ProcessOk(w', w'.process.value) by { hide PodsOk, JobsOk; }
  }

  lemma JobReadKeepsInv(w: World, id: nat)
    requires Inv(w) && w.process.Some?
    requires w.process.value.pc.JobRead? && JobStep(w, w.process.value, id).Some?
    ensures Inv(JobStep(w, w.process.value, id).value)
  {
    var w' := JobStep(w, w.process.value, id).value;
    assert PodsOk(w') by { hide JobsOk, DiskOk; PodsFrame(w, w'); }
    assert JobsOk(w') by { hide PodsOk, DiskOk; JobsFrame(w, w'); }
    assert DiskOk(w'.disk) && ProcessOk(w', w'.process.value) by { hide PodsOk, JobsOk; }
  }

  lemma JobAwaitKeepsInv(w: World, id: nat)
    requires Inv(w) && w.process.Some?
    requires w.process.value.pc.JobAwait? && JobStep(w, w.process.value, id).Some?
    ensures Inv(JobStep(w, w.process.value, id).value)
  {
    var w' := JobStep(w, w.process.value, id).value;
    assert w' == w.(process := w'.process);
    assert PodsOk(w') by { hide JobsOk, DiskOk; PodsFrame(w, w'); }
    assert JobsOk(w') by { hide PodsOk, DiskOk; JobsFrame(w, w'); }
    assert ProcessOk(w', w'.process.value) by { hide PodsOk, JobsOk, DiskOk; }
  }

  lemma JobReturnKeepsDisk(w: World, id: nat)
    requires Inv(w) && w.process.Some?
    requires w.process.value.pc.JobReturn? && JobStep(w, w.process.value, id).Some?
    ensures var w' := JobStep(w, w.process.value, id).value;
            DiskOk(w'.disk) && w'.process.Some? && ProcessOk(w', w'.process.value)
  {
    hide PodsOk, JobsOk;
  }

  lemma JobReturnKeepsInv(w: World, id: nat)
    requires Inv(w) && w.process.Some?
    requires w.process.value.pc.JobReturn? && JobStep(w, w.process.value, id).Some?
    ensures Inv(JobStep(w, w.process.value, id).value)
  {
    JobReturnKeepsDisk(w, id);
    hide DiskOk, ProcessOk;
    var w' := JobStep(w, w.process.value, id).value;
    assert PodsOk(w') by { hide JobsOk; PodsFrame(w, w'); }
    assert JobsOk(w') by { hide PodsOk; JobsFrame(w, w'); }
  }

  // ----------------------------------------------------------------

  predicate EnsureOnlyMoves(pc: Pc) {
    pc == EnsureStart || pc == EnsureReady || pc.EnsureLook? || pc == EnsureWatch
  }

  lemma EnsureMoveKeepsInv(w: World, id: nat)
    requires Inv(w) && w.process.Some?
    requires EnsureOnlyMoves(w.process.value.pc) && EnsureStep(w, w.process.value, id).Some?
    ensures Inv(EnsureStep(w, w.process.value, id).value)
  {
    var w' := EnsureStep(w, w.process.value, id).value;
    assert w' == w.(process := w'.process);
    assert PodsOk(w') by { hide JobsOk, DiskOk; PodsFrame(w, w'); }
    assert JobsOk(w') by { hide PodsOk, DiskOk; JobsFrame(w, w'); }
    assert ProcessOk(w', w'.process.value) by { hide PodsOk, JobsOk; }
  }

  lemma EnsureInitializationKeepsInv(w: World, id: nat)
    requires Inv(w) && w.process.Some? && id !in w.log.used && w.process.value.pc == EnsureInitialization
    ensures Inv(EnsureStep(w, w.process.value, id).value)
  {
    var w' := EnsureStep(w, w.process.value, id).value;
    assert JobsOk(w') by { hide PodsOk, DiskOk; JobsFrame(w, w'); }
    assert PodsOk(w') by { hide JobsOk, DiskOk; }
    assert DiskOk(w'.disk) by { hide PodsOk, JobsOk; }
    assert ProcessOk(w', w'.process.value) by { hide JobsOk; }
  }

  lemma EnsureCreateKeepsInv(w: World, id: nat)
    requires Inv(w) && w.process.Some? && w.process.value.pc == EnsureCreate
    ensures Inv(EnsureStep(w, w.process.value, id).value)
  {
    var w' := EnsureStep(w, w.process.value, id).value;
    assert JobsOk(w') by { hide PodsOk, DiskOk; JobsFrame(w, w'); }
    assert PodsOk(w') by { hide JobsOk, DiskOk; }
    assert ProcessOk(w', w'.process.value) by { hide PodsOk, JobsOk, DiskOk; }
  }

  lemma EnsureUidKeepsInv(w: World, id: nat)
    requires Inv(w) && w.process.Some?
    requires w.process.value.pc == EnsureUid && EnsureStep(w, w.process.value, id).Some?
    ensures Inv(EnsureStep(w, w.process.value, id).value)
  {
    var w' := EnsureStep(w, w.process.value, id).value;
    assert JobsOk(w') by { hide PodsOk, DiskOk; JobsFrame(w, w'); }
    assert PodsOk(w') by { hide JobsOk, DiskOk; }
    assert DiskOk(w'.disk) && ProcessOk(w', w'.process.value) by { hide PodsOk, JobsOk; }
  }

  // ----------------------------------------------------------------

  lemma StopLookKeepsInv(w: World)
    requires Inv(w) && w.process.Some? && w.process.value.pc == StopLook && StopStep(w, w.process.value).Some?
    ensures Inv(StopStep(w, w.process.value).value)
  {
    var w' := StopStep(w, w.process.value).value;
    StoppingHasEvidence(w);
    assert JobsOk(w') by { hide PodsOk, DiskOk; JobsFrame(w, w'); }
    assert PodsOk(w') by { hide JobsOk, DiskOk, ProcessOk; }
    assert DiskOk(w'.disk) by { hide PodsOk, JobsOk; }
    assert ProcessOk(w', w'.process.value) by { hide PodsOk, JobsOk; }
  }

  lemma StopDeleteKeepsInv(w: World)
    requires Inv(w) && w.process.Some? && w.process.value.pc.StopDelete? && StopStep(w, w.process.value).Some?
    ensures Inv(StopStep(w, w.process.value).value)
  {
    var w' := StopStep(w, w.process.value).value;
    assert JobsOk(w') by { hide PodsOk, DiskOk; JobsFrame(w, w'); }
    assert PodsOk(w') by { hide JobsOk, DiskOk; }
    assert ProcessOk(w', w'.process.value) by { hide PodsOk, JobsOk; }
  }

  lemma StopWaitKeepsInv(w: World)
    requires Inv(w) && w.process.Some? && w.process.value.pc.StopWait? && StopStep(w, w.process.value).Some?
    ensures Inv(StopStep(w, w.process.value).value)
  {
    var w' := StopStep(w, w.process.value).value;
    assert JobsOk(w') by { hide PodsOk, DiskOk; JobsFrame(w, w'); }
    assert PodsOk(w') by { hide JobsOk, DiskOk; }
    assert DiskOk(w'.disk) by { hide PodsOk, JobsOk; }
    assert ProcessOk(w', w'.process.value) by { hide JobsOk; }
  }

  lemma StopUnpinKeepsInv(w: World)
    requires Inv(w) && w.process.Some? && w.process.value.pc.StopUnpin? && StopStep(w, w.process.value).Some?
    ensures Inv(StopStep(w, w.process.value).value)
  {
    var w' := StopStep(w, w.process.value).value;
    assert JobsOk(w') by { hide PodsOk, DiskOk; JobsFrame(w, w'); }
    assert PodsOk(w') by { hide JobsOk, DiskOk; }
    assert ProcessOk(w', w'.process.value) by { hide PodsOk, JobsOk; }
  }

  lemma StopGoneKeepsInv(w: World)
    requires Inv(w) && w.process.Some? && w.process.value.pc == StopGone && StopStep(w, w.process.value).Some?
    ensures Inv(StopStep(w, w.process.value).value)
  {
    var w' := StopStep(w, w.process.value).value;
    assert JobsOk(w') by { hide PodsOk, DiskOk; JobsFrame(w, w'); }
    assert PodsOk(w') by { hide JobsOk, DiskOk; }
    assert DiskOk(w'.disk) && ProcessOk(w', w'.process.value) by { hide PodsOk, JobsOk; }
  }

  lemma ServeKeepsInv(w: World)
    requires Inv(w) && w.process.Some? && w.process.value.pc == ServeBegin && ServeStep(w, w.process.value).Some?
    ensures Inv(ServeStep(w, w.process.value).value)
  {
    var w' := ServeStep(w, w.process.value).value;
    assert PodsOk(w') by { hide JobsOk, DiskOk; PodsFrame(w, w'); }
    assert JobsOk(w') by { hide PodsOk, DiskOk; JobsFrame(w, w'); }
    assert ProcessOk(w', w'.process.value) by { hide PodsOk, JobsOk, DiskOk; }
  }

  // ----------------------------------------------------------------

  predicate PodAction(a: Action) {
    a.PodLands? || a.PodStarts? || a.PodEnds? || a.PodDeletedByOthers? || a.PodVanishes?
  }

  lemma PodActionKeepsPodsOk(w: World, a: Action)
    requires PodsOk(w) && Environment(w, a).Some? && PodAction(a)
    ensures PodsOk(Environment(w, a).value)
  {
  }

  lemma JobActionKeepsPodsOk(w: World, a: Action)
    requires PodsOk(w) && Environment(w, a).Some? && !PodAction(a)
    ensures PodsOk(Environment(w, a).value)
  {
    hide PodsOk;
    PodsFrame(w, Environment(w, a).value);
  }

  /** The cluster on its own touches neither the state file nor the process, and the log only grows. */
  lemma EnvironmentLeavesInstaller(w: World, a: Action)
    requires Environment(w, a).Some?
    ensures var w' := Environment(w, a).value;
            && w'.process == w.process && SameJobs(w, w')
            && w'.disk == w.disk && w'.log.creates == w.log.creates && w.log.cleanExits <= w'.log.cleanExits
  {
  }

  lemma ProcessOkIsMonotone(w: World, w': World, p: Process)
    requires ProcessOk(w, p) && w'.disk == w.disk
    requires w.log.cleanExits <= w'.log.cleanExits && w.log.used <= w'.log.used
    requires w'.log.creates == w.log.creates && w'.log.startSubmits == w.log.startSubmits
    ensures ProcessOk(w', p)
  {
  }

  lemma EnvironmentKeepsInv(w: World, a: Action)
    requires Inv(w) && Environment(w, a).Some?
    ensures Inv(Environment(w, a).value)
  {
    hide PodsOk, JobsOk, DiskOk, ProcessOk, Environment;
    var w' := Environment(w, a).value;
    EnvironmentLeavesInstaller(w, a);
    if PodAction(a) {
      PodActionKeepsPodsOk(w, a);
    } else {
      JobActionKeepsPodsOk(w, a);
    }
    JobsFrame(w, w');
    if w.process.Some? {
      ProcessOkIsMonotone(w, w', w.process.value);
    }
  }

  // ---------------------------------------------------------------- runs

  lemma ProceedKeepsInv(w: World, id: nat)
    requires Inv(w) && w.process.Some? && id !in w.log.used && Proceed(w, w.process.value, id).Some?
    ensures Inv(Proceed(w, w.process.value, id).value)
  {
    hide Inv, ApplyStep, RunStep, JobStep, EnsureStep, StopStep, ServeStep;
    match w.process.value.pc
    case ApplySave(_) => ApplySaveKeepsInv(w, id);
    case ApplySubmit(_) => ApplySubmitKeepsInv(w, id);
    case Begin => ChooseKeepsInv(w, id);
    case ResumeCheck => ResumeCheckKeepsInv(w, id);
    case Choose => ChooseKeepsInv(w, id);
    case Restore => RestoreKeepsInv(w, id);
    case ChooseVerify => ChooseVerifyKeepsInv(w, id);
    case JobWait(_) => JobWaitKeepsInv(w, id);
    case JobIntent(_) => JobIntentKeepsInv(w, id);
    case JobLook(_, _) => JobLookKeepsInv(w, id);
    case JobRead(_) => JobReadKeepsInv(w, id);
    case JobAwait(_) => JobAwaitKeepsInv(w, id);
    case JobReturn(_, _) => JobReturnKeepsInv(w, id);
    case EnsureInitialization => EnsureInitializationKeepsInv(w, id);
    case EnsureCreate => EnsureCreateKeepsInv(w, id);
    case EnsureUid => EnsureUidKeepsInv(w, id);
    case EnsureStart => EnsureMoveKeepsInv(w, id);
    case EnsureReady => EnsureMoveKeepsInv(w, id);
    case EnsureLook(_) => EnsureMoveKeepsInv(w, id);
    case EnsureWatch => EnsureMoveKeepsInv(w, id);
    case StopLook => StopLookKeepsInv(w);
    case StopDelete(_) => StopDeleteKeepsInv(w);
    case StopWait(_) => StopWaitKeepsInv(w);
    case StopUnpin(_) => StopUnpinKeepsInv(w);
    case StopGone => StopGoneKeepsInv(w);
    case ServeBegin => ServeKeepsInv(w);
    case Finished =>
  }

  lemma DoKeepsInv(w: World, a: Action)
    requires Inv(w) && Do(w, a).Some?
    ensures Inv(Do(w, a).value)
  {
    match a
    case Launch(_) => hide PodsOk, JobsOk, DiskOk;
    case Crash => hide PodsOk, JobsOk, DiskOk;
    case Step(id) => hide Inv, Proceed; ProceedKeepsInv(w, id);
    case _ => hide Inv, Environment; EnvironmentKeepsInv(w, a);
  }

  lemma InitialInv(operation: nat)
    ensures Inv(Initial(operation))
  {
  }

  /** The invariant holds at every point of every run, whatever crashes and re-runs it has. */
  lemma {:induction false} RunsKeepInv(operation: nat, actions: seq<Action>)
    requires Run(Initial(operation), actions).Some?
    ensures Inv(Run(Initial(operation), actions).value)
  {
    hide Inv, Do, Initial;
    if actions == [] {
      InitialInv(operation);
    } else {
      RunsKeepInv(operation, Front(actions));
      DoKeepsInv(Run(Initial(operation), Front(actions)).value, Last(actions));
    }
  }

  // ---------------------------------------------------------------- which state files are loaded

  /** A proof names the Job and UID of its intent and carries the digest of the prepared installation. */
  ghost predicate ProofOfIntent(proof: Proof, intent: Option<Intent>, prepared: Option<Proof>) {
    && intent == Some(Intent(proof.job, Some(proof.jobUid)))
    && prepared.Some? && proof.digest == prepared.value.digest
  }

  /** How far the initialisation has come. */
  predicate InitializationStage(i: Initialization) {
    || i == Initialization(i.nonce, None, false, false, false)
    || (i.uid.Some? && (|| i == Initialization(i.nonce, i.uid, false, false, false)
                        || i == Initialization(i.nonce, i.uid, true, false, false)
                        || i == Initialization(i.nonce, i.uid, true, true, false)
                        || i == Initialization(i.nonce, i.uid, true, true, true)))
  }

  /**
   * A new process goes on exactly if none runs and the state file is coherent: intents are for Jobs of their
   * phases, proofs are those of the intents, only a permission proof has a mode, the initialisation is at one
   * of its five stages and rests on a first permission, and readiness rests on a recorded initialiser Pod.
   */
  lemma LaunchedExactly(w: World, operation: Operation)
    ensures Do(w, Launch(operation)).Some?
            <==> var v, prepared := w.disk.provider, w.disk.prepared;
                 && w.process.None?
                 && (v.startIntent.Some? ==> v.startIntent.value.job.phase == ProviderStart)
                 && (v.observeIntent.Some? ==> v.observeIntent.value.job.phase == ProviderObserve)
                 && (v.serveIntent.Some? ==> v.serveIntent.value.job.phase == ProviderObserve)
                 && (v.started.Some? ==>
                       ProofOfIntent(v.started.value, v.startIntent, prepared) && v.started.value.mode.Some?)
                 && (v.ready.Some? ==>
                       && ProofOfIntent(v.ready.value, v.observeIntent, prepared) && v.ready.value.mode.None?
                       && v.started.Some? && v.initialization.Some? && v.initialization.value.uid.Some?)
                 && (v.initialization.Some? ==>
                       && InitializationStage(v.initialization.value)
                       && v.started.Some? && v.started.value.mode == Some(InitializeOnce))
  {
  }

  // ---------------------------------------------------------------- what every run guarantees

  /** At most one initialiser Pod create and one provider-start submission are ever issued. */
  lemma AtMostOneInitializer(operation: nat, actions: seq<Action>)
    requires Run(Initial(operation), actions).Some?
    ensures var log := Run(Initial(operation), actions).value.log; log.creates <= 1 && log.startSubmits <= 1
  {
    RunsKeepInv(operation, actions);
  }

  /** Every saved state passes the check of the next process, which can therefore always start. */
  lemma SavedStateAlwaysLoads(operation: nat, actions: seq<Action>, next: Operation)
    requires Run(Initial(operation), actions).Some? && Run(Initial(operation), actions).value.process.None?
    ensures Do(Run(Initial(operation), actions).value, Launch(next)).Some?
  {
    RunsKeepInv(operation, actions);
  }

  /** All proofs carry the digest of the prepared installation, and readiness rests on a complete initialisation. */
  lemma ProofsAgree(operation: nat, actions: seq<Action>)
    requires Run(Initial(operation), actions).Some?
    ensures var s := Run(Initial(operation), actions).value.disk;
            && ProviderStateOk(s.provider, s.prepared)
            && (forall proof :: proof in [s.ready, s.provider.started, s.provider.ready] && proof.Some?
                  ==> s.prepared.Some? && proof.value.digest == s.prepared.value.digest)
            && (s.ready.Some? ==> InitializationComplete(s))
  {
    RunsKeepInv(operation, actions);
  }

  /** A completed initialisation is one whose very Pod terminated with exit code 0. */
  lemma CompletionIsEvidence(operation: nat, actions: seq<Action>)
    requires Run(Initial(operation), actions).Some?
    ensures var w := Run(Initial(operation), actions).value; var i := w.disk.provider.initialization;
            i.Some? && (i.value.complete || i.value.terminated)
            ==> i.value.uid.Some? && i.value.uid.value in w.log.cleanExits
  {
    RunsKeepInv(operation, actions);
  }

  /** A Pod loses its finalizer only after its termination is durable. */
  lemma FinalizerOutlivesEvidence(operation: nat, actions: seq<Action>, nonce: nat)
    requires Run(Initial(operation), actions).Some?
    requires var w := Run(Initial(operation), actions).value;
             nonce in w.log.landed && !(nonce in w.cluster.pods && w.cluster.pods[nonce].finalizer)
    ensures var s := Run(Initial(operation), actions).value.disk;
            IsNonce(s, nonce) && s.provider.initialization.value.terminated
  {
    RunsKeepInv(operation, actions);
  }

  /** No crash point lets `provider_stop` meet a vanished or foreign Pod without evidence. */
  lemma EvidenceIsNeverLost(operation: nat, actions: seq<Action>)
    requires Run(Initial(operation), actions).Some?
    requires var w := Run(Initial(operation), actions).value;
             w.process.Some? && (w.process.value.pc == StopLook || w.process.value.pc.StopWait?)
    ensures var w := Run(Initial(operation), actions).value; var i := w.disk.provider.initialization;
            && i.Some?
            && (FoundPod(w, i.value).None? ==> i.value.terminated)
            && (FoundPod(w, i.value).Some? ==> PodOk(FoundPod(w, i.value).value, i.value))
  {
    hide Run, Inv, PodOk, FoundPod;
    RunsKeepInv(operation, actions);
    StoppingHasEvidence(Run(Initial(operation), actions).value);
  }

  lemma StoppingHasEvidence(w: World)
    requires Inv(w) && w.process.Some? && (w.process.value.pc == StopLook || w.process.value.pc.StopWait?)
    ensures var i := w.disk.provider.initialization;
            && i.Some?
            && (FoundPod(w, i.value).None? ==> i.value.terminated)
            && (FoundPod(w, i.value).Some? ==> PodOk(FoundPod(w, i.value).value, i.value))
  {
    hide JobsOk;
  }

  /**
   * A prepare, provision or verify Job that was submitted and neither recorded as complete nor seen
   * failed and inactive by `resume` keeps its name: it is the current Job of the state file, so there is
   * at most one, and a rerun submits and awaits that one again.
   */
  lemma PendingJobsKeepTheirName(operation: nat, actions: seq<Action>, name: JobName)
    requires Run(Initial(operation), actions).Some?
    requires Lasting(name.phase) && Outstanding(Run(Initial(operation), actions).value, name)
    ensures name == Current(Run(Initial(operation), actions).value.disk)
  {
    RunsKeepInv(operation, actions);
  }
}
