/**
 * What an installer has itself done by the time it goes on: whoever provisions, verifies or finishes, other
 * than by `verify`, has observed the serving provider since it was launched, and whoever finishes has recorded a
 * proof since then.
 */
module ProviderHistory {
  import opened Common
  import opened ProviderMachine
  import opened ProviderSafety

  // ---------------------------------------------------------------- histories

  /** The world after the first `n` actions of a run. */
  function WorldAt(operation: nat, actions: seq<Action>, n: nat): Option<World>
    requires n <= |actions|
  {
    Run(Initial(operation), actions[..n])
  }

  /** The process that runs now, if one does, was launched by the action `k`. */
  predicate LaunchedAt(actions: seq<Action>, k: nat) {
    k < |actions| && actions[k].Launch? && forall j :: k < j < |actions| ==> !actions[j].Launch?
  }

  /** The action `i` recorded the intent for a new serving observation by the Job `job`. */
  predicate AskedAt(operation: nat, actions: seq<Action>, i: nat, job: JobName) {
    && i < |actions| && WorldAt(operation, actions, i).Some? && WorldAt(operation, actions, i + 1).Some?
    && WorldAt(operation, actions, i).value.disk.provider.serveIntent.None?
    && WorldAt(operation, actions, i + 1).value.disk.provider.serveIntent == Some(Intent(job, None))
  }

  /** In this world the Job has succeeded, with the digest of the prepared installation. */
  predicate SucceededIn(w: World, job: JobName) {
    && job in w.cluster.jobs && w.disk.prepared.Some?
    && var status := w.cluster.jobs[job].status; status.Succeeded? && status.digest == w.disk.prepared.value.digest
  }

  predicate SucceededAt(operation: nat, actions: seq<Action>, j: nat, job: JobName) {
    && j <= |actions| && WorldAt(operation, actions, j).Some?
    && SucceededIn(WorldAt(operation, actions, j).value, job)
  }

  /** The process that runs now has recorded the intent for this observation. */
  ghost predicate AskedHere(operation: nat, actions: seq<Action>, job: JobName) {
    exists k: nat, i: nat :: LaunchedAt(actions, k) && k < i && AskedAt(operation, actions, i, job)
  }

  /** It has recorded the intent for this observation, and after that the Job has succeeded. */
  ghost predicate ObservedHere(operation: nat, actions: seq<Action>, job: JobName) {
    exists k: nat, i: nat, j: nat ::
      && LaunchedAt(actions, k) && k < i < j
      && AskedAt(operation, actions, i, job) && SucceededAt(operation, actions, j, job)
  }

  /** It has recorded the completion of a provision or verify Job. */
  ghost predicate ProvenHere(operation: nat, actions: seq<Action>) {
    exists k: nat, i: nat :: LaunchedAt(actions, k) && k < i && RecordedAt(operation, actions, i)
  }

  predicate RecordedAt(operation: nat, actions: seq<Action>, i: nat) {
    && i < |actions| && WorldAt(operation, actions, i).Some? && WorldAt(operation, actions, i + 1).Some?
    && WorldAt(operation, actions, i + 1).value.disk.ready.Some?
    && WorldAt(operation, actions, i + 1).value.disk.ready != WorldAt(operation, actions, i).value.disk.ready
  }

  lemma SameWorlds(operation: nat, actions: seq<Action>, a: Action, n: nat)
    requires n <= |actions|
    ensures WorldAt(operation, actions + [a], n) == WorldAt(operation, actions, n)
  {
    assert (actions + [a])[..n] == actions[..n];
  }

  lemma LastWorlds(operation: nat, actions: seq<Action>, a: Action)
    ensures WorldAt(operation, actions, |actions|) == Run(Initial(operation), actions)
    ensures WorldAt(operation, actions + [a], |actions|) == Run(Initial(operation), actions)
    ensures WorldAt(operation, actions + [a], |actions| + 1) == Run(Initial(operation), actions + [a])
  {
    hide Run;
    assert actions[..|actions|] == actions && (actions + [a])[..|actions|] == actions;
    assert (actions + [a])[..|actions| + 1] == actions + [a];
  }

  lemma StillLaunched(actions: seq<Action>, a: Action, k: nat)
    requires LaunchedAt(actions, k) && !a.Launch?
    ensures LaunchedAt(actions + [a], k)
  {
  }

  /** What has been done stays done until the next launch. */
  lemma DoneStaysDone(operation: nat, actions: seq<Action>, a: Action, job: JobName)
    requires !a.Launch?
    ensures AskedHere(operation, actions, job) ==> AskedHere(operation, actions + [a], job)
    ensures ObservedHere(operation, actions, job) ==> ObservedHere(operation, actions + [a], job)
    ensures ProvenHere(operation, actions) ==> ProvenHere(operation, actions + [a])
  {
    hide WorldAt, LaunchedAt, SucceededIn;
    forall n: nat | n <= |actions|
      ensures WorldAt(operation, actions + [a], n) == WorldAt(operation, actions, n)
    {
      SameWorlds(operation, actions, a, n);
    }
    forall k: nat | LaunchedAt(actions, k)
      ensures LaunchedAt(actions + [a], k)
    {
      StillLaunched(actions, a, k);
    }
    if AskedHere(operation, actions, job) {
      var k: nat, i: nat :| LaunchedAt(actions, k) && k < i && AskedAt(operation, actions, i, job);
      assert AskedAt(operation, actions + [a], i, job);
    }
    if ObservedHere(operation, actions, job) {
      var k: nat, i: nat, j: nat :|
        && LaunchedAt(actions, k) && k < i < j
        && AskedAt(operation, actions, i, job) && SucceededAt(operation, actions, j, job);
      assert AskedAt(operation, actions + [a], i, job) && SucceededAt(operation, actions + [a], j, job);
    }
    if ProvenHere(operation, actions) {
      var k: nat, i: nat :| LaunchedAt(actions, k) && k < i && RecordedAt(operation, actions, i);
      assert RecordedAt(operation, actions + [a], i);
    }
  }

  // ---------------------------------------------------------------- what each program point needs

  predicate InServingJob(pc: Pc) {
    match pc
    case JobLook(key, _) => key == ServeKey
    case ApplySave(site) => site == ForProviderJob(ServeKey)
    case ApplySubmit(site) => site == ForProviderJob(ServeKey)
    case JobRead(key) => key == ServeKey
    case JobAwait(key) => key == ServeKey
    case JobReturn(key, _) => key == ServeKey
    case _ => false
  }

  predicate AfterObservation(pc: Pc) {
    match pc
    case Restore => true
    case ChooseVerify => true
    case ApplySave(site) => site in {ForJob(Provision), ForJob(Verify), ForServing}
    case ApplySubmit(site) => site in {ForJob(Provision), ForJob(Verify), ForServing}
    case JobWait(phase) => phase in {Provision, Verify}
    case Finished => true
    case _ => false
  }

  predicate AfterProof(pc: Pc) {
    pc in {ApplySave(ForServing), ApplySubmit(ForServing), Finished}
  }

  datatype Need = Nothing | Asked(job: JobName) | Observed(job: JobName) | ObservedSome

  /** What the process must have done to be where it is. */
  function NeedOf(w: World): Need {
    if w.process.None? then Nothing
    else
      var p, intent := w.process.value, w.disk.provider.serveIntent;
      if p.operation != VerifyOnly && AfterObservation(p.pc) then ObservedSome
      else if !InServingJob(p.pc) || p.resolving || intent.None? then Nothing
      else if p.pc.JobReturn? && p.pc.proof.Some? then Observed(intent.value.job)
      else Asked(intent.value.job)
  }

  /** An old intent is resolved first, and only `verify` ends without observing. */
  predicate Routed(w: World) {
    w.process.Some? ==>
      var p := w.process.value;
      && (p.pc == JobIntent(ServeKey) ==> (p.resolving <==> w.disk.provider.serveIntent.Some?))
      && (InServingJob(p.pc) ==> w.disk.provider.serveIntent.Some?)
      && (p.operation == VerifyOnly ==> OfVerify(p))
      && (p.pc == ApplySave(ForServing) ==> p.operation != VerifyOnly)
      && (p.pc == ApplySubmit(ForServing) ==> w.disk.phase == Serving)
      && (p.pc == Finished && p.operation != VerifyOnly ==> w.disk.phase == Serving)
  }

  /** Where a `verify` process may be. */
  predicate OfVerify(p: Process) {
    match p.pc
    case Begin => true
    case ResumeCheck => true
    case Choose => true
    case Restore => p.mem.ready.Some?
    case ChooseVerify => true
    case ApplySave(site) => site == ForJob(Verify)
    case ApplySubmit(site) => site == ForJob(Verify)
    case JobWait(phase) => phase == Verify
    case Finished => true
    case _ => false
  }

  /** What the step from `w` to `w'` does for the needs of the process. */
  ghost predicate NeedMet(w: World, w': World) {
    match NeedOf(w')
    case Nothing => true
    case Asked(job) =>
      || NeedOf(w) == Asked(job)
      || (w.disk.provider.serveIntent.None? && w'.disk.provider.serveIntent == Some(Intent(job, None)))
    case Observed(job) => NeedOf(w) == Observed(job) || (NeedOf(w) == Asked(job) && SucceededIn(w, job))
    case ObservedSome => NeedOf(w).ObservedSome? || NeedOf(w).Observed?
  }

  predicate ProofMet(w: World, w': World) {
    w'.process.Some? && AfterProof(w'.process.value.pc) ==>
      || (w.process.Some? && AfterProof(w.process.value.pc))
      || (w'.disk.ready.Some? && w'.disk.ready != w.disk.ready)
  }

  lemma IntentMeets(w: World, id: nat)
    requires Routed(w) && w.process.Some? && w.process.value.mem == w.disk
    requires w.process.value.pc.JobIntent? && JobStep(w, w.process.value, id).Some?
    ensures var w' := JobStep(w, w.process.value, id).value; Routed(w') && NeedMet(w, w') && ProofMet(w, w')
  {
  }

  lemma LookMeets(w: World, id: nat)
    requires Routed(w) && w.process.Some? && w.process.value.mem == w.disk
    requires w.process.value.pc.JobLook? && JobStep(w, w.process.value, id).Some?
    ensures var w' := JobStep(w, w.process.value, id).value; Routed(w') && NeedMet(w, w') && ProofMet(w, w')
  {
  }

  lemma ReadMeets(w: World, id: nat)
    requires Routed(w) && w.process.Some? && w.process.value.mem == w.disk
    requires w.process.value.pc.JobRead? && JobStep(w, w.process.value, id).Some?
    ensures var w' := JobStep(w, w.process.value, id).value; Routed(w') && NeedMet(w, w') && ProofMet(w, w')
  {
  }

  lemma AwaitMeets(w: World, id: nat)
    requires Routed(w) && w.process.Some? && w.process.value.mem == w.disk
    requires w.process.value.pc.JobAwait? && JobStep(w, w.process.value, id).Some?
    ensures var w' := JobStep(w, w.process.value, id).value; Routed(w') && NeedMet(w, w') && ProofMet(w, w')
  {
  }

  lemma ReturnMeets(w: World, id: nat)
    requires Routed(w) && w.process.Some? && w.process.value.mem == w.disk
    requires w.process.value.pc.JobReturn? && JobStep(w, w.process.value, id).Some?
    ensures var w' := JobStep(w, w.process.value, id).value; Routed(w') && NeedMet(w, w') && ProofMet(w, w')
  {
  }

  lemma JobStepMeets(w: World, id: nat)
    requires Routed(w) && w.process.Some? && w.process.value.mem == w.disk && JobStep(w, w.process.value, id).Some?
    ensures var w' := JobStep(w, w.process.value, id).value; Routed(w') && NeedMet(w, w') && ProofMet(w, w')
  {
    var pc := w.process.value.pc;
    assert pc.JobIntent? || pc.JobLook? || pc.JobRead? || pc.JobAwait? || pc.JobReturn?;
    hide Routed, NeedMet, ProofMet, JobStep;
    if pc.JobIntent? {
      IntentMeets(w, id);
    } else if pc.JobLook? {
      LookMeets(w, id);
    } else if pc.JobRead? {
      ReadMeets(w, id);
    } else if pc.JobAwait? {
      AwaitMeets(w, id);
    } else {
      ReturnMeets(w, id);
    }
  }

  lemma RunStepMeets(w: World, id: nat)
    requires Inv(w) && Routed(w) && w.process.Some? && RunStep(w, w.process.value, id).Some?
    ensures var w' := RunStep(w, w.process.value, id).value; Routed(w') && NeedMet(w, w') && ProofMet(w, w')
  {
    hide PodsOk, JobsOk, DiskOk;
  }

  lemma ApplyStepMeets(w: World, id: nat)
    requires Inv(w) && Routed(w) && w.process.Some?
    requires w.process.value.pc.ApplySave? || w.process.value.pc.ApplySubmit?
    ensures var w' := ApplyStep(w, w.process.value, id).value; Routed(w') && NeedMet(w, w') && ProofMet(w, w')
  {
    assert w.process.value.mem == w.disk;
    hide Inv;
  }

  lemma EnsureStepMeets(w: World, id: nat)
    requires Routed(w) && w.process.Some? && w.process.value.mem == w.disk && EnsureStep(w, w.process.value, id).Some?
    ensures var w' := EnsureStep(w, w.process.value, id).value; Routed(w') && NeedMet(w, w') && ProofMet(w, w')
  {
  }

  lemma StopStepMeets(w: World)
    requires Routed(w) && w.process.Some? && w.process.value.mem == w.disk && StopStep(w, w.process.value).Some?
    ensures var w' := StopStep(w, w.process.value).value; Routed(w') && NeedMet(w, w') && ProofMet(w, w')
  {
  }

  lemma ServeStepMeets(w: World)
    requires Routed(w) && w.process.Some? && w.process.value.mem == w.disk && w.process.value.pc == ServeBegin
    requires ServeStep(w, w.process.value).Some?
    ensures var w' := ServeStep(w, w.process.value).value; Routed(w') && NeedMet(w, w') && ProofMet(w, w')
  {
  }

  lemma StepMeets(w: World, id: nat)
    requires Inv(w) && Routed(w) && w.process.Some? && Proceed(w, w.process.value, id).Some?
    ensures var w' := Proceed(w, w.process.value, id).value; Routed(w') && NeedMet(w, w') && ProofMet(w, w')
  {
    assert w.process.value.mem == w.disk;
    hide Inv, Routed, NeedMet, ProofMet, ApplyStep, RunStep, JobStep, EnsureStep, StopStep, ServeStep;
    var p, next := w.process.value, Proceed(w, w.process.value, id);
    if p.pc.ApplySave? || p.pc.ApplySubmit? {
      ApplyStepMeets(w, id);
    } else if next == RunStep(w, p, id) {
      RunStepMeets(w, id);
    } else if next == JobStep(w, p, id) {
      JobStepMeets(w, id);
    } else if p.pc == ServeBegin {
      ServeStepMeets(w);
    } else if next == EnsureStep(w, p, id) {
      EnsureStepMeets(w, id);
    } else {
      StopStepMeets(w);
    }
  }

  /** Nothing but a step of the process changes what it needs. */
  lemma OthersMeet(w: World, a: Action)
    requires Routed(w) && Do(w, a).Some? && !a.Step?
    ensures var w' := Do(w, a).value;
            && Routed(w') && ProofMet(w, w')
            && (a.Launch? ==> NeedOf(w') == Nothing && w'.process.Some? && !AfterProof(w'.process.value.pc))
            && (!a.Launch? ==> NeedOf(w') == Nothing || NeedOf(w') == NeedOf(w))
  {
    if !a.Launch? && !a.Crash? {
      hide Environment;
      EnvironmentLeavesInstaller(w, a);
    }
  }

  // ---------------------------------------------------------------- runs

  /** What the process needs at the end of the run, it has done. */
  ghost predicate NeedsDone(operation: nat, actions: seq<Action>)
    requires Run(Initial(operation), actions).Some?
  {
    var w := Run(Initial(operation), actions).value;
    && (w.process.Some? ==> exists k: nat :: LaunchedAt(actions, k))
    && (w.process.Some? && AfterProof(w.process.value.pc) ==> ProvenHere(operation, actions))
    && match NeedOf(w)
       case Nothing => true
       case Asked(job) => AskedHere(operation, actions, job)
       case Observed(job) => ObservedHere(operation, actions, job)
       case ObservedSome => exists job :: ObservedHere(operation, actions, job)
  }

  lemma AskingDone(operation: nat, actions: seq<Action>, a: Action, job: JobName)
    requires Run(Initial(operation), actions).Some? && Run(Initial(operation), actions + [a]).Some? && !a.Launch?
    requires exists k: nat :: LaunchedAt(actions, k)
    requires Run(Initial(operation), actions).value.disk.provider.serveIntent.None?
    requires Run(Initial(operation), actions + [a]).value.disk.provider.serveIntent == Some(Intent(job, None))
    ensures AskedHere(operation, actions + [a], job)
  {
    var k: nat :| LaunchedAt(actions, k);
    StillLaunched(actions, a, k);
    LastWorlds(operation, actions, a);
    hide Run, WorldAt;
    assert AskedAt(operation, actions + [a], |actions|, job);
  }

  lemma ObservingDone(operation: nat, actions: seq<Action>, a: Action, job: JobName)
    requires Run(Initial(operation), actions).Some? && !a.Launch?
    requires AskedHere(operation, actions, job) && SucceededIn(Run(Initial(operation), actions).value, job)
    ensures ObservedHere(operation, actions + [a], job)
  {
    LastWorlds(operation, actions, a);
    hide Run, WorldAt, SucceededIn;
    var k: nat, i: nat :| LaunchedAt(actions, k) && k < i && AskedAt(operation, actions, i, job);
    StillLaunched(actions, a, k);
    SameWorlds(operation, actions, a, i);
    SameWorlds(operation, actions, a, i + 1);
    assert AskedAt(operation, actions + [a], i, job) && SucceededAt(operation, actions + [a], |actions|, job);
  }

  lemma ProvingDone(operation: nat, actions: seq<Action>, a: Action)
    requires Run(Initial(operation), actions).Some? && Run(Initial(operation), actions + [a]).Some? && !a.Launch?
    requires exists k: nat :: LaunchedAt(actions, k)
    requires Run(Initial(operation), actions + [a]).value.disk.ready.Some?
    requires Run(Initial(operation), actions + [a]).value.disk.ready
             != Run(Initial(operation), actions).value.disk.ready
    ensures ProvenHere(operation, actions + [a])
  {
    var k: nat :| LaunchedAt(actions, k);
    StillLaunched(actions, a, k);
    LastWorlds(operation, actions, a);
    hide Run, WorldAt;
    assert RecordedAt(operation, actions + [a], |actions|);
  }

  lemma OneMoreStep(operation: nat, actions: seq<Action>, id: nat)
    requires Run(Initial(operation), actions).Some? && Run(Initial(operation), actions + [Step(id)]).Some?
    requires NeedsDone(operation, actions)
    requires var w, w' := Run(Initial(operation), actions).value, Run(Initial(operation), actions + [Step(id)]).value;
             w.process.Some? && NeedMet(w, w') && ProofMet(w, w')
    ensures NeedsDone(operation, actions + [Step(id)])
  {
    hide Run, Initial, AskedHere, ObservedHere, ProvenHere, LaunchedAt, SucceededIn, AfterProof;
    var a := Step(id);
    var w, w' := Run(Initial(operation), actions).value, Run(Initial(operation), actions + [a]).value;
    var k: nat :| LaunchedAt(actions, k);
    StillLaunched(actions, a, k);
    forall job
      ensures AskedHere(operation, actions, job) ==> AskedHere(operation, actions + [a], job)
      ensures ObservedHere(operation, actions, job) ==> ObservedHere(operation, actions + [a], job)
      ensures ProvenHere(operation, actions) ==> ProvenHere(operation, actions + [a])
    {
      DoneStaysDone(operation, actions, a, job);
    }
    DoneStaysDone(operation, actions, a, JobName(Verify, 0));
    if w'.process.Some? && AfterProof(w'.process.value.pc) && !AfterProof(w.process.value.pc) {
      ProvingDone(operation, actions, a);
    }
    match NeedOf(w')
    case Nothing =>
    case Asked(job) =>
      if NeedOf(w) != Asked(job) {
        AskingDone(operation, actions, a, job);
      }
    case Observed(job) =>
      if NeedOf(w) != Observed(job) {
        ObservingDone(operation, actions, a, job);
      }
    case ObservedSome =>
      if NeedOf(w).Observed? {
        assert ObservedHere(operation, actions + [a], NeedOf(w).job);
      }
  }

  lemma OneMoreAction(operation: nat, actions: seq<Action>, a: Action)
    requires Run(Initial(operation), actions).Some? && Run(Initial(operation), actions + [a]).Some? && !a.Step?
    requires NeedsDone(operation, actions)
    requires var w, w' := Run(Initial(operation), actions).value, Run(Initial(operation), actions + [a]).value;
             && (a.Launch? ==> NeedOf(w') == Nothing && w'.process.Some? && !AfterProof(w'.process.value.pc))
             && (!a.Launch? ==> (NeedOf(w') == Nothing || NeedOf(w') == NeedOf(w))
                                && (w'.process == w.process || w'.process.None?))
    ensures NeedsDone(operation, actions + [a])
  {
    hide Run, Initial, AskedHere, ObservedHere, ProvenHere, AfterProof;
    if a.Launch? {
      assert LaunchedAt(actions + [a], |actions|);
    } else {
      forall job
        ensures AskedHere(operation, actions, job) ==> AskedHere(operation, actions + [a], job)
        ensures ObservedHere(operation, actions, job) ==> ObservedHere(operation, actions + [a], job)
        ensures ProvenHere(operation, actions) ==> ProvenHere(operation, actions + [a])
      {
        DoneStaysDone(operation, actions, a, job);
      }
      DoneStaysDone(operation, actions, a, JobName(Verify, 0));
      if k: nat :| LaunchedAt(actions, k) {
        StillLaunched(actions, a, k);
      }
    }
  }

  lemma ProcessAfter(w: World, a: Action)
    requires Do(w, a).Some? && !a.Step? && !a.Launch?
    ensures Do(w, a).value.process == w.process || Do(w, a).value.process.None?
  {
    if !a.Crash? {
      hide Environment;
      EnvironmentLeavesInstaller(w, a);
    }
  }

  lemma {:induction false} RunsMeetNeeds(operation: nat, actions: seq<Action>)
    requires Run(Initial(operation), actions).Some?
    ensures Routed(Run(Initial(operation), actions).value) && NeedsDone(operation, actions)
  {
    if actions != [] {
      var front, a := Front(actions), Last(actions);
      assert actions == front + [a];
      RunsMeetNeeds(operation, front);
      RunsKeepInv(operation, front);
      var w := Run(Initial(operation), front).value;
      hide Inv, Routed, NeedsDone, NeedMet, ProofMet, NeedOf, Proceed, Environment, Initial, AfterProof;
      if a.Step? {
        StepMeets(w, a.id);
        OneMoreStep(operation, front, a.id);
      } else {
        OthersMeet(w, a);
        if !a.Launch? {
          ProcessAfter(w, a);
        }
        OneMoreAction(operation, front, a);
      }
    }
  }

  /**
   * A process of `up` or `resume` that is about to submit a provision or verify Job, or that has finished, has
   * since its launch recorded the intent for a serving observation, and that Job has then succeeded with the
   * digest of the prepared installation.
   */
  lemma ServingIsObserved(operation: nat, actions: seq<Action>)
    requires Run(Initial(operation), actions).Some? && Run(Initial(operation), actions).value.process.Some?
    requires var p := Run(Initial(operation), actions).value.process.value;
             && p.operation != VerifyOnly
             && p.pc in {ApplySubmit(ForJob(Provision)), ApplySubmit(ForJob(Verify)), Finished}
    ensures exists job :: ObservedHere(operation, actions, job)
  {
    RunsMeetNeeds(operation, actions);
  }

  /** A finished process has recorded a completion since its launch; `up` and `resume` leave the serving phase. */
  lemma FinishedIsProven(operation: nat, actions: seq<Action>)
    requires Run(Initial(operation), actions).Some? && Run(Initial(operation), actions).value.process.Some?
    requires Run(Initial(operation), actions).value.process.value.pc == Finished
    ensures ProvenHere(operation, actions)
    ensures var w := Run(Initial(operation), actions).value;
            && w.disk.ready.Some?
            && (w.process.value.operation != VerifyOnly ==> w.disk.phase == Serving)
  {
    RunsMeetNeeds(operation, actions);
    RunsKeepInv(operation, actions);
    hide Run;
  }

  /** `verify` records nothing about the provider, and asks the cluster for nothing but a verify Job. */
  lemma VerifyOnlyVerifies(operation: nat, actions: seq<Action>, id: nat)
    requires Run(Initial(operation), actions + [Step(id)]).Some?
    ensures Run(Initial(operation), actions).Some? && Run(Initial(operation), actions).value.process.Some?
    ensures Run(Initial(operation), actions).value.process.value.operation == VerifyOnly ==>
              var w, w' := Run(Initial(operation), actions).value, Run(Initial(operation), actions + [Step(id)]).value;
              && w'.disk.provider == w.disk.provider && w'.disk.prepared == w.disk.prepared
              && w'.cluster.pods == w.cluster.pods && w'.cluster.podRequests == w.cluster.podRequests
              && w'.cluster.jobs == w.cluster.jobs
              && (w'.cluster.jobRequests == w.cluster.jobRequests
                  || exists job: JobName ::
                       job.phase == Verify && w'.cluster.jobRequests == w.cluster.jobRequests + {job})
  {
    assert Front(actions + [Step(id)]) == actions && Last(actions + [Step(id)]) == Step(id);
    hide Inv, Routed, NeedsDone, Initial, Proceed, OfVerify;
    RunsMeetNeeds(operation, actions);
    RunsKeepInv(operation, actions);
    var w := Run(Initial(operation), actions).value;
    if w.process.value.operation == VerifyOnly {
      VerifyIsRouted(w);
      OfVerifySteps(w, id);
    }
  }

  lemma VerifyIsRouted(w: World)
    requires Routed(w) && w.process.Some? && w.process.value.operation == VerifyOnly
    ensures OfVerify(w.process.value)
  {
  }

  lemma OfVerifySteps(w: World, id: nat)
    requires Inv(w) && w.process.Some? && Proceed(w, w.process.value, id).Some?
    requires w.process.value.operation == VerifyOnly && OfVerify(w.process.value)
    ensures var w' := Proceed(w, w.process.value, id).value;
            && w'.disk.provider == w.disk.provider && w'.disk.prepared == w.disk.prepared
            && w'.cluster.pods == w.cluster.pods && w'.cluster.podRequests == w.cluster.podRequests
            && w'.cluster.jobs == w.cluster.jobs
            && (w'.cluster.jobRequests == w.cluster.jobRequests
                || exists job: JobName ::
                     job.phase == Verify && w'.cluster.jobRequests == w.cluster.jobRequests + {job})
  {
    assert w.process.value.mem == w.disk;
    hide Inv, JobStep, EnsureStep, StopStep, ServeStep;
    if w.process.value.pc.ApplySubmit? {
      var job := JobName(Verify, w.disk.operation);
      assert Proceed(w, w.process.value, id).value.cluster.jobRequests == w.cluster.jobRequests + {job};
    }
  }
}
