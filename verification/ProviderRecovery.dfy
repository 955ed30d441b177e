/**
 * From everywhere else an installer can still finish: the run that does it is built step by step, with a
 * cluster that cooperates. Together with `ProviderDeadEnds` this says exactly which crashes are final.
 */
module ProviderRecovery {
  import opened Common
  import opened ProviderMachine
  import opened ProviderSafety
  import opened ProviderDeadEnds

  // ---------------------------------------------------------------- building a run

  /** Some run in which nobody deletes a Job leads from `from` to `w`. */
  ghost predicate Leads(from: World, w: World) {
    exists actions :: JobsStay(actions) && Run(from, actions) == Some(w)
  }

  /** A run from `from` has come to `w`, and everything the invariants say holds there. */
  ghost predicate Reach(from: World, w: World) {
    Leads(from, w) && Inv(w) && Recorded(w)
  }

  predicate At(w: World, operation: Operation, pc: Pc) {
    && w.process.Some? && w.process.value.mem == w.disk
    && w.process.value.operation == operation && w.process.value.pc == pc
  }

  /** One more action. */
  lemma Act(from: World, w: World, a: Action) returns (w': World)
    requires Reach(from, w) && Do(w, a).Some? && !a.JobVanishes?
    ensures w' == Do(w, a).value && Reach(from, w')
    ensures w'.process.Some? ==> w'.process.value.mem == w'.disk
  {
    w' := Do(w, a).value;
    DoKeepsInv(w, a);
    DoKeepsRecorded(w, a);
    assert w'.process.Some? ==> w'.process.value.mem == w'.disk;
    hide Inv, Recorded, Do;
    var actions :| JobsStay(actions) && Run(from, actions) == Some(w);
    assert JobsStay(actions + [a]);
    assert Front(actions + [a]) == actions && Last(actions + [a]) == a;
    assert Run(from, actions + [a]) == Some(w');
  }

  lemma {:induction false} Unused(s: set<nat>) returns (id: nat)
    ensures forall n :: n in s ==> n < id
  {
    if s == {} {
      id := 0;
    } else {
      var n :| n in s;
      var bound := Unused(s - {n});
      id := if n < bound then bound else n + 1;
      assert forall m :: m in s ==> m == n || m in s - {n};
    }
  }

  /** An identifier that occurs nowhere in the world. */
  lemma NewId(w: World) returns (id: nat)
    ensures id !in w.log.used && id !in w.cluster.pods && id !in w.log.landed
    ensures forall phase :: JobName(phase, id) !in w.cluster.jobs
  {
    var taken := w.log.used + w.cluster.pods.Keys + w.log.landed + set n | n in w.cluster.jobs :: n.operation;
    id := Unused(taken);
    assert id !in taken;
    forall phase
      ensures JobName(phase, id) !in w.cluster.jobs
    {
      assert JobName(phase, id).operation == id;
    }
  }

  /** One step of the installer. */
  lemma Take(from: World, w: World, id: nat) returns (w': World)
    requires Reach(from, w) && w.process.Some? && id !in w.log.used && Proceed(w, w.process.value, id).Some?
    ensures w' == Proceed(w, w.process.value, id).value && Reach(from, w')
    ensures w'.process.Some? ==> w'.process.value.mem == w'.disk
  {
    hide Reach, Proceed;
    w' := Act(from, w, Step(id));
  }

  // ---------------------------------------------------------------- Jobs

  /** Only Jobs have changed. */
  predicate OnlyJobs(w: World, w': World) {
    && w'.disk == w.disk && w'.process == w.process
    && w'.cluster.pods == w.cluster.pods && w'.cluster.podRequests == w.cluster.podRequests
  }

  /** The lasting Jobs of `w` are those of `w'`. */
  ghost predicate SameLasting(w: World, w': World) {
    forall n: JobName :: Lasting(n.phase) ==> Found(w, n) == Found(w', n)
  }

  /**
   * The current lasting Job does not stand in the way: it is not there yet, or it has succeeded, and for
   * this installation if the result is still needed.
   */
  predicate Calm(w: World) {
    var s := w.disk;
    Lasting(s.phase) && Current(s) in w.cluster.jobs ==>
      var status := w.cluster.jobs[Current(s)].status;
      && status.Succeeded?
      && (s.prepared.Some? && s.phase == TargetPhase(s) && Unrecorded(s) ==> status.digest == s.prepared.value.digest)
  }

  /** A requested Job comes into being and succeeds. */
  lemma JobSucceeds(from: World, w: World, name: JobName, digest: nat) returns (w': World)
    requires Reach(from, w) && name in w.cluster.jobRequests && name !in w.cluster.jobs
    ensures Reach(from, w') && OnlyJobs(w, w')
    ensures name in w'.cluster.jobs && w'.cluster.jobs[name].status == Succeeded(digest, InitializeOnce, 0)
    ensures !Lasting(name.phase) ==> SameLasting(w, w')
  {
    hide Reach, Proceed;
    var uid := NewId(w);
    var w1 := Act(from, w, JobLands(name, uid));
    w' := Act(from, w1, JobEnds(name, Succeeded(digest, InitializeOnce, 0)));
  }

  /** The answer of the Job of an intent. */
  predicate Answered(w: World, key: Key) {
    && w.disk.prepared.Some? && IntentOf(w.disk.provider, key).Some?
    && var intent := IntentOf(w.disk.provider, key).value;
       && intent.job in w.cluster.jobs && (intent.uid.None? || intent.uid.value == w.cluster.jobs[intent.job].uid)
       && !w.cluster.jobs[intent.job].status.Active?
       && MayHelp(w.cluster.jobs[intent.job], key, w.disk.prepared.value.digest)
  }

  lemma IntentIsNotLasting(w: World, key: Key)
    requires Inv(w) && IntentOf(w.disk.provider, key).Some?
    ensures !Lasting(IntentOf(w.disk.provider, key).value.job.phase)
  {
    hide PodsOk, JobsOk;
  }

  /** An intent that is not lost gets its answer. */
  lemma JobArrives(from: World, w: World, key: Key) returns (w': World)
    requires Reach(from, w) && w.disk.prepared.Some? && IntentOf(w.disk.provider, key).Some? && !JobLost(w, key)
    ensures Reach(from, w') && OnlyJobs(w, w') && Answered(w', key) && SameLasting(w, w')
  {
    IntentIsNotLasting(w, key);
    hide Reach, Proceed;
    var intent := IntentOf(w.disk.provider, key).value;
    var digest := w.disk.prepared.value.digest;
    if intent.job !in w.cluster.jobs {
      w' := JobSucceeds(from, w, intent.job, digest);
    } else if w.cluster.jobs[intent.job].status.Active? {
      w' := Act(from, w, JobEnds(intent.job, Succeeded(digest, InitializeOnce, 0)));
    } else {
      w' := w;
    }
  }

  /** What `provider_job` leaves behind besides its result. */
  predicate OnlyIntent(w: World, w': World, key: Key) {
    && w'.disk.prepared == w.disk.prepared && w'.disk.ready == w.disk.ready
    && IntentOf(w'.disk.provider, key).Some?
    && w'.disk.provider == WithIntent(w.disk.provider, key, IntentOf(w'.disk.provider, key))
    && w'.cluster.pods == w.cluster.pods && w'.cluster.podRequests == w.cluster.podRequests
    && w'.process.Some? && w.process.Some? && w'.process.value.resolving == w.process.value.resolving
    && (Calm(w) ==> Calm(w'))
  }

  /** `provider_job` has an answer that the installer can use. */
  predicate Returned(w: World, operation: Operation, key: Key) {
    && w.process.Some? && w.process.value.pc.JobReturn? && At(w, operation, JobReturn(key, w.process.value.pc.proof))
    && var proof := w.process.value.pc.proof;
       if key == StartKey then proof.Some? && proof.value.mode == Some(InitializeOnce)
       else proof.Some? ==> proof.value.mode.None?
  }

  lemma ReadAnswer(from: World, w: World, operation: Operation, key: Key) returns (w': World)
    requires Reach(from, w) && At(w, operation, JobRead(key)) && Answered(w, key)
    ensures Reach(from, w') && OnlyIntent(w, w', key) && Returned(w', operation, key)
    ensures w.cluster.jobs[IntentOf(w.disk.provider, key).value.job].status.Succeeded?
            ==> w'.process.value.pc.proof.Some?
  {
    hide Reach;
    var id := NewId(w);
    var w1 := Take(from, w, id);
    w' := Take(from, w1, id);
  }

  /** A first intent is recorded. */
  lemma RecordIntent(from: World, w: World, operation: Operation, key: Key) returns (w': World)
    requires Reach(from, w) && At(w, operation, JobIntent(key))
    requires w.disk.prepared.Some? && IntentOf(w.disk.provider, key).None?
    ensures Reach(from, w') && OnlyIntent(w, w', key) && At(w', operation, JobLook(key, true))
    ensures var intent := IntentOf(w'.disk.provider, key).value;
            && intent.uid.None? && intent.job.phase == KeyPhase(key) && intent.job !in w'.cluster.jobs
            && (key != ServeKey ==> Current(w'.disk) == intent.job)
  {
    hide Reach;
    var id := NewId(w);
    w' := Take(from, w, id);
  }

  /** And its Job requested. */
  lemma AskJob(from: World, w: World, operation: Operation, key: Key) returns (w': World)
    requires Reach(from, w) && At(w, operation, JobIntent(key))
    requires w.disk.prepared.Some? && IntentOf(w.disk.provider, key).None?
    ensures Reach(from, w') && OnlyIntent(w, w', key) && At(w', operation, JobRead(key))
    ensures var intent := IntentOf(w'.disk.provider, key).value;
            && intent.uid.None? && intent.job in w'.cluster.jobRequests && intent.job !in w'.cluster.jobs
            && !Lasting(intent.job.phase)
  {
    hide Reach, Proceed;
    var w1 := RecordIntent(from, w, operation, key);
    w' := RequestJob(from, w1, operation, key);
  }

  lemma RequestJob(from: World, w: World, operation: Operation, key: Key) returns (w': World)
    requires Reach(from, w) && At(w, operation, JobLook(key, true)) && IntentOf(w.disk.provider, key).Some?
    requires IntentOf(w.disk.provider, key).value.job !in w.cluster.jobs
    requires key != ServeKey ==>
               Current(w.disk) == IntentOf(w.disk.provider, key).value.job && w.disk.phase == KeyPhase(key)
    ensures Reach(from, w') && At(w', operation, JobRead(key)) && w'.disk == w.disk
    ensures w'.process.value.resolving == w.process.value.resolving
    ensures w'.cluster == w.cluster.(jobRequests := w'.cluster.jobRequests)
    ensures IntentOf(w.disk.provider, key).value.job in w'.cluster.jobRequests
  {
    hide Reach;
    var id := NewId(w);
    var w1 := Take(from, w, id);
    var w2 := Take(from, w1, id);
    var id2 := NewId(w2);
    w' := Take(from, w2, id2);
  }

  lemma NewJob(from: World, w: World, operation: Operation, key: Key) returns (w': World)
    requires Reach(from, w) && At(w, operation, JobIntent(key))
    requires w.disk.prepared.Some? && IntentOf(w.disk.provider, key).None?
    ensures Reach(from, w') && OnlyIntent(w, w', key) && Returned(w', operation, key)
    ensures w'.process.value.pc.proof.Some?
  {
    hide Reach, Proceed;
    var w1 := AskJob(from, w, operation, key);
    var name := IntentOf(w1.disk.provider, key).value.job;
    var w2 := JobSucceeds(from, w1, name, w1.disk.prepared.value.digest);
    w' := ReadAnswer(from, w2, operation, key);
  }

  lemma OldJob(from: World, w: World, operation: Operation, key: Key) returns (w': World)
    requires Reach(from, w) && At(w, operation, JobIntent(key))
    requires w.disk.prepared.Some? && IntentOf(w.disk.provider, key).Some? && !JobLost(w, key)
    ensures Reach(from, w') && OnlyIntent(w, w', key) && Returned(w', operation, key)
  {
    hide Reach;
    var w1 := JobArrives(from, w, key);
    var id := NewId(w1);
    var w2 := Take(from, w1, id);
    var w3 := Take(from, w2, id);
    hide Proceed;
    w' := ReadAnswer(from, w3, operation, key);
  }

  // ---------------------------------------------------------------- the lasting Jobs

  lemma WaitFacts(w: World, phase: Phase)
    requires Inv(w) && w.process.Some? && w.process.value.pc == ApplySave(ForJob(phase))
    ensures if phase == Prepare then w.disk.prepared.None?
            else w.disk.prepared.Some? && phase == TargetPhase(w.disk) && Unrecorded(w.disk)
  {
    hide PodsOk, JobsOk;
  }

  /** The Job of the phase is asked for, and is there with a usable result. */
  lemma AwaitJob(from: World, w: World, operation: Operation, phase: Phase) returns (w': World)
    requires Reach(from, w) && At(w, operation, ApplySave(ForJob(phase))) && Lasting(phase) && Calm(w)
    ensures Reach(from, w') && At(w', operation, JobWait(phase)) && w'.disk.phase == phase
    ensures w'.disk.provider == w.disk.provider && w'.disk.prepared == w.disk.prepared && w'.disk.ready == w.disk.ready
    ensures w'.cluster.pods == w.cluster.pods && w'.cluster.podRequests == w.cluster.podRequests
    ensures var name := Current(w'.disk);
            && name in w'.cluster.jobs && w'.cluster.jobs[name].status.Succeeded?
            && (w.disk.prepared.Some? ==> w'.cluster.jobs[name].status.digest == w.disk.prepared.value.digest)
  {
    WaitFacts(w, phase);
    hide Reach;
    var id := NewId(w);
    var w1 := Take(from, w, id);
    var id1 := NewId(w1);
    var w2 := Take(from, w1, id1);
    if Current(w2.disk) in w2.cluster.jobs {
      w' := w2;
    } else {
      var digest := if w2.disk.prepared.Some? then w2.disk.prepared.value.digest else 0;
      w' := JobSucceeds(from, w2, Current(w2.disk), digest);
    }
  }

  /** `run_job` gets its completion recorded. */
  lemma RunJob(from: World, w: World, operation: Operation, phase: Phase) returns (w': World)
    requires Reach(from, w) && At(w, operation, ApplySave(ForJob(phase))) && Lasting(phase) && Calm(w)
    ensures Reach(from, w') && w'.disk.provider == w.disk.provider
    ensures w'.cluster.pods == w.cluster.pods && w'.cluster.podRequests == w.cluster.podRequests
    ensures phase == Prepare ==>
              At(w', operation, EnsureStart) && w'.disk.prepared.Some? && w'.disk.ready == w.disk.ready && Calm(w')
    ensures phase != Prepare ==>
              && w'.disk.ready.Some?
              && At(w', operation, if operation == VerifyOnly then Finished else ApplySave(ForServing))
  {
    WaitFacts(w, phase);
    var w1 := AwaitJob(from, w, operation, phase);
    hide Reach;
    var id := NewId(w1);
    w' := Take(from, w1, id);
  }

  /** The installer is through; a full run leaves the serving phase behind and no observation open. */
  predicate Through(w: World, operation: Operation) {
    && FinishedBy(w, operation)
    && (operation != VerifyOnly ==> w.disk.phase == Serving && w.disk.provider.serveIntent.None?)
  }

  lemma ApplyServing(from: World, w: World, operation: Operation) returns (w': World)
    requires Reach(from, w) && At(w, operation, ApplySave(ForServing)) && w.disk.provider.serveIntent.None?
    ensures Reach(from, w') && Through(w', operation)
  {
    hide Reach;
    var id := NewId(w);
    var w1 := Take(from, w, id);
    var id1 := NewId(w1);
    w' := Take(from, w1, id1);
  }

  lemma Restored(from: World, w: World, operation: Operation) returns (w': World)
    requires Reach(from, w) && At(w, operation, Restore) && Calm(w)
    ensures Reach(from, w') && Calm(w') && w'.disk == w.disk
    ensures At(w', operation, if w.disk.ready.Some? then ChooseVerify else ApplySave(ForJob(Provision)))
  {
    var id := NewId(w);
    RestoreChangesNothing(w, id);
    hide Reach;
    w' := Take(from, w, id);
  }

  lemma VerifyChosen(from: World, w: World, operation: Operation) returns (w': World)
    requires Reach(from, w) && At(w, operation, ChooseVerify) && Calm(w)
    ensures Reach(from, w') && Calm(w') && At(w', operation, ApplySave(ForJob(Verify)))
    ensures w'.disk.provider == w.disk.provider
  {
    hide Reach;
    var id := NewId(w);
    w' := Take(from, w, id);
  }

  /** From the end of the serving observation on. */
  lemma Finish(from: World, w: World, operation: Operation) returns (w': World)
    requires Reach(from, w) && At(w, operation, Restore) && Calm(w)
    requires if operation == VerifyOnly then w.disk.ready.Some? else w.disk.provider.serveIntent.None?
    ensures Reach(from, w') && Through(w', operation)
  {
    hide Reach, Proceed;
    var w1 := Restored(from, w, operation);
    if w1.disk.ready.Some? {
      w1 := VerifyChosen(from, w1, operation);
    }
    w' := RunJob(from, w1, operation, if w.disk.ready.Some? then Verify else Provision);
    if operation != VerifyOnly {
      w' := ApplyServing(from, w', operation);
    }
  }

  // ---------------------------------------------------------------- the serving observation

  lemma ObserveAgain(from: World, w: World, operation: Operation) returns (w': World)
    requires Reach(from, w) && Calm(w) && At(w, operation, JobIntent(ServeKey)) && !w.process.value.resolving
    requires w.disk.prepared.Some? && w.disk.provider.serveIntent.None?
    ensures Reach(from, w') && At(w', operation, Restore) && w'.disk.ready == w.disk.ready
    ensures Calm(w') && w'.disk.provider.serveIntent.None?
  {
    hide Reach;
    var w1 := NewJob(from, w, operation, ServeKey);
    var id := NewId(w1);
    w' := Take(from, w1, id);
  }

  lemma ObserveServing(from: World, w: World, operation: Operation) returns (w': World)
    requires Reach(from, w) && Calm(w) && At(w, operation, JobIntent(ServeKey))
    requires w.process.value.resolving <==> w.disk.provider.serveIntent.Some?
    requires w.disk.prepared.Some? && !ServeLost(w)
    ensures Reach(from, w') && At(w', operation, Restore) && w'.disk.ready == w.disk.ready
    ensures Calm(w') && w'.disk.provider.serveIntent.None?
  {
    hide Reach;
    if w.disk.provider.serveIntent.None? {
      hide Proceed;
      w' := ObserveAgain(from, w, operation);
    } else {
      var w1 := OldJob(from, w, operation, ServeKey);
      var id := NewId(w1);
      var w2 := Take(from, w1, id);
      hide Proceed;
      w' := ObserveAgain(from, w2, operation);
    }
  }

  /** The initialisation is complete and nothing is lost. */
  predicate Completed(w: World) {
    w.disk.prepared.Some? && InitializationComplete(w.disk) && !ServeLost(w)
  }

  lemma ToServing(from: World, w: World, operation: Operation) returns (w': World)
    requires Reach(from, w) && Calm(w) && At(w, operation, ApplySave(ForServer)) && Completed(w)
    ensures Reach(from, w') && Calm(w') && At(w', operation, JobIntent(ServeKey))
    ensures w'.process.value.resolving <==> w'.disk.provider.serveIntent.Some?
    ensures w'.disk.prepared.Some? && !ServeLost(w')
    ensures w'.disk.provider == w.disk.provider && w'.disk.ready == w.disk.ready
  {
    hide Reach;
    var id := NewId(w);
    var w1 := Take(from, w, id);
    var id1 := NewId(w1);
    var w2 := Take(from, w1, id1);
    w' := Take(from, w2, id1);
  }

  /** From the dependencies for the serving provider on. */
  lemma Serve(from: World, w: World, operation: Operation) returns (w': World)
    requires Reach(from, w) && Calm(w) && At(w, operation, ApplySave(ForServer)) && operation != VerifyOnly
    requires Completed(w)
    ensures Reach(from, w') && Through(w', operation)
  {
    hide Reach, Proceed;
    var w1 := ToServing(from, w, operation);
    var w2 := ObserveServing(from, w1, operation);
    w' := Finish(from, w2, operation);
  }

  // ---------------------------------------------------------------- stopping the initialiser

  /** Whether the initialiser Pod is where the state file says it is. */
  predicate Pinned(w: World) {
    && w.disk.provider.initialization.Some?
    && var i := w.disk.provider.initialization.value;
       && i.nonce in w.cluster.pods && PodOk(w.cluster.pods[i.nonce], i)
       && w.cluster.pods[i.nonce].container == Terminated(0)
  }

  /** Only the record of the initialisation and the initialiser Pod have changed. */
  predicate OnlyInitialization(w: World, w': World) {
    && w'.disk == w.disk.(provider := w.disk.provider.(initialization := w'.disk.provider.initialization))
    && w'.cluster == w.cluster.(pods := w'.cluster.pods)
  }

  /** The end of the Pod is recorded. */
  lemma StopRecorded(from: World, w: World, operation: Operation) returns (w': World)
    requires Reach(from, w) && At(w, operation, StopLook) && Pinned(w)
    requires !w.disk.provider.initialization.value.complete && w.disk.provider.initialization.value.uid.Some?
    ensures Reach(from, w') && OnlyInitialization(w, w') && Pinned(w')
    ensures w'.process.Some? && w'.process.value.pc.StopUnpin? && At(w', operation, w'.process.value.pc)
    ensures var i := w'.disk.provider.initialization.value;
            var pod := w'.cluster.pods[i.nonce];
            && i.uid.Some? && pod.deleting && (w'.process.value.pc.seen.finalizer <==> pod.finalizer)
  {
    hide Reach;
    var id := NewId(w);
    var w1 := Take(from, w, id);
    var w2 := Take(from, w1, id);
    w' := Take(from, w2, id);
  }

  /** The ended Pod is deleted, unpinned and gone. */
  lemma StopEnded(from: World, w: World, operation: Operation) returns (w': World)
    requires Reach(from, w) && At(w, operation, StopLook) && Pinned(w)
    requires !w.disk.provider.initialization.value.complete && w.disk.provider.initialization.value.uid.Some?
    ensures Reach(from, w') && At(w', operation, ApplySave(ForServer)) && OnlyInitialization(w, w')
    ensures w'.disk.provider.initialization.Some? && w'.disk.provider.initialization.value.complete
  {
    hide Reach;
    var w1 := StopRecorded(from, w, operation);
    var id := NewId(w1);
    var w2 := Take(from, w1, id);
    var w3 := Act(from, w2, PodVanishes(w1.disk.provider.initialization.value.nonce));
    w' := Take(from, w3, id);
  }

  lemma StopFacts(w: World)
    requires Inv(w) && Recorded(w) && w.disk.provider.ready.Some?
    ensures w.disk.prepared.Some? && w.disk.provider.initialization.Some?
    ensures var i := w.disk.provider.initialization.value;
            && i.uid.Some? && (w.disk.ready.Some? ==> i.complete)
            && (i.nonce in w.cluster.pods ==> PodOk(w.cluster.pods[i.nonce], i))
            && (i.nonce !in w.cluster.pods ==> i.terminated)
  {
    hide JobsOk;
  }

  /** There is nothing to stop any more. */
  lemma StopSkipped(from: World, w: World, operation: Operation) returns (w': World)
    requires Reach(from, w) && At(w, operation, StopLook) && w.disk.provider.initialization.Some?
    requires var i := w.disk.provider.initialization.value; i.complete || (i.nonce !in w.cluster.pods && i.terminated)
    ensures Reach(from, w') && At(w', operation, ApplySave(ForServer)) && OnlyInitialization(w, w')
    ensures w'.disk.provider.initialization.Some? && w'.disk.provider.initialization.value.complete
  {
    hide Reach;
    var id := NewId(w);
    w' := Take(from, w, id);
  }

  /** A Pod that runs, or has ended cleanly, is stopped. */
  lemma StopPod(from: World, w: World, operation: Operation) returns (w': World)
    requires Reach(from, w) && At(w, operation, StopLook) && w.disk.provider.initialization.Some?
    requires var i := w.disk.provider.initialization.value;
             && !i.complete && i.uid.Some? && i.nonce in w.cluster.pods && PodOk(w.cluster.pods[i.nonce], i)
             && (w.cluster.pods[i.nonce].container.Terminated? ==> w.cluster.pods[i.nonce].container.exitCode == 0)
    ensures Reach(from, w') && At(w', operation, ApplySave(ForServer)) && OnlyInitialization(w, w')
    ensures w'.disk.provider.initialization.Some? && w'.disk.provider.initialization.value.complete
  {
    hide Reach, Proceed;
    var n := w.disk.provider.initialization.value.nonce;
    var w1 := w;
    if !w.cluster.pods[n].container.Terminated? {
      w1 := Act(from, w, PodEnds(n, 0));
    }
    w' := StopEnded(from, w1, operation);
  }

  /** From `provider_stop` on. */
  lemma Stop(from: World, w: World, operation: Operation) returns (w': World)
    requires Reach(from, w) && Calm(w) && At(w, operation, StopLook) && operation != VerifyOnly
    requires w.disk.provider.ready.Some? && !StopLost(w) && !ServeLost(w)
    ensures Reach(from, w') && Through(w', operation)
  {
    StopFacts(w);
    hide Reach, Proceed, Do;
    var i := w.disk.provider.initialization.value;
    if i.complete || i.nonce !in w.cluster.pods {
      w' := StopSkipped(from, w, operation);
    } else {
      w' := StopPod(from, w, operation);
    }
    w' := Serve(from, w', operation);
  }

  // ---------------------------------------------------------------- observing the initialiser

  /** The initialiser Pod runs and is known by its UID. */
  predicate Watched(w: World) {
    && w.disk.prepared.Some? && w.disk.provider.initialization.Some?
    && var i := w.disk.provider.initialization.value;
       PodRunning(w, i) && i.uid.Some? && !i.deleting
  }

  lemma WatchFacts(w: World, operation: Operation)
    requires Inv(w) && Recorded(w) && w.process.Some? && w.process.value.pc in {EnsureWatch, JobIntent(ObserveKey)}
    ensures w.disk.provider.ready.None? && w.disk.ready.None? && w.disk.provider.serveIntent.None?
  {
    hide JobsOk, PodsOk;
  }

  /** A usable observation is recorded. */
  lemma RecordReady(from: World, w: World, operation: Operation) returns (w': World)
    requires Reach(from, w) && Calm(w) && Returned(w, operation, ObserveKey) && w.process.value.pc.proof.Some?
    requires Watched(w)
    requires w.disk.provider.serveIntent.None? && operation != VerifyOnly
    ensures Reach(from, w') && Through(w', operation)
  {
    hide Reach;
    var id := NewId(w);
    var w1 := Take(from, w, id);
    hide Proceed;
    w' := Stop(from, w1, operation);
  }

  lemma WatchAgain(from: World, w: World, operation: Operation) returns (w': World)
    requires Reach(from, w) && Calm(w) && At(w, operation, JobIntent(ObserveKey)) && Watched(w)
    requires w.disk.provider.observeIntent.None? && operation != VerifyOnly
    ensures Reach(from, w') && Through(w', operation)
  {
    WatchFacts(w, operation);
    hide Reach, Proceed;
    var w1 := NewJob(from, w, operation, ObserveKey);
    w' := RecordReady(from, w1, operation);
  }

  /** A repeatable failure is forgotten. */
  lemma ForgetFailure(from: World, w: World, operation: Operation) returns (w': World)
    requires Reach(from, w) && Calm(w) && Returned(w, operation, ObserveKey) && w.process.value.pc.proof.None?
    requires Watched(w)
    ensures Reach(from, w') && Calm(w') && At(w', operation, JobIntent(ObserveKey)) && Watched(w')
    ensures w'.disk.provider.observeIntent.None?
  {
    hide Reach;
    var id := NewId(w);
    var w1 := Take(from, w, id);
    w' := Take(from, w1, id);
  }

  lemma SeeRunning(from: World, w: World, operation: Operation) returns (w': World)
    requires Reach(from, w) && At(w, operation, EnsureWatch) && Watched(w)
    ensures Reach(from, w') && At(w', operation, JobIntent(ObserveKey)) && w'.disk == w.disk && w'.cluster == w.cluster
  {
    hide Reach;
    var id := NewId(w);
    w' := Take(from, w, id);
  }

  /** From the running initialiser on. */
  lemma Watch(from: World, w: World, operation: Operation) returns (w': World)
    requires Reach(from, w) && Calm(w) && At(w, operation, EnsureWatch) && Watched(w) && !JobLost(w, ObserveKey)
    requires operation != VerifyOnly
    ensures Reach(from, w') && Through(w', operation)
  {
    WatchFacts(w, operation);
    hide Reach, Proceed;
    w' := SeeRunning(from, w, operation);
    if w'.disk.provider.observeIntent.None? {
      w' := WatchAgain(from, w', operation);
    } else {
      w' := OldJob(from, w', operation, ObserveKey);
      if w'.process.value.pc.proof.Some? {
        w' := RecordReady(from, w', operation);
      } else {
        w' := ForgetFailure(from, w', operation);
        w' := WatchAgain(from, w', operation);
      }
    }
  }

  // ---------------------------------------------------------------- creating the initialiser

  lemma PodFacts(w: World)
    requires Inv(w) && Recorded(w) && w.disk.provider.ready.None? && w.disk.provider.initialization.Some?
    ensures var i := w.disk.provider.initialization.value;
            && !i.deleting && !i.terminated
            && (i.nonce in w.log.landed <==> i.nonce in w.cluster.pods)
            && (i.nonce in w.cluster.pods ==> PodOk(w.cluster.pods[i.nonce], i))
  {
    hide JobsOk;
  }

  predicate OnlyPods(w: World, w': World) {
    && w'.disk == w.disk && w'.process == w.process
    && w'.cluster.jobs == w.cluster.jobs && w'.cluster.jobRequests == w.cluster.jobRequests
  }

  /** A Pod that was requested and has not ended comes into being and runs. */
  lemma PodArrives(from: World, w: World) returns (w': World)
    requires Reach(from, w) && Calm(w) && w.disk.provider.ready.None? && w.disk.provider.initialization.Some?
    requires !PodLost(w)
    ensures Reach(from, w') && OnlyPods(w, w') && PodRunning(w', w'.disk.provider.initialization.value)
  {
    PodFacts(w);
    hide Inv, Recorded, Leads;
    var n := w.disk.provider.initialization.value.nonce;
    w' := w;
    if n !in w.cluster.pods {
      var uid := NewId(w);
      w' := Act(from, w, PodLands(n, uid));
    }
    if w'.cluster.pods[n].container.Pending? {
      w' := Act(from, w', PodStarts(n));
    }
    PodFacts(w');
  }

  lemma KnowPod(from: World, w: World, operation: Operation) returns (w': World)
    requires Reach(from, w) && Calm(w) && At(w, operation, EnsureUid) && w.disk.prepared.Some?
    requires w.disk.provider.ready.None? && w.disk.provider.initialization.Some?
    requires PodRunning(w, w.disk.provider.initialization.value)
    requires !JobLost(w, ObserveKey) && operation != VerifyOnly
    ensures Reach(from, w') && Through(w', operation)
  {
    PodFacts(w);
    hide Reach;
    var id := NewId(w);
    var w1 := Take(from, w, id);
    hide Proceed;
    w' := Watch(from, w1, operation);
  }

  lemma NewPod(from: World, w: World, operation: Operation) returns (w': World)
    requires Reach(from, w) && Calm(w) && At(w, operation, EnsureInitialization) && w.disk.prepared.Some?
    requires w.disk.provider.ready.None? && w.disk.provider.initialization.None?
    requires !JobLost(w, ObserveKey) && operation != VerifyOnly
    ensures Reach(from, w') && Through(w', operation)
  {
    hide Reach;
    var id := NewId(w);
    var w1 := Take(from, w, id);
    var id1 := NewId(w1);
    var w2 := Take(from, w1, id1);
    var w3 := Take(from, w2, id1);
    assert !PodLost(w3);
    hide Proceed;
    var w4 := PodArrives(from, w3);
    w' := KnowPod(from, w4, operation);
  }

  lemma OldPod(from: World, w: World, operation: Operation) returns (w': World)
    requires Reach(from, w) && Calm(w) && At(w, operation, EnsureInitialization) && w.disk.prepared.Some?
    requires w.disk.provider.ready.None? && w.disk.provider.initialization.Some? && !PodLost(w)
    requires !JobLost(w, ObserveKey) && operation != VerifyOnly
    ensures Reach(from, w') && Through(w', operation)
  {
    hide Reach;
    var w1 := PodArrives(from, w);
    var id := NewId(w1);
    var w2 := Take(from, w1, id);
    var w3 := Take(from, w2, id);
    hide Proceed;
    w' := KnowPod(from, w3, operation);
  }

  /** From a recorded permission on. */
  lemma Initialize(from: World, w: World, operation: Operation) returns (w': World)
    requires Reach(from, w) && Calm(w) && At(w, operation, EnsureReady) && w.disk.prepared.Some?
    requires operation != VerifyOnly
    requires w.disk.provider.started.Some? && !ProviderLost(w)
    ensures Reach(from, w') && Through(w', operation)
  {
    hide Reach;
    var id := NewId(w);
    var w1 := Take(from, w, id);
    if w.disk.provider.ready.Some? {
      hide Proceed;
      w' := Stop(from, w1, operation);
    } else {
      var w2 := Take(from, w1, id);
      var id2 := NewId(w2);
      var w3 := Take(from, w2, id2);
      hide Proceed;
      if w3.disk.provider.initialization.None? {
        w' := NewPod(from, w3, operation);
      } else {
        w' := OldPod(from, w3, operation);
      }
    }
  }

  // ---------------------------------------------------------------- asking for permission

  /** Before permission was given nothing depends on it. */
  lemma StartFacts(w: World)
    requires Inv(w) && Recorded(w) && w.disk.provider.started.None?
    ensures w.disk.provider.ready.None? && w.disk.provider.initialization.None?
    ensures w.disk.provider.observeIntent.None? && w.disk.provider.serveIntent.None?
  {
    hide JobsOk, PodsOk;
  }

  lemma RecordStart(from: World, w: World, operation: Operation) returns (w': World)
    requires Reach(from, w) && Calm(w) && Returned(w, operation, StartKey) && w.disk.prepared.Some?
    requires operation != VerifyOnly
    requires w.disk.provider.started.None?
    ensures Reach(from, w') && Through(w', operation)
  {
    StartFacts(w);
    hide Reach;
    var id := NewId(w);
    var w1 := Take(from, w, id);
    hide Proceed;
    w' := Initialize(from, w1, operation);
  }

  /** From `ensure_provider` on. */
  lemma Ensure(from: World, w: World, operation: Operation) returns (w': World)
    requires Reach(from, w) && Calm(w) && At(w, operation, EnsureStart) && w.disk.prepared.Some?
    requires operation != VerifyOnly
    requires !ProviderLost(w)
    ensures Reach(from, w') && Through(w', operation)
  {
    hide Reach;
    var id := NewId(w);
    var w1 := Take(from, w, id);
    hide Proceed;
    if w.disk.provider.started.Some? {
      w' := Initialize(from, w1, operation);
    } else {
      StartFactsOf(from, w1);
      var w2;
      if w1.disk.provider.startIntent.None? {
        w2 := NewJob(from, w1, operation, StartKey);
      } else {
        w2 := OldJob(from, w1, operation, StartKey);
      }
      w' := RecordStart(from, w2, operation);
    }
  }

  lemma StartFactsOf(from: World, w: World)
    requires Reach(from, w) && w.disk.provider.started.None?
    ensures w.disk.provider.ready.None?
  {
    StartFacts(w);
  }

  // ---------------------------------------------------------------- a new installer

  lemma ChooseFacts(w: World)
    requires Inv(w)
    ensures ProviderStateOk(w.disk.provider, w.disk.prepared)
    ensures w.disk.ready.Some? ==> w.disk.prepared.Some? && InitializationComplete(w.disk)
    ensures w.disk.prepared.None? ==> w.disk.provider == NO_PROVIDER && w.disk.ready.None?
  {
    hide JobsOk, PodsOk;
  }

  /** What is lost of the provider does not depend on the current phase and operation, nor on lasting Jobs. */
  lemma SameProviderLost(w: World, w': World)
    requires ProviderStateOk(w.disk.provider, w.disk.prepared)
    requires w'.disk.provider == w.disk.provider && w'.disk.prepared == w.disk.prepared
    requires w'.cluster.pods == w.cluster.pods && w'.cluster.podRequests == w.cluster.podRequests
    requires w'.cluster.jobRequests == w.cluster.jobRequests
    requires forall n: JobName :: !Lasting(n.phase) ==> Found(w', n) == Found(w, n)
    ensures ProviderLost(w') <==> ProviderLost(w)
  {
    forall key: Key
      ensures JobLost(w', key) <==> JobLost(w, key)
    {
      var intent := IntentOf(w.disk.provider, key);
      if intent.Some? {
        assert Found(w', intent.value.job) == Found(w, intent.value.job);
      }
    }
  }

  lemma Begun(from: World, w: World, operation: Operation) returns (w': World)
    requires Reach(from, w) && w.process.None? && (operation == VerifyOnly ==> w.disk.ready.Some?)
    ensures Reach(from, w') && At(w', operation, ResumeCheck) && w'.disk == w.disk && w'.cluster == w.cluster
  {
    ChooseFacts(w);
    hide Reach;
    var w1 := Act(from, w, Launch(operation));
    var id := NewId(w1);
    w' := Take(from, w1, id);
  }

  lemma Checked(from: World, w: World, operation: Operation) returns (w': World)
    requires Reach(from, w) && At(w, operation, ResumeCheck)
    requires w.disk.phase in {Prepare, Provision, Verify} ==> Found(w, Current(w.disk)).None?
    ensures Reach(from, w') && At(w', operation, Choose) && w'.disk == w.disk && w'.cluster == w.cluster
  {
    hide Reach;
    var id := NewId(w);
    w' := Take(from, w, id);
  }

  /** A failed Job is replaced by `resume`. */
  lemma Resumed(from: World, w: World) returns (w': World)
    requires Reach(from, w) && w.process.None? && Lasting(w.disk.phase) && Current(w.disk) in w.cluster.jobs
    requires w.cluster.jobs[Current(w.disk)].status.Failed? && !w.cluster.jobs[Current(w.disk)].status.active
    ensures Reach(from, w') && w'.process.None? && w'.cluster == w.cluster && Calm(w')
    ensures w'.disk == w.disk.(operation := w'.disk.operation)
  {
    var w1 := Begun(from, w, Resume);
    hide Reach;
    var id := NewId(w1);
    var w2 := Take(from, w1, id);
    w' := Act(from, w2, Crash);
  }

  /** The current lasting Job is brought to an end, and replaced if it has failed. */
  lemma Mended(from: World, w: World) returns (w': World)
    requires Reach(from, w) && w.process.None? && !ResultLost(w)
    ensures Reach(from, w') && w'.process.None? && Calm(w')
    ensures w'.disk == w.disk.(operation := w'.disk.operation)
    ensures ProviderLost(w') <==> ProviderLost(w)
  {
    ChooseFacts(w);
    hide Reach, ProviderLost, ProviderStateOk, Proceed;
    var name := Current(w.disk);
    w' := w;
    if Lasting(w.disk.phase) && name in w.cluster.jobs {
      if w.cluster.jobs[name].status.Active? {
        var digest := if w.disk.prepared.Some? then w.disk.prepared.value.digest else 0;
        w' := Act(from, w, JobEnds(name, Succeeded(digest, InitializeOnce, 0)));
      } else if w.cluster.jobs[name].status.Failed? {
        var w1 := Act(from, w, JobPodsEnd(name));
        w' := Resumed(from, w1);
      }
    }
    SameProviderLost(w, w');
  }

  /** A new process gets as far as its first decision. */
  lemma Start(from: World, w: World, operation: Operation) returns (w': World)
    requires Reach(from, w) && w.process.None? && Calm(w) && (operation == VerifyOnly ==> w.disk.ready.Some?)
    ensures Reach(from, w') && At(w', operation, Choose) && w'.disk == w.disk && Calm(w')
    ensures ProviderLost(w') <==> ProviderLost(w)
  {
    ChooseFacts(w);
    var w1 := Begun(from, w, operation);
    hide Reach, ProviderLost, ProviderStateOk;
    var id := NewId(w1);
    w' := Take(from, w1, id);
    SameProviderLost(w, w');
  }

  predicate Decision(s: State, operation: Operation, pc: Pc) {
    pc == if s.ready.Some? then (if operation == VerifyOnly then Restore else StopLook)
          else if s.prepared.Some? then EnsureStart else ApplySave(ForJob(Prepare))
  }

  lemma Decide(from: World, w: World, operation: Operation) returns (w': World)
    requires Reach(from, w) && At(w, operation, Choose) && (operation == VerifyOnly ==> w.disk.ready.Some?)
    ensures Reach(from, w') && w'.disk == w.disk && w'.cluster == w.cluster
    ensures w'.process.Some? && At(w', operation, w'.process.value.pc)
    ensures Decision(w.disk, operation, w'.process.value.pc)
  {
    hide Reach;
    var id := NewId(w);
    w' := Take(from, w, id);
  }

  /** Where nothing is lost, `up` and `resume` can finish. */
  lemma UpFinishes(from: World, w: World, operation: Operation) returns (w': World)
    requires Reach(from, w) && w.process.None? && operation != VerifyOnly && !DeadEnd(w)
    ensures Reach(from, w') && Through(w', operation)
  {
    var w0 := Mended(from, w);
    var w1 := Start(from, w0, operation);
    ChooseFacts(w1);
    hide Reach, Proceed;
    var w2 := Decide(from, w1, operation);
    SameDeadEnd(w1, w2);
    if w1.disk.ready.Some? {
      w' := Stop(from, w2, operation);
    } else if w1.disk.prepared.Some? {
      w' := Ensure(from, w2, operation);
    } else {
      var w3 := RunJob(from, w2, operation, Prepare);
      NothingRecorded(w3);
      w' := Ensure(from, w3, operation);
    }
  }

  lemma NothingRecorded(w: World)
    requires w.disk.provider == NO_PROVIDER
    ensures !ProviderLost(w)
  {
  }

  /** Once the installation is ready, `verify` can finish unless a foreign result is in the way. */
  lemma VerifyFinishes(from: World, w: World) returns (w': World)
    requires Reach(from, w) && w.process.None? && w.disk.ready.Some? && !ResultLost(w)
    ensures Reach(from, w') && Through(w', VerifyOnly)
  {
    var w0 := Mended(from, w);
    var w1 := Start(from, w0, VerifyOnly);
    hide Reach, Proceed;
    var w2 := Decide(from, w1, VerifyOnly);
    w' := Finish(from, w2, VerifyOnly);
  }

  // ---------------------------------------------------------------- exactly

  /** Some continuation in which nobody deletes a Job has an installer finish with this operation. */
  ghost predicate CanFinish(w: World, operation: Operation) {
    exists actions :: JobsStay(actions) && Run(w, actions).Some? && FinishedBy(Run(w, actions).value, operation)
  }

  /** What stands in the way of an operation: `verify` on a ready installation only waits for its own Job. */
  predicate Hopeless(w: World, operation: Operation) {
    if operation == VerifyOnly && w.disk.ready.Some? then ResultLost(w) else DeadEnd(w)
  }

  lemma LeadsToFinish(from: World, w: World, operation: Operation)
    requires Reach(from, w) && FinishedBy(w, operation)
    ensures CanFinish(from, operation)
  {
    hide Inv, Recorded, FinishedBy;
    var actions :| JobsStay(actions) && Run(from, actions) == Some(w);
  }

  lemma HereAlready(w: World)
    requires Inv(w) && Recorded(w)
    ensures Reach(w, w)
  {
    assert JobsStay([]) && Run(w, []) == Some(w);
  }

  lemma ReadyWhenFinished(w: World, operation: Operation)
    requires Inv(w) && FinishedBy(w, operation)
    ensures w.disk.ready.Some?
  {
    hide PodsOk, JobsOk;
  }

  lemma HopelessIsFinal(w: World, operation: Operation)
    requires Inv(w) && Recorded(w) && w.process.None? && Hopeless(w, operation)
    ensures !CanFinish(w, operation)
  {
    hide Inv, Recorded;
    assert Stranded(w) || Doomed(w) by { hide StartLost, PodLost, ObserveLost, StopLost, ServeLost, ResultLost; }
    assert Stranded(w) || operation != VerifyOnly || w.disk.ready.None? by { hide ProviderLost; }
    hide Stranded, Doomed, FinishedBy, JobsStay;
    forall actions | JobsStay(actions) && Run(w, actions).Some?
      ensures !FinishedBy(Run(w, actions).value, operation)
    {
      if Stranded(w) {
        RunsStayStranded(w, actions);
        StrandedIsUnfinished(Run(w, actions).value, operation);
      } else {
        RunsStayDoomed(w, actions);
        DoomedIsUnfinished(Run(w, actions).value, operation);
      }
    }
  }

  lemma StrandedIsUnfinished(w: World, operation: Operation)
    requires Stranded(w)
    ensures !FinishedBy(w, operation)
  {
  }

  lemma RecoveryExists(w: World, operation: Operation)
    requires Inv(w) && Recorded(w) && w.process.None? && !Hopeless(w, operation)
    ensures CanFinish(w, operation)
  {
    HereAlready(w);
    hide Inv, Recorded, ProviderLost, Reach;
    var w1 := w;
    if operation != VerifyOnly {
      w1 := UpFinishes(w, w, operation);
    } else if w.disk.ready.Some? {
      w1 := VerifyFinishes(w, w);
    } else {
      w1 := UpFinishes(w, w, Up);
      ReadyThen(w, w1, Up);
      w1 := Act(w, w1, Crash);
      w1 := VerifyFinishes(w, w1);
    }
    LeadsToFinish(w, w1, operation);
  }

  lemma ReadyThen(from: World, w: World, operation: Operation)
    requires Reach(from, w) && FinishedBy(w, operation)
    ensures w.disk.ready.Some?
  {
    ReadyWhenFinished(w, operation);
  }

  /**
   * Recoverability. After any run that ended in a crash, an operation can still finish, without anybody
   * deleting a Job, if and only if it is not hopeless: `up` and `resume` if and only if nothing is lost;
   * `verify` on a ready installation if and only if its own result is not lost, and otherwise like `up`.
   */
  lemma RecoverableExactly(operation: nat, actions: seq<Action>, next: Operation)
    requires Run(Initial(operation), actions).Some? && Run(Initial(operation), actions).value.process.None?
    ensures var w := Run(Initial(operation), actions).value;
            CanFinish(w, next) <==> !Hopeless(w, next)
  {
    hide Inv, Recorded, Hopeless, CanFinish;
    var w := Run(Initial(operation), actions).value;
    RunsKeepRecorded(operation, actions);
    if Hopeless(w, next) {
      HopelessIsFinal(w, next);
    } else {
      RecoveryExists(w, next);
    }
  }

  // ---------------------------------------------------------------- a crash before a request

  /** Between the durable intent and the request of a provider Job or of the initialiser Pod. */
  predicate BeforeRequest(pc: Pc) {
    match pc
    case JobLook(_, first) => first
    case ApplySave(ForProviderJob(_)) => true
    case ApplySubmit(ForProviderJob(_)) => true
    case EnsureLook(first) => first
    case EnsureCreate => true
    case _ => false
  }

  lemma BeforeRequestIsLost(w: World)
    requires Inv(w) && Recorded(w) && w.process.Some? && BeforeRequest(w.process.value.pc)
    ensures ProviderLost(w)
  {
    hide JobsOk;
  }

  lemma SameDeadEnd(w: World, w': World)
    requires w'.disk == w.disk && w'.cluster == w.cluster
    ensures ProviderLost(w') <==> ProviderLost(w)
  {
    assert forall key: Key :: JobLost(w', key) <==> JobLost(w, key);
  }

  /** A crash between a durable intent and its request is final: no `up` and no `resume` ever finishes again. */
  lemma CrashBeforeRequestIsFinal(operation: nat, actions: seq<Action>, next: Operation)
    requires Run(Initial(operation), actions).Some? && next != VerifyOnly
    requires var p := Run(Initial(operation), actions).value.process; p.Some? && BeforeRequest(p.value.pc)
    ensures !CanFinish(Do(Run(Initial(operation), actions).value, Crash).value, next)
  {
    hide ProviderLost, Inv, Recorded;
    var w := Run(Initial(operation), actions).value;
    RunsKeepRecorded(operation, actions);
    BeforeRequestIsLost(w);
    var w' := Do(w, Crash).value;
    DoKeepsInv(w, Crash);
    DoKeepsRecorded(w, Crash);
    SameDeadEnd(w, w');
    HopelessIsFinal(w', next);
  }

  lemma InitialReach(operation: nat)
    ensures Reach(Initial(operation), Initial(operation)) && !DeadEnd(Initial(operation))
  {
    InitialInv(operation);
    HereAlready(Initial(operation));
  }

  lemma FirstIntent(from: World, w: World, operation: Operation) returns (w': World)
    requires Reach(from, w) && At(w, operation, EnsureStart) && w.disk.prepared.Some? && w.disk.provider == NO_PROVIDER
    ensures Reach(from, w') && At(w', operation, JobLook(StartKey, true))
  {
    hide Reach;
    var id := NewId(w);
    var w1 := Take(from, w, id);
    hide Proceed;
    w' := RecordIntent(from, w1, operation, StartKey);
  }

  /** Such a crash can happen before the first permission is asked for. */
  lemma StopsBeforeFirstRequest(operation: nat) returns (actions: seq<Action>)
    ensures Run(Initial(operation), actions).Some?
    ensures Run(Initial(operation), actions).value.process.Some?
    ensures Run(Initial(operation), actions).value.process.value.pc == JobLook(StartKey, true)
  {
    var from := Initial(operation);
    InitialReach(operation);
    hide Reach;
    var w := Start(from, from, Up);
    w := Decide(from, w, Up);
    w := RunJob(from, w, Up, Prepare);
    w := FirstIntent(from, w, Up);
    actions := TheRun(from, w);
  }

  lemma ToObservation(from: World, w: World, operation: Operation) returns (w': World)
    requires Reach(from, w) && Calm(w) && At(w, operation, Choose) && operation != VerifyOnly
    requires w.disk.ready.Some? && w.disk.provider.serveIntent.None?
    ensures Reach(from, w') && w'.disk.ready.Some? && At(w', operation, JobLook(ServeKey, true))
  {
    ChooseFacts(w);
    hide Reach, Proceed;
    var w1 := Decide(from, w, operation);
    var w2 := StopSkipped(from, w1, operation);
    var w3 := ToServing(from, w2, operation);
    w' := RecordIntent(from, w3, operation, ServeKey);
  }

  /** And before a read-only observation of an installation that is ready. */
  lemma StopsBeforeObservation(operation: nat) returns (actions: seq<Action>)
    ensures Run(Initial(operation), actions).Some?
    ensures Run(Initial(operation), actions).value.disk.ready.Some?
    ensures Run(Initial(operation), actions).value.process.Some?
    ensures Run(Initial(operation), actions).value.process.value.pc == JobLook(ServeKey, true)
  {
    var from := Initial(operation);
    InitialReach(operation);
    hide Reach, DeadEnd;
    var w1 := FinishedOnce(from);
    var w2 := Start(from, w1, Up);
    var w3 := ToObservation(from, w2, Up);
    actions := TheRun(from, w3);
  }

  lemma FinishedOnce(from: World) returns (w: World)
    requires Reach(from, from) && from.process.None? && !DeadEnd(from)
    ensures Reach(from, w) && w.process.None? && Calm(w) && w.disk.ready.Some? && w.disk.provider.serveIntent.None?
  {
    var w1 := UpFinishes(from, from, Up);
    ReadyThen(from, w1, Up);
    hide Reach;
    w := Act(from, w1, Crash);
  }

  lemma TheRun(from: World, w: World) returns (actions: seq<Action>)
    requires Reach(from, w)
    ensures Run(from, actions) == Some(w)
  {
    actions :| JobsStay(actions) && Run(from, actions) == Some(w);
  }
}
