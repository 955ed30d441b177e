/**
 * Crash-safe provider initialisation as a state machine. A world has the durable state file, at most one
 * installer process (the lock is exclusive), the cluster, and a log of what has happened. Every step
 * makes at most one save or one external effect; a process that raises, and one that is killed, simply
 * disappears, which may happen between any two steps. Identifiers minted by `uuid4` and by the API
 * server are numbers that were never used before.
 */
module ProviderMachine {
  import opened Common

  // ---------------------------------------------------------------- the durable state

  datatype Phase = Prepare | ProviderStart | Dependencies | ProviderObserve | Provision | Serving | Verify

  /** `installation-<phase>-<operation>`. */
  datatype JobName = JobName(phase: Phase, operation: nat)

  datatype Mode = InitializeOnce | Serve

  /** The evidence `completion` returns; only a provider-start proof has a mode. */
  datatype Proof = Proof(job: JobName, jobUid: nat, podUid: nat, digest: nat, mode: Option<Mode>)

  datatype Intent = Intent(job: JobName, uid: Option<nat>)

  datatype Initialization = Initialization(nonce: nat, uid: Option<nat>, deleting: bool, terminated: bool,
                                           complete: bool)

  datatype Provider = Provider(
    startIntent: Option<Intent>, started: Option<Proof>,
    observeIntent: Option<Intent>, serveIntent: Option<Intent>,
    ready: Option<Proof>, initialization: Option<Initialization>)

  datatype State = State(
    phase: Phase, operation: nat, prepared: Option<Proof>, ready: Option<Proof>, provider: Provider)

  const NO_PROVIDER := Provider(None, None, None, None, None, None)

  /** The name of the Job of the current phase and operation. */
  function Current(s: State): JobName {
    JobName(s.phase, s.operation)
  }

  // ---------------------------------------------------------------- the check on load

  predicate IntentOk(intent: Option<Intent>, phase: Phase) {
    intent.Some? ==> intent.value.job.phase == phase
  }

  predicate ProofOk(proof: Option<Proof>, intent: Option<Intent>, prepared: Option<Proof>) {
    proof.Some? ==>
      && intent.Some? && proof.value.job == intent.value.job && intent.value.uid == Some(proof.value.jobUid)
      && prepared.Some? && proof.value.digest == prepared.value.digest
  }

  /** `provider_state`. */
  predicate ProviderStateOk(v: Provider, prepared: Option<Proof>) {
    && IntentOk(v.startIntent, ProviderStart)
    && IntentOk(v.observeIntent, ProviderObserve)
    && IntentOk(v.serveIntent, ProviderObserve)
    && ProofOk(v.started, v.startIntent, prepared)
    && (v.started.Some? ==> v.started.value.mode.Some?)
    && ProofOk(v.ready, v.observeIntent, prepared)
    && (v.ready.Some? ==> v.ready.value.mode.None?)
    && (v.initialization.Some? ==>
          var i := v.initialization.value;
          && (i.complete ==> i.terminated) && (i.terminated ==> i.deleting) && (i.deleting ==> i.uid.Some?)
          && v.started.Some? && v.started.value.mode == Some(InitializeOnce))
    && (v.ready.Some? ==> v.started.Some? && v.initialization.Some? && v.initialization.value.uid.Some?)
  }

  // ---------------------------------------------------------------- the cluster

  datatype JobStatus =
    | Active
    | Succeeded(digest: nat, mode: Mode, podUid: nat)
    | Failed(active: bool, closedObservation: bool)  // the second: one of the two repeatable observation failures

  datatype Job = Job(uid: nat, status: JobStatus)

  datatype Container = Pending | Running | Terminated(exitCode: int)

  datatype Pod = Pod(uid: nat, container: Container, deleting: bool, finalizer: bool)

  /** A request may take effect at any time after it was made, or never, and takes effect only once. */
  datatype Cluster = Cluster(
    jobRequests: set<JobName>, jobs: map<JobName, Job>,
    podRequests: set<nat>, pods: map<nat, Pod>)

  /** What has ever happened; nothing reads it. */
  datatype Log = Log(
    used: set<nat>,             // every identifier ever minted
    creates: nat,               // `kubectl create` calls for an initialiser Pod
    startSubmits: nat,          // Helm submissions of a provider-start Job
    landed: set<nat>,           // nonces whose Pod came into existence
    cleanExits: set<nat>,       // UIDs of Pods whose container terminated with exit code 0
    submitted: set<JobName>,    // Jobs handed to Helm
    settled: set<JobName>)      // Jobs whose completion was recorded, or that `resume` saw failed and inactive

  // ---------------------------------------------------------------- the process

  datatype Operation = Up | Resume | VerifyOnly

  datatype Key = StartKey | ObserveKey | ServeKey

  /** The places that call `apply`. */
  datatype Site = ForJob(phase: Phase) | ForInitializer | ForServer | ForServing | ForProviderJob(key: Key)

  datatype Pc =
    | Begin | ResumeCheck | Choose
    | ApplySave(site: Site) | ApplySubmit(site: Site)
    | JobWait(phase: Phase)
    | JobIntent(key: Key) | JobLook(key: Key, first: bool) | JobRead(key: Key) | JobAwait(key: Key)
    | JobReturn(key: Key, proof: Option<Proof>)
    | EnsureStart | EnsureReady | EnsureInitialization | EnsureLook(first: bool)
    | EnsureCreate | EnsureUid | EnsureWatch
    | StopLook | StopDelete(seen: Pod) | StopWait(seen: Pod) | StopUnpin(seen: Pod) | StopGone
    | ServeBegin | Restore | ChooseVerify | Finished

  /** `mem` is `self.state`; `pending` and `resolving` are locals of `run` and `observe_serving_provider`. */
  datatype Process = Process(operation: Operation, mem: State, pc: Pc, pending: Option<nat>, resolving: bool)

  datatype World = World(disk: State, process: Option<Process>, cluster: Cluster, log: Log)

  // ---------------------------------------------------------------- steps of the process

  function Goto(w: World, p: Process, pc: Pc): World {
    w.(process := Some(p.(pc := pc)))
  }

  /** `self.state` becomes `s` and is saved. */
  function Save(w: World, p: Process, s: State, pc: Pc): World {
    w.(disk := s, process := Some(p.(mem := s, pc := pc)))
  }

  function Mint(w: World, id: nat): World {
    w.(log := w.log.(used := w.log.used + {id}))
  }

  function Settle(w: World, job: JobName): World {
    w.(log := w.log.(settled := w.log.settled + {job}))
  }

  function PhaseOf(site: Site): Phase {
    match site
    case ForJob(phase) => phase
    case ForInitializer => Dependencies
    case ForServer => Dependencies
    case ForServing => Serving
    case ForProviderJob(StartKey) => ProviderStart
    case ForProviderJob(_) => ProviderObserve
  }

  function KeyPhase(key: Key): Phase {
    if key == StartKey then ProviderStart else ProviderObserve
  }

  function IntentOf(v: Provider, key: Key): Option<Intent> {
    match key
    case StartKey => v.startIntent
    case ObserveKey => v.observeIntent
    case ServeKey => v.serveIntent
  }

  function WithIntent(v: Provider, key: Key, intent: Option<Intent>): Provider {
    match key
    case StartKey => v.(startIntent := intent)
    case ObserveKey => v.(observeIntent := intent)
    case ServeKey => v.(serveIntent := intent)
  }

  /** Whether the current Job is not the one that `ready` records. */
  predicate Unrecorded(s: State) {
    s.ready.None? || s.ready.value.job != Current(s)
  }

  function TargetPhase(s: State): Phase {
    if s.ready.Some? then Verify else Provision
  }

  /** `apply` up to its save: the phase and operation it leaves. */
  function Applied(s: State, site: Site, id: nat): State {
    if site == ForProviderJob(ServeKey) then s
    else if PhaseOf(site) == Dependencies && s.phase in {Provision, Verify} && Unrecorded(s) then s
    else if s.phase != PhaseOf(site) then s.(phase := PhaseOf(site), operation := id)
    else s
  }

  /** The Job a Helm submission asks for, if its phase has one. */
  function SubmittedJob(s: State, site: Site): Option<JobName> {
    match site
    case ForJob(phase) => Some(JobName(phase, s.operation))
    case ForProviderJob(ServeKey) =>
      if s.provider.serveIntent.Some? then Some(s.provider.serveIntent.value.job) else None
    case ForProviderJob(key) => Some(JobName(KeyPhase(key), s.operation))
    case _ => None
  }

  function AfterApply(site: Site): Pc {
    match site
    case ForJob(phase) => JobWait(phase)
    case ForInitializer => EnsureInitialization
    case ForServer => ServeBegin
    case ForServing => Finished
    case ForProviderJob(key) => JobRead(key)
  }

  function Submit(w: World, s: State, site: Site): World {
    match SubmittedJob(s, site)
    case None => w
    case Some(job) =>
      w.(cluster := w.cluster.(jobRequests := w.cluster.jobRequests + {job}),
         log := w.log.(submitted := w.log.submitted + {job},
                       startSubmits := w.log.startSubmits + if job.phase == ProviderStart then 1 else 0))
  }

  function ApplyStep(w: World, p: Process, id: nat): Option<World>
    requires p.pc.ApplySave? || p.pc.ApplySubmit?
  {
    match p.pc
    case ApplySave(site) => Some(Save(Mint(w, id), p, Applied(p.mem, site, id), ApplySubmit(site)))
    case ApplySubmit(site) => Some(Goto(Submit(w, p.mem, site), p, AfterApply(site)))
  }

  function Found(w: World, job: JobName): Option<Job> {
    if job in w.cluster.jobs then Some(w.cluster.jobs[job]) else None
  }

  /** `run` outside its calls. */
  function RunStep(w: World, p: Process, id: nat): Option<World> {
    var s := p.mem;
    match p.pc
    case Begin =>
      if p.operation == VerifyOnly && s.ready.None? then None else Some(Save(w, p, s, ResumeCheck))
    case ResumeCheck =>
      if p.operation == Resume && s.phase in {Prepare, Provision, Verify} && Found(w, Current(s)).Some? then
        (match Found(w, Current(s)).value.status
         case Failed(active, _) =>
           if active then None
           else Some(Save(Settle(Mint(w, id), Current(s)), p, s.(operation := id), Choose))
         case Succeeded(_, _, _) => Some(Goto(w, p, Choose))
         case Active => None)
      else Some(Goto(w, p, Choose))
    case Choose =>
      var pending := if s.phase == TargetPhase(s) && Unrecorded(s) then Some(s.operation) else None;
      var q := p.(pending := pending);
      if s.ready.Some? then Some(Goto(w, q, if p.operation == VerifyOnly then Restore else StopLook))
      else if p.operation == VerifyOnly then None
      else Some(Goto(w, q, if s.prepared.None? then ApplySave(ForJob(Prepare)) else EnsureStart))
    case Restore =>
      var s' := if p.pending.Some? then s.(phase := TargetPhase(s), operation := p.pending.value) else s;
      Some(Save(w, p.(pending := None), s', if s.ready.Some? then ChooseVerify else ApplySave(ForJob(Provision))))
    case ChooseVerify =>
      var s' := if s.phase != Verify || !Unrecorded(s) then s.(phase := Verify, operation := id) else s;
      Some(Save(Mint(w, id), p, s', ApplySave(ForJob(Verify))))
    case JobWait(phase) =>
      var name := JobName(phase, s.operation);
      if Found(w, name).None? || !Found(w, name).value.status.Succeeded? then None
      else
        var job := Found(w, name).value;
        var proof := Proof(name, job.uid, job.status.podUid, job.status.digest, None);
        if s.prepared.Some? && proof.digest != s.prepared.value.digest then None
        else if phase == Prepare then
          Some(Save(Settle(w, name), p, s.(prepared := Some(proof)), EnsureStart))
        else
          Some(Save(Settle(w, name), p, s.(ready := Some(proof)),
                    if p.operation == VerifyOnly then Finished else ApplySave(ForServing)))
    case _ => None
  }

  /** `provider_job`. */
  function JobStep(w: World, p: Process, id: nat): Option<World> {
    var s := p.mem;
    var v := s.provider;
    match p.pc
    case JobIntent(key) =>
      if IntentOf(v, key).Some? then Some(Goto(w, p, JobLook(key, false)))
      else
        var s' := if key == ServeKey then s else s.(phase := KeyPhase(key), operation := id);
        var intent := Some(Intent(JobName(KeyPhase(key), id), None));
        Some(Save(Mint(w, id), p, s'.(provider := WithIntent(v, key, intent)), JobLook(key, true)))
    case JobLook(key, first) =>
      if IntentOf(v, key).None? then None
      else if Found(w, IntentOf(v, key).value.job).Some? then Some(Goto(w, p, JobRead(key)))
      else if first then Some(Goto(w, p, ApplySave(ForProviderJob(key))))
      else None
    case JobRead(key) =>
      if IntentOf(v, key).None? then None
      else
        var intent := IntentOf(v, key).value;
        (match Found(w, intent.job)
         case None => None
         case Some(job) =>
           if intent.uid.Some? && intent.uid.value != job.uid then None
           else
             var known := Some(intent.(uid := Some(job.uid)));
             Some(Save(w, p, s.(provider := WithIntent(v, key, known)), JobAwait(key))))
    case JobAwait(key) =>
      if IntentOf(v, key).None? || s.prepared.None? then None
      else
        var intent := IntentOf(v, key).value;
        (match Found(w, intent.job)
         case None => None
         case Some(job) =>
           if Some(job.uid) != intent.uid then None
           else match job.status
             case Active => None
             case Failed(_, closedObservation) =>
               if key != StartKey && closedObservation then Some(Goto(w, p, JobReturn(key, None))) else None
             case Succeeded(digest, mode, podUid) =>
               if digest != s.prepared.value.digest then None
               else
                 var proof := Proof(intent.job, job.uid, podUid, digest, if key == StartKey then Some(mode) else None);
                 Some(Goto(w, p, JobReturn(key, Some(proof)))))
    case JobReturn(StartKey, proof) =>
      if proof.None? then None
      else Some(Save(w, p, s.(provider := v.(started := proof)), EnsureReady))
    case JobReturn(ObserveKey, proof) =>
      if v.initialization.None? || !PodRunning(w, v.initialization.value) then None
      else if proof.Some? then Some(Save(w, p, s.(provider := v.(ready := proof)), StopLook))
      else Some(Save(w, p, s.(provider := v.(observeIntent := None)), EnsureWatch))
    case JobReturn(ServeKey, proof) =>
      var s' := s.(provider := v.(serveIntent := None));
      Some(Save(w, p.(resolving := false), s', if p.resolving || proof.None? then JobIntent(ServeKey) else Restore))
    case _ => None
  }

  /** `check_provider_pod`: the recorded UID, and a finalizer unless termination is recorded. */
  predicate PodOk(pod: Pod, i: Initialization) {
    (i.uid.Some? ==> pod.uid == i.uid.value) && (pod.finalizer || i.terminated)
  }

  function FoundPod(w: World, i: Initialization): Option<Pod> {
    if i.nonce in w.cluster.pods then Some(w.cluster.pods[i.nonce]) else None
  }

  predicate PodRunning(w: World, i: Initialization) {
    FoundPod(w, i).Some? && PodOk(FoundPod(w, i).value, i) && FoundPod(w, i).value.container == Running
  }

  function WithInitialization(s: State, i: Initialization): State {
    s.(provider := s.provider.(initialization := Some(i)))
  }

  /** `ensure_provider`. */
  function EnsureStep(w: World, p: Process, id: nat): Option<World> {
    var s := p.mem;
    var v := s.provider;
    match p.pc
    case EnsureStart => Some(Goto(w, p, if v.started.None? then JobIntent(StartKey) else EnsureReady))
    case EnsureReady =>
      if v.ready.Some? then Some(Goto(w, p, StopLook))
      else if v.started.None? || v.started.value.mode != Some(InitializeOnce) then None
      else Some(Goto(w, p, ApplySave(ForInitializer)))
    case EnsureInitialization =>
      if v.initialization.Some? then Some(Goto(w, p, EnsureLook(false)))
      else
        var i := Initialization(id, None, false, false, false);
        Some(Save(Mint(w, id), p, WithInitialization(s, i), EnsureLook(true)))
    case EnsureLook(first) =>
      if v.initialization.None? then None
      else if FoundPod(w, v.initialization.value).Some? then Some(Goto(w, p, EnsureUid))
      else if first then Some(Goto(w, p, EnsureCreate))
      else None
    case EnsureCreate =>
      if v.initialization.None? then None
      else Some(Goto(w.(cluster := w.cluster.(podRequests := w.cluster.podRequests + {v.initialization.value.nonce}),
                        log := w.log.(creates := w.log.creates + 1)), p, EnsureUid))
    case EnsureUid =>
      if v.initialization.None? then None
      else
        var i := v.initialization.value;
        (match FoundPod(w, i)
         case None => None
         case Some(pod) =>
           if !PodOk(pod, i) then None
           else Some(Save(w, p, WithInitialization(s, i.(uid := Some(pod.uid))), EnsureWatch)))
    case EnsureWatch =>
      if v.initialization.None? || v.initialization.value.deleting || !PodRunning(w, v.initialization.value) then None
      else Some(Goto(w, p, JobIntent(ObserveKey)))
    case _ => None
  }

  /** `provider_stop`. */
  function StopStep(w: World, p: Process): Option<World> {
    var s := p.mem;
    if s.provider.initialization.None? then
      (if p.pc == StopLook then Some(Goto(w, p, ApplySave(ForServer))) else None)
    else
      var i := s.provider.initialization.value;
      var found := FoundPod(w, i);
      match p.pc
      case StopLook =>
        if i.complete then Some(Goto(w, p, ApplySave(ForServer)))
        else if found.None? then
          if !i.terminated then None
          else Some(Save(w, p, WithInitialization(s, i.(complete := true)), ApplySave(ForServer)))
        else if !PodOk(found.value, i) then None
        else Some(Save(w, p, WithInitialization(s, i.(deleting := true)), StopDelete(found.value)))
      case StopDelete(seen) =>
        Some(Goto(if seen.deleting then w else DeletePod(w, i), p, StopWait(seen)))
      case StopWait(seen) =>
        if seen.container.Terminated? then
          if seen.container.exitCode != 0 then None
          else Some(Save(w, p, WithInitialization(s, i.(terminated := true)), StopUnpin(seen)))
        else if found.None? || !PodOk(found.value, i) then None
        else Some(Goto(w, p, StopWait(found.value)))
      case StopUnpin(seen) =>
        Some(Goto(if seen.finalizer then UnpinPod(w, i) else w, p, StopGone))
      case StopGone =>
        if found.None? then Some(Save(w, p, WithInitialization(s, i.(complete := true)), ApplySave(ForServer)))
        else if Some(found.value.uid) != i.uid then None
        else Some(Goto(w, p, StopGone))
      case _ => None
  }

  /** Deletion with a UID precondition. */
  function DeletePod(w: World, i: Initialization): World {
    if FoundPod(w, i).Some? && Some(FoundPod(w, i).value.uid) == i.uid then
      WithPod(w, i.nonce, FoundPod(w, i).value.(deleting := true))
    else w
  }

  /** The JSON patch that tests the UID and the finalizer and then removes the finalizer. */
  function UnpinPod(w: World, i: Initialization): World {
    if FoundPod(w, i).Some? && Some(FoundPod(w, i).value.uid) == i.uid then
      WithPod(w, i.nonce, FoundPod(w, i).value.(finalizer := false))
    else w
  }

  function WithPod(w: World, nonce: nat, pod: Pod): World {
    w.(cluster := w.cluster.(pods := w.cluster.pods[nonce := pod]))
  }

  /** `observe_serving_provider` up to its first Job. */
  function ServeStep(w: World, p: Process): Option<World> {
    var v := p.mem.provider;
    if v.ready.None? || v.initialization.None? || !v.initialization.value.complete then None
    else Some(Goto(w, p.(resolving := v.serveIntent.Some?), JobIntent(ServeKey)))
  }

  /** The next step of the process, or None where it waits or raises. `id` is used where an identifier is minted. */
  function Proceed(w: World, p: Process, id: nat): Option<World> {
    match p.pc
    case ApplySave(_) => ApplyStep(w, p, id)
    case ApplySubmit(_) => ApplyStep(w, p, id)
    case Begin => RunStep(w, p, id)
    case ResumeCheck => RunStep(w, p, id)
    case Choose => RunStep(w, p, id)
    case Restore => RunStep(w, p, id)
    case ChooseVerify => RunStep(w, p, id)
    case JobWait(_) => RunStep(w, p, id)
    case JobIntent(_) => JobStep(w, p, id)
    case JobLook(_, _) => JobStep(w, p, id)
    case JobRead(_) => JobStep(w, p, id)
    case JobAwait(_) => JobStep(w, p, id)
    case JobReturn(_, _) => JobStep(w, p, id)
    case EnsureStart => EnsureStep(w, p, id)
    case EnsureReady => EnsureStep(w, p, id)
    case EnsureInitialization => EnsureStep(w, p, id)
    case EnsureLook(_) => EnsureStep(w, p, id)
    case EnsureCreate => EnsureStep(w, p, id)
    case EnsureUid => EnsureStep(w, p, id)
    case EnsureWatch => EnsureStep(w, p, id)
    case StopLook => StopStep(w, p)
    case StopDelete(_) => StopStep(w, p)
    case StopWait(_) => StopStep(w, p)
    case StopUnpin(_) => StopStep(w, p)
    case StopGone => StopStep(w, p)
    case ServeBegin => ServeStep(w, p)
    case Finished => None
  }

  // ---------------------------------------------------------------- the environment

  datatype Action =
    | Launch(operation: Operation)   // a new installer takes the lock and loads the state file
    | Crash                          // the installer raises, is killed, or ends
    | Step(id: nat)
    | JobLands(name: JobName, uid: nat) | JobEnds(name: JobName, status: JobStatus)
    | JobPodsEnd(name: JobName)      // the last Pod of a failed Job ends
    | JobVanishes(name: JobName)     // somebody deletes a Job; the installer never does
    | PodLands(nonce: nat, uid: nat) | PodStarts(nonce: nat) | PodEnds(nonce: nat, exitCode: int)
    | PodDeletedByOthers(nonce: nat)
    | PodVanishes(nonce: nat)

  /** The cluster on its own. It honours finalizers, gives every object a new UID, and never re-creates a Pod. */
  function Environment(w: World, a: Action): Option<World> {
    var c := w.cluster;
    match a
    case JobLands(name, uid) =>
      if name !in c.jobRequests || name in c.jobs || uid in w.log.used then None
      else
        var jobs := c.jobs[name := Job(uid, Active)];
        Some(Mint(w, uid).(cluster := c.(jobRequests := c.jobRequests - {name}, jobs := jobs)))
    case JobEnds(name, status) =>
      if name !in c.jobs || !c.jobs[name].status.Active? then None
      else Some(w.(cluster := c.(jobs := c.jobs[name := c.jobs[name].(status := status)])))
    case JobPodsEnd(name) =>
      if name !in c.jobs || !c.jobs[name].status.Failed? then None
      else
        var job := c.jobs[name];
        Some(w.(cluster := c.(jobs := c.jobs[name := job.(status := Failed(false, job.status.closedObservation))])))
    case JobVanishes(name) =>
      Some(w.(cluster := c.(jobs := c.jobs - {name})))
    case PodLands(nonce, uid) =>
      if nonce !in c.podRequests || nonce in w.log.landed || uid in w.log.used then None
      else
        var w' := Mint(w, uid);
        Some(WithPod(w'.(log := w'.log.(landed := w'.log.landed + {nonce})), nonce, Pod(uid, Pending, false, true)))
    case PodStarts(nonce) =>
      if nonce !in c.pods || !c.pods[nonce].container.Pending? then None
      else Some(WithPod(w, nonce, c.pods[nonce].(container := Running)))
    case PodEnds(nonce, exitCode) =>
      if nonce !in c.pods || c.pods[nonce].container.Terminated? then None
      else
        var w' := WithPod(w, nonce, c.pods[nonce].(container := Terminated(exitCode)));
        Some(if exitCode == 0 then w'.(log := w.log.(cleanExits := w.log.cleanExits + {c.pods[nonce].uid})) else w')
    case PodDeletedByOthers(nonce) =>
      if nonce !in c.pods then None else Some(WithPod(w, nonce, c.pods[nonce].(deleting := true)))
    case PodVanishes(nonce) =>
      if nonce !in c.pods || !c.pods[nonce].deleting || c.pods[nonce].finalizer then None
      else Some(w.(cluster := c.(pods := c.pods - {nonce})))
    case _ => None
  }

  // ---------------------------------------------------------------- runs

  function Do(w: World, a: Action): Option<World> {
    match a
    case Launch(operation) =>
      if w.process.Some? || !ProviderStateOk(w.disk.provider, w.disk.prepared) then None
      else Some(w.(process := Some(Process(operation, w.disk, Begin, None, false))))
    case Crash => Some(w.(process := None))
    case Step(id) => if w.process.None? || id in w.log.used then None else Proceed(w, w.process.value, id)
    case _ => Environment(w, a)
  }

  /** The state file of a first run and an empty cluster. */
  function Initial(operation: nat): World {
    World(State(Prepare, operation, None, None, NO_PROVIDER), None,
          Cluster({}, map[], {}, map[]), Log({operation}, 0, 0, {}, {}, {}, {}))
  }

  /** The world after the actions, or None when one of them is not possible. */
  function Run(w: World, actions: seq<Action>): Option<World> {
    if actions == [] then Some(w)
    else
      match Run(w, Front(actions))
      case None => None
      case Some(w') => Do(w', Last(actions))
  }
}
