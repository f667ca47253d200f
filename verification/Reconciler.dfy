/** The reconciler as a small-step machine: one step is one request of Reconcile together with the
    local work that follows its reply, up to the next request. */
module Reconciler {
  import opened Options
  import opened Status
  import opened Objects
  import opened Sorting
  import opened Cluster

  /** What a reconciliation returns. Panicked only describes a panic that is still unwinding. */
  datatype Result = Nothing | Requeue | RequeueAfter(seconds: nat) | Failed | Panicked

  /** Where a reconciliation stands: the request it makes next, and the objects it holds in memory. */
  datatype Local =
    | Idle(last: Result)
    | AtList(obj: ReactiveJob)
    | AtFence(obj: ReactiveJob, jobs: seq<Job>)
    | AtCreate(obj: ReactiveJob, job: Job)
    | AtStrip(obj: ReactiveJob, jobs: seq<Job>, i: nat)
    | AtClear(obj: ReactiveJob)
    | AtRelease(obj: ReactiveJob, jobs: seq<Job>, i: nat)
    | AtDelete(obj: ReactiveJob, jobs: seq<Job>, i: nat)
    | AtStatus(obj: ReactiveJob, result: Result)

  datatype System = System(w: World, local: Local)

  /** The fate of a request: answered (with the server's choice of list order and name suffix),
      carried out with its reply lost, or lost before it had any effect. */
  datatype Outcome =
    | Answered(items: seq<Job>, suffix: string)
    | ReplyLost(suffix: string)
    | NotDelivered

  datatype Event = Env(action: Action) | Op(outcome: Outcome) | Crash

  // ---------- Local work between requests ----------

  /** A finished reconciliation; anything but Nothing schedules the next one. */
  function Finish(w: World, result: Result): System {
    System(w.(queued := w.queued || result != Nothing), Idle(result))
  }

  function WithState(w: World, obj: ReactiveJob, state: ReactiveJobState, message: Message): ReactiveJob {
    obj.(status := SetState(obj.status, state, message, w.now))
  }

  /** A failed request: the deferred status write reports the error. */
  function Abort(w: World, obj: ReactiveJob, call: Call): System {
    System(w, AtStatus(WithState(w, obj, StateError, Failure(call)), Failed))
  }

  function Acknowledge(r: ReactiveJob): ReactiveJob {
    r.(status := r.status.(observedGeneration := r.generation))
  }

  function Begin(w: World, r: ReactiveJob): System {
    var obj := Acknowledge(r);
    if obj.status.state == StateUnset then
      System(w, AtStatus(WithState(w, obj, StateNew, FirstSeen), Requeue))
    else
      System(w, AtList(obj))
  }

  /** A job with the operator's finalizer taken off. */
  function Unheld(j: Job): Job {
    j.(finalizers := RemoveFinalizer(j.finalizers, Operator))
  }

  /** The first job from i on that still holds the operator's finalizer. */
  function NextHeld(jobs: seq<Job>, i: nat): (k: nat)
    ensures i <= |jobs| ==> i <= k <= |jobs|
    ensures k < |jobs| ==> Operator in jobs[k].finalizers
    ensures forall x :: i <= x < k && x < |jobs| ==> Operator !in jobs[x].finalizers
    decreases |jobs| - i
  {
    if i >= |jobs| then i
    else if Operator in jobs[i].finalizers then i
    else NextHeld(jobs, i + 1)
  }

  /** State, message and delay read off a job's conditions: the first terminal one that is true. */
  function Scan(conditions: seq<JobCondition>): (ReactiveJobState, Message, nat) {
    if conditions == [] then
      (StateProcessing, WaitingForJob, 10)
    else
      var c := conditions[0];
      if c.typ == JobFailed && c.status == ConditionTrue then
        (StateError, JobSays(c.reason, c.message), 60)
      else if c.typ == JobComplete && c.status == ConditionTrue then
        (StateReady, JobSays(c.reason, c.message), 600)
      else
        Scan(conditions[1..])
  }

  function Conclude(w: World, obj: ReactiveJob, job: Job): System {
    var named := obj.(status := obj.status.(currentJobName := job.name));
    var (state, message, seconds) := Scan(job.conditions);
    System(w, AtStatus(WithState(w, named, state, message), RequeueAfter(seconds)))
  }

  /** The loop over older jobs, from position i on, and what follows it. */
  function Sweep(w: World, obj: ReactiveJob, jobs: seq<Job>, i: nat): System
    requires jobs != []
  {
    var k := NextHeld(jobs, i);
    if k < |jobs| then System(w, AtStrip(obj, jobs, k)) else Conclude(w, obj, jobs[0])
  }

  /** The create/update case once the ReactiveJob holds the finalizer. */
  function Proceed(h: HashFunction, w: World, obj: ReactiveJob, jobs: seq<Job>): System {
    if jobs == [] || HashOf(jobs[0]) != h(obj.template) then
      var job := BuildJob(h, w.key, obj.uid, obj.generation, obj.template);
      var shared := obj.(template := Shared(h, w.key, obj.uid, obj.generation, obj.template));
      System(w, AtCreate(shared, job))
    else
      Sweep(w, obj, jobs, 1)
  }

  /** The loop over all jobs in the deletion case, from position i on, and what follows it. */
  function Drain(w: World, obj: ReactiveJob, jobs: seq<Job>, i: nat): System
    decreases |jobs| - i
  {
    if i >= |jobs| then
      System(w, AtStatus(WithState(w, obj, StateDeleting, WaitingForDependents), RequeueAfter(10)))
    else if Operator in jobs[i].finalizers then
      System(w, AtRelease(obj, jobs, i))
    else
      DrainUnheld(w, obj, jobs, i)
  }

  /** The second half of that loop's body, once job i no longer holds the finalizer. */
  function DrainUnheld(w: World, obj: ReactiveJob, jobs: seq<Job>, i: nat): System
    requires i < |jobs|
    decreases |jobs| - i, 0
  {
    if !jobs[i].deleting then System(w, AtDelete(obj, jobs, i)) else Drain(w, obj, jobs, i + 1)
  }

  /** The three-way decision after the jobs are listed and sorted. */
  function Dispatch(h: HashFunction, w: World, obj: ReactiveJob, jobs: seq<Job>): System {
    if !obj.deleting then
      if Operator !in obj.finalizers then
        System(w, AtFence(obj.(finalizers := AddFinalizer(obj.finalizers, Operator)), jobs))
      else
        Proceed(h, w, obj, jobs)
    else if RemoveFinalizer(obj.finalizers, Operator) != [] then
      System(w, AtStatus(WithState(w, obj, StateDeletionBlocked, ForeignFinalizersBlock), RequeueAfter(10)))
    else if jobs == [] then
      if Operator in obj.finalizers then
        System(w, AtClear(obj.(finalizers := RemoveFinalizer(obj.finalizers, Operator))))
      else
        Finish(w, Nothing)
    else
      Drain(w, obj, jobs, 0)
  }

  // ---------- One step ----------

  /** A request as the outcome lets it happen: its effect, and the reply that gets back. */
  function Deliver<T>(o: Outcome, w: World, attempt: (World, Reply<T>)): (World, Reply<T>) {
    match o
    case Answered(_, _) => attempt
    case ReplyLost(_) => (attempt.0, Rejected)
    case NotDelivered => (w, Rejected)
  }

  function Suffix(o: Outcome): string {
    match o
    case Answered(_, suffix) => suffix
    case ReplyLost(suffix) => suffix
    case NotDelivered => ""
  }

  ghost function OpStep(h: HashFunction, s: System, o: Outcome): System {
    var w := s.w;
    match s.local
    case Idle(_) =>
      if !w.queued then s
      else
        var taken := w.(queued := false);
        if !o.Answered? then Finish(taken, Failed)
        else if w.rj.None? then Finish(taken, Nothing)
        else Begin(taken, w.rj.value)
    case AtList(obj) =>
      if o.Answered? && IsListing(w, obj.uid, o.items) then
        if SortPanics(o.items) then System(w, AtStatus(obj, Panicked))
        else Dispatch(h, w, obj, Sorted(o.items))
      else Abort(w, obj, ListCall)
    case AtFence(obj, jobs) =>
      var (w', reply) := Deliver(o, w, UpdateReactiveJob(w, obj));
      if reply.Accepted? then Proceed(h, w', reply.value, jobs) else Abort(w', obj, SetFinalizerCall)
    case AtCreate(obj, job) =>
      var (w', reply) := Deliver(o, w, CreateJob(w, job, Suffix(o)));
      if reply.Accepted? then
        System(w', AtStatus(WithState(w', obj, StateProcessing, JobCreated), RequeueAfter(1)))
      else Abort(w', obj, CreateCall)
    case AtStrip(obj, jobs, i) =>
      if i >= |jobs| then s
      else
        var (w', reply) := Deliver(o, w, UpdateJob(w, Unheld(jobs[i])));
        if reply.Accepted? then Sweep(w', obj, jobs, i + 1) else Abort(w', obj, StripCall)
    case AtClear(obj) =>
      var (w', reply) := Deliver(o, w, UpdateReactiveJob(w, obj));
      if reply.Accepted? then Finish(w', Nothing) else Abort(w', obj, ClearFinalizerCall)
    case AtRelease(obj, jobs, i) =>
      if i >= |jobs| then s
      else
        var (w', reply) := Deliver(o, w, UpdateJob(w, Unheld(jobs[i])));
        if reply.Accepted? then DrainUnheld(w', obj, jobs, i) else Abort(w', obj, StripCall)
    case AtDelete(obj, jobs, i) =>
      if i >= |jobs| then s
      else
        var (w', reply) := Deliver(o, w, DeleteJob(w, jobs[i].name, true));
        if reply.Accepted? then Drain(w', obj, jobs, i + 1) else Abort(w', obj, DeleteCall)
    case AtStatus(obj, result) =>
      var (w', reply) := Deliver(o, w, UpdateStatus(w, obj));
      if reply.Accepted? && result != Panicked then Finish(w', result) else Finish(w', Failed)
  }

  /** One event of a run. A crash loses everything in memory; after the restart every ReactiveJob
      is reconciled again. */
  ghost function Step(h: HashFunction, s: System, e: Event): System {
    match e
    case Env(action) => s.(w := Act(s.w, action))
    case Op(outcome) => OpStep(h, s, outcome)
    case Crash => Finish(s.w, Failed)
  }

  ghost function Run(h: HashFunction, s: System, events: seq<Event>): System
    decreases |events|
  {
    if events == [] then s
    else Step(h, Run(h, s, events[..|events| - 1]), events[|events| - 1])
  }

  function Start(key: NamespacedName): System {
    System(EmptyWorld(key), Idle(Nothing))
  }

  lemma {:induction false} RunConcat(h: HashFunction, s: System, a: seq<Event>, b: seq<Event>)
    ensures Run(h, s, a + b) == Run(h, Run(h, s, a), b)
    decreases |b|
  {
    if b == [] {
      assert a + b == a;
    } else {
      RunConcat(h, s, a, b[..|b| - 1]);
      assert (a + b)[..|a + b| - 1] == a + b[..|b| - 1];
    }
  }
}
