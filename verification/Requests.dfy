/** What one step of the reconciler does to the store: the effect of its request, and nothing else. */
module Requests {
  import opened Options
  import opened Status
  import opened Objects
  import opened Sorting
  import opened Cluster
  import opened Reconciler

  /** The store after the request of a step, by the position it is made from. */
  ghost function RequestEffect(w: World, local: Local, o: Outcome): World {
    if o.NotDelivered? then w else
      match local
      case AtFence(obj, _) => UpdateReactiveJob(w, obj).0
      case AtClear(obj) => UpdateReactiveJob(w, obj).0
      case AtCreate(_, job) => CreateJob(w, job, Suffix(o)).0
      case AtStrip(_, jobs, i) => if i < |jobs| then UpdateJob(w, Unheld(jobs[i])).0 else w
      case AtRelease(_, jobs, i) => if i < |jobs| then UpdateJob(w, Unheld(jobs[i])).0 else w
      case AtDelete(_, jobs, i) => if i < |jobs| then DeleteJob(w, jobs[i].name, true).0 else w
      case AtStatus(obj, _) => UpdateStatus(w, obj).0
      case _ => w
  }

  lemma {:induction false} DrainKeepsWorld(w: World, obj: ReactiveJob, jobs: seq<Job>, i: nat)
    ensures Drain(w, obj, jobs, i).w == w
    decreases |jobs| - i
  {
    if i < |jobs| && Operator !in jobs[i].finalizers && jobs[i].deleting {
      DrainKeepsWorld(w, obj, jobs, i + 1);
    }
  }

  lemma ProceedKeepsWorld(h: HashFunction, w: World, obj: ReactiveJob, jobs: seq<Job>)
    ensures Proceed(h, w, obj, jobs).w == w
  {
    hide BuildJob, Shared, HashOf, WithState, Scan;
  }

  lemma DispatchKeepsWorld(h: HashFunction, w: World, obj: ReactiveJob, jobs: seq<Job>)
    ensures Dispatch(h, w, obj, jobs).w == w
  {
    hide Proceed, Drain, WithState;
    ProceedKeepsWorld(h, w, obj, jobs);
    DrainKeepsWorld(w, obj, jobs, 0);
  }

  lemma SweepKeepsWorld(w: World, obj: ReactiveJob, jobs: seq<Job>, i: nat)
    requires jobs != []
    ensures Sweep(w, obj, jobs, i).w == w
  {
    hide WithState, Scan;
  }

  lemma AbortKeepsWorld(w: World, obj: ReactiveJob, call: Call)
    ensures Abort(w, obj, call).w == w
  {
  }

  lemma BeginKeepsWorld(w: World, r: ReactiveJob)
    ensures Begin(w, r).w == w
  {
  }

  lemma ReadStepEffect(h: HashFunction, s: System, o: Outcome)
    requires s.local.Idle? || s.local.AtList?
    ensures OpStep(h, s, o).w == s.w.(queued := OpStep(h, s, o).w.queued)
  {
    hide Begin, Abort, Dispatch, IsListing;
    match s.local
    case Idle(_) =>
      if s.w.rj.Some? {
        BeginKeepsWorld(s.w.(queued := false), s.w.rj.value);
      }
    case AtList(obj) =>
      AbortKeepsWorld(s.w, obj, ListCall);
      if o.Answered? {
        DispatchKeepsWorld(h, s.w, obj, Sorted(o.items));
      }
  }

  lemma ObjectStepEffect(h: HashFunction, s: System, o: Outcome)
    requires s.local.AtFence? || s.local.AtClear? || s.local.AtStatus?
    ensures OpStep(h, s, o).w == RequestEffect(s.w, s.local, o).(queued := OpStep(h, s, o).w.queued)
    ensures !s.local.AtStatus? ==> OpStep(h, s, o).w == RequestEffect(s.w, s.local, o)
  {
    hide Abort, Proceed, UpdateReactiveJob, UpdateStatus;
    var obj := s.local.obj;
    var (v, reply) := UpdateReactiveJob(s.w, obj);
    AbortKeepsWorld(s.w, obj, SetFinalizerCall);
    AbortKeepsWorld(v, obj, SetFinalizerCall);
    AbortKeepsWorld(s.w, obj, ClearFinalizerCall);
    AbortKeepsWorld(v, obj, ClearFinalizerCall);
    if s.local.AtFence? && reply.Accepted? {
      ProceedKeepsWorld(h, v, reply.value, s.local.jobs);
    }
  }

  lemma CreateStepEffect(h: HashFunction, s: System, o: Outcome)
    requires s.local.AtCreate?
    ensures OpStep(h, s, o).w == RequestEffect(s.w, s.local, o)
  {
    hide Abort, CreateJob, WithState;
    AbortKeepsWorld(s.w, s.local.obj, CreateCall);
    AbortKeepsWorld(CreateJob(s.w, s.local.job, Suffix(o)).0, s.local.obj, CreateCall);
  }

  lemma LoopStepEffect(h: HashFunction, s: System, o: Outcome)
    requires s.local.AtStrip? || s.local.AtRelease? || s.local.AtDelete?
    ensures OpStep(h, s, o).w == RequestEffect(s.w, s.local, o)
  {
    hide Abort, UpdateJob, DeleteJob, Sweep, Drain, Unheld;
    var obj := s.local.obj;
    var jobs := s.local.jobs;
    var i := s.local.i;
    if i < |jobs| {
      var v := UpdateJob(s.w, Unheld(jobs[i])).0;
      var u := DeleteJob(s.w, jobs[i].name, true).0;
      AbortKeepsWorld(s.w, obj, StripCall);
      AbortKeepsWorld(v, obj, StripCall);
      AbortKeepsWorld(s.w, obj, DeleteCall);
      AbortKeepsWorld(u, obj, DeleteCall);
      SweepKeepsWorld(v, obj, jobs, i + 1);
      DrainKeepsWorld(v, obj, jobs, i + 1);
      DrainKeepsWorld(u, obj, jobs, i + 1);
    }
  }

  /** One step changes the store by its request, and the queue. */
  lemma StepEffect(h: HashFunction, s: System, o: Outcome)
    ensures OpStep(h, s, o).w == RequestEffect(s.w, s.local, o).(queued := OpStep(h, s, o).w.queued)
  {
    hide OpStep, UpdateReactiveJob, UpdateStatus, CreateJob, UpdateJob, DeleteJob;
    if s.local.Idle? || s.local.AtList? {
      ReadStepEffect(h, s, o);
    } else if s.local.AtFence? || s.local.AtClear? || s.local.AtStatus? {
      ObjectStepEffect(h, s, o);
    } else if s.local.AtCreate? {
      CreateStepEffect(h, s, o);
    } else {
      LoopStepEffect(h, s, o);
    }
  }

  // ---------- What requests about jobs leave alone ----------

  lemma JobRequestsKeep(w: World, local: Local, o: Outcome)
    requires local.AtCreate? || local.AtStrip? || local.AtRelease? || local.AtDelete? || local.Idle? || local.AtList?
    ensures var v := RequestEffect(w, local, o);
            && v.rj == w.rj && v.history == w.history && v.uids == w.uids && v.key == w.key && v.now == w.now
            && (!local.AtCreate? ==> v.created == w.created)
            && (local.Idle? || local.AtList? ==> v == w)
  {
    hide HashOf, GenerationOf, JobUpdateAccepted, Wakes, Unheld;
  }

  lemma ObjectRequestsKeep(w: World, local: Local, o: Outcome)
    requires local.AtFence? || local.AtClear? || local.AtStatus?
    ensures var v := RequestEffect(w, local, o);
            v.jobs == w.jobs && v.created == w.created && v.uids == w.uids && v.key == w.key && v.now == w.now
  {
    hide UpdateAccepted, StatusAccepted;
  }

  lemma CreateGrowsLog(w: World, job: Job, suffix: string)
    ensures var v := CreateJob(w, job, suffix).0;
            v.created == w.created
            || (GeneratedName(job, suffix) !in w.jobs && |v.created| == |w.created| + 1 && w.created <= v.created)
  {
    hide HashOf, GenerationOf, Wakes;
  }
}
