/** What becomes of a failed request: it is reported, once, and tried again. */
module Failures {
  import opened Options
  import opened Status
  import opened Objects
  import opened Sorting
  import opened Cluster
  import opened Reconciler
  import opened Invariant
  import opened OperatorSteps
  import opened Requests
  import opened Safety
  import opened Convergence

  /** The request made from a position fails: it is not answered, or the server refuses it. */
  ghost predicate Fails(s: System, o: Outcome)
    requires s.local.AtStrip? || s.local.AtRelease? || s.local.AtDelete? ==> s.local.i < |s.local.jobs|
  {
    !o.Answered? ||
    match s.local
    case AtList(obj) => !IsListing(s.w, obj.uid, o.items)
    case AtFence(obj, _) => !UpdateAccepted(s.w, obj)
    case AtClear(obj) => !UpdateAccepted(s.w, obj)
    case AtCreate(_, job) => GeneratedName(job, o.suffix) in s.w.jobs
    case AtStrip(_, jobs, i) => !JobUpdateAccepted(s.w, Unheld(jobs[i]))
    case AtRelease(_, jobs, i) => !JobUpdateAccepted(s.w, Unheld(jobs[i]))
    case AtDelete(_, jobs, i) => jobs[i].name !in s.w.jobs
    case _ => false
  }

  /** The call a position makes, as the wrapping error text names it. */
  function CallOf(local: Local): Call {
    match local
    case Idle(_) => GetCall
    case AtList(_) => ListCall
    case AtFence(_, _) => SetFinalizerCall
    case AtCreate(_, _) => CreateCall
    case AtStrip(_, _, _) => StripCall
    case AtClear(_) => ClearFinalizerCall
    case AtRelease(_, _, _) => StripCall
    case AtDelete(_, _, _) => DeleteCall
    case AtStatus(_, _) => GetCall
  }

  /** A request is in the middle of a reconciliation. */
  ghost predicate Midway(s: System) {
    && !s.local.Idle? && !s.local.AtStatus?
    && (s.local.AtStrip? || s.local.AtRelease? || s.local.AtDelete? ==> s.local.i < |s.local.jobs|)
  }

  /** The reconciliation goes straight to the status write, with an error. */
  ghost predicate EndsInError(local: Local) {
    local.AtStatus? && local.result == Failed
  }

  lemma {:induction false} DrainNoError(w: World, obj: ReactiveJob, jobs: seq<Job>, i: nat)
    ensures !EndsInError(Drain(w, obj, jobs, i).local)
    decreases |jobs| - i
  {
    if i < |jobs| && Operator !in jobs[i].finalizers && jobs[i].deleting {
      DrainNoError(w, obj, jobs, i + 1);
    }
  }

  lemma SweepNoError(w: World, obj: ReactiveJob, jobs: seq<Job>, i: nat)
    requires jobs != []
    ensures !EndsInError(Sweep(w, obj, jobs, i).local)
  {
    hide Scan;
  }

  lemma ProceedNoError(h: HashFunction, w: World, obj: ReactiveJob, jobs: seq<Job>)
    ensures !EndsInError(Proceed(h, w, obj, jobs).local)
  {
    hide Sweep, BuildJob, Shared, HashOf;
    if jobs != [] {
      SweepNoError(w, obj, jobs, 1);
    }
  }

  lemma DispatchNoError(h: HashFunction, w: World, obj: ReactiveJob, jobs: seq<Job>)
    ensures !EndsInError(Dispatch(h, w, obj, jobs).local)
  {
    hide Proceed, Drain;
    ProceedNoError(h, w, obj, jobs);
    DrainNoError(w, obj, jobs, 0);
  }

  lemma AbortReports(w: World, obj: ReactiveJob, call: Call)
    ensures var l := Abort(w, obj, call).local;
            && EndsInError(l) && l.obj.resourceVersion == obj.resourceVersion
            && Reports(l.obj.status, StateError, Failure(call))
  {
    ReportsWhatIsSet(obj.status, StateError, Failure(call), w.now);
  }

  lemma LoopFailure(h: HashFunction, s: System, o: Outcome)
    requires Midway(s) && (s.local.AtStrip? || s.local.AtRelease? || s.local.AtDelete?)
    ensures if Fails(s, o) then OpStep(h, s, o).local == Abort(OpStep(h, s, o).w, s.local.obj, CallOf(s.local)).local
            else !EndsInError(OpStep(h, s, o).local)
  {
    hide Sweep, Drain, PutJob, Unheld, JobUpdateAccepted, WithState;
    var jobs := s.local.jobs;
    var i := s.local.i;
    var v := UpdateJob(s.w, Unheld(jobs[i])).0;
    var u := DeleteJob(s.w, jobs[i].name, true).0;
    SweepNoError(v, s.local.obj, jobs, i + 1);
    DrainNoError(v, s.local.obj, jobs, i + 1);
    DrainNoError(u, s.local.obj, jobs, i + 1);
  }

  lemma OtherFailure(h: HashFunction, s: System, o: Outcome)
    requires s.local.AtList? || s.local.AtFence? || s.local.AtClear? || s.local.AtCreate?
    requires s.local.AtList? && o.Answered? && IsListing(s.w, s.local.obj.uid, o.items) ==> !SortPanics(o.items)
    ensures if Fails(s, o) then OpStep(h, s, o).local == Abort(OpStep(h, s, o).w, s.local.obj, CallOf(s.local)).local
            else !EndsInError(OpStep(h, s, o).local)
  {
    hide Dispatch, Proceed, PutJob, PutReactiveJob, UpdateAccepted, WithState, HashOf, GenerationOf, SortPanics,
         IsListing;
    match s.local
    case AtList(obj) =>
      if o.Answered? {
        DispatchNoError(h, s.w, obj, Sorted(o.items));
      }
    case AtFence(obj, jobs) =>
      var (v, reply) := UpdateReactiveJob(s.w, obj);
      if reply.Accepted? {
        ProceedNoError(h, v, reply.value, jobs);
      }
    case _ =>
  }

  /** A reconciliation turns to an error exactly when its request fails, and then the status it is
      about to write says Error and names the call. */
  lemma FailureIsReported(h: HashFunction, s: System, o: Outcome)
    requires Inv(h, s) && Midway(s)
    ensures EndsInError(OpStep(h, s, o).local) <==> Fails(s, o)
    ensures Fails(s, o) ==>
              var l := OpStep(h, s, o).local;
              Reports(l.obj.status, StateError, Failure(CallOf(s.local)))
                  && l.obj.resourceVersion == s.local.obj.resourceVersion
  {
    if s.local.AtList? && o.Answered? && IsListing(s.w, s.local.obj.uid, o.items) {
      ListKeeps(h, s.w, s.local.obj, o.items);
    }
    hide OpStep, Inv, Abort, Fails, EndsInError, Reports, IsListing, SortPanics, Dispatch;
    AbortReports(OpStep(h, s, o).w, s.local.obj, CallOf(s.local));
    if s.local.AtStrip? || s.local.AtRelease? || s.local.AtDelete? {
      LoopFailure(h, s, o);
    } else {
      OtherFailure(h, s, o);
    }
  }

  /** After a failure the status write ends the reconciliation with an error, whatever becomes of it,
      and another one is scheduled. The store says Error and names the call, provided the write is
      answered and the ReactiveJob is still at the revision held in memory. */
  lemma FailureIsRetried(h: HashFunction, s: System, o: Outcome, p: Outcome)
    requires Inv(h, s) && Midway(s) && Fails(s, o)
    ensures var t := OpStep(h, OpStep(h, s, o), p);
            && t.local == Idle(Failed) && t.w.queued
            && (p.Answered? && OpStep(h, s, o).w.rj.Some?
                && OpStep(h, s, o).w.rj.value.resourceVersion == s.local.obj.resourceVersion ==>
                  t.w.rj.Some? && Reports(t.w.rj.value.status, StateError, Failure(CallOf(s.local))))
  {
    var next := OpStep(h, s, o);
    FailureIsReported(h, s, o);
    OpStepKeepsInv(h, s, o);
    StoredHolds(h, next);
    hide Inv, Fails, Reports, Midway;
    ErrorWrite(h, next, p);
  }

  lemma StoredHolds(h: HashFunction, s: System)
    requires Inv(h, s)
    ensures s.w.rj.Some? && s.w.rj.value.deleting ==> s.w.rj.value.finalizers != []
  {
    hide LocalInv, LogOk, LogOrder, Owned, Truthful;
  }

  lemma ErrorWrite(h: HashFunction, s: System, p: Outcome)
    requires EndsInError(s.local)
    requires s.w.rj.Some? && s.w.rj.value.deleting ==> s.w.rj.value.finalizers != []
    ensures var t := OpStep(h, s, p);
            && t.local == Idle(Failed) && t.w.queued
            && (p.Answered? && s.w.rj.Some? && s.w.rj.value.resourceVersion == s.local.obj.resourceVersion ==>
                  t.w.rj.Some? && t.w.rj.value.status == s.local.obj.status)
  {
  }

  /** The first request: an error is returned as an error and tried again; a ReactiveJob that is not
      found ends the reconciliation with nothing; otherwise it goes on. In any case nothing is written. */
  lemma GetEndsExactly(h: HashFunction, s: System, o: Outcome)
    requires s.local.Idle? && s.w.queued
    ensures var t := OpStep(h, s, o);
            && (t.local == Idle(Failed) <==> !o.Answered?)
            && (t.local == Idle(Nothing) <==> o.Answered? && s.w.rj.None?)
            && (!t.local.Idle? <==> o.Answered? && s.w.rj.Some?)
            && (!o.Answered? ==> t.w.queued)
            && t.w == s.w.(queued := t.w.queued)
  {
    hide SetState;
  }
}
