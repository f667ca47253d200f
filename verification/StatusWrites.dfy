/** What the operator writes into a status: by the step that decides on it, and over runs. */
module StatusWrites {
  import opened Options
  import opened Status
  import opened Objects
  import opened Sorting
  import opened Cluster
  import opened Reconciler
  import opened JobConditions
  import opened Invariant
  import opened Environment
  import opened OperatorSteps
  import opened Requests
  import opened Safety
  import opened Effects
  import opened Failures

  // ---------- The step that decides ----------

  /** The reconciliation goes on to the status write, with an object that differs from the given one in
      one report only, and will return the result if that write succeeds. */
  ghost predicate Writes(local: Local, obj: ReactiveJob, state: ReactiveJobState, message: Message, now: int,
                         result: Result) {
    && local.AtStatus? && local.result == result
    && local.obj == obj.(status := local.obj.status)
    && Reported(obj.status, local.obj.status, state, message, now)
  }

  /** The object with the job named in its status. */
  function Naming(obj: ReactiveJob, name: string): ReactiveJob {
    obj.(status := obj.status.(currentJobName := name))
  }

  /** The object names the head of the list and reports the verdict of its conditions. */
  ghost predicate WritesVerdict(local: Local, obj: ReactiveJob, jobs: seq<Job>, now: int) {
    && jobs != []
    && exists state, message, seconds ::
         && Verdict(jobs[0].conditions, state, message, seconds)
         && Writes(local, Naming(obj, jobs[0].name), state, message, now, RequeueAfter(seconds))
  }

  /** The status that a step decides to write, by where the step starts and how it ends. */
  ghost predicate Decided(s: System, o: Outcome, local: Local) {
    var now := s.w.now;
    match s.local
    case Idle(_) =>
      && s.w.rj.Some?
      && var r := s.w.rj.value;
         Writes(local, r.(status := r.status.(observedGeneration := r.generation)), StateNew, FirstSeen, now, Requeue)
    case AtStatus(_, _) => true
    case AtCreate(obj, _) =>
      if Failing(s, o) then Writes(local, obj, StateError, Failure(CreateCall), now, Failed)
      else Writes(local, obj, StateProcessing, JobCreated, now, RequeueAfter(1))
    case AtList(obj) =>
      if Failing(s, o) then Writes(local, obj, StateError, Failure(ListCall), now, Failed)
      else if !obj.deleting then WritesVerdict(local, obj, Sorted(o.items), now)
      else if OnlyOperator(obj.finalizers) then
        Writes(local, obj, StateDeleting, WaitingForDependents, now, RequeueAfter(10))
      else Writes(local, obj, StateDeletionBlocked, ForeignFinalizersBlock, now, RequeueAfter(10))
    case AtFence(obj, _) => Writes(local, obj, StateError, Failure(SetFinalizerCall), now, Failed)
    case AtClear(obj) => Writes(local, obj, StateError, Failure(ClearFinalizerCall), now, Failed)
    case AtStrip(obj, jobs, _) =>
      if Failing(s, o) then Writes(local, obj, StateError, Failure(StripCall), now, Failed)
      else WritesVerdict(local, obj, jobs, now)
    case AtRelease(obj, _, _) =>
      if Failing(s, o) then Writes(local, obj, StateError, Failure(StripCall), now, Failed)
      else Writes(local, obj, StateDeleting, WaitingForDependents, now, RequeueAfter(10))
    case AtDelete(obj, _, _) =>
      if Failing(s, o) then Writes(local, obj, StateError, Failure(DeleteCall), now, Failed)
      else Writes(local, obj, StateDeleting, WaitingForDependents, now, RequeueAfter(10))
  }

  ghost predicate Failing(s: System, o: Outcome) {
    Midway(s) && Fails(s, o)
  }

  lemma WithStateWrites(w: World, obj: ReactiveJob, state: ReactiveJobState, message: Message, result: Result)
    ensures Writes(AtStatus(WithState(w, obj, state, message), result), obj, state, message, w.now, result)
  {
    SetStateReports(obj.status, state, message, w.now);
    hide Status.SetState, Reported;
  }

  lemma AbortWrites(w: World, obj: ReactiveJob, call: Call)
    ensures Writes(Abort(w, obj, call).local, obj, StateError, Failure(call), w.now, Failed)
  {
    WithStateWrites(w, obj, StateError, Failure(call), Failed);
    hide WithState, Writes;
  }

  lemma ConcludeWrites(w: World, obj: ReactiveJob, jobs: seq<Job>)
    requires jobs != []
    ensures WritesVerdict(Conclude(w, obj, jobs[0]).local, obj, jobs, w.now)
  {
    var (state, message, seconds) := Scan(jobs[0].conditions);
    ScanVerdict(jobs[0].conditions);
    WithStateWrites(w, Naming(obj, jobs[0].name), state, message, RequeueAfter(seconds));
    hide Scan, WithState, Writes, Verdict;
  }

  lemma SweepWrites(w: World, obj: ReactiveJob, jobs: seq<Job>, i: nat)
    requires jobs != []
    ensures var l := Sweep(w, obj, jobs, i).local; l.AtStatus? ==> WritesVerdict(l, obj, jobs, w.now)
  {
    ConcludeWrites(w, obj, jobs);
    hide Conclude, WritesVerdict;
  }

  lemma ProceedWrites(h: HashFunction, w: World, obj: ReactiveJob, jobs: seq<Job>)
    ensures var l := Proceed(h, w, obj, jobs).local; l.AtStatus? ==> WritesVerdict(l, obj, jobs, w.now)
  {
    hide Sweep, BuildJob, Shared, HashOf;
    if jobs != [] {
      SweepWrites(w, obj, jobs, 1);
    }
  }

  lemma {:induction false} DrainWrites(w: World, obj: ReactiveJob, jobs: seq<Job>, i: nat)
    ensures var l := Drain(w, obj, jobs, i).local;
            l.AtStatus? ==> Writes(l, obj, StateDeleting, WaitingForDependents, w.now, RequeueAfter(10))
    decreases |jobs| - i
  {
    hide Writes, WithState;
    if i >= |jobs| {
      WithStateWrites(w, obj, StateDeleting, WaitingForDependents, RequeueAfter(10));
    } else if Operator !in jobs[i].finalizers && jobs[i].deleting {
      DrainWrites(w, obj, jobs, i + 1);
    }
  }

  lemma DispatchWrites(h: HashFunction, w: World, obj: ReactiveJob, jobs: seq<Job>)
    ensures var l := Dispatch(h, w, obj, jobs).local;
            l.AtStatus? ==>
              if !obj.deleting then WritesVerdict(l, obj, jobs, w.now)
              else if OnlyOperator(obj.finalizers) then
                Writes(l, obj, StateDeleting, WaitingForDependents, w.now, RequeueAfter(10))
              else Writes(l, obj, StateDeletionBlocked, ForeignFinalizersBlock, w.now, RequeueAfter(10))
  {
    ProceedWrites(h, w, obj, jobs);
    DrainWrites(w, obj, jobs, 0);
    OnlyOperatorLeft(obj.finalizers);
    WithStateWrites(w, obj, StateDeletionBlocked, ForeignFinalizersBlock, RequeueAfter(10));
    hide Proceed, Drain, WithState, Writes, WritesVerdict, OnlyOperator;
  }

  lemma LoopDecides(h: HashFunction, s: System, o: Outcome)
    requires s.local.AtStrip? || s.local.AtRelease? || s.local.AtDelete?
    requires s.local.i < |s.local.jobs| && OpStep(h, s, o).local.AtStatus?
    ensures Decided(s, o, OpStep(h, s, o).local)
  {
    var obj := s.local.obj;
    var jobs := s.local.jobs;
    var i := s.local.i;
    var v := UpdateJob(s.w, Unheld(jobs[i])).0;
    var u := DeleteJob(s.w, jobs[i].name, true).0;
    assert v.now == s.w.now && u.now == s.w.now by { hide Unheld, JobUpdateAccepted; }
    SweepWrites(v, obj, jobs, i + 1);
    DrainWrites(v, obj, jobs, i + 1);
    DrainWrites(u, obj, jobs, i + 1);
    AbortWrites(s.w, obj, CallOf(s.local));
    AbortWrites(v, obj, CallOf(s.local));
    AbortWrites(u, obj, CallOf(s.local));
    hide Sweep, Drain, PutJob, Unheld, JobUpdateAccepted, Abort, Writes, WritesVerdict;
  }

  lemma ObjectDecides(h: HashFunction, s: System, o: Outcome)
    requires Inv(h, s) && (s.local.AtFence? || s.local.AtClear?) && OpStep(h, s, o).local.AtStatus?
    ensures Decided(s, o, OpStep(h, s, o).local)
  {
    var obj := s.local.obj;
    var v := UpdateReactiveJob(s.w, obj).0;
    ObjectRequestsKeep(s.w, s.local, Answered([], ""));
    if s.local.AtFence? {
      NothingListedYet(h, s);
    }
    AbortWrites(s.w, obj, CallOf(s.local));
    AbortWrites(v, obj, CallOf(s.local));
    hide Inv, UpdateReactiveJob, Abort, Writes, BuildJob, Shared;
  }

  lemma NothingListedYet(h: HashFunction, s: System)
    requires Inv(h, s) && s.local.AtFence?
    ensures s.local.jobs == []
  {
    hide StoreInv, MemoryOk;
  }

  lemma CreateDecides(h: HashFunction, s: System, o: Outcome)
    requires s.local.AtCreate?
    ensures Decided(s, o, OpStep(h, s, o).local)
  {
    var obj := s.local.obj;
    var v := CreateJob(s.w, s.local.job, Suffix(o)).0;
    assert v.now == s.w.now by { hide HashOf, GenerationOf, Wakes; }
    WithStateWrites(v, obj, StateProcessing, JobCreated, RequeueAfter(1));
    AbortWrites(s.w, obj, CreateCall);
    AbortWrites(v, obj, CreateCall);
    hide Abort, WithState, Writes, PutJob, HashOf, GenerationOf;
  }

  lemma ReadDecides(h: HashFunction, s: System, o: Outcome)
    requires s.local.Idle? || s.local.AtList?
    requires s.local.AtList? && o.Answered? && IsListing(s.w, s.local.obj.uid, o.items) ==> !SortPanics(o.items)
    requires OpStep(h, s, o).local.AtStatus?
    ensures Decided(s, o, OpStep(h, s, o).local)
  {
    match s.local
    case Idle(_) =>
      if s.w.rj.Some? {
        WithStateWrites(s.w.(queued := false), Acknowledge(s.w.rj.value), StateNew, FirstSeen, Requeue);
      }
      hide WithState, Writes;
    case AtList(obj) =>
      AbortWrites(s.w, obj, ListCall);
      if o.Answered? {
        DispatchWrites(h, s.w, obj, Sorted(o.items));
      }
      hide Dispatch, Abort, Writes, WritesVerdict, Sorted, IsListing, SortPanics, OnlyOperator;
  }

  /** Whenever a reconciliation turns to the status write, with whatever outcome of its last request,
      the status to be written differs from the one in memory as decided, and in nothing else. */
  lemma StatusDecided(h: HashFunction, s: System, o: Outcome)
    requires Inv(h, s) && !s.local.AtStatus? && OpStep(h, s, o).local.AtStatus?
    ensures Decided(s, o, OpStep(h, s, o).local)
  {
    if s.local.AtList? && o.Answered? && IsListing(s.w, s.local.obj.uid, o.items) {
      ListKeeps(h, s.w, s.local.obj, o.items);
    }
    hide OpStep, Inv, Decided, IsListing, SortPanics, Dispatch;
    if s.local.AtStrip? || s.local.AtRelease? || s.local.AtDelete? {
      LoopJob(h, s);
      LoopDecides(h, s, o);
    } else if s.local.AtFence? || s.local.AtClear? {
      ObjectDecides(h, s, o);
    } else if s.local.AtCreate? {
      CreateDecides(h, s, o);
    } else {
      ReadDecides(h, s, o);
    }
  }

  // ---------- Over runs ----------

  /** One report on a stored status: it may acknowledge a generation, and a reconciliation that got to
      the end of its sweep may name the latest job created for the ReactiveJob. Nothing else changes. */
  ghost predicate ChangedBy(w: World, uid: string, stored: JobStatus, s: JobStatus, result: Result) {
    && (s.currentJobName == stored.currentJobName
        || (result.RequeueAfter? && HasJob(w, uid) && s.currentJobName == Latest(w).name))
    && exists state, message, now ::
         && now <= w.now
         && Reported(stored.(observedGeneration := s.observedGeneration, currentJobName := s.currentJobName), s,
                     state, message, now)
  }

  /** At the revision that was read, the status in memory is the stored one with a generation
      acknowledged, and once it is about to be written, with one report. */
  ghost predicate StatusKept(s: System) {
    !s.local.Idle? && s.w.rj.Some? && s.w.rj.value.resourceVersion == s.local.obj.resourceVersion ==>
      var stored := s.w.rj.value.status;
      var held := s.local.obj.status;
      if s.local.AtStatus? then ChangedBy(s.w, s.local.obj.uid, stored, held, s.local.result)
      else held == stored.(observedGeneration := held.observedGeneration)
  }

  lemma WrittenIsChange(w: World, uid: string, stored: JobStatus, obj: ReactiveJob, local: Local,
                        state: ReactiveJobState, message: Message, now: int, result: Result)
    requires Writes(local, obj, state, message, now, result) && now <= w.now
    requires obj.status == stored.(observedGeneration := obj.status.observedGeneration,
                                   currentJobName := obj.status.currentJobName)
    requires obj.status.currentJobName == stored.currentJobName
             || (result.RequeueAfter? && HasJob(w, uid) && obj.status.currentJobName == Latest(w).name)
    ensures ChangedBy(w, uid, stored, local.obj.status, result)
  {
    assert Reported(stored.(observedGeneration := local.obj.status.observedGeneration,
                            currentJobName := local.obj.status.currentJobName),
                    local.obj.status, state, message, now);
  }

  /** The head of the list a sweep ends with is the latest created job. */
  lemma HeadIsLatest(h: HashFunction, s: System, o: Outcome)
    requires Inv(h, s) && !Failing(s, o) && OpStep(h, s, o).local.AtStatus?
    requires s.local.AtStrip? || (s.local.AtList? && !s.local.obj.deleting)
    ensures var jobs := if s.local.AtStrip? then s.local.jobs else Sorted(o.items);
            jobs != [] && HasJob(s.w, s.local.obj.uid) && jobs[0].name == Latest(s.w).name
  {
    if s.local.AtStrip? {
      hide StoreInv, MemoryOk, LatestHeld, Snapshot, SortedJobsOf;
    } else {
      StatusDecided(h, s, o);
      ListedHead(h, s, o.items) by { ListedWell(s, o); }
      hide Inv, OpStep, Sorted, Writes;
    }
  }

  lemma ListedWell(s: System, o: Outcome)
    requires s.local.AtList? && !Failing(s, o)
    ensures o.Answered? && IsListing(s.w, s.local.obj.uid, o.items)
  {
    hide IsListing;
  }

  lemma ListedHead(h: HashFunction, s: System, items: seq<Job>)
    requires Inv(h, s) && s.local.AtList? && !s.local.obj.deleting && IsListing(s.w, s.local.obj.uid, items)
    ensures Sorted(items) != [] ==> HasJob(s.w, s.local.obj.uid) && Sorted(items)[0].name == Latest(s.w).name
  {
    ListKnownAlive(h, s);
    hide Inv, IsListing, Sorted, LatestHeld, StoreInv;
    SortedMembers(items);
    if HasJob(s.w, s.local.obj.uid) {
      SortedHead(h, s.w, s.local.obj.uid, items);
    } else {
      NothingListed(h, s.w, s.local.obj.uid, items);
    }
  }

  lemma ListKnownAlive(h: HashFunction, s: System)
    requires Inv(h, s) && s.local.AtList? && !s.local.obj.deleting
    ensures StoreInv(h, s.w) && s.local.obj.uid in s.w.uids && (HasJob(s.w, s.local.obj.uid) ==> LatestHeld(s.w))
  {
    hide StoreInv, LatestHeld, StatusShape;
  }

  /** What a step leaves of the ReactiveJob in the store, for the memory that goes on. */
  lemma StoredForMemory(h: HashFunction, s: System, o: Outcome)
    requires Inv(h, s) && !s.local.Idle? && !s.local.AtStatus?
    ensures var v := OpStep(h, s, o).w;
            && v.now == s.w.now
            && (!s.local.AtCreate? ==> v.created == s.w.created)
            && (v.rj == s.w.rj
                || ((s.local.AtFence? || s.local.AtClear?)
                    && (v.rj.Some? ==> v.rj.value.resourceVersion == s.w.revision + 1)))
    ensures s.local.obj.resourceVersion <= s.w.revision
  {
    StepEffect(h, s, o);
    MemoryRevision(h, s);
    hide OpStep, Inv;
    if s.local.AtFence? || s.local.AtClear? {
      ObjectRequestsKeep(s.w, s.local, o);
      hide UpdateAccepted, UpdateReply;
    } else {
      JobRequestsKeep(s.w, s.local, o);
    }
  }

  lemma MemoryRevision(h: HashFunction, s: System)
    requires Inv(h, s) && !s.local.Idle?
    ensures s.local.obj.resourceVersion <= s.w.revision
  {
    hide StoreInv, StatusShape, LatestHeld, SweepList, SortedJobsOf, Draining, ReadyFor;
  }

  /** While a reconciliation goes on, its memory of the status and the revision stay, unless the answer
      to the finalizer write replaces both. */
  lemma MemoryStays(h: HashFunction, s: System, o: Outcome)
    requires Inv(h, s) && !s.local.Idle? && !s.local.AtStatus?
    ensures var next := OpStep(h, s, o);
            !next.local.Idle? && !next.local.AtStatus? ==>
              if s.local.AtFence? then next.w.rj.Some? && next.local.obj.status == next.w.rj.value.status
              else next.local.obj.status == s.local.obj.status
                   && next.local.obj.resourceVersion == s.local.obj.resourceVersion
  {
    if s.local.AtStrip? || s.local.AtRelease? || s.local.AtDelete? {
      LoopJob(h, s);
      LoopMemory(h, s, o);
    } else if s.local.AtFence? {
      FenceMemoryStays(h, s, o);
    } else if s.local.AtList? {
      ListMemory(h, s, o);
    } else {
      hide Inv, SetState, CreateJob, UpdateReactiveJob;
    }
  }

  /** Both come from one object, except at the status write. */
  ghost predicate SameMemory(local: Local, obj: ReactiveJob) {
    !local.Idle? && !local.AtStatus? ==>
      local.obj.status == obj.status && local.obj.resourceVersion == obj.resourceVersion
  }

  lemma {:induction false} DrainMemory(w: World, obj: ReactiveJob, jobs: seq<Job>, i: nat)
    ensures SameMemory(Drain(w, obj, jobs, i).local, obj)
    decreases |jobs| - i
  {
    hide SetState;
    if i < |jobs| && Operator !in jobs[i].finalizers && jobs[i].deleting {
      DrainMemory(w, obj, jobs, i + 1);
    }
  }

  lemma ProceedMemory(h: HashFunction, w: World, obj: ReactiveJob, jobs: seq<Job>)
    ensures SameMemory(Proceed(h, w, obj, jobs).local, obj)
  {
    hide BuildJob, Shared, HashOf, Scan, SetState;
  }

  lemma LoopMemory(h: HashFunction, s: System, o: Outcome)
    requires (s.local.AtStrip? || s.local.AtRelease? || s.local.AtDelete?) && s.local.i < |s.local.jobs|
    ensures SameMemory(OpStep(h, s, o).local, s.local.obj)
  {
    hide UpdateJob, DeleteJob, SetState, Drain, Unheld, Scan;
    var obj := s.local.obj;
    var jobs := s.local.jobs;
    var i := s.local.i;
    DrainMemory(UpdateJob(s.w, Unheld(jobs[i])).0, obj, jobs, i + 1);
    DrainMemory(DeleteJob(s.w, jobs[i].name, true).0, obj, jobs, i + 1);
  }

  lemma ListMemory(h: HashFunction, s: System, o: Outcome)
    requires s.local.AtList?
    ensures SameMemory(OpStep(h, s, o).local, s.local.obj)
  {
    hide SetState, Drain, Proceed, Sorted, IsListing, SortPanics;
    if o.Answered? {
      ProceedMemory(h, s.w, s.local.obj, Sorted(o.items));
      DrainMemory(s.w, s.local.obj, Sorted(o.items), 0);
    }
  }

  lemma FenceMemoryStays(h: HashFunction, s: System, o: Outcome)
    requires Inv(h, s) && s.local.AtFence?
    ensures var next := OpStep(h, s, o);
            !next.local.Idle? && !next.local.AtStatus? ==>
              next.w.rj.Some? && next.local.obj.status == next.w.rj.value.status
  {
    var (v, reply) := UpdateReactiveJob(s.w, s.local.obj);
    NothingListedYet(h, s);
    if reply.Accepted? {
      FenceNotGone(h, s);
      ProceedMemory(h, v, reply.value, s.local.jobs);
      ProceedKeepsWorld(h, v, reply.value, s.local.jobs);
    }
    hide Inv, Proceed, UpdateAccepted, SetState;
  }

  lemma FenceNotGone(h: HashFunction, s: System)
    requires Inv(h, s) && s.local.AtFence? && UpdateAccepted(s.w, s.local.obj)
    ensures UpdateReactiveJob(s.w, s.local.obj).0.rj.Some?
  {
    hide StoreInv, StatusShape;
  }

  lemma StartKeepsStatus(h: HashFunction, s: System, o: Outcome)
    requires Inv(h, s) && s.local.Idle?
    ensures StatusKept(OpStep(h, s, o))
  {
    var next := OpStep(h, s, o);
    if next.local.AtStatus? {
      StatusDecided(h, s, o);
      var r := s.w.rj.value;
      assert next.w.rj == s.w.rj && next.w.now == s.w.now by { hide SetState, Inv; }
      hide OpStep, Inv, Writes, Reported, ChangedBy;
      WrittenIsChange(next.w, r.uid, r.status, r.(status := r.status.(observedGeneration := r.generation)), next.local,
                      StateNew, FirstSeen, s.w.now, Requeue) by { NamesNothing(next.local, r, s.w.now); }
      assert next.local.obj.uid == r.uid && next.local.result == Requeue by { NamesNothing(next.local, r, s.w.now); }
    } else {
      hide Inv, SetState, ChangedBy;
    }
  }

  lemma NamesNothing(local: Local, r: ReactiveJob, now: int)
    requires Writes(local, r.(status := r.status.(observedGeneration := r.generation)), StateNew, FirstSeen, now,
                    Requeue)
    ensures local.obj.uid == r.uid && local.result == Requeue
  {
    hide Reported;
  }

  /** The step that turns to the status write, from the middle of a reconciliation. */
  lemma DecisionKeepsStatus(h: HashFunction, s: System, o: Outcome)
    requires Inv(h, s) && StatusKept(s) && !s.local.Idle? && !s.local.AtStatus? && OpStep(h, s, o).local.AtStatus?
    ensures StatusKept(OpStep(h, s, o))
  {
    var next := OpStep(h, s, o);
    StatusDecided(h, s, o);
    StoredForMemory(h, s, o);
    DecidedFrame(h, s, o);
    hide OpStep, Inv, Decided, Reported, Failing;
    if next.w.rj.Some? && next.w.rj.value.resourceVersion == s.local.obj.resourceVersion {
      assert next.w.rj == s.w.rj;
      var state, message, now, result, name := Decision(h, s, o);
      var obj := Naming(s.local.obj, name);
      hide Writes, ChangedBy;
      WrittenIsChange(next.w, s.local.obj.uid, s.w.rj.value.status, obj, next.local, state, message, now, result);
    }
  }

  lemma DecidedFrame(h: HashFunction, s: System, o: Outcome)
    requires Inv(h, s) && !s.local.Idle? && !s.local.AtStatus? && OpStep(h, s, o).local.AtStatus?
    ensures var l := OpStep(h, s, o).local;
            l.obj.uid == s.local.obj.uid && l.obj.resourceVersion == s.local.obj.resourceVersion
  {
    StatusDecided(h, s, o);
    hide OpStep, Inv, Failing, Verdict, Reported;
  }

  /** What was decided, spelled out: one report, on the object in memory, which names the latest job
      or what it named before. */
  lemma Decision(h: HashFunction, s: System, o: Outcome)
      returns (state: ReactiveJobState, message: Message, now: int, result: Result, name: string)
    requires Inv(h, s) && !s.local.Idle? && !s.local.AtStatus? && OpStep(h, s, o).local.AtStatus?
    ensures Writes(OpStep(h, s, o).local, Naming(s.local.obj, name), state, message, now, result) && now == s.w.now
    ensures OpStep(h, s, o).local.result == result
    ensures name == s.local.obj.status.currentJobName
            || (!s.local.AtCreate? && result.RequeueAfter? && HasJob(s.w, s.local.obj.uid) && name == Latest(s.w).name)
  {
    StatusDecided(h, s, o);
    now := s.w.now;
    var l := OpStep(h, s, o).local;
    result := l.result;
    name := s.local.obj.status.currentJobName;
    assert Naming(s.local.obj, name) == s.local.obj;
    if !Failing(s, o) && (s.local.AtStrip? || (s.local.AtList? && !s.local.obj.deleting)) {
      HeadIsLatest(h, s, o);
      var jobs := if s.local.AtStrip? then s.local.jobs else Sorted(o.items);
      hide OpStep, Inv, Failing, Verdict, Reported, Sorted, HasJob;
      assert WritesVerdict(l, s.local.obj, jobs, now);
      var seconds;
      state, message, seconds :| && Verdict(jobs[0].conditions, state, message, seconds)
                                 && Writes(l, Naming(s.local.obj, jobs[0].name), state, message, now,
                                           RequeueAfter(seconds));
      name := jobs[0].name;
    } else {
      hide OpStep, Inv, Failing, Verdict, Reported;
      state, message :| Writes(l, s.local.obj, state, message, now, result);
    }
  }

  lemma OnwardKeepsStatus(h: HashFunction, s: System, o: Outcome)
    requires Inv(h, s) && StatusKept(s) && !s.local.Idle? && !s.local.AtStatus? && !OpStep(h, s, o).local.AtStatus?
    ensures StatusKept(OpStep(h, s, o))
  {
    MemoryStays(h, s, o);
    StoredForMemory(h, s, o);
    hide OpStep, Inv, ChangedBy;
  }

  lemma OpKeepsStatus(h: HashFunction, s: System, o: Outcome)
    requires Inv(h, s) && StatusKept(s)
    ensures StatusKept(OpStep(h, s, o))
  {
    if s.local.Idle? {
      StartKeepsStatus(h, s, o);
    } else if s.local.AtStatus? {
      EndsIdle(h, s, o);
      hide OpStep, Inv, ChangedBy;
    } else if OpStep(h, s, o).local.AtStatus? {
      DecisionKeepsStatus(h, s, o);
    } else {
      OnwardKeepsStatus(h, s, o);
    }
  }

  lemma EndsIdle(h: HashFunction, s: System, o: Outcome)
    requires s.local.AtStatus?
    ensures OpStep(h, s, o).local.Idle?
  {
  }

  lemma ActKeepsStatus(h: HashFunction, s: System, a: Action)
    requires Inv(h, s) && StatusKept(s)
    ensures StatusKept(s.(w := Act(s.w, a)))
  {
    ActRelies(s.w, a);
    if !s.local.Idle? {
      MemoryRevision(h, s);
    }
    hide Act, Inv, RelyJobs, Reported;
    var v := Act(s.w, a);
    if !s.local.Idle? && v.rj.Some? && v.rj.value.resourceVersion == s.local.obj.resourceVersion {
      assert v.rj == s.w.rj;
    }
  }

  lemma StepKeepsStatus(h: HashFunction, s: System, e: Event)
    requires Inv(h, s) && StatusKept(s)
    ensures StatusKept(Step(h, s, e))
  {
    match e
    case Env(a) => ActKeepsStatus(h, s, a);
    case Op(o) => OpKeepsStatus(h, s, o);
    case Crash => hide Inv, ChangedBy;
  }

  lemma {:induction false} ReachedStatusKept(h: HashFunction, key: NamespacedName, events: seq<Event>)
    ensures StatusKept(Reached(h, key, events))
    decreases |events|
  {
    hide Step, Inv, StatusKept;
    if events == [] {
      assert StatusKept(Start(key)) by { NothingKept(key); }
    } else {
      var front := events[..|events| - 1];
      ReachedStatusKept(h, key, front);
      ReachedInv(h, key, front);
      StepKeepsStatus(h, Reached(h, key, front), events[|events| - 1]);
    }
  }

  lemma NothingKept(key: NamespacedName)
    ensures StatusKept(Start(key))
  {
  }

  /** Over any run, a stored status changes only by a status write of the operator, and then by one
      report: it may acknowledge a generation; its job name becomes that of the latest job created for
      the ReactiveJob, at the end of a sweep, or stays; nothing else changes but state and Ready condition. */
  lemma StoredStatusChanges(h: HashFunction, key: NamespacedName, events: seq<Event>, e: Event)
    requires var w := Reached(h, key, events).w;
             var v := Reached(h, key, events + [e]).w;
             && w.rj.Some? && v.rj.Some? && v.rj.value.uid == w.rj.value.uid
             && v.rj.value.status != w.rj.value.status
    ensures var s := Reached(h, key, events);
            var v := Reached(h, key, events + [e]).w;
            && e.Op? && !e.outcome.NotDelivered? && s.local.AtStatus?
            && s.local.obj.uid == s.w.rj.value.uid && v.rj.value.status == s.local.obj.status
            && ChangedBy(s.w, s.w.rj.value.uid, s.w.rj.value.status, v.rj.value.status, s.local.result)
  {
    var s := Reached(h, key, events);
    ReachedInv(h, key, events);
    ReachedStatusKept(h, key, events);
    LastStep(h, Start(key), events, e);
    assert Reached(h, key, events + [e]) == Step(h, s, e);
    hide Run, Reached, Inv, OpStep, Act, ChangedBy;
    match e
    case Env(a) => ForeignWriteKeepsStatus(h, s, a);
    case Op(o) =>
      if s.local.AtStatus? {
        StatusWrite(h, s, o);
      } else {
        StatusOnlyThere(h, s, o);
      }
    case Crash =>
  }

  lemma ForeignWriteKeepsStatus(h: HashFunction, s: System, a: Action)
    requires Inv(h, s)
    ensures var v := Act(s.w, a);
            s.w.rj.Some? && v.rj.Some? && v.rj.value.uid == s.w.rj.value.uid ==>
              v.rj.value.status == s.w.rj.value.status
  {
    ActRelies(s.w, a);
    hide Act, RelyJobs, LocalInv;
  }

  lemma StatusWrite(h: HashFunction, s: System, o: Outcome)
    requires Inv(h, s) && s.local.AtStatus?
    ensures var v := OpStep(h, s, o).w;
            s.w.rj.Some? && v.rj.Some? && v.rj.value.status != s.w.rj.value.status ==>
              && !o.NotDelivered? && s.w.rj.value.resourceVersion == s.local.obj.resourceVersion
              && s.w.rj.value.uid == s.local.obj.uid && v.rj.value.status == s.local.obj.status
  {
    StepEffect(h, s, o);
    hide OpStep, StoreInv, StatusShape, ReadyFor;
  }

  /** The current job's name changes only to the name of the latest job created for the ReactiveJob. */
  lemma CurrentJobIsLatest(h: HashFunction, key: NamespacedName, events: seq<Event>, e: Event)
    requires var w := Reached(h, key, events).w;
             var v := Reached(h, key, events + [e]).w;
             && w.rj.Some? && v.rj.Some? && v.rj.value.uid == w.rj.value.uid
             && v.rj.value.status.currentJobName != w.rj.value.status.currentJobName
    ensures var s := Reached(h, key, events);
            && s.local.AtStatus? && s.local.result.RequeueAfter?
            && |s.w.created| > 0 && Latest(s.w).uid == s.w.rj.value.uid
            && Reached(h, key, events + [e]).w.rj.value.status.currentJobName == Latest(s.w).name
  {
    hide Run, Reached, Reported;
    StoredStatusChanges(h, key, events, e);
  }
}
