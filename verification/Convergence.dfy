/** Left alone, the operator gets there: termination of every reconciliation, and convergence of
    error-free ones to a state they no longer change. */
module Convergence {
  import opened Options
  import opened Status
  import opened Objects
  import opened Sorting
  import opened Cluster
  import opened Reconciler
  import opened Invariant
  import opened Environment
  import opened OperatorSteps
  import opened Requests
  import opened Safety
  import opened JobConditions

  // ---------- Termination ----------

  function Stage(local: Local): nat {
    match local
    case Idle(_) => 0
    case AtStatus(_, _) => 1
    case AtClear(_) => 2
    case AtStrip(_, _, _) => 2
    case AtRelease(_, _, _) => 2
    case AtDelete(_, _, _) => 2
    case AtCreate(_, _) => 3
    case AtFence(_, _) => 4
    case AtList(_) => 5
  }

  /** Loop steps left, in halves: a released job may still have to be deleted. */
  function Left(local: Local): int {
    match local
    case AtStrip(_, jobs, i) => 2 * (|jobs| - i)
    case AtRelease(_, jobs, i) => 2 * (|jobs| - i) + 1
    case AtDelete(_, jobs, i) => 2 * (|jobs| - i)
    case _ => 0
  }

  ghost predicate Nearer(next: Local, local: Local) {
    Stage(next) < Stage(local) || (Stage(next) == Stage(local) && 0 <= Left(next) < Left(local))
  }

  lemma {:induction false} DrainStage(w: World, obj: ReactiveJob, jobs: seq<Job>, i: nat)
    ensures var l := Drain(w, obj, jobs, i).local;
            Stage(l) < 2 || ((l.AtRelease? || l.AtDelete?) && i <= l.i < |jobs| && l.jobs == jobs)
    decreases |jobs| - i
  {
    if i < |jobs| && Operator !in jobs[i].finalizers && jobs[i].deleting {
      DrainStage(w, obj, jobs, i + 1);
    }
  }

  lemma ProceedStage(h: HashFunction, w: World, obj: ReactiveJob, jobs: seq<Job>)
    ensures Stage(Proceed(h, w, obj, jobs).local) <= 3
  {
    hide BuildJob, Shared, HashOf;
  }

  lemma DispatchStage(h: HashFunction, w: World, obj: ReactiveJob, jobs: seq<Job>)
    ensures Stage(Dispatch(h, w, obj, jobs).local) <= 4
  {
    hide BuildJob, Shared, HashOf, Proceed;
    ProceedStage(h, w, obj, jobs);
    DrainStage(w, obj, jobs, 0);
  }

  /** Every reconciliation terminates: whatever becomes of a request, the next one is nearer the end. */
  lemma EveryStepIsNearer(h: HashFunction, s: System, o: Outcome)
    requires Inv(h, s) && !s.local.Idle?
    ensures Nearer(OpStep(h, s, o).local, s.local)
  {
    hide StoreInv, MemoryOk, UpdateReactiveJob, UpdateJob, DeleteJob, CreateJob, UpdateStatus, Dispatch, Proceed,
         HashOf, BuildJob, WithState, SweepList, SortedJobsOf, Draining, Snapshot;
    match s.local
    case AtList(obj) =>
      if o.Answered? {
        DispatchStage(h, s.w, obj, Sorted(o.items));
      }
    case AtFence(obj, jobs) =>
      var (v, reply) := UpdateReactiveJob(s.w, obj);
      if reply.Accepted? {
        ProceedStage(h, v, reply.value, jobs);
      }
    case AtRelease(obj, jobs, i) =>
      DrainStage(UpdateJob(s.w, Unheld(jobs[i])).0, obj, jobs, i + 1);
    case AtDelete(obj, jobs, i) =>
      DrainStage(DeleteJob(s.w, jobs[i].name, true).0, obj, jobs, i + 1);
    case _ =>
  }

  // ---------- Error-free reconciliations ----------

  /** A request that is answered, with a listing and a fresh name where the server has a choice. */
  ghost predicate Clean(s: System, o: Outcome) {
    && o.Answered?
    && (s.local.AtList? ==> IsListing(s.w, s.local.obj.uid, o.items))
    && (s.local.AtCreate? ==> GeneratedName(s.local.job, o.suffix) !in s.w.jobs)
  }

  /** From s to the end of the reconciliation in t, without errors and without anybody else acting. */
  ghost predicate CleanRun(h: HashFunction, s: System, outcomes: seq<Outcome>, t: System)
    decreases |outcomes|
  {
    && outcomes != [] && Clean(s, outcomes[0])
    && var next := OpStep(h, s, outcomes[0]);
       if next.local.Idle? then |outcomes| == 1 && t == next else CleanRun(h, next, outcomes[1..], t)
  }

  /** One whole error-free reconciliation. */
  ghost predicate Reconciles(h: HashFunction, s: System, t: System) {
    s.local.Idle? && s.w.queued && exists outcomes :: CleanRun(h, s, outcomes, t)
  }

  /** Such a run is a run. */
  lemma {:induction false} CleanRunIsRun(h: HashFunction, s: System, outcomes: seq<Outcome>, t: System)
      returns (events: seq<Event>)
    requires CleanRun(h, s, outcomes, t)
    ensures t == Run(h, s, events) && t.local.Idle?
    decreases |outcomes|
  {
    hide OpStep;
    var next := OpStep(h, s, outcomes[0]);
    var first := [Op(outcomes[0])];
    LastStep(h, s, [], Op(outcomes[0]));
    assert [] + first == first;
    if next.local.Idle? {
      events := first;
    } else {
      var rest := CleanRunIsRun(h, next, outcomes[1..], t);
      events := first + rest;
      RunConcat(h, s, first, rest);
    }
  }

  lemma {:induction false} ListingExists(w: World, uid: string, names: set<string>) returns (items: seq<Job>)
    requires Revisions(w) && names <= w.jobs.Keys
    ensures forall i, j :: 0 <= i < j < |items| ==> items[i].name != items[j].name
    ensures forall j :: j in items ==> j.name in names && w.jobs[j.name] == j && UidLabel(j) == Some(uid)
    ensures forall n :: n in names && UidLabel(w.jobs[n]) == Some(uid) ==> w.jobs[n] in items
    decreases |names|
  {
    if names == {} {
      items := [];
    } else {
      var n :| n in names;
      var rest := ListingExists(w, uid, names - {n});
      items := if UidLabel(w.jobs[n]) == Some(uid) then rest + [w.jobs[n]] else rest;
    }
  }

  /** Some suffix is fresh: one longer than every name in the store. */
  lemma FreshSuffix(w: World, prefix: string) returns (suffix: string)
    ensures prefix + suffix !in w.jobs
  {
    var bound := LongestName(w.jobs.Keys);
    suffix := seq(bound + 1, _ => 'x');
    assert |prefix + suffix| > bound;
  }

  lemma {:induction false} LongestName(names: set<string>) returns (bound: nat)
    ensures forall n :: n in names ==> |n| <= bound
    decreases |names|
  {
    if names == {} {
      bound := 0;
    } else {
      var n :| n in names;
      var rest := LongestName(names - {n});
      bound := if |n| > rest then |n| else rest;
      assert forall m :: m in names ==> m == n || m in names - {n};
    }
  }

  lemma CleanOutcome(h: HashFunction, s: System) returns (o: Outcome)
    requires Inv(h, s)
    ensures Clean(s, o)
  {
    hide LocalInv, LogOk, LogOrder, Owned, Truthful, StoredOk;
    var items := [];
    if s.local.AtList? {
      items := ListingExists(s.w, s.local.obj.uid, s.w.jobs.Keys);
    }
    var suffix := "";
    if s.local.AtCreate? {
      suffix := FreshSuffix(s.w, s.local.job.generateName);
    }
    o := Answered(items, suffix);
  }

  lemma {:induction false} CleanRunExists(h: HashFunction, s: System) returns (outcomes: seq<Outcome>, t: System)
    requires Inv(h, s) && !s.local.Idle?
    ensures CleanRun(h, s, outcomes, t)
    decreases Stage(s.local), Left(s.local)
  {
    hide Inv, OpStep, Stage, Left, Clean;
    var o := CleanOutcome(h, s);
    var next := OpStep(h, s, o);
    OpStepKeepsInv(h, s, o);
    EveryStepIsNearer(h, s, o);
    if next.local.Idle? {
      outcomes, t := [o], next;
    } else {
      var rest, end := CleanRunExists(h, next);
      outcomes, t := [o] + rest, end;
      assert outcomes[1..] == rest;
    }
  }

  /** From every idle state there is an error-free reconciliation. */
  lemma ReconciliationExists(h: HashFunction, s: System) returns (t: System)
    requires Inv(h, s) && s.local.Idle? && s.w.queued
    ensures Reconciles(h, s, t)
  {
    hide Inv, OpStep, Clean;
    var o := CleanOutcome(h, s);
    var next := OpStep(h, s, o);
    OpStepKeepsInv(h, s, o);
    if next.local.Idle? {
      t := next;
      assert CleanRun(h, s, [o], t);
    } else {
      var rest, end := CleanRunExists(h, next);
      t := end;
      assert ([o] + rest)[1..] == rest;
      assert CleanRun(h, s, [o] + rest, t);
    }
  }

  // ---------- What an error-free reconciliation does ----------

  /** The ReactiveJob is there, not being deleted, and schedules its reconciliation. */
  ghost predicate Alive(w: World) {
    w.rj.Some? && !w.rj.value.deleting
  }

  /** The latest job was made from the current template. */
  ghost predicate Matches(h: HashFunction, w: World) {
    && w.rj.Some? && HasJob(w, w.rj.value.uid) && LatestHeld(w)
    && Latest(w).hash == h(w.rj.value.template)
  }

  /** Among the jobs of a uid, only the named one holds the operator's finalizer. */
  ghost predicate OnlyHeld(w: World, uid: string, name: string) {
    forall n :: n in w.jobs && UidLabel(w.jobs[n]) == Some(uid) && n != name ==> Operator !in w.jobs[n].finalizers
  }

  /** The status says this state and message. */
  ghost predicate Reports(s: JobStatus, state: ReactiveJobState, message: Message) {
    var k := Find(s.conditions, TypeReady);
    && s.state == state && k < |s.conditions|
    && s.conditions[k].status == StatusFor(state)
    && s.conditions[k].reason == state && s.conditions[k].message == message
  }

  /** Where the operator settles: the latest job matches the template, only it is held, and the
      status names it, acknowledges the generation, and says what the job's conditions say. */
  ghost predicate Settled(h: HashFunction, w: World) {
    && Alive(w) && Matches(h, w) && OnlyHeld(w, w.rj.value.uid, Latest(w).name)
    && w.rj.value.status.currentJobName == Latest(w).name
    && w.rj.value.status.observedGeneration == w.rj.value.generation
    && var (state, message, _) := Scan(w.jobs[Latest(w).name].conditions);
       Reports(w.rj.value.status, state, message)
  }

  /** Only the status and the revision of the ReactiveJob differ. */
  ghost predicate OnlyStatusDiffers(w: World, v: World) {
    && w.rj.Some? && v.rj.Some?
    && v.rj.value == w.rj.value.(resourceVersion := v.rj.value.resourceVersion, status := v.rj.value.status)
    && v.jobs == w.jobs && v.created == w.created && v.key == w.key && v.now == w.now && v.uids == w.uids
  }

  lemma FirstStep(h: HashFunction, s: System, outcomes: seq<Outcome>, t: System)
    requires s.local.Idle? && s.w.queued && s.w.rj.Some? && CleanRun(h, s, outcomes, t)
    ensures !Begin(s.w.(queued := false), s.w.rj.value).local.Idle?
    ensures CleanRun(h, Begin(s.w.(queued := false), s.w.rj.value), outcomes[1..], t)
  {
  }

  /** The deferred status write of an error-free reconciliation is accepted and ends it. */
  lemma StatusStep(h: HashFunction, s: System, outcomes: seq<Outcome>, t: System)
    requires s.local.AtStatus? && s.local.result != Panicked && CleanRun(h, s, outcomes, t)
    requires s.w.rj.Some? && s.w.rj.value.resourceVersion == s.local.obj.resourceVersion
    requires s.w.rj.value.deleting ==> s.w.rj.value.finalizers != []
    ensures OnlyStatusDiffers(s.w, t.w) && t.w.rj.value.status == s.local.obj.status
    ensures t.local == Idle(s.local.result)
  {
  }

  /** A ReactiveJob seen for the first time is marked as new, and nothing else happens. */
  lemma FirstSeenReconciliation(h: HashFunction, s: System, outcomes: seq<Outcome>, t: System)
    requires s.local.Idle? && s.w.queued && s.w.rj.Some? && CleanRun(h, s, outcomes, t)
    requires s.w.rj.value.deleting ==> s.w.rj.value.finalizers != []
    requires s.w.rj.value.status.state == StateUnset
    ensures OnlyStatusDiffers(s.w, t.w) && Reports(t.w.rj.value.status, StateNew, FirstSeen)
    ensures t.w.rj.value.status.observedGeneration == s.w.rj.value.generation
    ensures t.local == Idle(Requeue)
  {
    FirstStep(h, s, outcomes, t);
    hide OpStep;
    var next := Begin(s.w.(queued := false), s.w.rj.value);
    StatusStep(h, next, outcomes[1..], t);
    ReportsWhatIsSet(Acknowledge(s.w.rj.value).status, StateNew, FirstSeen, s.w.now);
  }

  // ---------- The sweep, left alone ----------

  /** The store in the middle of an undisturbed sweep that has handled the jobs before position i. */
  ghost predicate Sweeping(w: World, obj: ReactiveJob, jobs: seq<Job>, i: nat) {
    && Alive(w) && w.rj.value.uid == obj.uid && w.rj.value.resourceVersion == obj.resourceVersion
    && 1 <= i <= |jobs|
    && (forall k :: 0 <= k < |jobs| && (k == 0 || k >= i) ==> jobs[k].name in w.jobs && w.jobs[jobs[k].name] == jobs[k])
    && (forall j, k :: 0 <= j < k < |jobs| ==> jobs[j].name != jobs[k].name)
    && (forall n :: n in w.jobs && UidLabel(w.jobs[n]) == Some(obj.uid) && Operator in w.jobs[n].finalizers ==>
          n == jobs[0].name || exists k :: i <= k < |jobs| && jobs[k].name == n)
    && (forall n :: n in w.jobs ==> w.jobs[n].name == n)
  }

  lemma SkipUnheld(w: World, obj: ReactiveJob, jobs: seq<Job>, i: nat, k: nat)
    requires Sweeping(w, obj, jobs, i) && i <= k <= |jobs|
    requires forall x :: i <= x < k ==> Operator !in jobs[x].finalizers
    ensures Sweeping(w, obj, jobs, k)
  {
  }

  lemma StripOne(w: World, obj: ReactiveJob, jobs: seq<Job>, k: nat)
    requires Sweeping(w, obj, jobs, k) && k < |jobs|
    ensures UpdateJob(w, Unheld(jobs[k])).1.Accepted?
    ensures var v := UpdateJob(w, Unheld(jobs[k])).0;
            && Sweeping(v, obj, jobs, k + 1)
            && v.rj == w.rj && v.created == w.created && v.uids == w.uids && v.key == w.key && v.now == w.now
  {
    var v := UpdateJob(w, Unheld(jobs[k])).0;
    assert v.jobs == w.jobs - {jobs[k].name}
        || v.jobs == w.jobs[jobs[k].name := Unheld(jobs[k]).(resourceVersion := w.revision + 1)];
  }

  lemma {:induction false} SweepEnds(h: HashFunction, w: World, obj: ReactiveJob, jobs: seq<Job>, i: nat,
                                     outcomes: seq<Outcome>, t: System)
    requires Sweeping(w, obj, jobs, i)
    requires CleanRun(h, Sweep(w, obj, jobs, i), outcomes, t)
    ensures t.w.rj.Some?
    ensures t.w.rj.value == w.rj.value.(resourceVersion := t.w.rj.value.resourceVersion,
                                        status := Conclude(w, obj, jobs[0]).local.obj.status)
    ensures t.w.created == w.created && t.w.uids == w.uids && t.w.key == w.key && t.w.now == w.now
    ensures jobs[0].name in t.w.jobs && t.w.jobs[jobs[0].name] == jobs[0]
    ensures OnlyHeld(t.w, obj.uid, jobs[0].name)
    ensures NextHeld(jobs, i) == |jobs| ==> t.w.jobs == w.jobs
    ensures t.local == Idle(Conclude(w, obj, jobs[0]).local.result)
    decreases |jobs| - i
  {
    var k := NextHeld(jobs, i);
    SkipUnheld(w, obj, jobs, i, k);
    if k < |jobs| {
      StripOne(w, obj, jobs, k);
      var v := UpdateJob(w, Unheld(jobs[k])).0;
      StripStep(h, w, obj, jobs, k, outcomes, t);
      SweepEnds(h, v, obj, jobs, k + 1, outcomes[1..], t);
    } else {
      hide Scan, Sweeping;
      SweepOver(w, obj, jobs);
      StatusStep(h, Conclude(w, obj, jobs[0]), outcomes, t);
    }
  }

  lemma StripStep(h: HashFunction, w: World, obj: ReactiveJob, jobs: seq<Job>, k: nat, outcomes: seq<Outcome>,
                  t: System)
    requires k < |jobs| && CleanRun(h, System(w, AtStrip(obj, jobs, k)), outcomes, t)
    requires UpdateJob(w, Unheld(jobs[k])).1.Accepted?
    ensures CleanRun(h, Sweep(UpdateJob(w, Unheld(jobs[k])).0, obj, jobs, k + 1), outcomes[1..], t)
  {
    hide JobUpdateAccepted, WithState, Scan;
    var v := UpdateJob(w, Unheld(jobs[k])).0;
    assert OpStep(h, System(w, AtStrip(obj, jobs, k)), outcomes[0]) == Sweep(v, obj, jobs, k + 1);
  }

  lemma SweepOver(w: World, obj: ReactiveJob, jobs: seq<Job>)
    requires Sweeping(w, obj, jobs, |jobs|)
    ensures Alive(w) && w.rj.value.resourceVersion == obj.resourceVersion && jobs != []
    ensures jobs[0].name in w.jobs && w.jobs[jobs[0].name] == jobs[0]
    ensures OnlyHeld(w, obj.uid, jobs[0].name)
  {
  }

  // ---------- With a matching job: one reconciliation settles ----------

  lemma ReportsWhatIsSet(s: JobStatus, state: ReactiveJobState, message: Message, now: int)
    ensures Reports(SetState(s, state, message, now), state, message)
  {
    FindAfterSet(s, state, message, now);
  }

  /** The list request of an error-free reconciliation hands over the sorted jobs. */
  lemma ListStep(h: HashFunction, w: World, obj: ReactiveJob, outcomes: seq<Outcome>, t: System)
      returns (items: seq<Job>)
    requires CleanRun(h, System(w, AtList(obj)), outcomes, t) && Inv(h, System(w, AtList(obj)))
    ensures IsListing(w, obj.uid, items)
    ensures var next := Dispatch(h, w, obj, Sorted(items));
            Inv(h, next) && CleanRun(h, next, outcomes[1..], t)
  {
    items := outcomes[0].items;
    ListKeeps(h, w, obj, items);
    DispatchGoesOn(h, w, obj, Sorted(items));
    DispatchKeepsWorld(h, w, obj, Sorted(items));
    OpStepKeepsInv(h, System(w, AtList(obj)), outcomes[0]);
    hide Dispatch, Inv;
  }

  lemma SweepStarts(h: HashFunction, w: World, obj: ReactiveJob, items: seq<Job>)
    requires StoreInv(h, w) && Alive(w) && Matches(h, w)
    requires obj == Acknowledge(w.rj.value) && IsListing(w, obj.uid, items)
    ensures Sorted(items) != [] && Sorted(items)[0] == w.jobs[Latest(w).name] && Sorted(items)[0].name == Latest(w).name
    ensures Dispatch(h, w, obj, Sorted(items)) == Sweep(w, obj, Sorted(items), 1)
    ensures Sweeping(w, obj, Sorted(items), 1)
    ensures OnlyHeld(w, obj.uid, Latest(w).name) ==> NextHeld(Sorted(items), 1) == |Sorted(items)|
  {
    hide LogOk, LogOrder, LogBlock, Owned, Truthful, Guarded, StatusShape, GenerationOf, Sorted, BuildJob, Shared,
         Sweep;
    var jobs := Sorted(items);
    SortedMembers(items);
    SortedStrictly(h, w, obj.uid, items);
    SortedHead(h, w, obj.uid, items);
    forall k | 0 <= k < |jobs|
      ensures jobs[k].name in w.jobs && w.jobs[jobs[k].name] == jobs[k] && UidLabel(jobs[k]) == Some(obj.uid)
    {
      assert jobs[k] in items;
    }
    forall n | n in w.jobs && UidLabel(w.jobs[n]) == Some(obj.uid)
      ensures n == jobs[0].name || exists k :: 1 <= k < |jobs| && jobs[k].name == n
    {
      assert w.jobs[n] in items;
      assert w.jobs[n] in jobs;
      var k :| 0 <= k < |jobs| && jobs[k] == w.jobs[n];
    }
  }

  /** The status a settling reconciliation writes. */
  ghost function Settlement(w: World): JobStatus
    requires w.rj.Some? && LatestHeld(w)
  {
    var job := w.jobs[Latest(w).name];
    var (state, message, _) := Scan(job.conditions);
    SetState(w.rj.value.status.(observedGeneration := w.rj.value.generation, currentJobName := job.name),
             state, message, w.now)
  }

  /** The end of a sweep, put together. */
  lemma SettledAfter(h: HashFunction, w: World, v: World)
    requires Alive(w) && Matches(h, w) && v.rj.Some? && v.created == w.created
    requires v.rj.value == w.rj.value.(resourceVersion := v.rj.value.resourceVersion, status := Settlement(w))
    requires w.jobs[Latest(w).name].name == Latest(w).name
    requires Latest(w).name in v.jobs && v.jobs[Latest(w).name] == w.jobs[Latest(w).name]
    requires OnlyHeld(v, w.rj.value.uid, Latest(w).name)
    ensures Settled(h, v)
  {
    hide Scan, HashOf, GenerationOf, Reports, SetState;
    var job := w.jobs[Latest(w).name];
    var (state, message, _) := Scan(job.conditions);
    var s := w.rj.value.status.(observedGeneration := w.rj.value.generation, currentJobName := job.name);
    ReportsWhatIsSet(s, state, message, w.now);
    SetStateFrame(s, state, message, w.now);
  }

  lemma SetStateFrame(s: JobStatus, state: ReactiveJobState, message: Message, now: int)
    ensures var t := SetState(s, state, message, now);
            t.observedGeneration == s.observedGeneration && t.currentJobName == s.currentJobName && t.state == state
  {
  }

  lemma HeldName(h: HashFunction, w: World)
    requires StoreInv(h, w) && LatestHeld(w)
    ensures w.jobs[Latest(w).name].name == Latest(w).name
  {
  }

  /** A finished reconciliation reports the verdict of a job's conditions and returns its delay. */
  ghost predicate Concludes(conditions: seq<JobCondition>, s: JobStatus, local: Local) {
    exists state, message, seconds ::
      Verdict(conditions, state, message, seconds) && Reports(s, state, message) && local == Idle(RequeueAfter(seconds))
  }

  lemma MatchingSweep(h: HashFunction, w: World, outcomes: seq<Outcome>, t: System)
    requires Alive(w) && Matches(h, w)
    requires Inv(h, System(w, AtList(Acknowledge(w.rj.value))))
    requires CleanRun(h, System(w, AtList(Acknowledge(w.rj.value))), outcomes, t)
    ensures t.w.rj.Some? && t.w.created == w.created && t.w.now == w.now && t.w.uids == w.uids && t.w.key == w.key
    ensures t.w.rj.value == w.rj.value.(resourceVersion := t.w.rj.value.resourceVersion, status := Settlement(w))
    ensures Latest(w).name in t.w.jobs && t.w.jobs[Latest(w).name] == w.jobs[Latest(w).name]
    ensures OnlyHeld(t.w, w.rj.value.uid, Latest(w).name)
    ensures OnlyHeld(w, w.rj.value.uid, Latest(w).name) ==> t.w.jobs == w.jobs
    ensures Concludes(w.jobs[Latest(w).name].conditions, t.w.rj.value.status, t.local)
  {
    var obj := Acknowledge(w.rj.value);
    var items := ListStep(h, w, obj, outcomes, t);
    SweepStarts(h, w, obj, items);
    var jobs := Sorted(items);
    hide Inv, OpStep, Sorted, Dispatch, Sweeping, Sweep, Matches, OnlyHeld;
    SweepEnds(h, w, obj, jobs, 1, outcomes[1..], t);
    ScanVerdict(jobs[0].conditions);
    SettlementConcludes(w, t.w.rj.value.status, t.local);
  }

  lemma SettlementConcludes(w: World, s: JobStatus, local: Local)
    requires w.rj.Some? && LatestHeld(w) && s == Settlement(w)
    requires local == Idle(RequeueAfter(Scan(w.jobs[Latest(w).name].conditions).2))
    ensures Concludes(w.jobs[Latest(w).name].conditions, s, local)
  {
    var job := w.jobs[Latest(w).name];
    ScanVerdict(job.conditions);
    hide Scan, SetState, Verdict, Reports, HashOf, GenerationOf, UidLabel;
    var (state, message, seconds) := Scan(job.conditions);
    var before := w.rj.value.status.(observedGeneration := w.rj.value.generation, currentJobName := job.name);
    ReportsWhatIsSet(before, state, message, w.now);
    assert Verdict(job.conditions, state, message, seconds) && Reports(s, state, message);
  }

  /** With a matching latest job, one error-free reconciliation settles. It changes nothing but the
      status when no older job was held. */
  lemma MatchingReconciliation(h: HashFunction, s: System, outcomes: seq<Outcome>, t: System)
    requires Inv(h, s) && s.local.Idle? && s.w.queued && CleanRun(h, s, outcomes, t)
    requires Alive(s.w) && s.w.rj.value.status.state != StateUnset && Matches(h, s.w)
    ensures Settled(h, t.w)
    ensures OnlyHeld(s.w, s.w.rj.value.uid, Latest(s.w).name) ==> OnlyStatusDiffers(s.w, t.w)
    ensures t.w.created == s.w.created && t.w.rj.value.uid == s.w.rj.value.uid
            && t.w.rj.value.template == s.w.rj.value.template
    ensures t.w.rj.value.status == Settlement(s.w)
    ensures Concludes(s.w.jobs[Latest(s.w).name].conditions, t.w.rj.value.status, t.local)
  {
    var w := s.w.(queued := false);
    FirstStep(h, s, outcomes, t);
    MatchesIgnoresQueue(h, s.w, w);
    QueueIrrelevant(s.w, w);
    assert Inv(h, System(w, AtList(Acknowledge(w.rj.value)))) by {
      QueueKeeps(h, s.w, false);
      BeginKeeps(h, w);
    }
    assert w.jobs[Latest(w).name].name == Latest(w).name by { HeldName(h, w); }
    assert CleanRun(h, System(w, AtList(Acknowledge(w.rj.value))), outcomes[1..], t);
    hide Inv, OpStep, LatestHeld, Settlement, Settled, CleanRun, Matches, OnlyHeld, HasJob;
    MatchingSweep(h, w, outcomes[1..], t);
    SettledAfter(h, w, t.w);
  }

  lemma QueueIrrelevant(w: World, v: World)
    requires v == w.(queued := v.queued) && w.rj.Some? && LatestHeld(w)
    ensures LatestHeld(v) && Settlement(v) == Settlement(w)
  {
    hide Scan, SetState;
  }

  // ---------- Without one: a reconciliation creates it ----------

  /** The ReactiveJob after it was reconciled to a new job: held, with a status and a revision of its own. */
  ghost predicate NowHeld(w: World, v: World) {
    && w.rj.Some? && v.rj.Some?
    && var fs := w.rj.value.finalizers;
       v.rj.value == w.rj.value.(resourceVersion := v.rj.value.resourceVersion, status := v.rj.value.status,
                                 finalizers := if Operator in fs then fs else fs + [Operator])
  }

  /** Exactly one job was created, from the stored template and under a fresh name, and no other changed. */
  ghost predicate OneMoreJob(h: HashFunction, w: World, v: World)
    requires w.rj.Some?
  {
    var r := w.rj.value;
    && |v.created| == |w.created| + 1 && w.created <= v.created
    && var name := Latest(v).name;
       && Latest(v) == Created(r.uid, r.generation, h(r.template), name)
       && name !in w.jobs && name in v.jobs && v.jobs == w.jobs[name := v.jobs[name]]
       && v.jobs[name].name == name && w.key.name + "-" <= name
       && MadeFrom(v.jobs[name], r.template, w.key, r.uid, r.generation, h(r.template))
  }

  lemma CreateEnds(h: HashFunction, w: World, obj: ReactiveJob, job: Job, outcomes: seq<Outcome>, t: System)
    requires Inv(h, System(w, AtCreate(obj, job))) && CleanRun(h, System(w, AtCreate(obj, job)), outcomes, t)
    requires Alive(w) && w.rj.value.resourceVersion == obj.resourceVersion
    ensures Alive(t.w) && Matches(h, t.w) && Reports(t.w.rj.value.status, StateProcessing, JobCreated)
    ensures NowHeld(w, t.w) && OneMoreJob(h, w, t.w)
    ensures t.local == Idle(RequeueAfter(1))
    ensures t.w.rj.value.status.observedGeneration == obj.status.observedGeneration
  {
    var o := outcomes[0];
    var v := CreateJob(w, job, o.suffix).0;
    OpStepKeepsInv(h, System(w, AtCreate(obj, job)), o);
    var next := System(v, AtStatus(WithState(v, obj, StateProcessing, JobCreated), RequeueAfter(1)));
    CreateAccepted(h, w, obj, job, o.suffix);
    assert OpStep(h, System(w, AtCreate(obj, job)), o) == next by { hide CreateJob, Inv, WithState; }
    hide OpStep, WithState;
    assert Latest(v).hash == h(v.rj.value.template) && HasJob(v, v.rj.value.uid) && Alive(v);
    assert LatestHeld(v) by { GuardedAlive(h, v); }
    hide LatestHeld, Inv;
    assert CleanRun(h, next, outcomes[1..], t);
    StatusStep(h, next, outcomes[1..], t);
    HeldStill(v, t.w);
    WithStateSets(v, obj, StateProcessing, JobCreated);
  }

  lemma WithStateSets(w: World, obj: ReactiveJob, state: ReactiveJobState, message: Message)
    ensures Reports(WithState(w, obj, state, message).status, state, message)
    ensures WithState(w, obj, state, message).resourceVersion == obj.resourceVersion
    ensures WithState(w, obj, state, message).status.observedGeneration == obj.status.observedGeneration
  {
    ReportsWhatIsSet(obj.status, state, message, w.now);
  }

  lemma HeldStill(w: World, v: World)
    requires LatestHeld(w) && v.jobs == w.jobs && v.created == w.created
    ensures LatestHeld(v)
  {
  }

  lemma GuardedAlive(h: HashFunction, w: World)
    requires StoreInv(h, w) && Alive(w) && HasJob(w, w.rj.value.uid)
    ensures LatestHeld(w)
  {
  }

  lemma CreateAccepted(h: HashFunction, w: World, obj: ReactiveJob, job: Job, suffix: string)
    requires Inv(h, System(w, AtCreate(obj, job))) && GeneratedName(job, suffix) !in w.jobs
    requires Alive(w) && w.rj.value.resourceVersion == obj.resourceVersion
    ensures var (v, reply) := CreateJob(w, job, suffix);
            && reply.Accepted?
            && v.rj == w.rj && OneMoreJob(h, w, v) && Operator in w.rj.value.finalizers
            && Latest(v).uid == w.rj.value.uid && Latest(v).hash == h(w.rj.value.template)
  {
    CreateEffect(h, w, obj, job, suffix);
    StoredTemplate(h, w, obj, job);
    hide Inv, CreateJob, BuildJob, GenerationOf, HashOf, ParsedGeneration, EnqueueMapper, UidLabel, Record, MadeFrom;
    AcceptedFresh(w, job, suffix);
  }

  lemma AcceptedFresh(w: World, job: Job, suffix: string)
    ensures CreateJob(w, job, suffix).1.Accepted? <==> GeneratedName(job, suffix) !in w.jobs
    ensures CreateJob(w, job, suffix).0.rj == w.rj
  {
    hide HashOf, GenerationOf, Wakes;
  }

  /** At the revision that was read, the template to be built is the stored one. */
  lemma StoredTemplate(h: HashFunction, w: World, obj: ReactiveJob, job: Job)
    requires Inv(h, System(w, AtCreate(obj, job)))
    requires Alive(w) && w.rj.value.resourceVersion == obj.resourceVersion
    ensures w.rj.value.uid == obj.uid && w.rj.value.generation == obj.generation
    ensures w.history[(obj.uid, obj.generation)] == w.rj.value.template && Operator in w.rj.value.finalizers
  {
    hide LogOk, LogOrder, LogBlock, Owned, Truthful, Guarded, StatusShape, GenerationOf, BuildJob, HashOf;
  }

  lemma MismatchProceeds(h: HashFunction, w: World, obj: ReactiveJob, items: seq<Job>)
    requires StoreInv(h, w) && Alive(w) && !Matches(h, w) && IsListing(w, obj.uid, items)
    requires obj.uid == w.rj.value.uid && obj.template == w.rj.value.template
    ensures Proceed(h, w, obj, Sorted(items)).local.AtCreate?
    ensures Proceed(h, w, obj, Sorted(items)).local.obj
            == obj.(template := Shared(h, w.key, obj.uid, obj.generation, obj.template))
  {
    hide LogOk, LogOrder, LogBlock, Owned, Truthful, StatusShape, GenerationOf, HashOf, Sorted, BuildJob, Shared;
    if HasJob(w, obj.uid) {
      SortedHead(h, w, obj.uid, items);
      assert Record(Latest(w).name, w.jobs[Latest(w).name]) == Latest(w);
    } else {
      NothingListed(h, w, obj.uid, items);
      SortedMembers(items);
    }
  }

  lemma FenceRun(h: HashFunction, w: World, obj: ReactiveJob, outcomes: seq<Outcome>, t: System)
    requires Inv(h, System(w, AtFence(obj, []))) && CleanRun(h, System(w, AtFence(obj, [])), outcomes, t)
    requires Alive(w) && w.rj.value.resourceVersion == obj.resourceVersion
    requires obj.finalizers == AddFinalizer(w.rj.value.finalizers, Operator)
    ensures Alive(t.w) && Matches(h, t.w) && Reports(t.w.rj.value.status, StateProcessing, JobCreated)
    ensures NowHeld(w, t.w) && OneMoreJob(h, w, t.w)
    ensures t.local == Idle(RequeueAfter(1))
    ensures t.w.rj.value.status.observedGeneration == w.rj.value.status.observedGeneration
  {
    var s := System(w, AtFence(obj, []));
    OpStepKeepsInv(h, s, outcomes[0]);
    var (v, reply) := UpdateReactiveJob(w, obj);
    FenceAccepted(h, w, obj);
    hide Inv, UpdateReactiveJob, BuildJob, Shared, NowHeld, OneMoreJob, Reports, Matches, Scan, SetState, AddFinalizer;
    var next := Proceed(h, v, reply.value, []);
    assert OpStep(h, s, outcomes[0]) == next;
    hide OpStep;
    CreateEnds(h, v, next.local.obj, next.local.job, outcomes[1..], t);
    AfterTheFence(h, w, v, t.w);
  }

  /** One more job after the finalizer write is one more job after what was there before it. */
  lemma AfterTheFence(h: HashFunction, w: World, v: World, u: World)
    requires w.rj.Some? && v.rj.Some? && v.jobs == w.jobs && v.created == w.created && v.key == w.key
    requires v.rj.value == w.rj.value.(resourceVersion := v.rj.value.resourceVersion,
                                       finalizers := AddFinalizer(w.rj.value.finalizers, Operator))
    requires NowHeld(v, u) && OneMoreJob(h, v, u)
    ensures NowHeld(w, u) && OneMoreJob(h, w, u)
  {
  }

  lemma FenceAccepted(h: HashFunction, w: World, obj: ReactiveJob)
    requires Inv(h, System(w, AtFence(obj, [])))
    requires Alive(w) && w.rj.value.resourceVersion == obj.resourceVersion
    ensures var (v, reply) := UpdateReactiveJob(w, obj);
            && reply.Accepted? && Alive(v)
            && v.rj.value.resourceVersion == reply.value.resourceVersion
            && v.rj.value.uid == w.rj.value.uid && v.rj.value.template == w.rj.value.template
            && v.rj.value == w.rj.value.(resourceVersion := v.rj.value.resourceVersion, finalizers := obj.finalizers)
            && v.key == w.key && v.created == w.created && v.jobs == w.jobs && reply.value.status == w.rj.value.status
  {
    hide LogOk, LogOrder, LogBlock, Owned, Truthful, Guarded, StatusShape;
  }

  /** Without a matching latest job, an error-free reconciliation creates exactly one, and it matches.
      The generation is acknowledged only if the finalizer was already in place: the reply to the
      finalizer write refreshes the status in memory and so takes the acknowledgement back. */
  lemma CreatingReconciliation(h: HashFunction, s: System, outcomes: seq<Outcome>, t: System)
    requires Inv(h, s) && s.local.Idle? && s.w.queued && CleanRun(h, s, outcomes, t)
    requires Alive(s.w) && s.w.rj.value.status.state != StateUnset && !Matches(h, s.w)
    ensures Alive(t.w) && Matches(h, t.w) && Reports(t.w.rj.value.status, StateProcessing, JobCreated)
    ensures NowHeld(s.w, t.w) && OneMoreJob(h, s.w, t.w)
    ensures t.local == Idle(RequeueAfter(1))
    ensures t.w.rj.value.status.observedGeneration
            == if Operator in s.w.rj.value.finalizers then s.w.rj.value.generation
               else s.w.rj.value.status.observedGeneration
  {
    var w := s.w.(queued := false);
    var obj := Acknowledge(w.rj.value);
    FirstStep(h, s, outcomes, t);
    QueueKeeps(h, s.w, false);
    BeginKeeps(h, w);
    MatchesIgnoresQueue(h, s.w, w);
    CreatingList(h, w, outcomes[1..], t);
  }

  lemma MatchesIgnoresQueue(h: HashFunction, w: World, v: World)
    requires v == w.(queued := v.queued)
    ensures Matches(h, v) == Matches(h, w)
  {
  }

  lemma CreatingList(h: HashFunction, w: World, outcomes: seq<Outcome>, t: System)
    requires Alive(w) && !Matches(h, w)
    requires Inv(h, System(w, AtList(Acknowledge(w.rj.value))))
    requires CleanRun(h, System(w, AtList(Acknowledge(w.rj.value))), outcomes, t)
    ensures Alive(t.w) && Matches(h, t.w) && Reports(t.w.rj.value.status, StateProcessing, JobCreated)
    ensures NowHeld(w, t.w) && OneMoreJob(h, w, t.w)
    ensures t.local == Idle(RequeueAfter(1))
    ensures t.w.rj.value.status.observedGeneration
            == if Operator in w.rj.value.finalizers then w.rj.value.generation else w.rj.value.status.observedGeneration
  {
    var obj := Acknowledge(w.rj.value);
    var items := ListStep(h, w, obj, outcomes, t);
    var jobs := Sorted(items);
    var next := Dispatch(h, w, obj, jobs);
    assert StoreInv(h, w);
    if Operator !in obj.finalizers {
      NothingWithoutFence(h, w, obj, items);
      var fenced := obj.(finalizers := AddFinalizer(obj.finalizers, Operator));
      assert next == System(w, AtFence(fenced, []));
      hide Dispatch, Inv, Sorted, Matches;
      FenceRun(h, w, fenced, outcomes[1..], t);
    } else {
      MismatchProceeds(h, w, obj, items);
      ProceedKeepsWorld(h, w, obj, jobs);
      assert next == Proceed(h, w, obj, jobs);
      hide Dispatch, Proceed, Inv, Sorted, Matches, Shared;
      CreateEnds(h, w, next.local.obj, next.local.job, outcomes[1..], t);
    }
  }

  lemma NothingWithoutFence(h: HashFunction, w: World, obj: ReactiveJob, items: seq<Job>)
    requires Inv(h, System(w, AtList(obj))) && IsListing(w, obj.uid, items) && Operator !in obj.finalizers
    ensures Sorted(items) == []
  {
    hide StoreInv, LatestHeld;
    LatestOnRecord(w, obj.uid);
    NothingListed(h, w, obj.uid, items);
  }

  lemma LatestOnRecord(w: World, uid: string)
    ensures HasJob(w, uid) ==> exists line :: line in w.created && line.uid == uid
  {
    if HasJob(w, uid) {
      assert Latest(w) in w.created;
    }
  }

  // ---------- Convergence ----------

  /** One whole reconciliation keeps the invariant, and leaves the next one scheduled. */
  lemma ReconcilesKeepsInv(h: HashFunction, s: System, t: System)
    requires Inv(h, s) && Reconciles(h, s, t)
    ensures Inv(h, t) && t.local.Idle? && (t.w.rj.Some? ==> t.w.queued)
  {
    var outcomes :| CleanRun(h, s, outcomes, t);
    var events := CleanRunIsRun(h, s, outcomes, t);
    RunKeepsInv(h, s, events);
    hide StoreInv, Run, CleanRun;
  }

  /** One error-free reconciliation, by where it starts. */
  lemma OneReconciliation(h: HashFunction, s: System, t: System)
    requires Inv(h, s) && Reconciles(h, s, t) && Alive(s.w)
    ensures Alive(t.w) && t.w.rj.value.status.state != StateUnset
    ensures t.w.rj.value.uid == s.w.rj.value.uid && t.w.rj.value.template == s.w.rj.value.template
    ensures s.w.rj.value.status.state != StateUnset ==> Matches(h, t.w)
    ensures s.w.rj.value.status.state != StateUnset && Matches(h, s.w) ==> Settled(h, t.w)
  {
    var outcomes :| CleanRun(h, s, outcomes, t);
    hide Inv, CleanRun, Settled, Matches, LatestHeld;
    if s.w.rj.value.status.state == StateUnset {
      FirstSeenReconciliation(h, s, outcomes, t);
    } else if Matches(h, s.w) {
      MatchingReconciliation(h, s, outcomes, t);
      SettledMeans(h, t.w);
    } else {
      CreatingReconciliation(h, s, outcomes, t);
    }
  }

  lemma SettledMeans(h: HashFunction, w: World)
    requires Settled(h, w)
    ensures Alive(w) && Matches(h, w) && w.rj.value.status.state != StateUnset
  {
    hide HashOf, GenerationOf, Scan;
    ScanReady(w.jobs[Latest(w).name].conditions);
  }

  /** Convergence: from any idle state of any run in which the ReactiveJob exists and is not being
      deleted, three error-free reconciliations settle, whatever crashes and faults came before. */
  lemma ThreeReconciliationsSettle(h: HashFunction, key: NamespacedName, events: seq<Event>,
                                   s1: System, s2: System, s3: System)
    requires var s := Reached(h, key, events);
             Alive(s.w) && Reconciles(h, s, s1) && Reconciles(h, s1, s2) && Reconciles(h, s2, s3)
    ensures Settled(h, s3.w)
    ensures s3.w.rj.value.uid == Reached(h, key, events).w.rj.value.uid
    ensures s3.w.rj.value.template == Reached(h, key, events).w.rj.value.template
  {
    hide Step, Inv, Reconciles, Settled, Matches;
    var s := Reached(h, key, events);
    ReachedInv(h, key, events);
    ReconcilesKeepsInv(h, s, s1);
    ReconcilesKeepsInv(h, s1, s2);
    OneReconciliation(h, s, s1);
    OneReconciliation(h, s1, s2);
    OneReconciliation(h, s2, s3);
  }

  /** And there always are three such reconciliations. */
  lemma ThreeReconciliationsExist(h: HashFunction, key: NamespacedName, events: seq<Event>)
      returns (s1: System, s2: System, s3: System)
    requires var s := Reached(h, key, events); s.local.Idle? && Alive(s.w)
    ensures Reconciles(h, Reached(h, key, events), s1) && Reconciles(h, s1, s2) && Reconciles(h, s2, s3)
  {
    hide Step, Reconciles, Settled, Matches;
    var s := Reached(h, key, events);
    ReachedInv(h, key, events);
    hide StoreInv;
    s1 := ReconciliationExists(h, s);
    ReconcilesKeepsInv(h, s, s1);
    OneReconciliation(h, s, s1);
    s2 := ReconciliationExists(h, s1);
    ReconcilesKeepsInv(h, s1, s2);
    OneReconciliation(h, s1, s2);
    s3 := ReconciliationExists(h, s2);
  }

  /** The update time of the Ready condition, and nothing else, may differ. */
  ghost predicate OnlyUpdateTimeDiffers(s: JobStatus, t: JobStatus) {
    var k := Find(s.conditions, TypeReady);
    && t.observedGeneration == s.observedGeneration && t.state == s.state && t.currentJobName == s.currentJobName
    && |t.conditions| == |s.conditions| && k < |s.conditions|
    && (forall i :: 0 <= i < |s.conditions| && i != k ==> t.conditions[i] == s.conditions[i])
    && t.conditions[k] == s.conditions[k].(lastUpdateTime := t.conditions[k].lastUpdateTime)
  }

  lemma SettingTheSame(s: JobStatus, state: ReactiveJobState, message: Message, now: int)
    requires Reports(s, state, message)
    ensures OnlyUpdateTimeDiffers(s, SetState(s, state, message, now))
  {
  }

  /** Fixpoint: once settled, a further error-free reconciliation stays settled, creates nothing,
      leaves every job and the spec alone, and changes nothing of the status but the update time. */
  lemma SettledIsAFixpoint(h: HashFunction, s: System, t: System)
    requires Inv(h, s) && Reconciles(h, s, t) && Settled(h, s.w)
    ensures Settled(h, t.w) && OnlyStatusDiffers(s.w, t.w)
    ensures OnlyUpdateTimeDiffers(s.w.rj.value.status, t.w.rj.value.status)
    ensures Concludes(s.w.jobs[Latest(s.w).name].conditions, t.w.rj.value.status, t.local)
  {
    var outcomes :| CleanRun(h, s, outcomes, t);
    SettledMeans(h, s.w);
    assert StoreInv(h, s.w);
    HeldName(h, s.w);
    SettledStatus(h, s.w);
    hide Inv, CleanRun, Matches, LatestHeld, OnlyUpdateTimeDiffers, Settlement;
    assert OnlyHeld(s.w, s.w.rj.value.uid, Latest(s.w).name);
    MatchingReconciliation(h, s, outcomes, t);
  }

  lemma SettledStatus(h: HashFunction, w: World)
    requires Settled(h, w) && LatestHeld(w) && w.jobs[Latest(w).name].name == Latest(w).name
    ensures OnlyUpdateTimeDiffers(w.rj.value.status, Settlement(w))
  {
    hide HashOf, GenerationOf, Scan, Matches, OnlyHeld, SetState, OnlyUpdateTimeDiffers, Reports;
    var job := w.jobs[Latest(w).name];
    var (state, message, _) := Scan(job.conditions);
    var s := w.rj.value.status;
    assert s.(observedGeneration := w.rj.value.generation, currentJobName := job.name) == s;
    SettingTheSame(s, state, message, w.now);
  }
}
