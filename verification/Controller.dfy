/** Reconcile, as the program runs it: objects on the heap, loops, and a deferred status write. It is
    proved to take exactly the steps of the reconciler machine, so all that holds of runs holds of it. */
module Controller {
  import opened Options
  import opened Status
  import opened StatusHeap
  import opened Objects
  import opened ObjectHeap
  import opened Sorting
  import opened Cluster
  import opened Reconciler
  import opened Invariant
  import opened Environment
  import opened OperatorSteps
  import opened Requests
  import opened Safety
  import opened Server

  /** The position at which the body of Reconcile ends: the deferred status write is next, and if a
      call failed it first reports the error. */
  ghost predicate Ending(server: ApiServer, obj: ReactiveJobObject, result: Result, failed: Option<Call>)
    reads server, obj, obj.template, obj.template.labels, obj.template.annotations, obj.status
  {
    System(server.w, server.local) ==
      if failed.Some? then Abort(server.w, obj.Value(), failed.value)
      else System(server.w, AtStatus(obj.Value(), result))
  }

  /** The deferred function: reports an error, then always attempts to update the status. It makes one
      request, in store u with outcome o; the result stands only if no call had failed and that request
      is answered with success. What is sent is the object, after an error with that error reported. */
  method Deferred(server: ApiServer, obj: ReactiveJobObject, result: Result, failed: Option<Call>)
      returns (final: Result, ghost sent: ReactiveJob, ghost u: World, ghost o: Outcome)
    requires server.Valid() && obj.Valid() && server !in obj.Repr()
    requires Ending(server, obj, result, failed)
    requires failed.None? ==> result != Panicked
    modifies server, obj.status, obj.status.conditions
    ensures server.Valid() && server.local == Idle(final) && server.Since(old(server.events))
    ensures sent == old(obj.Value()).(status := sent.status)
    ensures match failed
            case None => sent == old(obj.Value())
            case Some(call) =>
              Reported(old(obj.Value()).status, sent.status, StateError, Failure(call), old(server.w.now))
    ensures server.After(u, AtStatus(sent, if failed.Some? then Failed else result), o)
    ensures final == if failed.None? && o.Answered? && StatusAccepted(u, sent) then result else Failed
  {
    var pending := result;
    if failed.Some? {
      SetStateReports(obj.Value().status, StateError, Failure(failed.value), server.w.now);
      obj.SetState(StateError, Failure(failed.value), server.w.now);
      pending := Failed;
    }
    var update := Encode(obj);
    sent := update;
    hide Reported, Inv, OpStep;
    var ok;
    ok, u, o := server.SendStatus(update, pending);
    final := if ok then pending else Failed;
  }

  /** The scan over the conditions of the latest job. */
  method ScanConditions(conditions: seq<JobCondition>) returns (state: ReactiveJobState, message: Message, seconds: nat)
    ensures (state, message, seconds) == Scan(conditions)
  {
    state, message, seconds := StateProcessing, WaitingForJob, 10;
    var i := 0;
    while i < |conditions|
      invariant 0 <= i <= |conditions|
      invariant (state, message, seconds) == (StateProcessing, WaitingForJob, 10)
      invariant Scan(conditions) == Scan(conditions[i..])
    {
      var cond := conditions[i];
      assert conditions[i..][0] == cond && conditions[i..][1..] == conditions[i + 1..];
      if cond.typ == JobFailed && cond.status == ConditionTrue {
        state, message, seconds := StateError, JobSays(cond.reason, cond.message), 60;
        break;
      } else if cond.typ == JobComplete && cond.status == ConditionTrue {
        state, message, seconds := StateReady, JobSays(cond.reason, cond.message), 600;
        break;
      }
      i := i + 1;
    }
  }

  /** The updates that take the operator's finalizer off the jobs from position i up to k that hold it. */
  function Stripped(jobs: seq<Job>, i: nat, k: nat): seq<Job>
    requires i <= k <= |jobs|
    decreases k
  {
    if k == i then []
    else Stripped(jobs, i, k - 1) + (if Operator in jobs[k - 1].finalizers then [Unheld(jobs[k - 1])] else [])
  }

  /** The loop that takes the finalizer off the older jobs. If it stops with an error at some
      position, exactly the jobs before it that held the finalizer have been updated, in order, and
      at most the one at that position besides, when only the reply was lost. */
  method StripOlder(server: ApiServer, obj: ReactiveJobObject, jobs: seq<Job>)
      returns (failed: Option<Call>, ghost stopped: nat)
    requires server.Valid() && obj.Valid() && server !in obj.Repr() && jobs != []
    requires System(server.w, server.local) == Sweep(server.w, obj.Value(), jobs, 1)
    modifies server
    ensures server.Valid() && server.Since(old(server.events))
    ensures 1 <= stopped <= |jobs| && (failed.None? <==> stopped == |jobs|)
    ensures System(server.w, server.local) ==
              if failed.Some? then Abort(server.w, obj.Value(), failed.value)
              else Conclude(server.w, obj.Value(), jobs[0])
    ensures server.written == old(server.written) + Stripped(jobs, 1, stopped)
            || (failed.Some? && Operator in jobs[stopped].finalizers
                && server.written == old(server.written) + Stripped(jobs, 1, stopped) + [Unheld(jobs[stopped])])
  {
    hide OpStep, Reached, Inv, Sweep, Conclude, Abort, Unheld, UpdateJob, Stripped;
    failed := None;
    stopped := |jobs|;
    StrippedStep(jobs, 1, 1);
    for i := 1 to |jobs|
      invariant server.Valid() && server.Since(old(server.events))
      invariant System(server.w, server.local) == Sweep(server.w, obj.Value(), jobs, i)
      invariant server.written == old(server.written) + Stripped(jobs, 1, i)
    {
      var job := jobs[i];
      SweepAt(server.w, obj.Value(), jobs, i);
      StrippedStep(jobs, 1, i + 1);
      if Operator in job.finalizers {
        job := job.(finalizers := RemoveFinalizer(job.finalizers, Operator));
        UnheldIs(jobs[i], job);
        assert server.local == AtStrip(obj.Value(), jobs, i);
        var ok, u, o := server.UpdateDependent(job);
        StripOutcome(server.h, u, obj.Value(), jobs, i, o);
        if !ok {
          failed := Some(StripCall);
          stopped := i;
          return;
        }
      }
    }
    SweepAtEnd(server.w, obj.Value(), jobs);
  }

  lemma UnheldIs(j: Job, k: Job)
    requires k == j.(finalizers := RemoveFinalizer(j.finalizers, Operator))
    ensures k == Unheld(j)
  {
  }

  lemma SweepAt(w: World, obj: ReactiveJob, jobs: seq<Job>, i: nat)
    requires i < |jobs|
    ensures Sweep(w, obj, jobs, i) ==
              if Operator in jobs[i].finalizers then System(w, AtStrip(obj, jobs, i)) else Sweep(w, obj, jobs, i + 1)
  {
    hide Conclude;
  }

  lemma SweepAtEnd(w: World, obj: ReactiveJob, jobs: seq<Job>)
    requires jobs != []
    ensures Sweep(w, obj, jobs, |jobs|) == Conclude(w, obj, jobs[0])
  {
    hide Conclude;
  }

  lemma StrippedStep(jobs: seq<Job>, i: nat, k: nat)
    requires i <= k <= |jobs|
    ensures Stripped(jobs, i, k) ==
              if k == i then []
              else Stripped(jobs, i, k - 1) + (if Operator in jobs[k - 1].finalizers then [Unheld(jobs[k - 1])] else [])
  {
  }

  lemma StripOutcome(h: HashFunction, u: World, obj: ReactiveJob, jobs: seq<Job>, i: nat, o: Outcome)
    requires i < |jobs|
    ensures var (v, reply) := Deliver(o, u, UpdateJob(u, Unheld(jobs[i])));
            OpStep(h, System(u, AtStrip(obj, jobs, i)), o)
            == if reply.Accepted? then Sweep(v, obj, jobs, i + 1) else Abort(v, obj, StripCall)
    ensures OpStep(h, System(u, AtStrip(obj, jobs, i)), o).w == Deliver(o, u, UpdateJob(u, Unheld(jobs[i]))).0
    ensures Deliver(o, u, UpdateJob(u, Unheld(jobs[i]))).1.Accepted? <==>
              o.Answered? && UpdateJob(u, Unheld(jobs[i])).1.Accepted?
  {
  }

  /** r is the subsequence of the finalizers other than the operator's: `at` lists their positions, in
      order and each once. */
  ghost predicate KeptAt(fs: seq<Finalizer>, r: seq<Finalizer>, at: seq<int>) {
    && |r| == |at|
    && (forall x :: 0 <= x < |at| ==> 0 <= at[x] < |fs| && r[x] == fs[at[x]])
    && (forall x, y :: 0 <= x < y < |at| ==> at[x] < at[y])
    && (forall i :: 0 <= i < |fs| ==> (i in at <==> fs[i] != Operator))
  }

  function Moved(at: seq<int>): (r: seq<int>)
    ensures |r| == |at| && forall x :: 0 <= x < |at| ==> r[x] == at[x] + 1
  {
    seq(|at|, x requires 0 <= x < |at| => at[x] + 1)
  }

  lemma MovedMembers(at: seq<int>, i: int)
    ensures i in Moved(at) <==> i - 1 in at
  {
    if i - 1 in at {
      var x :| 0 <= x < |at| && at[x] == i - 1;
      assert Moved(at)[x] == i;
    }
  }

  lemma SkipsHead(fs: seq<Finalizer>, r: seq<Finalizer>, at: seq<int>)
    requires fs != [] && fs[0] == Operator && KeptAt(fs[1..], r, at)
    ensures KeptAt(fs, r, Moved(at))
  {
    var moved := Moved(at);
    hide Moved;
    forall i | 0 <= i < |fs| ensures i in moved <==> fs[i] != Operator {
      MovedMembers(at, i);
      HeadOrTail(fs, r, at, i);
    }
  }

  lemma KeepsHead(fs: seq<Finalizer>, r: seq<Finalizer>, at: seq<int>)
    requires fs != [] && fs[0] != Operator && KeptAt(fs[1..], r, at)
    ensures KeptAt(fs, [fs[0]] + r, [0] + Moved(at))
  {
    var all := [0] + Moved(at);
    forall i | 0 <= i < |fs| ensures i in all <==> fs[i] != Operator {
      HeadMembers(fs, r, at, i);
    }
    assert forall x :: 0 < x < |all| ==> all[x] == at[x - 1] + 1;
    hide Moved;
    HeadValues(fs, r, at, all);
  }

  lemma HeadMembers(fs: seq<Finalizer>, r: seq<Finalizer>, at: seq<int>, i: int)
    requires fs != [] && fs[0] != Operator && KeptAt(fs[1..], r, at) && 0 <= i < |fs|
    ensures i in [0] + Moved(at) <==> fs[i] != Operator
  {
    MovedMembers(at, i);
    HeadOrTail(fs, r, at, i);
    hide Moved, KeptAt;
  }

  lemma HeadValues(fs: seq<Finalizer>, r: seq<Finalizer>, at: seq<int>, all: seq<int>)
    requires fs != [] && KeptAt(fs[1..], r, at)
    requires |all| == |at| + 1 && all[0] == 0 && forall x :: 0 < x < |all| ==> all[x] == at[x - 1] + 1
    ensures forall x :: 0 <= x < |all| ==> 0 <= all[x] < |fs| && ([fs[0]] + r)[x] == fs[all[x]]
    ensures forall x, y :: 0 <= x < y < |all| ==> all[x] < all[y]
  {
  }

  lemma HeadOrTail(fs: seq<Finalizer>, r: seq<Finalizer>, at: seq<int>, i: int)
    requires fs != [] && KeptAt(fs[1..], r, at) && 0 <= i < |fs|
    ensures i - 1 in at <==> i > 0 && fs[i] != Operator
  {
    if i > 0 {
      assert fs[1..][i - 1] == fs[i];
    }
  }

  /** Stripping a job keeps its other finalizers, in their order. */
  lemma {:induction false} RemovalKeepsOrder(fs: seq<Finalizer>) returns (at: seq<int>)
    ensures KeptAt(fs, RemoveFinalizer(fs, Operator), at)
  {
    if fs == [] {
      at := [];
    } else {
      var rest := RemovalKeepsOrder(fs[1..]);
      hide KeptAt, Moved;
      if fs[0] == Operator {
        at := Moved(rest);
        SkipsHead(fs, RemoveFinalizer(fs[1..], Operator), rest);
      } else {
        at := [0] + Moved(rest);
        KeepsHead(fs, RemoveFinalizer(fs[1..], Operator), rest);
      }
    }
  }

  // ---------- The create/update case ----------

  /** Creates the job for the current template; the hash was taken before the maps are written. */
  method CreateDependent(server: ApiServer, obj: ReactiveJobObject, hash: string)
      returns (result: Result, failed: Option<Call>)
    requires server.Valid() && obj.Valid() && server !in obj.Repr()
    requires hash == server.h(obj.template.Value())
    requires server.local == AtCreate(
               obj.Value().(template := Shared(server.h, server.key, obj.uid, obj.generation, obj.template.Value())),
               BuildJob(server.h, server.key, obj.uid, obj.generation, obj.template.Value()))
    modifies server, obj.template.labels, obj.template.annotations, obj.status, obj.status.conditions
    ensures server.Valid() && server.Since(old(server.events))
    ensures obj.Valid() && server !in obj.Repr() && fresh(obj.Repr() - old(obj.Repr()))
    ensures Ending(server, obj, result, failed) && result != Panicked
  {
    hide OpStep, BuildJob, Shared, CreateJob, Reached, Inv, Status.SetState, Deliver;
    var job := BuildDependentJob(server.h, server.key, obj, hash);
    assert server.local == AtCreate(obj.Value(), job.Value());
    var ok, u, o := server.Create(job.Value());
    CreateOutcome(server.h, u, obj.Value(), job.Value(), o);
    result, failed := RequeueAfter(1), None;
    if !ok {
      failed := Some(CreateCall);
      return;
    }
    obj.SetState(StateProcessing, JobCreated, server.w.now);
  }

  lemma CreateOutcome(h: HashFunction, u: World, obj: ReactiveJob, job: Job, o: Outcome)
    ensures var (v, reply) := Deliver(o, u, CreateJob(u, job, Suffix(o)));
            OpStep(h, System(u, AtCreate(obj, job)), o)
            == if reply.Accepted? then
                 System(v, AtStatus(WithState(v, obj, StateProcessing, JobCreated), RequeueAfter(1)))
               else Abort(v, obj, CreateCall)
    ensures Deliver(o, u, CreateJob(u, job, Suffix(o))).1.Accepted? <==>
              o.Answered? && CreateJob(u, job, Suffix(o)).1.Accepted?
  {
    hide CreateJob, WithState;
  }

  /** Everything after the finalizer is in place. */
  method CreateOrSweep(server: ApiServer, obj: ReactiveJobObject, jobs: seq<Job>)
      returns (result: Result, failed: Option<Call>)
    requires server.Valid() && obj.Valid() && server !in obj.Repr()
    requires System(server.w, server.local) == Proceed(server.h, server.w, obj.Value(), jobs)
    modifies server, obj.template.labels, obj.template.annotations, obj.status, obj.status.conditions
    ensures server.Valid() && server.Since(old(server.events))
    ensures obj.Valid() && server !in obj.Repr() && fresh(obj.Repr() - old(obj.Repr()))
    ensures Ending(server, obj, result, failed) && result != Panicked
  {
    hide OpStep, BuildJob, Shared, Reached, Inv, Status.SetState, HashOf;
    var jobTemplateHash := server.h(obj.template.Value());
    if jobs == [] || HashOf(jobs[0]) != jobTemplateHash {
      result, failed := CreateDependent(server, obj, jobTemplateHash);
    } else {
      result, failed := SweepAndReport(server, obj, jobs);
    }
  }

  method SweepAndReport(server: ApiServer, obj: ReactiveJobObject, jobs: seq<Job>)
      returns (result: Result, failed: Option<Call>)
    requires server.Valid() && obj.Valid() && server !in obj.Repr() && jobs != []
    requires System(server.w, server.local) == Sweep(server.w, obj.Value(), jobs, 1)
    modifies server, obj.status, obj.status.conditions
    ensures server.Valid() && server.Since(old(server.events))
    ensures obj.Valid() && server !in obj.Repr() && fresh(obj.Repr() - old(obj.Repr()))
    ensures Ending(server, obj, result, failed) && result != Panicked
  {
    hide OpStep, Reached, Inv, Status.SetState, Scan, Sweep;
    result := RequeueAfter(10);
    ghost var stopped;
    failed, stopped := StripOlder(server, obj, jobs);
    if failed.Some? {
      return;
    }
    var job := jobs[0];
    obj.NameJob(job.name);
    var state, message, seconds := ScanConditions(job.conditions);
    obj.SetState(state, message, server.w.now);
    result := RequeueAfter(seconds);
  }

  // ---------- The deletion case ----------

  /** The loop that releases and deletes all jobs. */
  method DrainJobs(server: ApiServer, obj: ReactiveJobObject, jobs: seq<Job>) returns (failed: Option<Call>)
    requires server.Valid() && obj.Valid() && server !in obj.Repr()
    requires System(server.w, server.local) == Drain(server.w, obj.Value(), jobs, 0)
    modifies server
    ensures server.Valid() && server.Since(old(server.events))
    ensures System(server.w, server.local) ==
              if failed.Some? then Abort(server.w, obj.Value(), failed.value)
              else System(server.w, AtStatus(WithState(server.w, obj.Value(), StateDeleting, WaitingForDependents),
                                             RequeueAfter(10)))
  {
    hide OpStep, Reached, Inv, WithState;
    failed := None;
    for i := 0 to |jobs|
      invariant server.Valid() && server.Since(old(server.events))
      invariant System(server.w, server.local) == Drain(server.w, obj.Value(), jobs, i)
    {
      var job := jobs[i];
      if Operator in job.finalizers {
        job := job.(finalizers := RemoveFinalizer(job.finalizers, Operator));
        var ok, u, o := server.UpdateDependent(job);
        ReleaseOutcome(server.h, u, obj.Value(), jobs, i, o);
        if !ok {
          failed := Some(StripCall);
          return;
        }
      }
      if !job.deleting {
        var ok, u, o := server.Delete(job);
        DeleteOutcome(server.h, u, obj.Value(), jobs, i, o);
        if !ok {
          failed := Some(DeleteCall);
          return;
        }
      }
    }
  }

  lemma ReleaseOutcome(h: HashFunction, u: World, obj: ReactiveJob, jobs: seq<Job>, i: nat, o: Outcome)
    requires i < |jobs|
    ensures var (v, reply) := Deliver(o, u, UpdateJob(u, Unheld(jobs[i])));
            OpStep(h, System(u, AtRelease(obj, jobs, i)), o)
            == if reply.Accepted? then DrainUnheld(v, obj, jobs, i) else Abort(v, obj, StripCall)
    ensures OpStep(h, System(u, AtRelease(obj, jobs, i)), o).w == Deliver(o, u, UpdateJob(u, Unheld(jobs[i]))).0
    ensures Deliver(o, u, UpdateJob(u, Unheld(jobs[i]))).1.Accepted? <==>
              o.Answered? && UpdateJob(u, Unheld(jobs[i])).1.Accepted?
  {
    DrainKeepsWorld(UpdateJob(u, Unheld(jobs[i])).0, obj, jobs, i + 1);
    hide UpdateJob, WithState, Drain;
  }

  lemma DeleteOutcome(h: HashFunction, u: World, obj: ReactiveJob, jobs: seq<Job>, i: nat, o: Outcome)
    requires i < |jobs|
    ensures var (v, reply) := Deliver(o, u, DeleteJob(u, jobs[i].name, true));
            OpStep(h, System(u, AtDelete(obj, jobs, i)), o)
            == if reply.Accepted? then Drain(v, obj, jobs, i + 1) else Abort(v, obj, DeleteCall)
    ensures OpStep(h, System(u, AtDelete(obj, jobs, i)), o).w == Deliver(o, u, DeleteJob(u, jobs[i].name, true)).0
    ensures Deliver(o, u, DeleteJob(u, jobs[i].name, true)).1.Accepted? <==>
              o.Answered? && DeleteJob(u, jobs[i].name, true).1.Accepted?
  {
    DrainKeepsWorld(DeleteJob(u, jobs[i].name, true).0, obj, jobs, i + 1);
    hide DeleteJob, WithState, Drain;
  }

  lemma UpdateOutcome(h: HashFunction, u: World, from: Local, o: Outcome)
    requires from.AtFence? || from.AtClear?
    ensures var (v, reply) := Deliver(o, u, UpdateReactiveJob(u, from.obj));
            OpStep(h, System(u, from), o)
            == if from.AtFence? then
                 if reply.Accepted? then Proceed(h, v, reply.value, from.jobs) else Abort(v, from.obj, SetFinalizerCall)
               else
                 if reply.Accepted? then Finish(v, Nothing) else Abort(v, from.obj, ClearFinalizerCall)
    ensures Deliver(o, u, UpdateReactiveJob(u, from.obj)).1.Accepted? <==>
              o.Answered? && UpdateReactiveJob(u, from.obj).1.Accepted?
    ensures o.Answered? ==> Deliver(o, u, UpdateReactiveJob(u, from.obj)) == UpdateReactiveJob(u, from.obj)
  {
    hide UpdateReactiveJob, WithState, Proceed;
  }

  // ---------- The whole reconciliation ----------

  /** What Reconcile's body leaves for the deferred function: whether to skip it, the result, and the
      call that failed, if any. */
  datatype BodyResult = BodyResult(skip: bool, result: Result, failed: Option<Call>)

  method ActOn(server: ApiServer, obj: ReactiveJobObject, jobs: seq<Job>) returns (r: BodyResult)
    requires server.Valid() && obj.Valid() && server !in obj.Repr()
    requires System(server.w, server.local) == Dispatch(server.h, server.w, obj.Value(), jobs)
    requires !server.local.Idle?
    modifies server, obj.Repr()
    ensures server.Valid() && server.Since(old(server.events))
    ensures obj.Valid() && server !in obj.Repr() && fresh(obj.Repr() - old(obj.Repr()))
    ensures r.result != Panicked
    ensures if r.skip then r.failed.None? && server.local == Idle(r.result) else Ending(server, obj, r.result, r.failed)
  {
    hide OpStep, Reached, Inv, Status.SetState, Proceed, Drain;
    if !obj.deleting {
      if Operator !in obj.finalizers {
        var ok := Fence(server, obj, jobs);
        if !ok {
          return BodyResult(false, Nothing, Some(SetFinalizerCall));
        }
      }
      var result, failed := CreateOrSweep(server, obj, jobs);
      return BodyResult(false, result, failed);
    } else if |RemoveFinalizer(obj.finalizers, Operator)| > 0 {
      obj.SetState(StateDeletionBlocked, ForeignFinalizersBlock, server.w.now);
      return BodyResult(false, RequeueAfter(10), None);
    } else if jobs == [] {
      assert Operator in obj.finalizers;
      r := Clear(server, obj);
    } else {
      var failed := DrainJobs(server, obj, jobs);
      if failed.Some? {
        return BodyResult(false, Nothing, failed);
      }
      obj.SetState(StateDeleting, WaitingForDependents, server.w.now);
      return BodyResult(false, RequeueAfter(10), None);
    }
  }

  /** Adds the finalizer before anything is created. */
  method Fence(server: ApiServer, obj: ReactiveJobObject, jobs: seq<Job>) returns (ok: bool)
    requires server.Valid() && obj.Valid() && server !in obj.Repr()
    requires server.local == AtFence(obj.Value().(finalizers := AddFinalizer(obj.finalizers, Operator)), jobs)
    modifies server, obj, obj.template, obj.status
    ensures server.Valid() && server.Since(old(server.events))
    ensures obj.Valid() && server !in obj.Repr() && fresh(obj.Repr() - old(obj.Repr()))
    ensures System(server.w, server.local) ==
              if ok then Proceed(server.h, server.w, obj.Value(), jobs)
              else Abort(server.w, obj.Value(), SetFinalizerCall)
  {
    hide OpStep, Reached, Inv, UpdateReactiveJob, Proceed;
    obj.finalizers := AddFinalizer(obj.finalizers, Operator);
    ghost var from := server.local;
    ghost var sent := obj.Value();
    ghost var u, o;
    ok, u, o := server.Update(obj);
    UpdateOutcome(server.h, u, from, o);
    if ok {
      ProceedKeepsWorld(server.h, UpdateReactiveJob(u, sent).0, obj.Value(), jobs);
    }
  }

  /** Takes the finalizer off the ReactiveJob once no job is left. */
  method Clear(server: ApiServer, obj: ReactiveJobObject) returns (r: BodyResult)
    requires server.Valid() && obj.Valid() && server !in obj.Repr()
    requires server.local == AtClear(obj.Value().(finalizers := RemoveFinalizer(obj.finalizers, Operator)))
    modifies server, obj, obj.template, obj.status
    ensures server.Valid() && server.Since(old(server.events))
    ensures obj.Valid() && server !in obj.Repr() && fresh(obj.Repr() - old(obj.Repr()))
    ensures r.result != Panicked
    ensures if r.skip then r.failed.None? && server.local == Idle(r.result) else Ending(server, obj, r.result, r.failed)
  {
    hide OpStep, Reached, Inv, UpdateReactiveJob;
    obj.finalizers := RemoveFinalizer(obj.finalizers, Operator);
    ghost var from := server.local;
    var ok, u, o := server.Update(obj);
    UpdateOutcome(server.h, u, from, o);
    if !ok {
      return BodyResult(false, Nothing, Some(ClearFinalizerCall));
    }
    return BodyResult(true, Nothing, None);
  }

  method Body(server: ApiServer, obj: ReactiveJobObject) returns (r: BodyResult)
    requires server.Valid() && obj.Valid() && server !in obj.Repr()
    requires System(server.w, server.local) ==
               if obj.status.state == StateUnset then
                 System(server.w, AtStatus(WithState(server.w, obj.Value(), StateNew, FirstSeen), Requeue))
               else System(server.w, AtList(obj.Value()))
    modifies server, obj.Repr()
    ensures server.Valid() && server.Since(old(server.events))
    ensures obj.Valid() && server !in obj.Repr() && fresh(obj.Repr() - old(obj.Repr()))
    ensures r.result != Panicked
    ensures if r.skip then r.failed.None? && server.local == Idle(r.result) else Ending(server, obj, r.result, r.failed)
  {
    hide OpStep, Reached, Inv, Status.SetState, Dispatch;
    if obj.status.state == StateUnset {
      obj.SetState(StateNew, FirstSeen, server.w.now);
      return BodyResult(false, Requeue, None);
    }
    var ok, jobs := ListSorted(server, obj);
    if !ok {
      return BodyResult(false, Nothing, Some(ListCall));
    }
    r := ActOn(server, obj, jobs);
  }

  /** Lists the dependent jobs and sorts them, newest first. */
  method ListSorted(server: ApiServer, obj: ReactiveJobObject) returns (ok: bool, jobs: seq<Job>)
    requires server.Valid() && obj.Valid() && server !in obj.Repr()
    requires server.local == AtList(obj.Value())
    modifies server
    ensures server.Valid() && server.Since(old(server.events))
    ensures System(server.w, server.local) ==
              if ok then Dispatch(server.h, server.w, obj.Value(), jobs) else Abort(server.w, obj.Value(), ListCall)
    ensures ok ==> !server.local.Idle?
  {
    hide OpStep, Reached, Inv, Dispatch, Abort, Sorted, SortPanics, IsListing, NewestFirst;
    var items;
    ghost var u, o;
    ok, items, u, o := server.List(obj.uid);
    ListOutcome(server.h, u, obj.Value(), o);
    jobs := [];
    if ok {
      jobs := SortBy(items);
    }
  }

  /** What the list request leads to: an error, or the decision over the sorted jobs; never a panic. */
  lemma ListOutcome(h: HashFunction, u: World, obj: ReactiveJob, o: Outcome)
    requires Inv(h, System(u, AtList(obj)))
    ensures !o.Answered? ==> OpStep(h, System(u, AtList(obj)), o) == Abort(u, obj, ListCall)
    ensures o.Answered? && IsListing(u, obj.uid, o.items) ==>
              && !SortPanics(o.items)
              && OpStep(h, System(u, AtList(obj)), o) == Dispatch(h, u, obj, Sorted(o.items))
              && !Dispatch(h, u, obj, Sorted(o.items)).local.Idle?
  {
    if o.Answered? && IsListing(u, obj.uid, o.items) {
      ListKeeps(h, u, obj, o.items);
      DispatchGoesOn(h, u, obj, Sorted(o.items));
    }
    hide StoreInv, Dispatch, WithState;
  }

  lemma GetOutcome(h: HashFunction, u: World, from: Local, o: Outcome)
    requires from.Idle? && u.queued
    ensures var w := u.(queued := false);
            OpStep(h, System(u, from), o)
            == if !o.Answered? then Finish(w, Failed)
               else if u.rj.None? then Finish(w, Nothing)
               else Begin(w, u.rj.value)
  {
  }

  /** Reconcile refines the machine: started by the queue, it makes one run of requests from idle to
      idle, whatever the outcomes and whoever acts in between, and returns what the machine returns. */
  method Reconcile(server: ApiServer) returns (result: Result)
    requires server.Valid() && server.local.Idle? && server.w.queued
    modifies server
    ensures server.Valid() && Continues(server.h, server.key, old(server.events), server.events, 1)
    ensures server.local == Idle(result) && Inv(server.h, System(server.w, server.local))
  {
    hide OpStep, Reached, Inv, Status.SetState, Ending;
    ghost var from := server.local;
    var reply, obj, u, o := server.Get();
    GetOutcome(server.h, u, from, o);
    match reply {
      case GetError => result := Failed;
      case NotFound => result := Nothing;
      case Found =>
        obj.AcknowledgeGeneration();
        var r := Body(server, obj);
        result := r.result;
        if !r.skip {
          ghost var sent;
          result, sent, u, o := Deferred(server, obj, r.result, r.failed);
        }
    }
    ReachedInv(server.h, server.key, server.events);
  }
}
