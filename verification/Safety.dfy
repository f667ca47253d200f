/** What the invariant means: the promises of the operator, over every run. A run is any list of
    events: actions of others, requests of the reconciler with any outcome, and crashes. */
module Safety {
  import opened Options
  import opened Decimal
  import opened Status
  import opened Objects
  import opened Sorting
  import opened Cluster
  import opened Reconciler
  import opened Invariant
  import opened Environment
  import opened OperatorSteps
  import opened Requests

  ghost function Reached(h: HashFunction, key: NamespacedName, events: seq<Event>): System {
    Run(h, Start(key), events)
  }

  lemma ReachedInv(h: HashFunction, key: NamespacedName, events: seq<Event>)
    ensures Inv(h, Reached(h, key, events))
  {
    hide Inv, Step;
    StartInv(h, key);
    RunKeepsInv(h, Start(key), events);
  }

  /** The state before the last event of a run, from which that event is one step. */
  lemma LastStep(h: HashFunction, s: System, events: seq<Event>, e: Event)
    ensures Run(h, s, events + [e]) == Step(h, Run(h, s, events), e)
  {
    hide Step;
    assert (events + [e])[..|events + [e]| - 1] == events;
  }

  // ---------- Single states ----------

  /** Ready is truthful: a ReactiveJob that is not being deleted and shows Ready for its current
      generation names a job that exists, was made from the current template, and is complete. */
  lemma ReadyIsTruthful(h: HashFunction, key: NamespacedName, events: seq<Event>)
    ensures var w := Reached(h, key, events).w;
            w.rj.Some? && !w.rj.value.deleting && w.rj.value.status.state == StateReady
            && w.rj.value.status.observedGeneration == w.rj.value.generation
            ==>
              var name := w.rj.value.status.currentJobName;
              && name in w.jobs
              && UidLabel(w.jobs[name]) == Some(w.rj.value.uid)
              && HashOf(w.jobs[name]) == h(w.rj.value.template)
              && ConditionTrueFor(w.jobs[name].conditions, JobComplete)
  {
    hide Step, Decimal.Atoi, LogOrder, StatusShape;
    ReachedInv(h, key, events);
  }

  /** No orphans: a job created for a ReactiveJob exists only while that ReactiveJob does, held by
      the operator's finalizer; and its events map back to it. */
  lemma NoOrphans(h: HashFunction, key: NamespacedName, events: seq<Event>, n: string)
    requires var w := Reached(h, key, events).w;
             n in w.jobs && UidLabel(w.jobs[n]).Some? && UidLabel(w.jobs[n]).value in w.uids
    ensures var w := Reached(h, key, events).w;
            && w.rj.Some?
            && UidLabel(w.jobs[n]) == Some(w.rj.value.uid)
            && Operator in w.rj.value.finalizers
            && EnqueueMapper(w.jobs[n]) == w.key && Wakes(w, w.jobs[n])
            && Record(n, w.jobs[n]) in w.created
  {
    hide Step, Decimal.Atoi, LogOrder, StatusShape, ConditionTrueFor;
    ReachedInv(h, key, events);
    var w := Reached(h, key, events).w;
    assert Ours(w, w.jobs[n]) && OwnedJob(w, n);
  }

  /** At most one job per generation, ever, lost replies and crashes included: generations strictly
      increase in creation order. Jobs created one after the other for one ReactiveJob carry
      different hashes. */
  lemma OneJobPerGeneration(h: HashFunction, key: NamespacedName, events: seq<Event>, i: nat, j: nat)
    requires var log := Reached(h, key, events).w.created;
             i < j < |log| && log[i].uid == log[j].uid
    ensures var log := Reached(h, key, events).w.created;
            log[i].generation < log[j].generation && (j == i + 1 ==> log[i].hash != log[j].hash)
  {
    hide Step;
    ReachedInv(h, key, events);
    LogOrderOf(h, Reached(h, key, events).w);
  }

  /** The newest job is protected: while the ReactiveJob is not being deleted, the latest job that
      was created for it is in the store, holds the operator's finalizer, and is the job of largest
      generation. */
  lemma NewestIsProtected(h: HashFunction, key: NamespacedName, events: seq<Event>)
    requires var w := Reached(h, key, events).w;
             w.rj.Some? && !w.rj.value.deleting
             && exists line :: line in w.created && line.uid == w.rj.value.uid
    ensures var w := Reached(h, key, events).w;
            && |w.created| > 0 && Latest(w).uid == w.rj.value.uid
            && Latest(w).name in w.jobs
            && Record(Latest(w).name, w.jobs[Latest(w).name]) == Latest(w)
            && Operator in w.jobs[Latest(w).name].finalizers
            && forall n :: n in w.jobs && UidLabel(w.jobs[n]) == Some(w.rj.value.uid) && n != Latest(w).name ==>
                 GenerationOf(w.jobs[n]) < Latest(w).generation
  {
    hide Step, Decimal.Atoi, LogOrder, StatusShape, ConditionTrueFor, HashOf, GenerationOf;
    ReachedInv(h, key, events);
    var w := Reached(h, key, events).w;
    forall n | n in w.jobs && UidLabel(w.jobs[n]) == Some(w.rj.value.uid) && n != Latest(w).name
      ensures GenerationOf(w.jobs[n]) < Latest(w).generation
    {
      assert Ours(w, w.jobs[n]) && OwnedJob(w, n);
      LatestIsNewest(w.created, Record(n, w.jobs[n]));
    }
  }

  /** No lost wakeup: between reconciliations, a ReactiveJob that exists is scheduled for another. */
  lemma NoLostWakeup(h: HashFunction, key: NamespacedName, events: seq<Event>)
    ensures var s := Reached(h, key, events);
            s.local.Idle? && s.w.rj.Some? ==> s.w.queued
  {
    hide Step, StoreInv;
    ReachedInv(h, key, events);
  }

  lemma {:induction false} DrainGoesOn(w: World, obj: ReactiveJob, jobs: seq<Job>, i: nat)
    ensures var l := Drain(w, obj, jobs, i).local; l.AtStatus? || l.AtRelease? || l.AtDelete?
    decreases |jobs| - i
  {
    if i < |jobs| && Operator !in jobs[i].finalizers && jobs[i].deleting {
      DrainGoesOn(w, obj, jobs, i + 1);
    }
  }

  lemma DispatchGoesOn(h: HashFunction, w: World, obj: ReactiveJob, jobs: seq<Job>)
    requires obj.deleting ==> obj.finalizers != []
    ensures !Dispatch(h, w, obj, jobs).local.Idle?
  {
    hide BuildJob, Shared, HashOf;
    DrainGoesOn(w, obj, jobs, 0);
    OnlyOperatorLeft(obj.finalizers);
    assert obj.finalizers != [] ==> obj.finalizers[0] in obj.finalizers;
  }

  lemma FinishesWithNothing(h: HashFunction, s: System, o: Outcome)
    requires Inv(h, s) && (s.local.Idle? ==> s.w.queued)
    ensures OpStep(h, s, o).local == Idle(Nothing) ==> OpStep(h, s, o).w.rj.None?
  {
    hide StoreInv, MemoryOk, UpdateReactiveJob, UpdateJob, DeleteJob, CreateJob, UpdateStatus, Dispatch, HashOf,
         BuildJob;
    match s.local
    case AtList(obj) =>
      if o.Answered? {
        DispatchGoesOn(h, s.w, obj, Sorted(o.items));
      }
    case AtRelease(obj, jobs, i) =>
      var v := UpdateJob(s.w, Unheld(jobs[i])).0;
      DrainGoesOn(v, obj, jobs, i + 1);
    case AtDelete(obj, jobs, i) =>
      DrainGoesOn(DeleteJob(s.w, jobs[i].name, true).0, obj, jobs, i + 1);
    case AtClear(obj) =>
      ClearKeeps(h, s.w, obj);
    case _ =>
  }

  /** Every reconciliation that ends with the ReactiveJob still in the store returns an error, an
      immediate requeue or a positive delay. */
  lemma ResultSchedulesOrGone(h: HashFunction, key: NamespacedName, events: seq<Event>, o: Outcome)
    requires var s := Reached(h, key, events); s.local.Idle? ==> s.w.queued
    ensures var t := Reached(h, key, events + [Op(o)]);
            t.local.Idle? && t.w.rj.Some? ==>
              var result := t.local.last;
              result == Failed || result == Requeue || (result.RequeueAfter? && result.seconds > 0)
  {
    hide StoreInv, OpStep;
    LastStep(h, Start(key), events, Op(o));
    ReachedInv(h, key, events);
    FinishesWithNothing(h, Reached(h, key, events), o);
    ReachedInv(h, key, events + [Op(o)]);
  }

  /** The sort key never panics: whenever a reconciliation lists its jobs, in whatever order, every
      generation annotation parses, and the sorted list is strictly ordered by generation number. */
  lemma SortNeverPanics(h: HashFunction, key: NamespacedName, events: seq<Event>, items: seq<Job>)
    requires var s := Reached(h, key, events);
             s.local.AtList? && IsListing(s.w, s.local.obj.uid, items)
    ensures !SortPanics(items) && StrictlyNewestFirst(Sorted(items))
    ensures forall j :: j in items ==> ParsedGeneration(j).Some?
  {
    hide Step, StoreInv;
    ReachedInv(h, key, events);
    var s := Reached(h, key, events);
    assert s.local.obj.uid in s.w.uids;
    ListedOnRecord(h, s.w, s.local.obj.uid, items);
    SortedStrictly(h, s.w, s.local.obj.uid, items);
  }

  /** The sort does not matter: whenever a reconciliation lists its jobs, their generations differ, and
      every list of the same jobs in newest-first order is the one the operator works on. */
  lemma AnySortAgrees(h: HashFunction, key: NamespacedName, events: seq<Event>, items: seq<Job>, other: seq<Job>)
    requires var s := Reached(h, key, events);
             s.local.AtList? && IsListing(s.w, s.local.obj.uid, items)
    requires multiset(other) == multiset(items) && NewestFirst(other)
    ensures DistinctGenerations(items) && other == Sorted(items)
  {
    var s := Reached(h, key, events);
    ReachedInv(h, key, events);
    ListKnown(h, s);
    hide Run, Reached, Inv, IsListing, NewestFirst, GenerationOf, Sorted;
    ListedDistinct(h, s.w, s.local.obj.uid, items);
    SortedStrictly(h, s.w, s.local.obj.uid, items);
    SortedIsOrdered(items);
    OrderIsUnique(Sorted(items), other);
  }

  lemma ListKnown(h: HashFunction, s: System)
    requires Inv(h, s) && s.local.AtList?
    ensures StoreInv(h, s.w) && s.local.obj.uid in s.w.uids
  {
    hide StoreInv, LatestHeld, StatusShape;
  }

  /** Every stored status is either untouched or has one Ready condition, True exactly for Ready,
      False exactly for Error and Unknown otherwise, whose reason is the state. */
  lemma StoredStatusAgrees(h: HashFunction, key: NamespacedName, events: seq<Event>)
    ensures var w := Reached(h, key, events).w;
            w.rj.Some? ==>
              var s := w.rj.value.status;
              && AtMostOnePerType(s.conditions)
              && (s.state == StateUnset <==> Find(s.conditions, TypeReady) == |s.conditions|)
              && (s.state != StateUnset ==> ReadyConditionAgrees(s))
  {
    hide Step, LocalInv;
    ReachedInv(h, key, events);
  }

  // ---------- Pairs of states ----------

  /** The stored ReactiveJob is gone, or is the same one with template, generation and deletion mark
      unchanged; and nothing was added to history. */
  ghost predicate SameSpec(w: World, v: World) {
    && (v.rj.Some? ==>
          && w.rj.Some? && v.rj.value.uid == w.rj.value.uid
          && v.rj.value.template == w.rj.value.template
          && v.rj.value.generation == w.rj.value.generation
          && v.rj.value.deleting == w.rj.value.deleting)
    && v.history == w.history && v.uids == w.uids
  }

  /** The operator never changes a stored spec: no request of the reconciler, whatever its outcome,
      changes the template or the generation of the stored ReactiveJob, or brings one into being. */
  lemma SpecUntouched(h: HashFunction, key: NamespacedName, events: seq<Event>, o: Outcome)
    ensures SameSpec(Reached(h, key, events).w, Reached(h, key, events + [Op(o)]).w)
  {
    hide Inv, OpStep, SameSpec;
    LastStep(h, Start(key), events, Op(o));
    ReachedInv(h, key, events);
    OpKeepsSpec(h, Reached(h, key, events), o);
  }

  lemma OwnUpdateKeepsSpec(w: World, obj: ReactiveJob)
    requires StoredOk(w) && MemoryOk(w, obj) && Pristine(w, obj)
    ensures var v := UpdateReactiveJob(w, obj).0;
            SameSpec(w, v) && (v.rj.Some? ==> v.rj.value.status == w.rj.value.status)
  {
    hide StatusShape;
    if UpdateAccepted(w, obj) {
      assert UpdateReply(w, obj).template == w.rj.value.template;
      assert UpdateReactiveJob(w, obj).0.history == w.history;
    }
  }

  lemma OwnStatusKeepsSpec(w: World, obj: ReactiveJob)
    requires StoredOk(w)
    ensures SameSpec(w, UpdateStatus(w, obj).0)
  {
    hide StatusShape;
    if StatusAccepted(w, obj) {
      assert UpdateStatus(w, obj).0.history == w.history;
    }
  }

  /** The spec stays, and only the deferred status write changes a stored status. */
  lemma EffectKeepsSpec(h: HashFunction, s: System, o: Outcome)
    requires Inv(h, s)
    ensures var v := RequestEffect(s.w, s.local, o);
            && SameSpec(s.w, v)
            && (v.rj.Some? && !s.local.AtStatus? ==> v.rj.value.status == s.w.rj.value.status)
  {
    hide MemoryOk, UpdateReactiveJob, UpdateStatus, StatusShape, Pristine, Draining, SortedJobsOf, SweepList;
    hide LogOk, LogOrder, LogBlock, Owned, Fenced, Guarded, Truthful, HistoryOk;
    if s.local.AtFence? || s.local.AtClear? {
      OwnUpdateKeepsSpec(s.w, s.local.obj);
    } else if s.local.AtStatus? {
      OwnStatusKeepsSpec(s.w, s.local.obj);
    } else {
      hide RequestEffect;
      JobRequestsKeep(s.w, s.local, o);
    }
  }

  lemma OpKeepsSpec(h: HashFunction, s: System, o: Outcome)
    requires Inv(h, s)
    ensures SameSpec(s.w, OpStep(h, s, o).w)
  {
    hide OpStep, RequestEffect, Inv;
    StepEffect(h, s, o);
    EffectKeepsSpec(h, s, o);
  }

  // ---------- Whole runs ----------

  /** v is a later store than w: a ReactiveJob known in w that is still there has moved forwards only. */
  ghost predicate Forwards(w: World, v: World) {
    && w.uids <= v.uids
    && (v.rj.Some? && v.rj.value.uid in w.uids ==>
          && w.rj.Some? && w.rj.value.uid == v.rj.value.uid
          && w.rj.value.generation <= v.rj.value.generation
          && w.rj.value.status.observedGeneration <= v.rj.value.status.observedGeneration
          && (w.rj.value.deleting ==> v.rj.value.deleting))
    && (forall k :: k in w.history ==> k in v.history && v.history[k] == w.history[k])
    && w.created <= v.created
  }

  lemma ActForwards(h: HashFunction, s: System, a: Action)
    requires Inv(h, s)
    ensures Forwards(s.w, Act(s.w, a))
  {
    hide Act, RelyJobs, LocalInv;
    ActRelies(s.w, a);
  }

  lemma StatusForwards(w: World, obj: ReactiveJob)
    requires StoredOk(w) && MemoryOk(w, obj)
    ensures Forwards(w, UpdateStatus(w, obj).0)
  {
    hide StatusShape;
    if StatusAccepted(w, obj) {
      assert UpdateStatus(w, obj).0.history == w.history;
    }
  }

  lemma StatusOnlyThere(h: HashFunction, s: System, o: Outcome)
    requires Inv(h, s) && !s.local.AtStatus?
    ensures var v := OpStep(h, s, o).w;
            v.rj.Some? ==> s.w.rj.Some? && v.rj.value.status == s.w.rj.value.status
  {
    hide OpStep, RequestEffect, Inv;
    StepEffect(h, s, o);
    EffectKeepsSpec(h, s, o);
  }

  /** The log of created jobs grows by one accepted create at a time. */
  lemma OpKeepsLog(h: HashFunction, s: System, o: Outcome)
    ensures s.w.created <= OpStep(h, s, o).w.created
    ensures OpStep(h, s, o).w.created != s.w.created ==>
              s.local.AtCreate? && !o.NotDelivered? && |OpStep(h, s, o).w.created| == |s.w.created| + 1
  {
    hide OpStep, CreateJob;
    StepEffect(h, s, o);
    if s.local.AtCreate? {
      CreateGrowsLog(s.w, s.local.job, Suffix(o));
    } else if s.local.AtFence? || s.local.AtClear? || s.local.AtStatus? {
      hide RequestEffect;
      ObjectRequestsKeep(s.w, s.local, o);
    } else {
      hide RequestEffect;
      JobRequestsKeep(s.w, s.local, o);
    }
  }

  lemma StatusStepForwards(h: HashFunction, s: System, o: Outcome)
    requires Inv(h, s) && s.local.AtStatus?
    ensures Forwards(s.w, OpStep(h, s, o).w)
  {
    StepEffect(h, s, o);
    StatusForwards(s.w, s.local.obj);
    hide OpStep, UpdateStatus, StoreInv, MemoryOk;
  }

  lemma OpForwards(h: HashFunction, s: System, o: Outcome)
    requires Inv(h, s)
    ensures Forwards(s.w, OpStep(h, s, o).w)
  {
    hide OpStep, Inv;
    if s.local.AtStatus? {
      StatusStepForwards(h, s, o);
    } else {
      OpKeepsSpec(h, s, o);
      OpKeepsLog(h, s, o);
      StatusOnlyThere(h, s, o);
    }
  }

  /** Over any run from any reachable state: the acknowledged generation of a ReactiveJob never
      decreases and never exceeds its generation, what was recorded stays recorded, and a deletion
      is never taken back. */
  lemma {:induction false} RunForwards(h: HashFunction, s: System, events: seq<Event>)
    requires Inv(h, s)
    ensures Forwards(s.w, Run(h, s, events).w)
    ensures Run(h, s, events).w.rj.Some? ==>
              Run(h, s, events).w.rj.value.status.observedGeneration <= Run(h, s, events).w.rj.value.generation
    decreases |events|
  {
    RunKeepsInv(h, s, events);
    hide Step, LocalInv;
    if events != [] {
      var front := events[..|events| - 1];
      RunForwards(h, s, front);
      RunKeepsInv(h, s, front);
      StepForwards(h, Run(h, s, front), events[|events| - 1]);
    }
  }

  lemma StepForwards(h: HashFunction, s: System, e: Event)
    requires Inv(h, s)
    ensures Forwards(s.w, Step(h, s, e).w)
  {
    hide Inv, Act, OpStep;
    match e
    case Env(action) => ActForwards(h, s, action);
    case Op(outcome) => OpForwards(h, s, outcome);
    case Crash =>
  }

  lemma ObservedGenerationNeverDecreases(h: HashFunction, key: NamespacedName, before: seq<Event>, more: seq<Event>)
    ensures var w := Reached(h, key, before).w;
            var v := Reached(h, key, before + more).w;
            w.rj.Some? && v.rj.Some? && w.rj.value.uid == v.rj.value.uid ==>
              && w.rj.value.status.observedGeneration <= v.rj.value.status.observedGeneration
              && v.rj.value.status.observedGeneration <= v.rj.value.generation
              && w.rj.value.generation <= v.rj.value.generation
  {
    hide Step;
    ReachedInv(h, key, before);
    RunForwards(h, Reached(h, key, before), more);
    RunConcat(h, Start(key), before, more);
  }

  // ---------- The log of one ReactiveJob ----------

  /** Between two jobs created for one ReactiveJob, none was created for another. */
  ghost predicate Contiguous(log: seq<Created>) {
    forall i, j, k :: 0 <= i < j < k < |log| && log[i].uid == log[k].uid ==> log[j].uid == log[i].uid
  }

  lemma ExtendedContiguous(log: seq<Created>, line: Created)
    requires Contiguous(log)
    requires (exists x :: x in log && x.uid == line.uid) ==> log[|log| - 1].uid == line.uid
    ensures Contiguous(log + [line])
  {
    var longer := log + [line];
    forall i, j, k | 0 <= i < j < k < |longer| && longer[i].uid == longer[k].uid
      ensures longer[j].uid == longer[i].uid
    {
      if k == |log| {
        assert log[i] in log;
        assert j == |log| - 1 || log[j].uid == log[i].uid;
      }
    }
  }

  /** The line of a create, and where it goes. */
  lemma CreatedLine(h: HashFunction, s: System, suffix: string)
    requires Inv(h, s) && s.local.AtCreate? && GeneratedName(s.local.job, suffix) !in s.w.jobs
    ensures var w := s.w;
            var v := CreateJob(w, s.local.job, suffix).0;
            && |v.created| == |w.created| + 1 && v.created == w.created + [Latest(v)]
            && Latest(v).uid == s.local.obj.uid
            && ((exists x :: x in w.created && x.uid == s.local.obj.uid) ==> HasJob(w, s.local.obj.uid))
  {
    hide CreateJob, BuildJob, HashOf, GenerationOf, UidLabel, ParsedGeneration, EnqueueMapper, Record, StatusShape,
         LatestHeld;
    CreateEffect(h, s.w, s.local.obj, s.local.job, suffix);
    LogOrderOf(h, s.w);
    hide StoreInv;
  }

  lemma CreateContiguous(h: HashFunction, s: System, o: Outcome)
    requires Inv(h, s) && s.local.AtCreate? && Contiguous(s.w.created)
    ensures Contiguous(OpStep(h, s, o).w.created)
  {
    CreateStepEffect(h, s, o);
    hide OpStep, Inv, Contiguous, HashOf, GenerationOf, Wakes;
    if !o.NotDelivered? && GeneratedName(s.local.job, Suffix(o)) !in s.w.jobs {
      CreatedLine(h, s, Suffix(o));
      ExtendedContiguous(s.w.created, Latest(CreateJob(s.w, s.local.job, Suffix(o)).0));
    }
  }

  lemma StepContiguous(h: HashFunction, s: System, e: Event)
    requires Inv(h, s) && Contiguous(s.w.created)
    ensures Contiguous(Step(h, s, e).w.created)
  {
    match e
    case Env(a) =>
      ActRelies(s.w, a);
      hide Act, Inv, Contiguous, RelyReactiveJob, RelyJobs;
    case Op(o) =>
      hide OpStep, Inv, Contiguous;
      if s.local.AtCreate? {
        CreateContiguous(h, s, o);
      } else {
        OpKeepsLog(h, s, o);
      }
    case Crash =>
  }

  lemma {:induction false} ReachedContiguous(h: HashFunction, key: NamespacedName, events: seq<Event>)
    ensures Contiguous(Reached(h, key, events).w.created)
    decreases |events|
  {
    hide Step, Inv;
    if events != [] {
      var front := events[..|events| - 1];
      ReachedContiguous(h, key, front);
      ReachedInv(h, key, front);
      StepContiguous(h, Reached(h, key, front), events[|events| - 1]);
    }
  }

  lemma BetweenIsSame(log: seq<Created>, i: nat, j: nat, k: nat)
    requires Contiguous(log) && i < j < k < |log| && log[i].uid == log[k].uid
    ensures log[j].uid == log[i].uid
  {
  }

  /** Of two jobs created one after the other for one ReactiveJob, with no other created for it in
      between, the hashes differ: an edit back and forth that the operator observes runs again, and a
      matching job is never created again. */
  lemma ConsecutiveJobsDiffer(h: HashFunction, key: NamespacedName, events: seq<Event>, i: nat, k: nat)
    requires var log := Reached(h, key, events).w.created;
             && i < k < |log| && log[i].uid == log[k].uid
             && forall j :: i < j < k ==> log[j].uid != log[i].uid
    ensures var log := Reached(h, key, events).w.created;
            k == i + 1 && log[i].hash != log[k].hash
  {
    hide Run, Reached, Contiguous;
    ReachedContiguous(h, key, events);
    if k > i + 1 {
      BetweenIsSame(Reached(h, key, events).w.created, i, i + 1, k);
    }
    OneJobPerGeneration(h, key, events, i, k);
  }
}
