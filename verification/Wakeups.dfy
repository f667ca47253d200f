/** Which changes of the store schedule a reconciliation. */
module Wakeups {
  import opened Options
  import opened Objects
  import opened Cluster
  import opened Reconciler
  import opened Invariant
  import opened Environment
  import opened OperatorSteps
  import opened Requests
  import opened Safety
  import opened Effects

  /** A job of the operator changed or disappeared. */
  ghost predicate OwnChange(w: World, v: World) {
    exists n :: n in w.jobs && Ours(w, w.jobs[n]) && (n !in v.jobs || v.jobs[n] != w.jobs[n])
  }

  /** The ReactiveJob appeared, disappeared, or took another generation. */
  ghost predicate SpecChange(w: World, v: World) {
    if w.rj.Some? && v.rj.Some? then
      v.rj.value.uid != w.rj.value.uid || v.rj.value.generation != w.rj.value.generation
    else w.rj.Some? || v.rj.Some?
  }

  ghost predicate Woken(w: World, v: World) {
    OwnChange(w, v) || SpecChange(w, v) ==> v.queued
  }

  /** A job of the operator maps to its key. */
  lemma OwnJobWakes(h: HashFunction, w: World, n: string)
    requires StoreInv(h, w) && n in w.jobs && Ours(w, w.jobs[n])
    ensures Wakes(w, w.jobs[n])
  {
    hide LogOk, LogOrder, LogBlock, Truthful, Guarded, Fenced, StoredOk, HistoryOk, EnqueueMapper, ParsedGeneration;
    assert OwnedJob(w, n);
  }

  lemma PutWakes(w: World, n: string, k: Job)
    requires n in w.jobs && (Ours(w, w.jobs[n]) ==> Wakes(w, k))
    ensures Woken(w, PutJob(w, n, k))
  {
    hide Ours, Wakes;
  }

  lemma SameKeysWake(w: World, j: Job, k: Job)
    requires k.namespace == j.namespace && SameKey(j.labels, k.labels, ControllerName)
    ensures Wakes(w, k) <==> Wakes(w, j)
  {
  }

  lemma OwnPutWakes(h: HashFunction, w: World, n: string, k: Job)
    requires StoreInv(h, w) && n in w.jobs
    requires k.namespace == w.jobs[n].namespace && SameKey(w.jobs[n].labels, k.labels, ControllerName)
    ensures Woken(w, PutJob(w, n, k))
  {
    SameKeysWake(w, w.jobs[n], k);
    if Ours(w, w.jobs[n]) {
      OwnJobWakes(h, w, n);
    }
    hide Ours, Wakes, StoreInv, PutJob, Woken;
    PutWakes(w, n, k);
  }

  lemma DeleteWakes(h: HashFunction, w: World, n: string, foreground: bool)
    requires StoreInv(h, w)
    ensures Woken(w, DeleteJob(w, n, foreground).0)
  {
    if n in w.jobs && !w.jobs[n].deleting {
      var j := w.jobs[n];
      var fs := if foreground then AddFinalizer(j.finalizers, ForegroundDeletion) else j.finalizers;
      OwnPutWakes(h, w, n, j.(deleting := true, finalizers := fs));
      hide StoreInv, PutJob, Woken;
    }
    NoChange(w);
  }

  lemma NoChange(w: World)
    ensures Woken(w, w)
  {
  }

  lemma UnholdWakes(h: HashFunction, w: World, j: Job)
    requires StoreInv(h, w) && Snapshot(w, j)
    ensures Woken(w, UpdateJob(w, Unheld(j)).0)
  {
    NoChange(w);
    if JobUpdateAccepted(w, Unheld(j)) {
      OwnPutWakes(h, w, j.name, w.jobs[j.name].(labels := j.labels, annotations := j.annotations,
                                                finalizers := Unheld(j).finalizers));
    }
    hide StoreInv, PutJob, Woken;
  }

  lemma ReactiveJobWrites(w: World, r: ReactiveJob)
    requires w.rj.Some? ==> r.uid == w.rj.value.uid
    ensures var v := PutReactiveJob(w, r); Woken(w, v.(queued := v.queued || w.rj.None?))
  {
  }

  lemma ActWakes(h: HashFunction, w: World, a: Action)
    requires StoreInv(h, w)
    ensures Woken(w, Act(w, a))
  {
    hide StoreInv, Ours, Wakes, PutJob, DeleteJob;
    NoChange(w);
    if Permitted(w, a) {
      match a
      case EditJob(n, labels, annotations, finalizers) =>
        hide Woken;
        OwnPutWakes(h, w, n, w.jobs[n].(labels := labels, annotations := annotations, finalizers := finalizers));
      case ReportConditions(n, conditions) =>
        hide Woken;
        OwnPutWakes(h, w, n, w.jobs[n].(conditions := conditions));
      case RemoveJob(n, foreground) =>
        hide Woken;
        DeleteWakes(h, w, n, foreground);
      case AddForeignJob(job) => AddWakes(w, job);
      case _ =>
    }
  }

  lemma AddWakes(w: World, job: Job)
    requires job.name !in w.jobs && !job.deleting
    ensures Woken(w, PutJob(w, job.name, job))
  {
    hide Ours, Wakes;
  }

  lemma ObjectWakes(h: HashFunction, s: System, o: Outcome)
    requires Inv(h, s) && (s.local.AtFence? || s.local.AtClear? || s.local.AtStatus?)
    ensures Woken(s.w, RequestEffect(s.w, s.local, o))
  {
    ObjectRequestsKeep(s.w, s.local, o);
    hide Inv, UpdateAccepted, Ours;
  }

  lemma OpWakes(h: HashFunction, s: System, o: Outcome)
    requires Inv(h, s)
    ensures Woken(s.w, OpStep(h, s, o).w)
  {
    StepEffect(h, s, o);
    if s.local.AtFence? || s.local.AtClear? || s.local.AtStatus? {
      KeepsQueue(h, s, o);
    }
    KnownStore(h, s);
    if s.local.AtStrip? || s.local.AtRelease? || s.local.AtDelete? {
      LoopJob(h, s);
      LoopStepEffect(h, s, o);
      hide Inv, OpStep, StoreInv, UpdateJob, DeleteJob, Unheld, Snapshot, Woken;
      NoChange(s.w);
      if s.local.AtDelete? {
        DeleteWakes(h, s.w, s.local.jobs[s.local.i].name, true);
      } else {
        UnholdWakes(h, s.w, s.local.jobs[s.local.i]);
      }
    } else if s.local.AtCreate? {
      CreateStepEffect(h, s, o);
      hide Inv, OpStep, StoreInv, Ours, Wakes, HashOf, GenerationOf;
    } else if s.local.Idle? || s.local.AtList? {
      JobRequestsKeep(s.w, s.local, o);
      hide Inv, OpStep, StoreInv, RequestEffect;
    } else {
      ObjectWakes(h, s, o);
      hide Inv, OpStep, StoreInv, RequestEffect, OwnChange;
      SameChange(s.w, RequestEffect(s.w, s.local, o), OpStep(h, s, o).w);
    }
  }

  lemma SameChange(w: World, v: World, u: World)
    requires u == v.(queued := u.queued)
    ensures OwnChange(w, v) <==> OwnChange(w, u)
  {
  }

  lemma KnownStore(h: HashFunction, s: System)
    requires Inv(h, s)
    ensures StoreInv(h, s.w)
  {
  }

  /** What a request schedules stays scheduled. */
  lemma KeepsQueue(h: HashFunction, s: System, o: Outcome)
    requires s.local.AtFence? || s.local.AtClear? || s.local.AtStatus?
    ensures RequestEffect(s.w, s.local, o).queued ==> OpStep(h, s, o).w.queued
  {
    if s.local.AtStatus? {
      hide UpdateStatus;
    } else {
      ObjectStepEffect(h, s, o);
      hide OpStep, RequestEffect;
    }
  }

  /** Over any run, whatever changes a job of the operator, or the spec of the ReactiveJob or its
      existence, leaves a reconciliation scheduled, also one that is in progress. */
  lemma EveryChangeWakes(h: HashFunction, key: NamespacedName, events: seq<Event>, e: Event)
    ensures Woken(Reached(h, key, events).w, Reached(h, key, events + [e]).w)
  {
    var s := Reached(h, key, events);
    ReachedInv(h, key, events);
    LastStep(h, Start(key), events, e);
    KnownStore(h, s);
    hide Run, Reached, Inv, StoreInv, Act, OpStep, OwnChange, SpecChange;
    match e
    case Env(a) => ActWakes(h, s.w, a);
    case Op(o) => OpWakes(h, s, o);
    case Crash =>
      hide Ours;
  }
}
