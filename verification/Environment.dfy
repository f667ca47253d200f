/** What the operator may rely on: a relation every action of the environment keeps, and the proof
    that whatever keeps it keeps the invariant. */
module Environment {
  import opened Options
  import opened Decimal
  import opened Status
  import opened Objects
  import opened Sorting
  import opened Cluster
  import opened Reconciler
  import opened Invariant

  // ---------- The relation ----------

  /** The same ReactiveJob after somebody else's write. */
  ghost predicate ReactiveJobKept(w: World, r: ReactiveJob, v: World, q: ReactiveJob) {
    && q.uid == r.uid
    && w.revision < q.resourceVersion <= v.revision
    && q.status == r.status
    && r.generation <= q.generation <= MAX_INT64
    && (q.generation == r.generation ==> q.template == r.template && q.deleting == r.deleting)
    && (r.deleting ==> q.deleting && forall f :: f in q.finalizers ==> f in r.finalizers)
    && (Operator in q.finalizers <==> Operator in r.finalizers)
    && (q.deleting ==> q.finalizers != [])
    && v.history == w.history[(q.uid, q.generation) := q.template]
    && v.uids == w.uids
  }

  ghost predicate Submitted(w: World, v: World, q: ReactiveJob) {
    && q.uid !in w.uids && v.uids == w.uids + {q.uid}
    && NoneOf(w, q.uid) && v.jobs == w.jobs
    && q.generation == 1 && q.resourceVersion <= v.revision && w.revision < q.resourceVersion
    && !q.deleting && Operator !in q.finalizers && q.status == INITIAL_STATUS
    && v.history == w.history[(q.uid, 1) := q.template]
    && v.queued
  }

  ghost predicate RelyReactiveJob(w: World, v: World) {
    if w.rj.None? then
      (v.rj.None? && v.uids == w.uids && v.history == w.history) || (v.rj.Some? && Submitted(w, v, v.rj.value))
    else if v.rj.None? then
      Operator !in w.rj.value.finalizers && v.uids == w.uids && v.history == w.history
    else
      (v.rj == w.rj && v.uids == w.uids && v.history == w.history)
      || ReactiveJobKept(w, w.rj.value, v, v.rj.value)
  }

  /** The same job after somebody else's write. */
  ghost predicate JobKept(j: Job, k: Job) {
    && k.name == j.name && k.namespace == j.namespace
    && UidLabel(k) == UidLabel(j)
    && ParsedGeneration(k) == ParsedGeneration(j)
    && GenerationOf(k) == GenerationOf(j)
    && HashOf(k) == HashOf(j)
    && EnqueueMapper(k) == EnqueueMapper(j)
    && (ControllerName in k.labels <==> ControllerName in j.labels)
    && (Operator in k.finalizers <==> Operator in j.finalizers)
    && KeepsTerminal(j.conditions, k.conditions)
    && (j.deleting ==> k.deleting)
  }

  ghost predicate RelyJob(w: World, v: World, n: string)
    requires n in v.jobs
  {
    && v.jobs[n].name == n
    && (if n in w.jobs then
          v.jobs[n] == w.jobs[n]
          || (JobKept(w.jobs[n], v.jobs[n]) && w.revision < v.jobs[n].resourceVersion <= v.revision)
        else
          w.revision < v.jobs[n].resourceVersion <= v.revision && !Ours(v, v.jobs[n]))
  }

  ghost predicate RelyJobs(w: World, v: World) {
    && (forall n :: n in v.jobs ==> RelyJob(w, v, n))
    && (forall n :: n in w.jobs && n !in v.jobs ==> Operator !in w.jobs[n].finalizers)
  }

  ghost predicate Rely(w: World, v: World) {
    && v.key == w.key && v.created == w.created
    && w.revision <= v.revision && w.now <= v.now
    && (w.queued ==> v.queued)
    && w.uids <= v.uids
    && (forall k :: k in w.history ==> k in v.history && v.history[k] == w.history[k])
    && RelyReactiveJob(w, v)
    && RelyJobs(w, v)
  }

  // ---------- Every action keeps it ----------

  lemma StillRelies(w: World, seconds: nat, queued: bool)
    requires Revisions(w)
    requires w.queued ==> queued
    ensures Rely(w, w.(now := w.now + seconds, queued := queued))
  {
  }

  lemma SubmitRelies(w: World, a: Action)
    requires Revisions(w) && StoredOk(w) && HistoryOk(w) && a.Submit? && Permitted(w, a)
    ensures Rely(w, Act(w, a))
  {
    hide ParsedGeneration, GenerationOf, HashOf, KeepsTerminal;
    var v := Act(w, a);
    assert v.jobs == w.jobs;
  }

  /** A write of the stored ReactiveJob that keeps its uid, its status, and the template of its generation. */
  lemma ReactiveJobWriteRelies(w: World, r: ReactiveJob)
    requires Revisions(w) && StoredOk(w) && HistoryOk(w) && w.rj.Some?
    requires r.uid == w.rj.value.uid && r.status == w.rj.value.status && (w.rj.value.deleting ==> r.deleting)
    requires Operator in r.finalizers <==> Operator in w.rj.value.finalizers
    requires w.rj.value.deleting ==> forall f :: f in r.finalizers ==> f in w.rj.value.finalizers
    requires w.rj.value.generation <= r.generation <= MAX_INT64
    requires r.generation == w.rj.value.generation ==>
               r.template == w.rj.value.template && r.deleting == w.rj.value.deleting
    ensures Rely(w, PutReactiveJob(w, r))
  {
    hide ParsedGeneration, GenerationOf, HashOf, KeepsTerminal, StatusShape;
    var v := PutReactiveJob(w, r);
    assert v.jobs == w.jobs;
  }

  lemma ReactiveJobActionRelies(w: World, a: Action)
    requires Revisions(w) && StoredOk(w) && HistoryOk(w) && Permitted(w, a)
    requires a.EditTemplate? || a.SetForeignFinalizers? || a.DeleteReactiveJob?
    ensures Rely(w, Act(w, a))
  {
    hide Rely, Revisions, HistoryOk, PutReactiveJob;
    var r := w.rj.value;
    match a
    case EditTemplate(template) =>
      ReactiveJobWriteRelies(w, r.(template := template, generation := r.generation + 1));
    case SetForeignFinalizers(finalizers) =>
      ReactiveJobWriteRelies(w, r.(finalizers := finalizers));
    case DeleteReactiveJob(foreground) =>
      var fs := if foreground then AddFinalizer(r.finalizers, ForegroundDeletion) else r.finalizers;
      ReactiveJobWriteRelies(w, r.(deleting := true, finalizers := fs, generation := r.generation + 1));
  }

  lemma SameKeysReadAlike(j: Job, k: Job)
    requires k.namespace == j.namespace
    requires SameKey(j.labels, k.labels, ControllerUid) && SameKey(j.labels, k.labels, ControllerName)
    requires SameKey(j.annotations, k.annotations, ControllerGeneration)
             && SameKey(j.annotations, k.annotations, ControllerHash)
    ensures UidLabel(k) == UidLabel(j) && ParsedGeneration(k) == ParsedGeneration(j)
    ensures GenerationOf(k) == GenerationOf(j) && HashOf(k) == HashOf(j) && EnqueueMapper(k) == EnqueueMapper(j)
  {
    hide Decimal.Atoi;
  }

  lemma StampedKept(j: Job, k: Job, n: string, revision: nat)
    requires JobKept(j, k.(name := n))
    ensures JobKept(j, k.(name := n, resourceVersion := revision))
  {
    hide Decimal.Atoi, KeepsTerminal;
  }

  lemma JobWriteRelies(w: World, n: string, k: Job)
    requires Revisions(w) && n in w.jobs
    requires JobKept(w.jobs[n], k.(name := n))
    requires k.deleting && k.finalizers == [] ==> Operator !in w.jobs[n].finalizers
    ensures Rely(w, PutJob(w, n, k))
  {
    StampedKept(w.jobs[n], k, n, w.revision + 1);
    hide ParsedGeneration, GenerationOf, HashOf, KeepsTerminal, EnqueueMapper, JobKept;
    var v := PutJob(w, n, k);
    assert forall m :: m in v.jobs && m != n ==> v.jobs[m] == w.jobs[m];
  }

  lemma EditJobRelies(w: World, a: Action)
    requires Revisions(w) && a.EditJob? && Permitted(w, a)
    ensures Rely(w, Act(w, a))
  {
    hide Decimal.Atoi;
    var k := w.jobs[a.name].(labels := a.labels, annotations := a.annotations, finalizers := a.finalizers);
    SameKeysReadAlike(w.jobs[a.name], k.(name := a.name));
    assert JobKept(w.jobs[a.name], k.(name := a.name)) by {
      hide ParsedGeneration, GenerationOf, HashOf;
    }
    JobWriteRelies(w, a.name, k);
  }

  lemma ReportConditionsRelies(w: World, a: Action)
    requires Revisions(w) && a.ReportConditions? && Permitted(w, a)
    ensures Rely(w, Act(w, a))
  {
    hide Decimal.Atoi;
    JobWriteRelies(w, a.name, w.jobs[a.name].(conditions := a.conditions));
  }

  lemma DeleteKept(w: World, n: string, foreground: bool)
    requires Revisions(w) && n in w.jobs && !w.jobs[n].deleting
    ensures Rely(w, DeleteJob(w, n, foreground).0)
  {
    hide Decimal.Atoi;
    var j := w.jobs[n];
    var fs := if foreground then AddFinalizer(j.finalizers, ForegroundDeletion) else j.finalizers;
    JobWriteRelies(w, n, j.(deleting := true, finalizers := fs));
  }

  lemma AddForeignJobRelies(w: World, a: Action)
    requires Revisions(w) && a.AddForeignJob? && Permitted(w, a)
    ensures Rely(w, Act(w, a))
  {
    hide ParsedGeneration, GenerationOf, HashOf, KeepsTerminal;
    var v := Act(w, a);
    assert forall m :: m in v.jobs && m != a.job.name ==> m in w.jobs && v.jobs[m] == w.jobs[m];
  }

  /** No action of anybody else leaves the relation. */
  lemma ActRelies(w: World, a: Action)
    requires Revisions(w) && StoredOk(w) && HistoryOk(w)
    ensures Rely(w, Act(w, a))
  {
    hide ParsedGeneration, GenerationOf, HashOf, KeepsTerminal, Rely, PutJob, PutReactiveJob;
    if !Permitted(w, a) {
      StillRelies(w, 0, w.queued);
    } else {
      match a
      case Submit(_, _, _) => SubmitRelies(w, a);
      case EditTemplate(_) => ReactiveJobActionRelies(w, a);
      case SetForeignFinalizers(_) => ReactiveJobActionRelies(w, a);
      case DeleteReactiveJob(_) => ReactiveJobActionRelies(w, a);
      case EditJob(_, _, _, _) => EditJobRelies(w, a);
      case ReportConditions(_, _) => ReportConditionsRelies(w, a);
      case RemoveJob(n, foreground) => DeleteKept(w, n, foreground);
      case AddForeignJob(_) => AddForeignJobRelies(w, a);
      case Wait(seconds) => StillRelies(w, seconds, w.queued);
      case Resync => StillRelies(w, 0, true);
    }
  }

  // ---------- Whatever keeps the relation keeps the invariant of the store ----------

  lemma RelyKeepsStore(w: World, v: World)
    requires Rely(w, v) && Revisions(w) && StoredOk(w) && HistoryOk(w)
    ensures Revisions(v) && StoredOk(v) && HistoryOk(v)
  {
    hide ParsedGeneration, GenerationOf, HashOf, KeepsTerminal, EnqueueMapper, ReadyConditionAgrees;
    assert v.rj.Some? && w.rj.None? ==> StatusShape(v.rj.value.status);
  }

  lemma RelyKeepsLog(h: HashFunction, w: World, v: World)
    requires Rely(w, v) && HistoryOk(w) && LogOk(h, w) && LogOrder(w.created) && LogBlock(w)
    ensures LogOk(h, v) && LogOrder(v.created) && LogBlock(v)
  {
    hide RelyJobs, LogOrder;
  }

  lemma RelyKeepsOwned(w: World, v: World)
    requires Rely(w, v) && Revisions(w) && Owned(w) && Fenced(w)
    requires forall line :: line in w.created ==> line.uid in w.uids
    requires LogBlock(w)
    ensures Owned(v) && Fenced(v)
  {
    hide ParsedGeneration, GenerationOf, HashOf, KeepsTerminal, EnqueueMapper;
    forall n | n in v.jobs && Ours(v, v.jobs[n]) ensures OwnedJob(v, n) {
      assert RelyJob(w, v, n);
      assert n in w.jobs;
      assert UidLabel(v.jobs[n]) == UidLabel(w.jobs[n]);
      assert Ours(w, w.jobs[n]) && OwnedJob(w, n);
      assert w.created != [] && HasJob(w, w.rj.value.uid);
    }
  }

  lemma RelyKeepsHeld(w: World, v: World)
    requires Rely(w, v) && LatestHeld(w)
    ensures LatestHeld(v)
    ensures forall t :: ConditionTrueFor(w.jobs[Latest(w).name].conditions, t) && (t == JobComplete || t == JobFailed)
              ==> ConditionTrueFor(v.jobs[Latest(w).name].conditions, t)
  {
    hide ParsedGeneration, GenerationOf, HashOf, EnqueueMapper, RelyReactiveJob, ConditionTrueFor;
    var n := Latest(w).name;
    assert n in v.jobs && RelyJob(w, v, n);
  }

  lemma RelyKeepsReady(h: HashFunction, w: World, v: World, uid: string, s: JobStatus)
    requires Rely(w, v) && ReadyFor(h, w, uid, s) && LatestHeld(w)
    ensures ReadyFor(h, v, uid, s)
  {
    hide ParsedGeneration, GenerationOf, HashOf, EnqueueMapper, RelyReactiveJob, ConditionTrueFor, RelyJobs;
    RelyKeepsHeld(w, v);
  }

  lemma ReadyHasJob(h: HashFunction, w: World, uid: string, s: JobStatus)
    requires ReadyFor(h, w, uid, s)
    ensures HasJob(w, uid)
  {
  }

  lemma RelyKeepsGuarded(h: HashFunction, w: World, v: World)
    requires Rely(w, v) && StoredOk(w) && Guarded(w) && Truthful(h, w)
    requires forall line :: line in w.created ==> line.uid in w.uids
    ensures Guarded(v) && Truthful(h, v)
  {
    hide LatestHeld, ReadyFor, RelyJobs;
    if v.rj.Some? && !v.rj.value.deleting && HasJob(v, v.rj.value.uid) {
      assert w.rj.Some? && w.rj.value.uid == v.rj.value.uid;
      RelyKeepsHeld(w, v);
    }
    if v.rj.Some? && !v.rj.value.deleting && v.rj.value.status.state == StateReady
       && v.rj.value.status.observedGeneration == v.rj.value.generation {
      assert w.rj.Some? && w.rj.value.uid == v.rj.value.uid;
      assert w.rj.value.generation == v.rj.value.generation;
      ReadyHasJob(h, w, w.rj.value.uid, w.rj.value.status);
      RelyKeepsReady(h, w, v, w.rj.value.uid, w.rj.value.status);
    }
  }

  lemma RelyKeepsStoreInv(h: HashFunction, w: World, v: World)
    requires Rely(w, v) && StoreInv(h, w)
    ensures StoreInv(h, v)
  {
    hide Rely, Revisions, StoredOk, HistoryOk, LogOrder, LogBlock, Owned, Fenced, Guarded, Truthful;
    RelyKeepsStore(w, v);
    RelyKeepsLog(h, w, v);
    RelyKeepsOwned(w, v);
    RelyKeepsGuarded(h, w, v);
  }

  // ---------- And what a reconciliation holds in memory stays true of the store ----------

  lemma RelyKeepsMemory(w: World, v: World, obj: ReactiveJob)
    requires Rely(w, v) && MemoryOk(w, obj) && Revisions(w) && StoredOk(w)
    ensures MemoryOk(v, obj)
    ensures Same(w, obj) && Operator in w.rj.value.finalizers ==> HeldInStore(v, obj)
    ensures Draining(w, obj) ==> Draining(v, obj)
    ensures Pristine(w, obj) ==> Pristine(v, obj)
    ensures SameRest(w, obj) ==> SameRest(v, obj)
    ensures obj.uid in w.uids && (obj.uid, obj.generation) in w.history
    ensures (obj.uid, obj.generation) in v.history
    ensures v.history[(obj.uid, obj.generation)] == w.history[(obj.uid, obj.generation)]
  {
    hide RelyJobs, StatusShape;
  }

  lemma RelyKeepsSnapshot(w: World, v: World, j: Job)
    requires Rely(w, v) && Snapshot(w, j)
    ensures Snapshot(v, j)
  {
    hide RelyReactiveJob, JobKept;
    if j.name in v.jobs {
      assert RelyJob(w, v, j.name);
    }
  }

  lemma RelyKeepsNone(w: World, v: World, uid: string)
    requires Rely(w, v) && NoneOf(w, uid) && uid in w.uids
    ensures NoneOf(v, uid)
  {
    hide RelyReactiveJob, GenerationOf, ParsedGeneration, HashOf, EnqueueMapper, KeepsTerminal;
    forall n | n in v.jobs ensures UidLabel(v.jobs[n]) != Some(uid) {
      assert RelyJob(w, v, n);
    }
  }

  lemma RelyKeepsSweep(h: HashFunction, w: World, v: World, obj: ReactiveJob, jobs: seq<Job>)
    requires Rely(w, v) && SweepList(h, w, obj, jobs)
    ensures SweepList(h, v, obj, jobs)
  {
    hide RelyReactiveJob, RelyJobs, LatestHeld, ConditionTrueFor, Snapshot;
    RelyKeepsHeld(w, v);
    forall j | j in jobs ensures Snapshot(v, j) {
      RelyKeepsSnapshot(w, v, j);
    }
    HeldHead(v);
  }

  lemma HeldHead(w: World)
    requires LatestHeld(w)
    ensures |w.created| > 0 && Latest(w).name in w.jobs
  {
  }

  lemma RelyKeepsLocal(h: HashFunction, w: World, v: World, local: Local)
    requires Rely(w, v) && StoreInv(h, w) && LocalInv(h, w, local)
    ensures LocalInv(h, v, local)
  {
    hide MemoryOk, Pristine, SameRest, LatestHeld, SweepList, Snapshot, NoneOf, RelyJobs, ReadyFor;
    hide LogOk, LogOrder, LogBlock, Owned, Fenced, Guarded, Truthful, HistoryOk, BuildJob, Draining, SortedJobsOf;
    if !local.Idle? {
      RelyKeepsMemory(w, v, local.obj);
    }
    if LatestHeld(w) {
      RelyKeepsHeld(w, v);
    }
    match local
    case Idle(_) =>
      assert v.rj.Some? && w.rj.None? ==> v.queued;
    case AtList(obj) =>
    case AtFence(obj, jobs) =>
    case AtCreate(obj, job) =>
    case AtStrip(obj, jobs, i) =>
      RelyKeepsSweep(h, w, v, obj, jobs);
    case AtClear(obj) =>
      RelyKeepsNone(w, v, obj.uid);
    case AtRelease(obj, jobs, i) =>
      forall j | j in jobs ensures Snapshot(v, j) {
        RelyKeepsSnapshot(w, v, j);
      }
    case AtDelete(obj, jobs, i) =>
      forall j | j in jobs ensures Snapshot(v, j) {
        RelyKeepsSnapshot(w, v, j);
      }
    case AtStatus(obj, result) =>
      if obj.status.state == StateReady {
        RelyKeepsReady(h, w, v, obj.uid, obj.status);
      }
  }

  /** Whatever anybody else does, at any moment of a reconciliation, the invariant stays. */
  lemma ActKeepsInv(h: HashFunction, s: System, a: Action)
    requires Inv(h, s)
    ensures Inv(h, s.(w := Act(s.w, a)))
  {
    hide Act, Rely, LocalInv;
    ActRelies(s.w, a);
    RelyKeepsStoreInv(h, s.w, Act(s.w, a));
    RelyKeepsLocal(h, s.w, Act(s.w, a), s.local);
  }
}
