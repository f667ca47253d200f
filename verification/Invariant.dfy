/** The invariant of the protocol: what holds of the store, and of the memory of a reconciliation
    against the store, between any two steps of any run. */
module Invariant {
  import opened Options
  import opened Decimal
  import opened Status
  import opened Objects
  import opened Sorting
  import opened Cluster
  import opened Reconciler

  // ---------- The history of created jobs ----------

  function Record(name: string, j: Job): Created {
    Created(Lookup(j.labels, ControllerUid), GenerationOf(j), HashOf(j), name)
  }

  /** Some job was created for this uid, and the latest created job is one of them. */
  ghost predicate HasJob(w: World, uid: string) {
    |w.created| > 0 && w.created[|w.created| - 1].uid == uid
  }

  function Latest(w: World): Created
    requires |w.created| > 0
  {
    w.created[|w.created| - 1]
  }

  /** The latest created job is in the store, as recorded, and holds the operator's finalizer. */
  ghost predicate LatestHeld(w: World) {
    && |w.created| > 0
    && var line := Latest(w);
       && line.name in w.jobs
       && UidLabel(w.jobs[line.name]) == Some(line.uid)
       && Record(line.name, w.jobs[line.name]) == line
       && Operator in w.jobs[line.name].finalizers
  }

  // ---------- The store ----------

  ghost predicate Revisions(w: World) {
    && (w.rj.Some? ==> w.rj.value.resourceVersion <= w.revision)
    && forall n :: n in w.jobs ==> w.jobs[n].name == n && w.jobs[n].resourceVersion <= w.revision
  }

  /** A status as the operator writes it: never written, or with a Ready condition that agrees. */
  ghost predicate StatusShape(s: JobStatus) {
    && AtMostOnePerType(s.conditions)
    && (s.state == StateUnset ==> Find(s.conditions, TypeReady) == |s.conditions|)
    && (s.state != StateUnset ==> ReadyConditionAgrees(s))
  }

  ghost predicate StoredOk(w: World) {
    w.rj.Some? ==>
      var r := w.rj.value;
      && r.uid in w.uids
      && 1 <= r.generation <= MAX_INT64
      && -1 <= r.status.observedGeneration <= r.generation
      && (r.deleting ==> r.finalizers != [])
      && (r.uid, r.generation) in w.history
      && w.history[(r.uid, r.generation)] == r.template
      && StatusShape(r.status)
      && (Operator in r.finalizers ==> r.status.state != StateUnset)
  }

  ghost predicate HistoryOk(w: World) {
    forall k :: k in w.history ==>
      && k.0 in w.uids
      && (w.rj.Some? && w.rj.value.uid == k.0 ==> k.1 <= w.rj.value.generation)
  }

  /** Every created job carries the hash of the template stored at its generation. */
  ghost predicate LogOk(h: HashFunction, w: World) {
    forall line :: line in w.created ==>
      && line.uid in w.uids
      && (line.uid, line.generation) in w.history
      && line.hash == h(w.history[(line.uid, line.generation)])
  }

  /** Generations strictly increase in creation order, and neighbours carry different hashes. */
  ghost predicate LogOrder(log: seq<Created>) {
    && (forall i, j :: 0 <= i < j < |log| && log[i].uid == log[j].uid ==> log[i].generation < log[j].generation)
    && (forall i :: 0 <= i < |log| - 1 && log[i].uid == log[i + 1].uid ==> log[i].hash != log[i + 1].hash)
  }

  /** Jobs created for the ReactiveJob that is stored now are the latest ones. */
  ghost predicate LogBlock(w: World) {
    w.rj.Some? ==> forall line :: line in w.created && line.uid == w.rj.value.uid ==> HasJob(w, w.rj.value.uid)
  }

  /** A job the operator created for some ReactiveJob under the key. */
  ghost predicate Ours(w: World, j: Job) {
    UidLabel(j).Some? && UidLabel(j).value in w.uids
  }

  ghost predicate OwnedJob(w: World, n: string)
    requires n in w.jobs
  {
    && w.rj.Some? && UidLabel(w.jobs[n]) == Some(w.rj.value.uid)
    && ParsedGeneration(w.jobs[n]).Some?
    && Record(n, w.jobs[n]) in w.created
    && EnqueueMapper(w.jobs[n]) == w.key && ControllerName in w.jobs[n].labels
  }

  ghost predicate Owned(w: World) {
    forall n :: n in w.jobs && Ours(w, w.jobs[n]) ==> OwnedJob(w, n)
  }

  ghost predicate Fenced(w: World) {
    w.rj.Some? && HasJob(w, w.rj.value.uid) ==> Operator in w.rj.value.finalizers
  }

  ghost predicate Guarded(w: World) {
    w.rj.Some? && !w.rj.value.deleting && HasJob(w, w.rj.value.uid) ==> LatestHeld(w)
  }

  /** A status that says Ready names the latest job, made from the acknowledged template and complete. */
  ghost predicate ReadyFor(h: HashFunction, w: World, uid: string, s: JobStatus) {
    && HasJob(w, uid)
    && Latest(w).name == s.currentJobName
    && (uid, s.observedGeneration) in w.history
    && Latest(w).hash == h(w.history[(uid, s.observedGeneration)])
    && s.currentJobName in w.jobs
    && ConditionTrueFor(w.jobs[s.currentJobName].conditions, JobComplete)
  }

  ghost predicate Truthful(h: HashFunction, w: World) {
    w.rj.Some? && !w.rj.value.deleting && w.rj.value.status.state == StateReady
    && w.rj.value.status.observedGeneration == w.rj.value.generation
    ==> ReadyFor(h, w, w.rj.value.uid, w.rj.value.status)
  }

  ghost predicate StoreInv(h: HashFunction, w: World) {
    && Revisions(w) && StoredOk(w) && HistoryOk(w)
    && LogOk(h, w) && LogOrder(w.created) && LogBlock(w)
    && Owned(w) && Fenced(w) && Guarded(w) && Truthful(h, w)
  }

  // ---------- The memory of a reconciliation ----------

  /** The stored ReactiveJob is the one held in memory. */
  ghost predicate Same(w: World, obj: ReactiveJob) {
    w.rj.Some? && w.rj.value.uid == obj.uid
  }

  ghost predicate MemoryOk(w: World, obj: ReactiveJob) {
    && obj.uid in w.uids
    && obj.resourceVersion <= w.revision
    && 1 <= obj.generation <= MAX_INT64
    && -1 <= obj.status.observedGeneration <= obj.generation
    && (obj.uid, obj.generation) in w.history
    && (Same(w, obj) ==>
          && obj.generation <= w.rj.value.generation
          && w.rj.value.status.observedGeneration <= obj.status.observedGeneration
          && (obj.deleting ==> w.rj.value.deleting))
    && (w.rj.Some? && w.rj.value.resourceVersion == obj.resourceVersion ==>
          && Same(w, obj)
          && w.rj.value.generation == obj.generation
          && w.rj.value.deleting == obj.deleting)
    && StatusShape(obj.status)
  }

  /** The template in memory is still the one that was stored at the generation that was read. */
  ghost predicate Pristine(w: World, obj: ReactiveJob) {
    (obj.uid, obj.generation) in w.history && obj.template == w.history[(obj.uid, obj.generation)]
  }

  /** At the revision that was read, finalizers differ from the stored ones at most in the operator's,
      and the status at most in the acknowledged generation. */
  ghost predicate SameRest(w: World, obj: ReactiveJob) {
    w.rj.Some? && w.rj.value.resourceVersion == obj.resourceVersion ==>
      && RemoveFinalizer(w.rj.value.finalizers, Operator) == RemoveFinalizer(obj.finalizers, Operator)
      && w.rj.value.status.(observedGeneration := obj.status.observedGeneration) == obj.status
  }

  /** The operator's finalizer keeps the ReactiveJob in the store. */
  ghost predicate HeldInStore(w: World, obj: ReactiveJob) {
    Same(w, obj) && Operator in w.rj.value.finalizers
  }

  ghost predicate OnlyOperator(fs: seq<Finalizer>) {
    forall f :: f in fs ==> f == Operator
  }

  ghost predicate Draining(w: World, obj: ReactiveJob) {
    HeldInStore(w, obj) && w.rj.value.deleting && OnlyOperator(w.rj.value.finalizers)
  }

  ghost predicate NoneOf(w: World, uid: string) {
    forall n :: n in w.jobs ==> UidLabel(w.jobs[n]) != Some(uid)
  }

  /** A listed job against the store: at the same revision it is unchanged. */
  ghost predicate Snapshot(w: World, j: Job) {
    && j.resourceVersion <= w.revision
    && (j.name in w.jobs && w.jobs[j.name].resourceVersion == j.resourceVersion ==> w.jobs[j.name] == j)
  }

  /** The jobs of one ReactiveJob, newest first. */
  ghost predicate SortedJobsOf(uid: string, jobs: seq<Job>) {
    && StrictlyNewestFirst(jobs)
    && forall j :: j in jobs ==> UidLabel(j) == Some(uid)
  }

  /** The list a sweep works on: newest first, headed by the latest created job. */
  ghost predicate SweepList(h: HashFunction, w: World, obj: ReactiveJob, jobs: seq<Job>) {
    && jobs != []
    && (forall j :: j in jobs ==> Snapshot(w, j))
    && (forall k :: 1 <= k < |jobs| ==> jobs[k].name != jobs[0].name)
    && HasJob(w, obj.uid) && LatestHeld(w)
    && Latest(w).name == jobs[0].name
    && (obj.uid, obj.generation) in w.history
    && Latest(w).hash == h(w.history[(obj.uid, obj.generation)])
    && (ConditionTrueFor(jobs[0].conditions, JobComplete) ==>
          ConditionTrueFor(w.jobs[jobs[0].name].conditions, JobComplete))
  }

  /** A delay is positive: zero would mean no requeue at all. */
  predicate Delayed(result: Result) {
    result.RequeueAfter? ==> result.seconds > 0
  }

  ghost predicate LocalInv(h: HashFunction, w: World, local: Local) {
    match local
    case Idle(last) =>
      && last != Panicked && Delayed(last)
      && (w.rj.Some? ==> w.queued)
    case AtList(obj) =>
      && MemoryOk(w, obj) && Pristine(w, obj) && SameRest(w, obj)
      && obj.status.state != StateUnset && obj.status.observedGeneration == obj.generation
      && (obj.deleting ==> obj.finalizers != [])
      && (Operator in obj.finalizers ==> HeldInStore(w, obj))
      && ((exists line :: line in w.created && line.uid == obj.uid) ==>
            HasJob(w, obj.uid) && Operator in obj.finalizers)
      && (forall line :: line in w.created && line.uid == obj.uid ==> line.generation <= obj.generation)
      && (!obj.deleting && HasJob(w, obj.uid) ==> LatestHeld(w))
      && (obj.deleting && OnlyOperator(obj.finalizers) ==> Draining(w, obj))
    case AtFence(obj, jobs) =>
      && MemoryOk(w, obj) && Pristine(w, obj) && SameRest(w, obj)
      && obj.status.state != StateUnset && !obj.deleting && Operator in obj.finalizers
      && jobs == []
      && (forall line :: line in w.created ==> line.uid != obj.uid)
    case AtCreate(obj, job) =>
      && MemoryOk(w, obj) && HeldInStore(w, obj) && !obj.deleting
      && obj.status.state != StateUnset
      && job == BuildJob(h, w.key, obj.uid, obj.generation, w.history[(obj.uid, obj.generation)])
      && (forall line :: line in w.created && line.uid == obj.uid ==> line.generation < obj.generation)
      && (HasJob(w, obj.uid) ==> Latest(w).hash != HashOf(job))
    case AtStrip(obj, jobs, i) =>
      && MemoryOk(w, obj) && HeldInStore(w, obj) && !obj.deleting
      && obj.status.state != StateUnset && obj.status.observedGeneration == obj.generation
      && 1 <= i < |jobs| && Operator in jobs[i].finalizers
      && SortedJobsOf(obj.uid, jobs) && SweepList(h, w, obj, jobs)
    case AtClear(obj) =>
      && MemoryOk(w, obj) && Pristine(w, obj) && Draining(w, obj)
      && obj.status.state != StateUnset
      && obj.finalizers == [] && NoneOf(w, obj.uid)
    case AtRelease(obj, jobs, i) =>
      && MemoryOk(w, obj) && Draining(w, obj)
      && obj.status.state != StateUnset
      && i < |jobs| && Operator in jobs[i].finalizers
      && SortedJobsOf(obj.uid, jobs) && (forall j :: j in jobs ==> Snapshot(w, j))
    case AtDelete(obj, jobs, i) =>
      && MemoryOk(w, obj) && Draining(w, obj)
      && obj.status.state != StateUnset
      && i < |jobs| && !jobs[i].deleting
      && SortedJobsOf(obj.uid, jobs) && (forall j :: j in jobs ==> Snapshot(w, j))
    case AtStatus(obj, result) =>
      && MemoryOk(w, obj) && result != Panicked && result != Nothing && Delayed(result)
      && obj.status.state != StateUnset
      && (obj.status.state == StateReady ==>
            HeldInStore(w, obj) && LatestHeld(w) && ReadyFor(h, w, obj.uid, obj.status))
  }

  ghost predicate Inv(h: HashFunction, s: System) {
    StoreInv(h, s.w) && LocalInv(h, s.w, s.local)
  }
}
