/** The object store as the operator and everybody else sees it: one namespace, the ReactiveJob
    stored under one key, and the jobs. Every function here is one atomic request. */
module Cluster {
  import opened Options
  import opened Decimal
  import opened Status
  import opened Objects

  /** A job the operator created: a line of history, never erased. */
  datatype Created = Created(uid: string, generation: int, hash: string, name: string)

  /** history and created are bookkeeping: which template was stored at which generation of which
      ReactiveJob, and the jobs created by the operator in order. uids are the ReactiveJobs that
      ever lived under the key. queued says that a reconciliation of the key is scheduled. */
  datatype World = World(
    key: NamespacedName,
    rj: Option<ReactiveJob>,
    jobs: map<string, Job>,
    revision: nat,
    now: int,
    queued: bool,
    uids: set<string>,
    history: map<(string, int), Template>,
    created: seq<Created>)

  function EmptyWorld(key: NamespacedName): World {
    World(key, None, map[], 0, 0, false, {}, map[], [])
  }

  /** The object a request leaves behind; an error carries nothing the operator looks at. */
  datatype Reply<+T> = Accepted(value: T) | Rejected

  // ---------- Watching ----------

  /** The key a job event is mapped to. */
  function EnqueueMapper(j: Job): NamespacedName {
    NamespacedName(j.namespace, Lookup(j.labels, ControllerName))
  }

  /** A job event wakes the operator when the job carries the name label and maps to the key. */
  predicate Wakes(w: World, j: Job) {
    ControllerName in j.labels && EnqueueMapper(j) == w.key
  }

  // ---------- Storing objects ----------

  /** A stored ReactiveJob; one that is being deleted and has no finalizers left disappears. */
  function PutReactiveJob(w: World, r: ReactiveJob): World {
    var gone := r.deleting && r.finalizers == [];
    w.(revision := w.revision + 1,
       rj := if gone then None else Some(r.(resourceVersion := w.revision + 1)),
       history := if gone then w.history else w.history[(r.uid, r.generation) := r.template],
       queued := w.queued || gone
                 || (w.rj.Some? && w.rj.value.generation != r.generation))
  }

  function PutJob(w: World, name: string, j: Job): World {
    w.(revision := w.revision + 1,
       jobs := if j.deleting && j.finalizers == [] then w.jobs - {name}
               else w.jobs[name := j.(name := name, resourceVersion := w.revision + 1)],
       queued := w.queued || Wakes(w, j))
  }

  // ---------- Requests of the operator ----------

  function UpdateReply(w: World, r: ReactiveJob): ReactiveJob
    requires w.rj.Some?
  {
    var stored := w.rj.value;
    var generation := if r.template == stored.template then stored.generation else stored.generation + 1;
    stored.(template := r.template, finalizers := r.finalizers, generation := generation)
  }

  /** Whether an update of the ReactiveJob is accepted: the object exists at the revision that was
      read, and nothing that is being deleted gains a finalizer. */
  predicate UpdateAccepted(w: World, r: ReactiveJob) {
    && w.rj.Some?
    && w.rj.value.resourceVersion == r.resourceVersion
    && (w.rj.value.deleting ==> forall f :: f in r.finalizers ==> f in w.rj.value.finalizers)
    && UpdateReply(w, r).generation <= MAX_INT64
  }

  /** Update of the main resource: metadata and spec, never the status. */
  function UpdateReactiveJob(w: World, r: ReactiveJob): (World, Reply<ReactiveJob>) {
    if UpdateAccepted(w, r) then
      (PutReactiveJob(w, UpdateReply(w, r)),
       Accepted(UpdateReply(w, r).(resourceVersion := w.revision + 1)))
    else
      (w, Rejected)
  }

  predicate StatusAccepted(w: World, r: ReactiveJob) {
    w.rj.Some? && w.rj.value.resourceVersion == r.resourceVersion
  }

  /** Update of the status subresource: the status, never metadata or spec. */
  function UpdateStatus(w: World, r: ReactiveJob): (World, Reply<()>) {
    if StatusAccepted(w, r) then
      (PutReactiveJob(w, w.rj.value.(status := r.status)), Accepted(()))
    else
      (w, Rejected)
  }

  /** Jobs carrying a uid label, in whatever order the server lists them. */
  ghost predicate IsListing(w: World, uid: string, items: seq<Job>) {
    && (forall i, j :: 0 <= i < j < |items| ==> items[i].name != items[j].name)
    && (forall j :: j in items ==> j.name in w.jobs && w.jobs[j.name] == j && UidLabel(j) == Some(uid))
    && (forall n :: n in w.jobs && UidLabel(w.jobs[n]) == Some(uid) ==> w.jobs[n] in items)
  }

  function GeneratedName(j: Job, suffix: string): string {
    j.generateName + suffix
  }

  /** Create with a generated name. */
  function CreateJob(w: World, j: Job, suffix: string): (World, Reply<()>) {
    var name := GeneratedName(j, suffix);
    if name in w.jobs then
      (w, Rejected)
    else
      var stored := j.(deleting := false, conditions := []);
      var line := Created(Lookup(j.labels, ControllerUid), GenerationOf(j), HashOf(j), name);
      (PutJob(w, name, stored).(created := w.created + [line]), Accepted(()))
  }

  predicate JobUpdateAccepted(w: World, j: Job) {
    && j.name in w.jobs
    && w.jobs[j.name].resourceVersion == j.resourceVersion
    && (w.jobs[j.name].deleting ==> forall f :: f in j.finalizers ==> f in w.jobs[j.name].finalizers)
  }

  /** Update of a job: metadata only; its template is immutable and its status is not touched. */
  function UpdateJob(w: World, j: Job): (World, Reply<()>) {
    if JobUpdateAccepted(w, j) then
      (PutJob(w, j.name, w.jobs[j.name].(labels := j.labels, annotations := j.annotations, finalizers := j.finalizers)),
       Accepted(()))
    else
      (w, Rejected)
  }

  /** Delete, by name and without preconditions: marks the job, or does nothing to one already marked. */
  function DeleteJob(w: World, name: string, foreground: bool): (World, Reply<()>) {
    if name !in w.jobs then
      (w, Rejected)
    else if w.jobs[name].deleting then
      (w, Accepted(()))
    else
      var j := w.jobs[name];
      var fs := if foreground then AddFinalizer(j.finalizers, ForegroundDeletion) else j.finalizers;
      (PutJob(w, name, j.(deleting := true, finalizers := fs)), Accepted(()))
  }

  // ---------- Everybody else ----------

  /** What users, the job controller, the TTL controller and the garbage collector may do.
      None of them touches the operator's finalizer, labels or annotations. */
  datatype Action =
    | Submit(uid: string, template: Template, finalizers: seq<Finalizer>)
    | EditTemplate(template: Template)
    | SetForeignFinalizers(finalizers: seq<Finalizer>)
    | DeleteReactiveJob(foreground: bool)
    | EditJob(name: string, labels: StringMap, annotations: StringMap, finalizers: seq<Finalizer>)
    | ReportConditions(name: string, conditions: seq<JobCondition>)
    | RemoveJob(name: string, foreground: bool)
    | AddForeignJob(job: Job)
    | Wait(seconds: nat)
    | Resync

  /** New finalizers a third party may set: the operator's own is neither added nor removed, and an
      object that is being deleted gains none. */
  predicate MayReplace(old_: seq<Finalizer>, new_: seq<Finalizer>, deleting: bool) {
    && (Operator in new_ <==> Operator in old_)
    && (deleting ==> forall f :: f in new_ ==> f in old_)
  }

  predicate SameKey(a: StringMap, b: StringMap, k: Key) {
    (k in a <==> k in b) && (k in a ==> a[k] == b[k])
  }

  predicate KeepsTerminal(a: seq<JobCondition>, b: seq<JobCondition>) {
    && (ConditionTrueFor(a, JobComplete) ==> ConditionTrueFor(b, JobComplete))
    && (ConditionTrueFor(a, JobFailed) ==> ConditionTrueFor(b, JobFailed))
  }

  predicate Permitted(w: World, a: Action) {
    match a
    case Submit(uid, template, finalizers) =>
      && w.rj.None? && Operator !in finalizers && uid !in w.uids
      && forall n :: n in w.jobs ==> UidLabel(w.jobs[n]) != Some(uid)
    case EditTemplate(template) =>
      w.rj.Some? && w.rj.value.template != template && w.rj.value.generation < MAX_INT64
    case SetForeignFinalizers(finalizers) =>
      w.rj.Some? && MayReplace(w.rj.value.finalizers, finalizers, w.rj.value.deleting)
    case DeleteReactiveJob(foreground) =>
      w.rj.Some? && !w.rj.value.deleting && w.rj.value.generation < MAX_INT64
    case EditJob(name, labels, annotations, finalizers) =>
      && name in w.jobs
      && MayReplace(w.jobs[name].finalizers, finalizers, w.jobs[name].deleting)
      && SameKey(w.jobs[name].labels, labels, ControllerUid)
      && SameKey(w.jobs[name].labels, labels, ControllerName)
      && SameKey(w.jobs[name].annotations, annotations, ControllerGeneration)
      && SameKey(w.jobs[name].annotations, annotations, ControllerHash)
    case ReportConditions(name, conditions) =>
      name in w.jobs && KeepsTerminal(w.jobs[name].conditions, conditions)
    case RemoveJob(name, foreground) => name in w.jobs && !w.jobs[name].deleting
    case AddForeignJob(job) =>
      && job.name !in w.jobs && !job.deleting
      && (UidLabel(job).Some? ==> UidLabel(job).value !in w.uids)
    case Wait(seconds) => true
    case Resync => true
  }

  /** One action of the environment; an action that is not permitted changes nothing. */
  function Act(w: World, a: Action): World {
    if !Permitted(w, a) then w else
      match a
      case Submit(uid, template, finalizers) =>
        var r := ReactiveJob(uid, 1, 0, false, finalizers, template, INITIAL_STATUS);
        PutReactiveJob(w, r).(uids := w.uids + {uid}, queued := true)
      case EditTemplate(template) =>
        PutReactiveJob(w, w.rj.value.(template := template, generation := w.rj.value.generation + 1))
      case SetForeignFinalizers(finalizers) =>
        PutReactiveJob(w, w.rj.value.(finalizers := finalizers))
      case DeleteReactiveJob(foreground) =>
        var fs := if foreground then AddFinalizer(w.rj.value.finalizers, ForegroundDeletion) else w.rj.value.finalizers;
        PutReactiveJob(w, w.rj.value.(deleting := true, finalizers := fs, generation := w.rj.value.generation + 1))
      case EditJob(name, labels, annotations, finalizers) =>
        PutJob(w, name, w.jobs[name].(labels := labels, annotations := annotations, finalizers := finalizers))
      case ReportConditions(name, conditions) =>
        PutJob(w, name, w.jobs[name].(conditions := conditions))
      case RemoveJob(name, foreground) => DeleteJob(w, name, foreground).0
      case AddForeignJob(job) => PutJob(w, job.name, job)
      case Wait(seconds) => w.(now := w.now + seconds)
      case Resync => w.(queued := true)
  }
}
