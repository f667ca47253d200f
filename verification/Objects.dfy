/** The stored objects: job templates, jobs and ReactiveJobs, and the labels, annotations and
    finalizers by which the operator recognises its own work. */
module Objects {
  import opened Options
  import opened Decimal
  import opened Status

  /** Label and annotation keys. The first four belong to the operator:
      batch.cs.sap.com/controller-uid, -name (labels), -generation and -hash (annotations). */
  datatype Key = ControllerUid | ControllerName | ControllerGeneration | ControllerHash | OtherKey(name: string)

  /** Operator is batch.cs.sap.com/reactivejob-operator; ForegroundDeletion is the mark the garbage
      collector works on. */
  datatype Finalizer = Operator | ForegroundDeletion | Foreign(name: string)

  type StringMap = map<Key, string>

  /** A job template. An absent map is a nil map; body is everything that is not modelled. */
  datatype Template = Template(
    labels: Option<StringMap>,
    annotations: Option<StringMap>,
    finalizers: seq<Finalizer>,
    body: string)

  /** The hash of a template: any deterministic function of it. */
  type HashFunction = Template -> string

  datatype JobConditionType = JobComplete | JobFailed | JobOther(name: string)

  datatype JobCondition = JobCondition(typ: JobConditionType, status: ConditionStatus, reason: string, message: string)

  datatype Job = Job(
    namespace: string,
    name: string,
    generateName: string,
    labels: StringMap,
    annotations: StringMap,
    finalizers: seq<Finalizer>,
    body: string,
    resourceVersion: nat,
    deleting: bool,
    conditions: seq<JobCondition>)

  datatype ReactiveJob = ReactiveJob(
    uid: string,
    generation: int,
    resourceVersion: nat,
    deleting: bool,
    finalizers: seq<Finalizer>,
    template: Template,
    status: JobStatus)

  datatype NamespacedName = NamespacedName(namespace: string, name: string)

  // ---------- Reading a map the way Go does: a missing key reads as the empty string ----------

  function Lookup(m: StringMap, k: Key): string {
    if k in m then m[k] else ""
  }

  function UidLabel(j: Job): Option<string> {
    if ControllerUid in j.labels then Some(j.labels[ControllerUid]) else None
  }

  /** What mustAtoi makes of the generation annotation; nothing when it would panic. */
  function ParsedGeneration(j: Job): Option<int> {
    Atoi(Lookup(j.annotations, ControllerGeneration))
  }

  /** The sort key; meaningful only when the annotation parses. */
  function GenerationOf(j: Job): int {
    match ParsedGeneration(j)
    case Some(g) => g
    case None => 0
  }

  function HashOf(j: Job): string {
    Lookup(j.annotations, ControllerHash)
  }

  predicate ConditionTrueFor(conditions: seq<JobCondition>, typ: JobConditionType) {
    exists i :: 0 <= i < |conditions| && conditions[i].typ == typ && conditions[i].status == ConditionTrue
  }

  // ---------- Finalizers ----------

  function AddFinalizer(fs: seq<Finalizer>, f: Finalizer): (r: seq<Finalizer>)
    ensures f in r
  {
    if f in fs then fs else fs + [f]
  }

  /** All occurrences of a finalizer removed, the rest in order. */
  function RemoveFinalizer(fs: seq<Finalizer>, f: Finalizer): (r: seq<Finalizer>)
    ensures f !in r
    ensures forall x :: x in r <==> x in fs && x != f
    ensures |r| <= |fs| && (f in fs ==> |r| < |fs|)
    ensures f !in fs ==> r == fs
  {
    if fs == [] then []
    else if fs[0] == f then RemoveFinalizer(fs[1..], f)
    else [fs[0]] + RemoveFinalizer(fs[1..], f)
  }

  // ---------- The job a reconciliation builds ----------

  function MapOrEmpty(m: Option<StringMap>): StringMap {
    match m
    case None => map[]
    case Some(v) => v
  }

  function OwnedLabels(m: Option<StringMap>, uid: string, name: string): StringMap {
    MapOrEmpty(m)[ControllerUid := uid][ControllerName := name]
  }

  function OwnedAnnotations(m: Option<StringMap>, generation: int, hash: string): StringMap {
    MapOrEmpty(m)[ControllerGeneration := FormatInt(generation)][ControllerHash := hash]
  }

  /** The job created for a template: the template's metadata and body, owned by one ReactiveJob at
      one generation, fenced by the operator's finalizer, with the name left to the server. */
  function BuildJob(h: HashFunction, key: NamespacedName, uid: string, generation: int, t: Template): Job {
    Job(key.namespace, "", key.name + "-",
        OwnedLabels(t.labels, uid, key.name),
        OwnedAnnotations(t.annotations, generation, h(t)),
        AddFinalizer(t.finalizers, Operator),
        t.body, 0, false, [])
  }

  /** What building that job leaves of the template in memory: the job shares the template's maps,
      so maps that existed have been written to; nil maps were replaced on the job only. */
  function Shared(h: HashFunction, key: NamespacedName, uid: string, generation: int, t: Template): Template {
    t.(labels := if t.labels.None? then None else Some(OwnedLabels(t.labels, uid, key.name)),
       annotations := if t.annotations.None? then None else Some(OwnedAnnotations(t.annotations, generation, h(t))))
  }

  /** A map made of a base and some keys of one's own: those have their own values, all others the
      base's, and there are no more. */
  ghost predicate Overlaid(m: StringMap, base: Option<StringMap>, own: StringMap) {
    && (forall k :: k in m <==> k in own || (base.Some? && k in base.value))
    && (forall k :: k in own && k in m ==> m[k] == own[k])
    && (forall k :: k in m && k !in own && base.Some? && k in base.value ==> m[k] == base.value[k])
  }

  /** A job made from a template: the template's body, and its metadata with the operator's own added. */
  ghost predicate MadeFrom(j: Job, t: Template, key: NamespacedName, uid: string, generation: int, hash: string) {
    && j.namespace == key.namespace && j.generateName == key.name + "-" && j.body == t.body
    && Overlaid(j.labels, t.labels, map[ControllerUid := uid, ControllerName := key.name])
    && Overlaid(j.annotations, t.annotations,
                map[ControllerGeneration := FormatInt(generation), ControllerHash := hash])
    && j.finalizers == (if Operator in t.finalizers then t.finalizers else t.finalizers + [Operator])
    && !j.deleting && j.conditions == []
  }

  lemma BuiltJobCarries(h: HashFunction, key: NamespacedName, uid: string, generation: int, t: Template)
    requires MIN_INT64 <= generation <= MAX_INT64
    ensures var j := BuildJob(h, key, uid, generation, t);
            && MadeFrom(j, t, key, uid, generation, h(t)) && j.name == ""
            && UidLabel(j) == Some(uid)
            && ParsedGeneration(j) == Some(generation) && GenerationOf(j) == generation
            && HashOf(j) == h(t)
  {
    RoundTrip(generation);
    hide FormatInt, Atoi;
  }

  lemma StoredAsMade(j: Job, t: Template, key: NamespacedName, uid: string, generation: int, hash: string,
                     name: string, revision: nat)
    requires MadeFrom(j, t, key, uid, generation, hash)
    ensures MadeFrom(j.(deleting := false, conditions := [], name := name, resourceVersion := revision),
                     t, key, uid, generation, hash)
  {
    hide Overlaid;
  }

  predicate Says(m: StringMap, k: Key, v: string) {
    k in m && m[k] == v
  }

  /** Writing the operator's keys through the shared maps changes what the template in memory hashes
      to, so the order of hashing and writing matters. With an injective hash it changes exactly when
      some map was there to share and did not carry those keys with those values already. */
  lemma SharingChangesTheHash(h: HashFunction, key: NamespacedName, uid: string, generation: int, t: Template)
    requires forall a: Template, b: Template :: h(a) == h(b) ==> a == b
    ensures h(Shared(h, key, uid, generation, t)) != h(t) <==>
              ((t.labels.Some?
                && !(Says(t.labels.value, ControllerUid, uid) && Says(t.labels.value, ControllerName, key.name)))
               || (t.annotations.Some?
                   && !(Says(t.annotations.value, ControllerGeneration, FormatInt(generation))
                        && Says(t.annotations.value, ControllerHash, h(t)))))
  {
    hide FormatInt;
    var s := Shared(h, key, uid, generation, t);
    if t.labels.Some? {
      OverwrittenSame(t.labels.value, ControllerUid, uid, ControllerName, key.name);
    }
    if t.annotations.Some? {
      OverwrittenSame(t.annotations.value, ControllerGeneration, FormatInt(generation), ControllerHash, h(t));
    }
  }

  lemma OverwrittenSame(m: StringMap, k: Key, v: string, l: Key, u: string)
    requires k != l
    ensures m[k := v][l := u] == m <==> Says(m, k, v) && Says(m, l, u)
  {
    var n := m[k := v][l := u];
    assert n[k] == v && n[l] == u;
  }
}
