/** ReactiveJobs, templates and jobs as the program holds them: records that share their label and
    annotation maps when one is built from the other, and that are separate after a deep copy. */
module ObjectHeap {
  import opened Options
  import opened Status
  import opened StatusHeap
  import opened Objects

  /** A map: a reference, as in the program. */
  class StringMapCell {
    var m: StringMap

    constructor (m: StringMap)
      ensures this.m == m
    {
      this.m := m;
    }
  }

  function MapValue(c: StringMapCell?): Option<StringMap>
    reads c
  {
    if c == null then None else Some(c.m)
  }

  method CopyMap(c: StringMapCell?) returns (d: StringMapCell?)
    ensures d != null ==> fresh(d)
    ensures MapValue(d) == MapValue(c)
  {
    d := null;
    if c != null {
      d := new StringMapCell(c.m);
    }
  }

  method DecodeMap(m: Option<StringMap>) returns (c: StringMapCell?)
    ensures c != null ==> fresh(c)
    ensures MapValue(c) == m
  {
    c := null;
    if m.Some? {
      c := new StringMapCell(m.value);
    }
  }

  class TemplateObject {
    var labels: StringMapCell?
    var annotations: StringMapCell?
    var finalizers: seq<Finalizer>
    var body: string

    /** Labels and annotations are different maps. */
    ghost predicate Valid()
      reads this
    {
      labels == null || labels != annotations
    }

    ghost function Cells(): set<object>
      reads this
    {
      {this as object} + (if labels == null then {} else {labels as object})
      + (if annotations == null then {} else {annotations as object})
    }

    function Value(): Template
      reads this, labels, annotations
    {
      Template(MapValue(labels), MapValue(annotations), finalizers, body)
    }

    constructor (labels: StringMapCell?, annotations: StringMapCell?, finalizers: seq<Finalizer>, body: string)
      ensures this.labels == labels && this.annotations == annotations
      ensures this.finalizers == finalizers && this.body == body
    {
      this.labels, this.annotations, this.finalizers, this.body := labels, annotations, finalizers, body;
    }

    /** Decodes a template into this record: its maps are new. */
    method Load(value: Template)
      modifies this
      ensures Valid() && Value() == value && fresh(Cells() - {this})
    {
      finalizers, body := value.finalizers, value.body;
      labels := DecodeMap(value.labels);
      var decoded := DecodeMap(value.annotations);
      assert decoded == null || decoded != labels;
      annotations := decoded;
    }

    method DeepCopyInto(out: TemplateObject)
      requires Valid() && out != this
      modifies out
      ensures Valid() && out.Valid() && out.Value() == old(Value()) && Value() == old(Value())
      ensures fresh(out.Cells() - {out})
    {
      out.labels, out.annotations, out.finalizers, out.body := labels, annotations, finalizers, body;
      out.labels := CopyMap(labels);
      var copy := CopyMap(annotations);
      assert copy == null || copy != out.labels;
      out.annotations := copy;
    }
  }

  class JobObject {
    var namespace: string
    var name: string
    var generateName: string
    var labels: StringMapCell?
    var annotations: StringMapCell?
    var finalizers: seq<Finalizer>
    var body: string

    /** A job made from a template: the template's own maps and finalizers, not copies. The name is
        left to the server. */
    constructor (t: TemplateObject, namespace: string, generateName: string)
      ensures labels == t.labels && annotations == t.annotations && finalizers == t.finalizers && body == t.body
      ensures this.namespace == namespace && name == "" && this.generateName == generateName
    {
      labels, annotations, finalizers, body := t.labels, t.annotations, t.finalizers, t.body;
      this.namespace := namespace;
      this.name := "";
      this.generateName := generateName;
    }

    /** Replaces nil maps by empty ones, on the job only. */
    method MakeMaps()
      modifies this`labels, this`annotations
      ensures labels != null
      ensures if old(labels) == null then fresh(labels) && labels.m == map[] else labels == old(labels)
      ensures annotations != null
      ensures if old(annotations) == null then fresh(annotations) && annotations.m == map[]
              else annotations == old(annotations)
      ensures old(labels) == null || old(labels) != old(annotations) ==> labels != annotations
    {
      if labels == null {
        labels := new StringMapCell(map[]);
      }
      if annotations == null {
        annotations := new StringMapCell(map[]);
      }
    }

    /** The job as it goes over the wire; a nil map is an empty one there. */
    function Value(): Job
      reads this, labels, annotations
    {
      Job(namespace, name, generateName, MapOrEmpty(MapValue(labels)), MapOrEmpty(MapValue(annotations)),
          finalizers, body, 0, false, [])
    }
  }

  class ReactiveJobObject {
    var uid: string
    var generation: int
    var resourceVersion: nat
    var deleting: bool
    var finalizers: seq<Finalizer>
    const template: TemplateObject
    const status: StatusObject

    ghost function Repr(): set<object>
      reads this, template, status
    {
      {this as object} + template.Cells() + status.Repr
    }

    ghost predicate Valid()
      reads this, template, status, status.Repr
    {
      && template.Valid() && status.Valid()
      && this !in status.Repr && template.Cells() !! status.Repr
    }

    ghost function Value(): ReactiveJob
      reads this, template, template.labels, template.annotations, status
    {
      ReactiveJob(uid, generation, resourceVersion, deleting, finalizers, template.Value(), status.Value())
    }

    /** An object to read into. */
    constructor ()
      ensures Valid() && fresh(Repr())
    {
      uid, generation, resourceVersion, deleting, finalizers := "", 0, 0, false, [];
      template := new TemplateObject(null, null, [], "");
      status := new StatusObject();
    }

    /** Decodes a stored ReactiveJob into this object: everything it points to is new. */
    method Load(value: ReactiveJob)
      requires Valid()
      modifies this, template, status
      ensures Valid() && Value() == value && fresh(Repr() - old(Repr()))
    {
      uid, generation, resourceVersion, deleting := value.uid, value.generation, value.resourceVersion, value.deleting;
      finalizers := value.finalizers;
      template.Load(value.template);
      status.Load(value.status);
    }

    /** The plain fields. */
    method CopyFields(out: ReactiveJobObject)
      modifies out
      ensures out.uid == uid && out.generation == generation && out.resourceVersion == resourceVersion
      ensures out.deleting == deleting && out.finalizers == finalizers
    {
      out.uid, out.generation, out.resourceVersion, out.deleting := uid, generation, resourceVersion, deleting;
      out.finalizers := finalizers;
    }

    /** The records below, each copied deeply. */
    method CopyParts(out: ReactiveJobObject)
      requires Valid() && out.Valid() && {out as object, out.template, out.status} !! Repr()
      modifies out.template, out.status
      ensures Valid() && template.Value() == old(template.Value()) && status.Value() == old(status.Value())
      ensures out.Valid() && fresh(out.Repr() - old(out.Repr()))
      ensures out.template.Value() == template.Value()
      ensures out.status.Value() == status.Value() && out.status.present == status.present
    {
      assert out.template !in status.Repr && out.status !in status.Repr && out.template !in template.Cells();
      status.DeepCopyInto(out.status);
      template.DeepCopyInto(out.template);
    }

    method DeepCopyInto(out: ReactiveJobObject)
      requires Valid() && out.Valid() && {out as object, out.template, out.status} !! Repr()
      modifies out, out.template, out.status
      ensures Valid() && Value() == old(Value())
      ensures out.Valid() && out.Value() == Value() && out.status.present == status.present
      ensures fresh(out.Repr() - old(out.Repr()))
    {
      CopyParts(out);
      CopyFields(out);
    }

    method DeepCopy() returns (out: ReactiveJobObject)
      requires Valid()
      ensures out.Valid() && fresh(out.Repr())
      ensures Valid() && out.Value() == Value() && Value() == old(Value()) && out.status.present == status.present
    {
      out := new ReactiveJobObject();
      DeepCopyInto(out);
    }

    /** Acknowledges the generation in the status. */
    method AcknowledgeGeneration()
      requires Valid()
      modifies status
      ensures Valid() && Repr() == old(Repr()) && status.Repr == old(status.Repr)
              && status.conditions == old(status.conditions)
      ensures Value() == old(Value()).(status := old(Value()).status.(observedGeneration := generation))
    {
      status.observedGeneration := generation;
    }

    /** Names the current job in the status. */
    method NameJob(name: string)
      requires Valid()
      modifies status
      ensures Valid() && Repr() == old(Repr()) && status.Repr == old(status.Repr)
              && status.conditions == old(status.conditions)
      ensures Value() == old(Value()).(status := old(Value()).status.(currentJobName := name))
    {
      status.currentJobName := name;
    }

    method SetState(state: ReactiveJobState, message: Message, clock: int)
      requires Valid()
      modifies status, status.conditions
      ensures Valid() && fresh(status.Repr - old(status.Repr))
      ensures Value() == old(Value()).(status := Status.SetState(old(Value()).status, state, message, clock))
    {
      status.SetState(state, message, clock);
    }
  }

  /** The values of a list of ReactiveJobs. */
  class ReactiveJobListObject {
    var items: seq<ReactiveJobObject>
    var present: bool

    ghost predicate Valid()
      reads this, items, set i | i in items :: i.template, set i | i in items :: i.status,
            set i, x | i in items && x in i.status.Repr :: x
    {
      && (!present ==> items == [])
      && forall i :: i in items ==> i.Valid() && this !in i.Repr()
    }

    constructor ()
      ensures Valid() && items == [] && !present
    {
      items, present := [], false;
    }

    method CopyItem(n: nat) returns (copy: ReactiveJobObject)
      requires Valid() && n < |items|
      ensures CopyOf(copy, items[n]) && fresh(copy.Repr())
    {
      copy := items[n].DeepCopy();
    }

    /** Deep copies of all elements, separate from everything there was and from each other. */
    method CopyItems() returns (copies: seq<ReactiveJobObject>, ghost cells: set<object>)
      requires Valid()
      ensures |copies| == |items| && fresh(cells)
      ensures forall k :: 0 <= k < |items| ==> CopyOf(copies[k], items[k]) && copies[k].Repr() <= cells
      ensures forall j, k :: 0 <= j < k < |items| ==> copies[j].Repr() !! copies[k].Repr()
    {
      hide CopyOf;
      copies, cells := [], {};
      for n := 0 to |items|
        invariant |copies| == n && fresh(cells)
        invariant forall k :: 0 <= k < n ==> CopyOf(copies[k], items[k]) && copies[k].Repr() <= cells
        invariant forall j, k :: 0 <= j < k < n ==> copies[j].Repr() !! copies[k].Repr()
      {
        var copy := CopyItem(n);
        assert copy.Repr() !! cells;
        copies := copies + [copy];
        cells := cells + copy.Repr();
      }
    }

    /** Copies the list: every element is a deep copy of its own. */
    method DeepCopy() returns (out: ReactiveJobListObject)
      requires Valid()
      ensures fresh(out) && out.present == present && |out.items| == |items|
      ensures forall k :: 0 <= k < |items| ==> CopyOf(out.items[k], items[k]) && fresh(out.items[k].Repr())
      ensures forall j, k :: 0 <= j < k < |items| ==> out.items[j].Repr() !! out.items[k].Repr()
    {
      var copies := items;
      if present {
        ghost var cells;
        copies, cells := CopyItems();
      }
      out := new ReactiveJobListObject();
      out.items, out.present := copies, present;
    }
  }

  /** A valid object of the same value. */
  ghost predicate CopyOf(out: ReactiveJobObject, o: ReactiveJobObject)
    reads out, out.template, out.template.labels, out.template.annotations, out.status, out.status.Repr
    reads o, o.template, o.template.labels, o.template.annotations, o.status
  {
    out.Valid() && out.Value() == o.Value() && out.status.present == o.status.present
  }

  // ---------- Building a job ----------

  /** The job for a template, built on the template's own maps. The operator's labels and annotations
      are written through them, so the template in memory changes with the job; the hash was taken
      before. */
  method BuildDependentJob(h: HashFunction, key: NamespacedName, obj: ReactiveJobObject, hash: string)
      returns (job: JobObject)
    requires obj.Valid() && hash == h(obj.template.Value())
    modifies obj.template.labels, obj.template.annotations
    ensures fresh(job)
    ensures obj.Valid() && obj.Repr() == old(obj.Repr())
    ensures job.Value() == BuildJob(h, key, obj.uid, obj.generation, old(obj.template.Value()))
    ensures obj.Value()
            == old(obj.Value()).(template := Shared(h, key, obj.uid, obj.generation, old(obj.template.Value())))
    ensures obj.template.labels != null ==> job.labels == obj.template.labels
    ensures obj.template.annotations != null ==> job.annotations == obj.template.annotations
  {
    job := new JobObject(obj.template, key.namespace, key.name + "-");
    job.MakeMaps();
    WriteOwner(job.labels, job.annotations, obj.uid, key.name, obj.generation, hash);
    job.finalizers := AddFinalizer(job.finalizers, Operator);
  }

  /** The operator's labels and annotations, written into existing maps. */
  method WriteOwner(labels: StringMapCell, annotations: StringMapCell, uid: string, name: string, generation: int,
                    hash: string)
    requires labels != annotations
    modifies labels, annotations
    ensures labels.m == OwnedLabels(Some(old(labels.m)), uid, name)
    ensures annotations.m == OwnedAnnotations(Some(old(annotations.m)), generation, hash)
  {
    labels.m := labels.m[ControllerUid := uid];
    labels.m := labels.m[ControllerName := name];
    annotations.m := annotations.m[ControllerGeneration := Decimal.FormatInt(generation)];
    annotations.m := annotations.m[ControllerHash := hash];
  }
}
