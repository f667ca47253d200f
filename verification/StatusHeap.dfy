/** The status of a ReactiveJob as the program holds it: a record whose list of conditions is a slice
    of records with pointers to times, updated in place and deep-copied. */
module StatusHeap {
  import opened Options
  import opened Status

  /** What a time pointer points to. */
  class TimeCell {
    var t: int

    constructor (t: int)
      ensures this.t == t
    {
      this.t := t;
    }
  }

  /** One element of the condition slice; a reference to it is an interior pointer. */
  class ConditionCell {
    var typ: ConditionType
    var status: ConditionStatus
    var lastUpdateTime: TimeCell?
    var lastTransitionTime: TimeCell?
    var reason: ReactiveJobState
    var message: Message

    constructor (typ: ConditionType, lastTransitionTime: TimeCell?)
      ensures this.typ == typ && this.lastTransitionTime == lastTransitionTime && lastUpdateTime == null
    {
      this.typ := typ;
      this.lastTransitionTime := lastTransitionTime;
      status, lastUpdateTime, reason, message := ConditionUnknown, null, StateUnset, FirstSeen;
    }

    /** The cells the times are kept in lie within a footprint. */
    ghost predicate TimesIn(footprint: set<object>)
      reads this
    {
      && (lastUpdateTime == null || lastUpdateTime in footprint)
      && (lastTransitionTime == null || lastTransitionTime in footprint)
    }

    function Value(): Condition
      reads this, lastUpdateTime, lastTransitionTime
    {
      Condition(typ, status,
                if lastUpdateTime == null then None else Some(lastUpdateTime.t),
                if lastTransitionTime == null then None else Some(lastTransitionTime.t),
                reason, message)
    }

    /** The assignments through the interior pointer that a status update makes. */
    method Write(status: ConditionStatus, now: TimeCell, transition: bool, reason: ReactiveJobState, message: Message)
      modifies this
      ensures Value() == Condition(old(typ), status, Some(now.t),
                                   if transition then Some(now.t) else old(Value()).lastTransitionTime, reason, message)
      ensures lastUpdateTime == now && lastTransitionTime == (if transition then now else old(lastTransitionTime))
    {
      if transition {
        lastTransitionTime := now;
      }
      lastUpdateTime := now;
      this.status := status;
      this.reason := reason;
      this.message := message;
    }

    /** Copies this condition into another one: the times get cells of their own. */
    method DeepCopyInto(out: ConditionCell)
      requires out != this
      modifies out
      ensures out.Value() == old(Value())
      ensures out.lastUpdateTime != null ==> fresh(out.lastUpdateTime)
      ensures out.lastTransitionTime != null ==> fresh(out.lastTransitionTime)
    {
      out.typ, out.status, out.reason, out.message := typ, status, reason, message;
      out.lastUpdateTime, out.lastTransitionTime := lastUpdateTime, lastTransitionTime;
      if lastUpdateTime != null {
        out.lastUpdateTime := new TimeCell(lastUpdateTime.t);
      }
      if lastTransitionTime != null {
        out.lastTransitionTime := new TimeCell(lastTransitionTime.t);
      }
    }

    method DeepCopy() returns (out: ConditionCell)
      ensures fresh(out)
      ensures out.lastUpdateTime != null ==> fresh(out.lastUpdateTime)
      ensures out.lastTransitionTime != null ==> fresh(out.lastTransitionTime)
      ensures out.Value() == Value()
    {
      out := new ConditionCell(typ, null);
      DeepCopyInto(out);
    }
  }

  method DecodeTime(t: Option<int>) returns (cell: TimeCell?)
    ensures cell != null ==> fresh(cell)
    ensures t == if cell == null then None else Some(cell.t)
  {
    cell := null;
    if t.Some? {
      cell := new TimeCell(t.value);
    }
  }

  method DecodeCondition(value: Condition) returns (cell: ConditionCell)
    ensures fresh(cell) && cell.Value() == value
    ensures cell.lastUpdateTime != null ==> fresh(cell.lastUpdateTime)
    ensures cell.lastTransitionTime != null ==> fresh(cell.lastTransitionTime)
  {
    var transition := DecodeTime(value.lastTransitionTime);
    var update := DecodeTime(value.lastUpdateTime);
    cell := new ConditionCell(value.typ, transition);
    cell.lastUpdateTime := update;
    cell.status, cell.reason, cell.message := value.status, value.reason, value.message;
  }

  ghost predicate Distinct(conditions: seq<ConditionCell>) {
    forall i, j :: 0 <= i < j < |conditions| ==> conditions[i] != conditions[j]
  }

  /** The status record. The slice of conditions may be nil (not present). */
  class StatusObject {
    var observedGeneration: int
    var conditions: seq<ConditionCell>
    var present: bool
    var state: ReactiveJobState
    var currentJobName: string

    /** The values of the conditions, and every cell the status is made of. */
    ghost var contents: seq<Condition>
    ghost var Repr: set<object>

    /** The elements of the slice are different records, and they hold the contents. */
    ghost predicate Valid()
      reads this, Repr
      ensures Valid() ==> this in Repr
    {
      && this in Repr
      && (!present ==> conditions == [])
      && Distinct(conditions)
      && |contents| == |conditions|
      && forall i :: 0 <= i < |conditions| ==>
           conditions[i] in Repr && conditions[i].TimesIn(Repr) && conditions[i].Value() == contents[i]
    }

    constructor ()
      ensures Valid() && Value() == INITIAL_STATUS && fresh(Repr) && !present
    {
      observedGeneration, conditions, present, state, currentJobName := -1, [], false, StateUnset, "";
      contents := [];
      Repr := {this};
    }

    ghost function Value(): JobStatus
      reads this
    {
      JobStatus(observedGeneration, contents, state, currentJobName)
    }

    /** Decodes a status into this record: everything it points to is new. */
    method Load(value: JobStatus)
      modifies this
      ensures Valid() && fresh(Repr - {this}) && Value() == value
    {
      var cells: seq<ConditionCell> := [];
      ghost var footprint: set<object> := {};
      for i := 0 to |value.conditions|
        invariant |cells| == i && Distinct(cells) && fresh(footprint)
        invariant forall j :: 0 <= j < i ==>
                    cells[j] in footprint && cells[j].TimesIn(footprint) && cells[j].Value() == value.conditions[j]
      {
        var cell := DecodeCondition(value.conditions[i]);
        cells := cells + [cell];
        footprint := footprint + {cell}
          + (if cell.lastUpdateTime == null then {} else {cell.lastUpdateTime as object})
          + (if cell.lastTransitionTime == null then {} else {cell.lastTransitionTime as object});
      }
      observedGeneration, state, currentJobName := value.observedGeneration, value.state, value.currentJobName;
      conditions, present := cells, cells != [];
      contents := value.conditions;
      Repr := {this} + footprint;
    }

    /** The first condition of a type, by reference, or null. */
    method GetCondition(typ: ConditionType) returns (cond: ConditionCell?)
      requires Valid()
      ensures var k := Find(contents, typ);
              if k < |conditions| then cond == conditions[k] else cond == null
    {
      var i := 0;
      while i < |conditions|
        invariant 0 <= i <= |conditions|
        invariant forall j :: 0 <= j < i ==> contents[j].typ != typ
      {
        if conditions[i].typ == typ {
          FindIs(contents, typ, i);
          return conditions[i];
        }
        i := i + 1;
      }
      FindIs(contents, typ, i);
      return null;
    }

    /** Appends a condition that has only its type and transition time yet. */
    method Append(typ: ConditionType, now: TimeCell) returns (cond: ConditionCell)
      requires Valid()
      modifies this
      ensures Valid() && fresh(cond) && Repr == old(Repr) + {cond, now}
      ensures conditions == old(conditions) + [cond]
      ensures contents == old(contents) + [cond.Value()]
      ensures cond.Value().typ == typ && cond.Value().lastTransitionTime == Some(now.t)
      ensures observedGeneration == old(observedGeneration) && state == old(state)
              && currentJobName == old(currentJobName)
    {
      cond := new ConditionCell(typ, now);
      conditions := conditions + [cond];
      present := true;
      contents := contents + [cond.Value()];
      Repr := Repr + {cond, now};
    }

    /** Writes through the pointer to element k. */
    method WriteThrough(cond: ConditionCell, ghost k: nat, status: ConditionStatus, now: TimeCell, transition: bool,
                        reason: ReactiveJobState, message: Message)
      requires Valid() && k < |conditions| && cond == conditions[k]
      modifies this`contents, this`Repr, cond
      ensures Valid() && Repr == old(Repr) + {now}
      ensures contents == old(contents)[k := Condition(old(contents)[k].typ, status, Some(now.t),
                            if transition then Some(now.t) else old(contents)[k].lastTransitionTime, reason, message)]
    {
      cond.Write(status, now, transition, reason, message);
      contents := contents[k := cond.Value()];
      Repr := Repr + {now};
    }

    method SetCondition(typ: ConditionType, status: ConditionStatus, reason: ReactiveJobState, message: Message,
                        clock: int)
      requires Valid()
      modifies this, conditions
      ensures Valid() && fresh(Repr - old(Repr))
      ensures contents == Status.SetCondition(old(contents), typ, status, reason, message, clock)
      ensures observedGeneration == old(observedGeneration) && state == old(state)
              && currentJobName == old(currentJobName)
    {
      var now := new TimeCell(clock);
      var cond := GetCondition(typ);
      ghost var k := Find(contents, typ);
      var transition := false;
      if cond == null {
        cond := Append(typ, now);
      } else if cond.status != status {
        transition := true;
      }
      WriteThrough(cond, k, status, now, transition, reason, message);
    }

    /** Sets the state and the Ready condition. */
    method SetState(newState: ReactiveJobState, message: Message, clock: int)
      requires Valid()
      modifies this, conditions
      ensures Valid() && fresh(Repr - old(Repr))
      ensures Value() == Status.SetState(old(Value()), newState, message, clock)
    {
      var conditionStatus := ConditionUnknown;
      match newState {
        case StateReady => conditionStatus := ConditionTrue;
        case StateError => conditionStatus := ConditionFalse;
        case _ =>
      }
      SetCondition(TypeReady, conditionStatus, newState, message, clock);
      state := newState;
    }

    /** New elements with new times, holding the same values. */
    method CopyConditions() returns (copies: seq<ConditionCell>, ghost cells: set<object>)
      requires Valid()
      ensures fresh(cells) && Distinct(copies) && |copies| == |conditions|
      ensures forall j :: 0 <= j < |copies| ==>
                copies[j] in cells && copies[j].TimesIn(cells) && copies[j].Value() == contents[j]
    {
      copies, cells := [], {};
      for i := 0 to |conditions|
        invariant |copies| == i && Distinct(copies) && fresh(cells)
        invariant forall j :: 0 <= j < i ==>
                    copies[j] in cells && copies[j].TimesIn(cells) && copies[j].Value() == contents[j]
      {
        var copy := conditions[i].DeepCopy();
        copies := copies + [copy];
        cells := cells + {copy}
          + (if copy.lastUpdateTime == null then {} else {copy.lastUpdateTime as object})
          + (if copy.lastTransitionTime == null then {} else {copy.lastTransitionTime as object});
      }
    }

    /** Copies this status into another one: the slice, its elements and their times are new. */
    method DeepCopyInto(out: StatusObject)
      requires Valid() && out !in Repr
      modifies out
      ensures Valid() && out.Valid()
      ensures out.Value() == Value() && out.present == present
      ensures fresh(out.Repr - {out})
    {
      CopyFields(out);
      if present {
        var copies;
        ghost var cells;
        copies, cells := CopyConditions();
        out.Refer(copies, true, contents, cells);
      } else {
        out.Refer([], false, [], {});
      }
    }

    /** The plain fields. */
    method CopyFields(out: StatusObject)
      modifies out`observedGeneration, out`state, out`currentJobName
      ensures out.observedGeneration == observedGeneration && out.state == state && out.currentJobName == currentJobName
    {
      out.observedGeneration, out.state, out.currentJobName := observedGeneration, state, currentJobName;
    }

    /** Makes a slice of elements this status's conditions. */
    method Refer(elements: seq<ConditionCell>, isPresent: bool, ghost values: seq<Condition>, ghost cells: set<object>)
      requires Distinct(elements) && |elements| == |values| && (!isPresent ==> elements == [])
      requires forall j :: 0 <= j < |elements| ==>
                 elements[j] in cells && elements[j].TimesIn(cells) && elements[j].Value() == values[j]
      modifies this`conditions, this`present, this`contents, this`Repr
      ensures Valid() && Repr == {this} + cells && contents == values && present == isPresent
    {
      conditions, present := elements, isPresent;
      contents, Repr := values, {this} + cells;
    }

    method DeepCopy() returns (out: StatusObject)
      requires Valid()
      ensures out.Valid() && fresh(out.Repr)
      ensures out.Value() == Value() && out.present == present
    {
      out := new StatusObject();
      DeepCopyInto(out);
    }
  }

  lemma {:induction false} FindIs(conditions: seq<Condition>, typ: ConditionType, k: nat)
    requires k <= |conditions|
    requires forall i :: 0 <= i < k ==> conditions[i].typ != typ
    requires k < |conditions| ==> conditions[k].typ == typ
    ensures Find(conditions, typ) == k
  {
    if k > 0 {
      FindIs(conditions[1..], typ, k - 1);
    }
  }

  /** A deep copy is separate: any later sequence of SetState calls on the copy leaves the original's
      value alone and replays those calls on the copy's. */
  method ReplayOnCopy(original: StatusObject, calls: seq<StateCall>) returns (copy: StatusObject)
    requires original.Valid()
    ensures copy.Valid() && fresh(copy.Repr)
    ensures original.Valid() && original.Value() == old(original.Value())
    ensures copy.Value() == Replay(original.Value(), calls)
  {
    copy := original.DeepCopy();
    for n := 0 to |calls|
      invariant copy.Valid() && fresh(copy.Repr)
      invariant original.Valid() && original.Value() == old(original.Value())
      invariant copy.Value() == Replay(original.Value(), calls[..n])
    {
      copy.SetState(calls[n].state, calls[n].message, calls[n].now);
      assert calls[..n + 1][..n] == calls[..n];
    }
    assert calls[..|calls|] == calls;
  }
}
