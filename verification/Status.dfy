/** The status of a ReactiveJob as a value, and what a call of SetState makes of it. */
module Status {
  import opened Options

  datatype ConditionStatus = ConditionTrue | ConditionFalse | ConditionUnknown

  datatype ConditionType = TypeReady | TypeOther(name: string)

  /** StateUnset is the empty string: a status that was never written. */
  datatype ReactiveJobState =
    | StateUnset
    | StateNew
    | StateProcessing
    | StateDeletionBlocked
    | StateDeleting
    | StateReady
    | StateError

  /** The calls of a reconciliation that may fail, as named by the wrapping error text. */
  datatype Call = GetCall | ListCall | SetFinalizerCall | CreateCall | StripCall | ClearFinalizerCall | DeleteCall

  /** The human readable messages the operator writes. */
  datatype Message =
    | FirstSeen
    | JobCreated
    | WaitingForJob
    | JobSays(reason: string, text: string)
    | ForeignFinalizersBlock
    | WaitingForDependents
    | Failure(call: Call)

  datatype Condition = Condition(
    typ: ConditionType,
    status: ConditionStatus,
    lastUpdateTime: Option<int>,
    lastTransitionTime: Option<int>,
    reason: ReactiveJobState,
    message: Message)

  datatype JobStatus = JobStatus(
    observedGeneration: int,
    conditions: seq<Condition>,
    state: ReactiveJobState,
    currentJobName: string)

  /** The status a ReactiveJob starts with: the default of the resource definition. */
  const INITIAL_STATUS := JobStatus(-1, [], StateUnset, "")

  function StatusFor(state: ReactiveJobState): ConditionStatus {
    match state
    case StateReady => ConditionTrue
    case StateError => ConditionFalse
    case _ => ConditionUnknown
  }

  /** Position of the first condition of a type, or the length of the list when there is none. */
  function Find(conditions: seq<Condition>, typ: ConditionType): (k: nat)
    ensures k <= |conditions|
    ensures forall i :: 0 <= i < k ==> conditions[i].typ != typ
    ensures k < |conditions| ==> conditions[k].typ == typ
  {
    if conditions == [] then 0
    else if conditions[0].typ == typ then 0
    else 1 + Find(conditions[1..], typ)
  }

  function SetCondition(conditions: seq<Condition>, typ: ConditionType, status: ConditionStatus,
                        reason: ReactiveJobState, message: Message, now: int): seq<Condition>
  {
    var k := Find(conditions, typ);
    if k == |conditions| then
      conditions + [Condition(typ, status, Some(now), Some(now), reason, message)]
    else
      var transition := if conditions[k].status != status then Some(now) else conditions[k].lastTransitionTime;
      conditions[k := Condition(typ, status, Some(now), transition, reason, message)]
  }

  function SetState(s: JobStatus, state: ReactiveJobState, message: Message, now: int): JobStatus {
    s.(conditions := SetCondition(s.conditions, TypeReady, StatusFor(state), state, message, now),
       state := state)
  }

  // ---------- Lists of conditions ----------

  ghost predicate AtMostOnePerType(conditions: seq<Condition>) {
    forall i, j :: 0 <= i < j < |conditions| ==> conditions[i].typ != conditions[j].typ
  }

  /** The conditions of all other types, in their order. */
  function Others(conditions: seq<Condition>, typ: ConditionType): seq<Condition> {
    if conditions == [] then []
    else (if conditions[0].typ == typ then [] else [conditions[0]]) + Others(conditions[1..], typ)
  }

  lemma {:induction false} OthersConcat(a: seq<Condition>, b: seq<Condition>, typ: ConditionType)
    ensures Others(a + b, typ) == Others(a, typ) + Others(b, typ)
  {
    if a == [] {
      assert a + b == b;
    } else {
      assert (a + b)[0] == a[0] && (a + b)[1..] == a[1..] + b;
      OthersConcat(a[1..], b, typ);
    }
  }

  lemma ReplacedKeepsOthers(conditions: seq<Condition>, k: nat, c: Condition, typ: ConditionType)
    requires k < |conditions| && conditions[k].typ == typ && c.typ == typ
    ensures Others(conditions[k := c], typ) == Others(conditions, typ)
  {
    var front := conditions[..k];
    var rest := conditions[k + 1..];
    assert conditions == front + ([conditions[k]] + rest);
    assert conditions[k := c] == front + ([c] + rest);
    OthersConcat(front, [conditions[k]] + rest, typ);
    OthersConcat(front, [c] + rest, typ);
    OthersConcat([conditions[k]], rest, typ);
    OthersConcat([c], rest, typ);
    assert Others([conditions[k]], typ) == Others([c], typ) == [];
  }

  lemma SetConditionKeepsOthers(conditions: seq<Condition>, typ: ConditionType, status: ConditionStatus,
                                reason: ReactiveJobState, message: Message, now: int)
    ensures Others(SetCondition(conditions, typ, status, reason, message, now), typ) == Others(conditions, typ)
  {
    hide Others;
    var k := Find(conditions, typ);
    var result := SetCondition(conditions, typ, status, reason, message, now);
    if k == |conditions| {
      OthersConcat(conditions, [result[k]], typ);
      OneOfType(result[k]);
    } else {
      ReplacedKeepsOthers(conditions, k, result[k], typ);
    }
  }

  lemma OneOfType(c: Condition)
    ensures Others([c], c.typ) == []
  {
  }

  // ---------- One call ----------

  /** What one report changes of a status: the state, and the Ready condition, which is appended if
      there was none, says what the state says, and keeps its transition time exactly when its status
      does not change. Everything else stays. */
  ghost predicate Reported(before: JobStatus, after: JobStatus, state: ReactiveJobState, message: Message, now: int) {
    var k := Find(before.conditions, TypeReady);
    var known := k < |before.conditions|;
    var status :=
      if state == StateReady then ConditionTrue else if state == StateError then ConditionFalse else ConditionUnknown;
    && after.observedGeneration == before.observedGeneration
    && after.currentJobName == before.currentJobName
    && after.state == state
    && |after.conditions| == |before.conditions| + (if known then 0 else 1)
    && (forall i :: 0 <= i < |before.conditions| && i != k ==> after.conditions[i] == before.conditions[i])
    && after.conditions[k] ==
       Condition(TypeReady, status, Some(now),
                 if known && before.conditions[k].status == status then before.conditions[k].lastTransitionTime
                 else Some(now),
                 state, message)
  }

  lemma SetStateReports(s: JobStatus, state: ReactiveJobState, message: Message, now: int)
    ensures Reported(s, SetState(s, state, message, now), state, message, now)
  {
  }

  // ---------- Histories of calls ----------

  /** One call of SetState with the clock reading it took. */
  datatype StateCall = StateCall(state: ReactiveJobState, message: Message, now: int)

  function Replay(s: JobStatus, calls: seq<StateCall>): JobStatus {
    if calls == [] then s
    else
      var last := calls[|calls| - 1];
      SetState(Replay(s, calls[..|calls| - 1]), last.state, last.message, last.now)
  }

  /** What every status the operator has written looks like: one condition per type, and a Ready
      condition that is True exactly for Ready, False exactly for Error and Unknown otherwise. */
  ghost predicate ReadyConditionAgrees(s: JobStatus) {
    var k := Find(s.conditions, TypeReady);
    && k < |s.conditions|
    && var c := s.conditions[k];
       && (c.status == ConditionTrue <==> s.state == StateReady)
       && (c.status == ConditionFalse <==> s.state == StateError)
       && (c.status == ConditionUnknown <==> s.state != StateReady && s.state != StateError)
       && c.reason == s.state
       && c.lastUpdateTime.Some? && c.lastTransitionTime.Some?
  }

  lemma SetStateAgrees(s: JobStatus, state: ReactiveJobState, message: Message, now: int)
    requires AtMostOnePerType(s.conditions)
    requires var k := Find(s.conditions, TypeReady);
             k < |s.conditions| ==> s.conditions[k].lastTransitionTime.Some?
    ensures var t := SetState(s, state, message, now);
            AtMostOnePerType(t.conditions) && ReadyConditionAgrees(t)
  {
    var k := Find(s.conditions, TypeReady);
    var t := SetState(s, state, message, now);
    var k' := Find(t.conditions, TypeReady);
    assert t.conditions[k].typ == TypeReady;
    assert forall i :: 0 <= i < k ==> t.conditions[i] == s.conditions[i];
    assert k' == k;
  }

  /** Any sequence of calls: one condition per type, the other types untouched and in order, and
      a Ready condition that agrees with the last state. */
  lemma {:induction false} HistoryKeepsShape(s: JobStatus, calls: seq<StateCall>)
    requires AtMostOnePerType(s.conditions)
    requires var k := Find(s.conditions, TypeReady);
             k < |s.conditions| ==> s.conditions[k].lastTransitionTime.Some?
    ensures var t := Replay(s, calls);
            && AtMostOnePerType(t.conditions)
            && Others(t.conditions, TypeReady) == Others(s.conditions, TypeReady)
            && t.observedGeneration == s.observedGeneration && t.currentJobName == s.currentJobName
            && (calls != [] ==> ReadyConditionAgrees(t) && t.state == calls[|calls| - 1].state)
  {
    if calls != [] {
      var last := calls[|calls| - 1];
      var before := Replay(s, calls[..|calls| - 1]);
      HistoryKeepsShape(s, calls[..|calls| - 1]);
      SetStateAgrees(before, last.state, last.message, last.now);
      SetConditionKeepsOthers(before.conditions, TypeReady, StatusFor(last.state), last.state, last.message, last.now);
    }
  }

  /** Call k opened the unbroken run of equal condition status that the last call belongs to. */
  ghost predicate StartsLastRun(calls: seq<StateCall>, k: nat) {
    && k < |calls|
    && (forall i :: k <= i < |calls| ==> StatusFor(calls[i].state) == StatusFor(calls[|calls| - 1].state))
    && (k > 0 ==> StatusFor(calls[k - 1].state) != StatusFor(calls[|calls| - 1].state))
  }

  lemma {:induction false} LastRunExists(calls: seq<StateCall>) returns (k: nat)
    requires calls != []
    ensures StartsLastRun(calls, k)
  {
    var n := |calls|;
    if n == 1 {
      k := 0;
    } else if StatusFor(calls[n - 2].state) != StatusFor(calls[n - 1].state) {
      k := n - 1;
    } else {
      k := LastRunExists(calls[..n - 1]);
      assert calls[..n - 1][|calls[..n - 1]| - 1] == calls[n - 2];
      assert forall i :: k <= i < n - 1 ==> calls[i] == calls[..n - 1][i];
      assert k > 0 ==> calls[k - 1] == calls[..n - 1][k - 1];
    }
  }

  /** Starting without a Ready condition, the transition time is the time of the call that opened
      the latest run of equal condition status, and the update time is the time of the last call. */
  lemma {:induction false} TransitionTimeOfHistory(s: JobStatus, calls: seq<StateCall>, k: nat)
    requires Find(s.conditions, TypeReady) == |s.conditions|
    requires StartsLastRun(calls, k)
    ensures var t := Replay(s, calls);
            var i := Find(t.conditions, TypeReady);
            && i == |s.conditions| && i < |t.conditions|
            && t.conditions[i].status == StatusFor(calls[|calls| - 1].state)
            && t.conditions[i].lastTransitionTime == Some(calls[k].now)
            && t.conditions[i].lastUpdateTime == Some(calls[|calls| - 1].now)
    decreases |calls|
  {
    var n := |calls|;
    var rest := calls[..n - 1];
    var before := Replay(s, rest);
    if n == 1 {
      assert before == s;
      var t := Replay(s, calls);
      FindAfterSet(s, calls[0].state, calls[0].message, calls[0].now);
    } else {
      var last := calls[n - 1];
      if k == n - 1 {
        var k' := LastRunExists(rest);
        TransitionTimeOfHistory(s, rest, k');
      } else {
        assert StatusFor(calls[n - 2].state) == StatusFor(last.state);
        assert rest[|rest| - 1] == calls[n - 2];
        assert forall i :: k <= i < |rest| ==> rest[i] == calls[i];
        assert k > 0 ==> rest[k - 1] == calls[k - 1];
        TransitionTimeOfHistory(s, rest, k);
      }
      FindAfterSet(before, last.state, last.message, last.now);
    }
  }

  lemma FindAfterSet(s: JobStatus, state: ReactiveJobState, message: Message, now: int)
    ensures var t := SetState(s, state, message, now);
            Find(t.conditions, TypeReady) == Find(s.conditions, TypeReady)
  {
    var k := Find(s.conditions, TypeReady);
    var t := SetState(s, state, message, now);
    assert t.conditions[k].typ == TypeReady;
    assert forall i :: 0 <= i < k ==> t.conditions[i] == s.conditions[i];
  }
}
