/** What the scan over a job's conditions decides, and when the order of the conditions matters. */
module JobConditions {
  import opened Status
  import opened Objects
  import opened Reconciler

  predicate Terminal(c: JobCondition) {
    (c.typ == JobFailed || c.typ == JobComplete) && c.status == ConditionTrue
  }

  /** Nothing terminal before i, and i is terminal. */
  ghost predicate FirstTerminal(conditions: seq<JobCondition>, i: nat) {
    && i < |conditions| && Terminal(conditions[i])
    && forall j :: 0 <= j < i ==> !Terminal(conditions[j])
  }

  /** The scan reports the first true terminal condition, with its reason and message, or that the
      job is still being waited for when there is none. */
  lemma {:induction false} ScanIsFirstTerminal(conditions: seq<JobCondition>)
    ensures (forall j :: 0 <= j < |conditions| ==> !Terminal(conditions[j])) ==>
              Scan(conditions) == (StateProcessing, WaitingForJob, 10)
    ensures forall i: nat :: FirstTerminal(conditions, i) ==>
              Scan(conditions) == (if conditions[i].typ == JobFailed then StateError else StateReady,
                                   JobSays(conditions[i].reason, conditions[i].message),
                                   if conditions[i].typ == JobFailed then 60 else 600)
  {
    if conditions != [] {
      ScanIsFirstTerminal(conditions[1..]);
      assert forall j :: 0 < j < |conditions| ==> conditions[1..][j - 1] == conditions[j];
      forall i: nat | FirstTerminal(conditions, i)
        ensures Scan(conditions) == (if conditions[i].typ == JobFailed then StateError else StateReady,
                                     JobSays(conditions[i].reason, conditions[i].message),
                                     if conditions[i].typ == JobFailed then 60 else 600)
      {
        if i > 0 {
          assert FirstTerminal(conditions[1..], i - 1);
        }
      }
    }
  }

  /** What a job's conditions say: the first true terminal one decides state, message and delay, a
      failure for a minute and a success for ten; without one the job is waited for, ten seconds long. */
  ghost predicate Verdict(conditions: seq<JobCondition>, state: ReactiveJobState, message: Message, seconds: nat) {
    && ((forall j :: 0 <= j < |conditions| ==> !Terminal(conditions[j])) ==>
          state == StateProcessing && message == WaitingForJob && seconds == 10)
    && forall i: nat :: FirstTerminal(conditions, i) ==>
         && message == JobSays(conditions[i].reason, conditions[i].message)
         && if conditions[i].typ == JobFailed then state == StateError && seconds == 60
            else state == StateReady && seconds == 600
  }

  lemma ScanVerdict(conditions: seq<JobCondition>)
    ensures var (state, message, seconds) := Scan(conditions); Verdict(conditions, state, message, seconds)
  {
    ScanIsFirstTerminal(conditions);
  }

  lemma {:induction false} FirstTerminalExists(conditions: seq<JobCondition>)
    requires exists j :: 0 <= j < |conditions| && Terminal(conditions[j])
    ensures exists i: nat :: FirstTerminal(conditions, i)
  {
    var j :| 0 <= j < |conditions| && Terminal(conditions[j]);
    if !FirstTerminal(conditions, j) {
      FirstTerminalExists(conditions[..j]);
      var i: nat :| FirstTerminal(conditions[..j], i);
      assert forall k :: 0 <= k <= i ==> conditions[..j][k] == conditions[k];
      assert FirstTerminal(conditions, i);
    }
  }

  /** There is only one verdict. */
  lemma VerdictIsUnique(conditions: seq<JobCondition>, state: ReactiveJobState, message: Message, seconds: nat)
    requires Verdict(conditions, state, message, seconds)
    ensures (state, message, seconds) == Scan(conditions)
  {
    ScanVerdict(conditions);
    if exists j :: 0 <= j < |conditions| && Terminal(conditions[j]) {
      FirstTerminalExists(conditions);
    }
  }

  lemma {:induction false} StateByConditions(conditions: seq<JobCondition>)
    requires !(ConditionTrueFor(conditions, JobFailed) && ConditionTrueFor(conditions, JobComplete))
    ensures Scan(conditions).0 ==
              if ConditionTrueFor(conditions, JobFailed) then StateError
              else if ConditionTrueFor(conditions, JobComplete) then StateReady
              else StateProcessing
  {
    if conditions != [] {
      TrueInTail(conditions, JobFailed);
      TrueInTail(conditions, JobComplete);
      StateByConditions(conditions[1..]);
    }
  }

  lemma TrueInTail(conditions: seq<JobCondition>, typ: JobConditionType)
    requires conditions != []
    ensures ConditionTrueFor(conditions, typ) <==>
              (conditions[0].typ == typ && conditions[0].status == ConditionTrue)
                  || ConditionTrueFor(conditions[1..], typ)
  {
    if ConditionTrueFor(conditions[1..], typ) {
      var i :| 0 <= i < |conditions[1..]| && conditions[1..][i].typ == typ
          && conditions[1..][i].status == ConditionTrue;
      assert conditions[i + 1] == conditions[1..][i];
    }
    if ConditionTrueFor(conditions, typ) {
      var i :| 0 <= i < |conditions| && conditions[i].typ == typ && conditions[i].status == ConditionTrue;
      assert i > 0 ==> conditions[1..][i - 1] == conditions[i];
    }
  }

  lemma TrueInPermutation(a: seq<JobCondition>, b: seq<JobCondition>, typ: JobConditionType)
    requires multiset(a) == multiset(b) && ConditionTrueFor(a, typ)
    ensures ConditionTrueFor(b, typ)
  {
    var i :| 0 <= i < |a| && a[i].typ == typ && a[i].status == ConditionTrue;
    assert a[i] in multiset(b);
    assert a[i] in b;
    var j :| 0 <= j < |b| && b[j] == a[i];
  }

  /** Moving element i to the front. */
  lemma MovedToFront(conditions: seq<JobCondition>, i: nat) returns (moved: seq<JobCondition>)
    requires i < |conditions|
    ensures multiset(moved) == multiset(conditions) && moved != [] && moved[0] == conditions[i]
  {
    moved := [conditions[i]] + conditions[..i] + conditions[i + 1..];
    assert conditions == conditions[..i] + [conditions[i]] + conditions[i + 1..];
  }

  ghost predicate OrderIndependent(conditions: seq<JobCondition>) {
    forall other: seq<JobCondition> :: multiset(other) == multiset(conditions) ==> Scan(other).0 == Scan(conditions).0
  }

  /** The reported state does not depend on the order of the conditions exactly when Failed and
      Complete are not both true. */
  lemma OrderMattersExactly(conditions: seq<JobCondition>)
    ensures OrderIndependent(conditions) <==>
              !(ConditionTrueFor(conditions, JobFailed) && ConditionTrueFor(conditions, JobComplete))
  {
    if ConditionTrueFor(conditions, JobFailed) && ConditionTrueFor(conditions, JobComplete) {
      var i :| 0 <= i < |conditions| && conditions[i].typ == JobFailed && conditions[i].status == ConditionTrue;
      var j :| 0 <= j < |conditions| && conditions[j].typ == JobComplete && conditions[j].status == ConditionTrue;
      var failedFirst := MovedToFront(conditions, i);
      var completeFirst := MovedToFront(conditions, j);
      assert Scan(failedFirst).0 == StateError && Scan(completeFirst).0 == StateReady;
      var different := if Scan(conditions).0 == StateError then completeFirst else failedFirst;
      assert multiset(different) == multiset(conditions) && Scan(different).0 != Scan(conditions).0;
    } else {
      forall other: seq<JobCondition> | multiset(other) == multiset(conditions)
        ensures Scan(other).0 == Scan(conditions).0
      {
        SameState(conditions, other);
      }
    }
  }

  lemma SameState(a: seq<JobCondition>, b: seq<JobCondition>)
    requires multiset(a) == multiset(b)
    requires !(ConditionTrueFor(a, JobFailed) && ConditionTrueFor(a, JobComplete))
    ensures Scan(a).0 == Scan(b).0
  {
    if ConditionTrueFor(a, JobFailed) { TrueInPermutation(a, b, JobFailed); }
    if ConditionTrueFor(b, JobFailed) { TrueInPermutation(b, a, JobFailed); }
    if ConditionTrueFor(a, JobComplete) { TrueInPermutation(a, b, JobComplete); }
    if ConditionTrueFor(b, JobComplete) { TrueInPermutation(b, a, JobComplete); }
    StateByConditions(a);
    StateByConditions(b);
  }
}
