/** Deletion terminates: a measure over the dependent jobs that every effective step decreases, and
    what an error-free reconciliation does once the measure is zero. */
module Deletion {
  import opened Options
  import opened Status
  import opened Objects
  import opened Sorting
  import opened Cluster
  import opened Reconciler
  import opened Invariant
  import opened Environment
  import opened OperatorSteps
  import opened Requests
  import opened Safety
  import opened Effects
  import opened Convergence
  import opened Failures

  // ---------- The measure ----------

  function FinalizerSet(j: Job): set<Finalizer> {
    set f | f in j.finalizers
  }

  /** Existence, the finalizers still held, and the missing deletion mark. */
  function Weight(j: Job): nat {
    1 + |FinalizerSet(j)| + (if j.deleting then 0 else 2)
  }

  ghost function Total(jobs: map<string, Job>, uid: string, names: set<string>): nat
    requires names <= jobs.Keys
    decreases |names|
  {
    if names == {} then 0
    else
      var n :| n in names;
      (if UidLabel(jobs[n]) == Some(uid) then Weight(jobs[n]) else 0) + Total(jobs, uid, names - {n})
  }

  /** What is left to be done before no job of the uid exists. */
  ghost function Burden(w: World, uid: string): nat {
    Total(w.jobs, uid, w.jobs.Keys)
  }

  function Share(j: Job, uid: string): nat {
    if UidLabel(j) == Some(uid) then Weight(j) else 0
  }

  lemma {:induction false} TotalSplit(jobs: map<string, Job>, uid: string, names: set<string>, n: string)
    requires names <= jobs.Keys && n in names
    ensures Total(jobs, uid, names) == Share(jobs[n], uid) + Total(jobs, uid, names - {n})
    decreases |names|
  {
    var m :| m in names && Total(jobs, uid, names) == Share(jobs[m], uid) + Total(jobs, uid, names - {m});
    if m != n {
      TotalSplit(jobs, uid, names - {m}, n);
      TotalSplit(jobs, uid, names - {n}, m);
      assert names - {m} - {n} == names - {n} - {m};
    }
  }

  lemma {:induction false} TotalSame(a: map<string, Job>, b: map<string, Job>, uid: string, names: set<string>)
    requires names <= a.Keys && names <= b.Keys
    requires forall n :: n in names ==> a[n] == b[n]
    ensures Total(a, uid, names) == Total(b, uid, names)
    decreases |names|
  {
    if names != {} {
      var n :| n in names;
      TotalSplit(a, uid, names, n);
      TotalSplit(b, uid, names, n);
      TotalSame(a, b, uid, names - {n});
    }
  }

  /** One job replaced: the burden changes by that job's share. */
  lemma BurdenReplaced(w: World, v: World, uid: string, n: string)
    requires n in w.jobs && n in v.jobs && v.jobs == w.jobs[n := v.jobs[n]]
    ensures Burden(v, uid) + Share(w.jobs[n], uid) == Burden(w, uid) + Share(v.jobs[n], uid)
  {
    TotalSplit(w.jobs, uid, w.jobs.Keys, n);
    TotalSplit(v.jobs, uid, v.jobs.Keys, n);
    assert v.jobs.Keys == w.jobs.Keys;
    TotalSame(w.jobs, v.jobs, uid, w.jobs.Keys - {n});
  }

  lemma BurdenRemoved(w: World, v: World, uid: string, n: string)
    requires n in w.jobs && v.jobs == w.jobs - {n}
    ensures Burden(v, uid) + Share(w.jobs[n], uid) == Burden(w, uid)
  {
    TotalSplit(w.jobs, uid, w.jobs.Keys, n);
    assert v.jobs.Keys == w.jobs.Keys - {n};
    TotalSame(w.jobs, v.jobs, uid, v.jobs.Keys);
  }

  lemma BurdenAdded(w: World, v: World, uid: string, n: string)
    requires n !in w.jobs && n in v.jobs && v.jobs == w.jobs[n := v.jobs[n]]
    ensures Burden(v, uid) == Burden(w, uid) + Share(v.jobs[n], uid)
  {
    assert w.jobs == v.jobs - {n};
    BurdenRemoved(v, w, uid, n);
  }

  /** The burden is zero exactly when no job of the uid exists. */
  lemma {:induction false} TotalZero(jobs: map<string, Job>, uid: string, names: set<string>)
    requires names <= jobs.Keys
    ensures Total(jobs, uid, names) == 0 <==> forall n :: n in names ==> UidLabel(jobs[n]) != Some(uid)
    decreases |names|
  {
    if names != {} {
      var n :| n in names;
      TotalSplit(jobs, uid, names, n);
      TotalZero(jobs, uid, names - {n});
      assert forall m :: m in names ==> m == n || m in names - {n};
    }
  }

  lemma BurdenZero(w: World, uid: string)
    ensures Burden(w, uid) == 0 <==> NoneOf(w, uid)
  {
    TotalZero(w.jobs, uid, w.jobs.Keys);
  }

  // ---------- Weights of single writes ----------

  lemma UnheldIsLighter(j: Job, revision: nat)
    requires Operator in j.finalizers
    ensures Weight(Unheld(j).(resourceVersion := revision)) < Weight(j)
  {
    var k := Unheld(j).(resourceVersion := revision);
    assert FinalizerSet(k) == FinalizerSet(j) - {Operator};
  }

  lemma MarkedIsLighter(j: Job, k: Job)
    requires !j.deleting && k.deleting
    requires k.finalizers == AddFinalizer(j.finalizers, ForegroundDeletion) || k.finalizers == j.finalizers
    ensures Weight(k) < Weight(j)
  {
    assert FinalizerSet(k) <= FinalizerSet(j) + {ForegroundDeletion};
    Fewer(FinalizerSet(k), FinalizerSet(j) + {ForegroundDeletion});
  }

  lemma {:induction false} Fewer(a: set<Finalizer>, b: set<Finalizer>)
    requires a <= b
    ensures |a| <= |b| && (a != b ==> |a| < |b|)
    decreases |a|
  {
    if a == {} {
      if b != {} {
        var x :| x in b;
        assert |b| == |b - {x}| + 1;
      }
    } else {
      var x :| x in a;
      Fewer(a - {x}, b - {x});
      assert a == (a - {x}) + {x} && b == (b - {x}) + {x};
    }
  }

  lemma FewerFinalizers(j: Job, k: Job)
    requires j.deleting == k.deleting
    requires forall f :: f in k.finalizers ==> f in j.finalizers
    ensures Weight(k) <= Weight(j)
    ensures (exists f :: f in j.finalizers && f !in k.finalizers) ==> Weight(k) < Weight(j)
  {
    assert FinalizerSet(k) <= FinalizerSet(j);
    Fewer(FinalizerSet(k), FinalizerSet(j));
    if f :| f in j.finalizers && f !in k.finalizers {
      assert f in FinalizerSet(j) && f !in FinalizerSet(k);
    }
  }

  // ---------- Steps ----------

  /** Some job of the uid changed or disappeared. */
  ghost predicate Touched(w: World, v: World, uid: string) {
    exists n :: n in w.jobs && UidLabel(w.jobs[n]) == Some(uid) && (n !in v.jobs || v.jobs[n] != w.jobs[n])
  }

  lemma ReplacedLightens(w: World, v: World, uid: string, n: string, k: Job)
    requires n in w.jobs && v.jobs == w.jobs[n := k]
    requires UidLabel(k) == UidLabel(w.jobs[n]) && Weight(k) < Weight(w.jobs[n])
    ensures Burden(v, uid) <= Burden(w, uid)
    ensures Touched(w, v, uid) ==> Burden(v, uid) < Burden(w, uid)
  {
    hide Burden, Weight, UidLabel;
    BurdenReplaced(w, v, uid, n);
  }

  lemma RemovedLightens(w: World, v: World, uid: string, n: string)
    requires n in w.jobs && v.jobs == w.jobs - {n}
    ensures Burden(v, uid) <= Burden(w, uid)
    ensures Touched(w, v, uid) ==> Burden(v, uid) < Burden(w, uid)
  {
    hide Burden, UidLabel;
    BurdenRemoved(w, v, uid, n);
  }

  lemma EffectLightens(s: System, v: World, uid: string)
    requires JobEffect(s, v) && NotHeldOtherwise(s)
    ensures if s.local.AtCreate? then
              Burden(v, uid) >= Burden(s.w, uid)
            else
              && Burden(v, uid) <= Burden(s.w, uid)
              && (Touched(s.w, v, uid) ==> Burden(v, uid) < Burden(s.w, uid))
  {
    hide Burden, Weight, Unheld, Marked, UidLabel, Touched;
    var w := s.w;
    if v.jobs == w.jobs {
      SameBurden(w, v, uid);
    } else if s.local.AtCreate? {
      var name :| name !in w.jobs && name in v.jobs && v.jobs == w.jobs[name := v.jobs[name]];
      BurdenAdded(w, v, uid, name);
    } else if s.local.AtDelete? {
      var n := s.local.jobs[s.local.i].name;
      MarkedLightens(w.jobs[n], n, w.revision + 1);
      ReplacedLightens(w, v, uid, n, Marked(w.jobs[n], n, w.revision + 1));
    } else {
      var j := s.local.jobs[s.local.i];
      UnheldLightens(j, w.revision + 1);
      if v.jobs == w.jobs - {j.name} {
        RemovedLightens(w, v, uid, j.name);
      } else {
        ReplacedLightens(w, v, uid, j.name, Unheld(j).(resourceVersion := w.revision + 1));
      }
    }
  }

  /** Every effective request of the operator on a job makes the burden smaller, except a create. */
  lemma OpLightens(h: HashFunction, s: System, o: Outcome, uid: string)
    requires Inv(h, s)
    ensures var v := OpStep(h, s, o).w;
            if s.local.AtCreate? then
              Burden(v, uid) >= Burden(s.w, uid)
            else
              && Burden(v, uid) <= Burden(s.w, uid)
              && (Touched(s.w, v, uid) ==> Burden(v, uid) < Burden(s.w, uid))
  {
    OpJobEffect(h, s, o);
    HeldAtWork(h, s);
    hide OpStep, Inv, Burden, JobEffect;
    EffectLightens(s, OpStep(h, s, o).w, uid);
  }

  lemma MarkedLightens(j: Job, n: string, revision: nat)
    requires !j.deleting
    ensures UidLabel(Marked(j, n, revision)) == UidLabel(j) && Weight(Marked(j, n, revision)) < Weight(j)
  {
    MarkedIsLighter(j, Marked(j, n, revision));
  }

  lemma UnheldLightens(j: Job, revision: nat)
    requires Operator in j.finalizers
    ensures UidLabel(Unheld(j).(resourceVersion := revision)) == UidLabel(j)
    ensures Weight(Unheld(j).(resourceVersion := revision)) < Weight(j)
  {
    UnheldIsLighter(j, revision);
  }

  lemma SameBurden(w: World, v: World, uid: string)
    requires v.jobs == w.jobs
    ensures Burden(v, uid) == Burden(w, uid) && !Touched(w, v, uid)
  {
  }

  ghost predicate NotHeldOtherwise(s: System) {
    s.local.AtStrip? || s.local.AtRelease? ==>
      s.local.i < |s.local.jobs| && Operator in s.local.jobs[s.local.i].finalizers
  }

  lemma HeldAtWork(h: HashFunction, s: System)
    requires Inv(h, s)
    ensures NotHeldOtherwise(s)
  {
    hide StoreInv, MemoryOk, SweepList, SortedJobsOf, Draining;
  }

  // ---------- Everybody else ----------

  /** The one way others can add to the burden: giving a new finalizer to a job not yet marked for deletion. */
  ghost predicate MayAdd(w: World, a: Action, uid: string) {
    && a.EditJob? && a.name in w.jobs && !w.jobs[a.name].deleting && UidLabel(w.jobs[a.name]) == Some(uid)
    && exists f :: f in a.finalizers && f !in w.jobs[a.name].finalizers
  }

  /** v is w with job n written as k, or removed because nothing holds it any more. */
  lemma WrittenJob(w: World, n: string, k: Job, uid: string)
    requires n in w.jobs && UidLabel(k) == UidLabel(w.jobs[n])
    requires UidLabel(k) == Some(uid) ==> Weight(k) <= Weight(w.jobs[n])
    ensures Burden(PutJob(w, n, k), uid) <= Burden(w, uid)
    ensures UidLabel(k) == Some(uid) && Weight(k) < Weight(w.jobs[n]) ==> Burden(PutJob(w, n, k), uid) < Burden(w, uid)
  {
    hide Burden, UidLabel;
    var v := PutJob(w, n, k);
    if k.deleting && k.finalizers == [] {
      BurdenRemoved(w, v, uid, n);
    } else {
      BurdenReplaced(w, v, uid, n);
      SameWeight(k, n, w.revision + 1);
    }
  }

  lemma SameWeight(k: Job, n: string, revision: nat)
    ensures Weight(k.(name := n, resourceVersion := revision)) == Weight(k)
    ensures UidLabel(k.(name := n, resourceVersion := revision)) == UidLabel(k)
  {
  }

  /** Nobody else adds to the burden, except by giving a new finalizer to a job not yet marked; and
      whoever takes a finalizer off a job or marks one makes the burden smaller. */
  lemma ActLightens(w: World, a: Action, uid: string)
    requires Revisions(w) && uid in w.uids && !MayAdd(w, a, uid)
    ensures Burden(Act(w, a), uid) <= Burden(w, uid)
    ensures Permitted(w, a) && a.EditJob? && UidLabel(w.jobs[a.name]) == Some(uid)
            && (exists f :: f in w.jobs[a.name].finalizers && f !in a.finalizers)
            ==> Burden(Act(w, a), uid) < Burden(w, uid)
    ensures Permitted(w, a) && a.RemoveJob? && UidLabel(w.jobs[a.name]) == Some(uid) ==>
              Burden(Act(w, a), uid) < Burden(w, uid)
  {
    hide Burden, EnqueueMapper, Wakes, PutReactiveJob, SameKey;
    var v := Act(w, a);
    if !Permitted(w, a) {
      SameBurden(w, v, uid);
    } else {
      match a
      case EditJob(n, labels, annotations, finalizers) =>
        var k := w.jobs[n].(labels := labels, annotations := annotations, finalizers := finalizers);
        SameUid(w.jobs[n].labels, labels);
        if UidLabel(w.jobs[n]) == Some(uid) {
          FewerFinalizers(w.jobs[n], k);
        }
        WrittenJob(w, n, k, uid);
      case ReportConditions(n, conditions) =>
        WrittenJob(w, n, w.jobs[n].(conditions := conditions), uid);
      case RemoveJob(n, foreground) =>
        var fs := if foreground then AddFinalizer(w.jobs[n].finalizers, ForegroundDeletion) else w.jobs[n].finalizers;
        MarkedIsLighter(w.jobs[n], w.jobs[n].(deleting := true, finalizers := fs));
        WrittenJob(w, n, w.jobs[n].(deleting := true, finalizers := fs), uid);
      case AddForeignJob(job) =>
        BurdenAdded(w, v, uid, job.name);
      case _ =>
        ReactiveJobActionJobs(w, a);
        SameBurden(w, v, uid);
    }
  }

  lemma SameUid(a: StringMap, b: StringMap)
    requires SameKey(a, b, ControllerUid)
    ensures (if ControllerUid in a then Some(a[ControllerUid]) else None)
            == (if ControllerUid in b then Some(b[ControllerUid]) else None)
  {
  }

  lemma ReactiveJobActionJobs(w: World, a: Action)
    requires !a.EditJob? && !a.ReportConditions? && !a.RemoveJob? && !a.AddForeignJob?
    ensures Act(w, a).jobs == w.jobs
  {
  }

  // ---------- Runs ----------

  /** The ReactiveJob of this uid is being deleted or gone. */
  ghost predicate Doomed(w: World, uid: string) {
    uid in w.uids && (w.rj.Some? && w.rj.value.uid == uid ==> w.rj.value.deleting)
  }

  /** What a reconciliation that read the ReactiveJob before its deletion may still add to the burden:
      the job it is about to create, or would create for the template it read. At the finalizer write
      there is nothing to add, because that write is refused once the deletion has begun. */
  ghost function Slack(h: HashFunction, s: System, uid: string): nat {
    match s.local
    case AtList(obj) =>
      if obj.uid == uid && !obj.deleting then
        Weight(BuildJob(h, s.w.key, obj.uid, obj.generation, obj.template))
      else 0
    case AtCreate(obj, job) => if obj.uid == uid then Weight(job) else 0
    case _ => 0
  }

  /** Where a decision leads: a create is one of the job for the template in memory. */
  lemma ProceedSlack(h: HashFunction, w: World, obj: ReactiveJob, jobs: seq<Job>, uid: string)
    ensures var t := Proceed(h, w, obj, jobs);
            && t.w == w && !t.local.AtList? && (t.local.AtCreate? ==> t.local.obj.uid == obj.uid)
            && Slack(h, t, uid)
               <= if obj.uid == uid then Weight(BuildJob(h, w.key, obj.uid, obj.generation, obj.template)) else 0
  {
    ProceedKeepsWorld(h, w, obj, jobs);
    hide BuildJob, Shared, HashOf, Scan, SetState, Weight;
  }

  lemma DispatchSlack(h: HashFunction, w: World, obj: ReactiveJob, jobs: seq<Job>, uid: string)
    ensures Slack(h, Dispatch(h, w, obj, jobs), uid) <= Slack(h, System(w, AtList(obj)), uid)
  {
    ProceedSlack(h, w, obj, jobs, uid);
    DrainGoesOn(w, obj, jobs, 0);
    hide Proceed, Drain, SetState, Weight, BuildJob;
  }

  /** The late finalizer write is refused. */
  lemma LateFenceRefused(h: HashFunction, s: System)
    requires Inv(h, s) && s.local.AtFence? && Doomed(s.w, s.local.obj.uid)
    ensures !UpdateAccepted(s.w, s.local.obj)
  {
    hide StoreInv, StatusShape;
  }

  lemma FenceReplyUid(h: HashFunction, s: System)
    requires Inv(h, s) && s.local.AtFence? && UpdateAccepted(s.w, s.local.obj)
    ensures UpdateReactiveJob(s.w, s.local.obj).1.value.uid == s.local.obj.uid
  {
    hide StoreInv, StatusShape;
  }

  lemma FenceSlack(h: HashFunction, s: System, o: Outcome, uid: string)
    requires Inv(h, s) && s.local.AtFence? && Doomed(s.w, uid)
    ensures Slack(h, OpStep(h, s, o), uid) == 0
  {
    var obj := s.local.obj;
    if obj.uid == uid {
      LateFenceRefused(h, s);
    } else if UpdateAccepted(s.w, obj) {
      FenceReplyUid(h, s);
      var (v, reply) := UpdateReactiveJob(s.w, obj);
      ProceedSlack(h, v, reply.value, s.local.jobs, uid);
    }
    hide Inv, Proceed, SetState, Weight, BuildJob, UpdateAccepted, UpdateReply;
  }

  lemma SweepSlack(h: HashFunction, w: World, obj: ReactiveJob, jobs: seq<Job>, i: nat, uid: string)
    requires jobs != []
    ensures Slack(h, Sweep(w, obj, jobs, i), uid) == 0
  {
    hide Scan, SetState, Weight, BuildJob;
  }

  lemma DrainSlack(h: HashFunction, w: World, obj: ReactiveJob, jobs: seq<Job>, i: nat, uid: string)
    ensures Slack(h, Drain(w, obj, jobs, i), uid) == 0
  {
    DrainGoesOn(w, obj, jobs, i);
    hide Drain, Weight, BuildJob;
  }

  lemma LoopSlack(h: HashFunction, s: System, o: Outcome, uid: string)
    requires s.local.AtStrip? || s.local.AtRelease? || s.local.AtDelete?
    requires s.local.i < |s.local.jobs|
    ensures Slack(h, OpStep(h, s, o), uid) == 0
  {
    hide UpdateJob, DeleteJob, SetState, Sweep, Drain, Weight, BuildJob, Unheld;
    var obj := s.local.obj;
    var jobs := s.local.jobs;
    var i := s.local.i;
    SweepSlack(h, UpdateJob(s.w, Unheld(jobs[i])).0, obj, jobs, i + 1, uid);
    DrainSlack(h, UpdateJob(s.w, Unheld(jobs[i])).0, obj, jobs, i + 1, uid);
    DrainSlack(h, DeleteJob(s.w, jobs[i].name, true).0, obj, jobs, i + 1, uid);
  }

  lemma IdleSlack(h: HashFunction, s: System, o: Outcome, uid: string)
    requires s.local.Idle? && Doomed(s.w, uid)
    ensures Slack(h, OpStep(h, s, o), uid) == 0
  {
    hide SetState, Weight, BuildJob;
  }

  lemma ListSlack(h: HashFunction, s: System, o: Outcome, uid: string)
    requires s.local.AtList?
    ensures Slack(h, OpStep(h, s, o), uid) <= Slack(h, s, uid)
  {
    hide Dispatch, SetState, Weight, BuildJob, Sorted, IsListing, SortPanics;
    if o.Answered? {
      DispatchSlack(h, s.w, s.local.obj, Sorted(o.items), uid);
    }
  }

  lemma LastSlack(h: HashFunction, s: System, o: Outcome, uid: string)
    requires s.local.AtCreate? || s.local.AtClear? || s.local.AtStatus?
    ensures Slack(h, OpStep(h, s, o), uid) == 0
  {
    hide SetState, Weight, BuildJob, UpdateReactiveJob, UpdateStatus, CreateJob;
  }

  /** A request of a reconciliation whose ReactiveJob is doomed never adds to the slack, and a create
      uses it up. */
  lemma OpSlack(h: HashFunction, s: System, o: Outcome, uid: string)
    requires Inv(h, s) && Doomed(s.w, uid)
    ensures Slack(h, OpStep(h, s, o), uid) <= if s.local.AtCreate? then 0 else Slack(h, s, uid)
  {
    hide Inv, OpStep, Slack, Doomed;
    if s.local.AtStrip? || s.local.AtRelease? || s.local.AtDelete? {
      LoopJob(h, s);
      LoopSlack(h, s, o, uid);
    } else if s.local.AtList? {
      ListSlack(h, s, o, uid);
    } else if s.local.AtFence? {
      FenceSlack(h, s, o, uid);
    } else if s.local.Idle? {
      IdleSlack(h, s, o, uid);
    } else {
      LastSlack(h, s, o, uid);
    }
  }

  /** A deletion is never taken back, and a uid never lives twice. */
  lemma DoomedStays(h: HashFunction, s: System, e: Event, uid: string)
    requires Inv(h, s) && Doomed(s.w, uid)
    ensures Doomed(Step(h, s, e).w, uid)
  {
    StepForwards(h, s, e);
    hide Inv, Step;
  }

  /** The request of a create writes one new job, or nothing. */
  lemma CreateWrites(h: HashFunction, s: System, o: Outcome)
    requires Inv(h, s) && s.local.AtCreate?
    ensures var v := OpStep(h, s, o).w;
            var name := GeneratedName(s.local.job, Suffix(o));
            if o.NotDelivered? || name in s.w.jobs then
              v.jobs == s.w.jobs
            else
              && name in v.jobs && v.jobs == s.w.jobs[name := v.jobs[name]]
              && UidLabel(v.jobs[name]) == Some(s.local.obj.uid) && Weight(v.jobs[name]) == Weight(s.local.job)
  {
    CreatedLabel(h, s);
    CreateStepEffect(h, s, o);
    hide OpStep, Inv, GeneratedName, HashOf, GenerationOf, Wakes;
    var name := GeneratedName(s.local.job, Suffix(o));
    assert !s.local.job.(deleting := false, conditions := []).deleting;
  }

  /** A create for one ReactiveJob adds nothing to the burden of another. */
  lemma OtherCreates(h: HashFunction, s: System, o: Outcome, uid: string)
    requires Inv(h, s) && s.local.AtCreate? && s.local.obj.uid != uid
    ensures Burden(OpStep(h, s, o).w, uid) == Burden(s.w, uid) && !Touched(s.w, OpStep(h, s, o).w, uid)
  {
    CreateWrites(h, s, o);
    hide OpStep, Inv, Burden, GeneratedName, UidLabel;
    var name := GeneratedName(s.local.job, Suffix(o));
    if o.NotDelivered? || name in s.w.jobs {
      SameBurden(s.w, OpStep(h, s, o).w, uid);
    } else {
      BurdenAdded(s.w, OpStep(h, s, o).w, uid, name);
    }
  }

  lemma CreatedLabel(h: HashFunction, s: System)
    requires Inv(h, s) && s.local.AtCreate?
    ensures UidLabel(s.local.job) == Some(s.local.obj.uid) && !s.local.job.deleting
  {
    hide StoreInv, MemoryOk, Decimal.FormatInt;
  }

  lemma RevisionsOf(h: HashFunction, w: World)
    requires StoreInv(h, w)
    ensures Revisions(w)
  {
  }

  /** A step that brings the jobs of a uid closer to their end. */
  ghost predicate Effective(w: World, v: World, e: Event, uid: string) {
    match e
    case Op(_) => Touched(w, v, uid)
    case Env(a) =>
      && Permitted(w, a)
      && ((a.EditJob? && UidLabel(w.jobs[a.name]) == Some(uid)
           && exists f :: f in w.jobs[a.name].finalizers && f !in a.finalizers)
          || (a.RemoveJob? && UidLabel(w.jobs[a.name]) == Some(uid)))
    case Crash => false
  }

  /** A create for the uid moves its job's weight from the slack to the burden. */
  lemma CreateUsesSlack(h: HashFunction, s: System, o: Outcome, uid: string)
    requires Inv(h, s) && s.local.AtCreate?
    ensures Burden(OpStep(h, s, o).w, uid) <= Burden(s.w, uid) + Slack(h, s, uid)
    ensures !Touched(s.w, OpStep(h, s, o).w, uid)
  {
    CreateWrites(h, s, o);
    hide OpStep, Inv, Burden, GeneratedName, UidLabel, Weight;
    var name := GeneratedName(s.local.job, Suffix(o));
    if o.NotDelivered? || name in s.w.jobs {
      SameBurden(s.w, OpStep(h, s, o).w, uid);
    } else {
      BurdenAdded(s.w, OpStep(h, s, o).w, uid, name);
    }
  }

  lemma SlackOfOthers(h: HashFunction, s: System, a: Action, uid: string)
    requires Inv(h, s)
    ensures Slack(h, s.(w := Act(s.w, a)), uid) == Slack(h, s, uid)
  {
    ActRelies(s.w, a);
    hide Act, Inv, Weight, BuildJob, RelyReactiveJob, RelyJobs;
  }

  /** Each step of anybody, while the ReactiveJob is doomed, pays for its effect. */
  lemma DoomedStepLightens(h: HashFunction, s: System, e: Event, uid: string)
    requires Inv(h, s) && Doomed(s.w, uid)
    requires e.Env? ==> !MayAdd(s.w, e.action, uid)
    ensures var t := Step(h, s, e);
            Burden(t.w, uid) + Slack(h, t, uid) + (if Effective(s.w, t.w, e, uid) then 1 else 0)
                <= Burden(s.w, uid) + Slack(h, s, uid)
  {
    match e
    case Env(a) =>
      RevisionsOf(h, s.w);
      ActLightens(s.w, a, uid);
      SlackOfOthers(h, s, a, uid);
      hide Burden, Act, Inv, Slack, Permitted;
    case Op(o) =>
      hide Burden, OpStep, Inv, Slack, Doomed;
      OpLightens(h, s, o, uid);
      OpSlack(h, s, o, uid);
      if s.local.AtCreate? {
        CreateUsesSlack(h, s, o, uid);
      }
    case Crash =>
      SameBurden(s.w, Step(h, s, e).w, uid);
      hide Burden, Inv;
  }

  ghost function EffectiveSteps(h: HashFunction, s: System, events: seq<Event>, uid: string): nat
    decreases |events|
  {
    if events == [] then 0
    else
      var front := events[..|events| - 1];
      var e := events[|events| - 1];
      var r := Run(h, s, front);
      EffectiveSteps(h, s, front, uid) + (if Effective(r.w, Step(h, r, e).w, e, uid) then 1 else 0)
  }

  /** During the run nobody gives a new finalizer to a job of the uid that is not yet marked for deletion. */
  ghost predicate NobodyAdds(h: HashFunction, s: System, events: seq<Event>, uid: string) {
    forall n :: 0 <= n < |events| && events[n].Env? ==> !MayAdd(Run(h, s, events[..n]).w, events[n].action, uid)
  }

  /** Deletion terminates: from the moment a ReactiveJob is being deleted, whatever reconciliation is
      in progress, the effective steps on its jobs, by whomever, are at most the burden plus the one
      job that may still be created, over any run with any faults and crashes. */
  lemma {:induction false} DeletionIsBounded(h: HashFunction, s: System, events: seq<Event>, uid: string)
    requires Inv(h, s) && Doomed(s.w, uid) && NobodyAdds(h, s, events, uid)
    ensures var t := Run(h, s, events);
            && Burden(t.w, uid) + Slack(h, t, uid) + EffectiveSteps(h, s, events, uid)
                <= Burden(s.w, uid) + Slack(h, s, uid)
            && Inv(h, t) && Doomed(t.w, uid)
    decreases |events|
  {
    hide Inv, Step, Burden, Slack, Doomed, Effective, MayAdd;
    if events != [] {
      var front := events[..|events| - 1];
      assert forall n :: 0 <= n < |front| ==> front[..n] == events[..n];
      DeletionIsBounded(h, s, front, uid);
      DoomedStepLightens(h, Run(h, s, front), events[|events| - 1], uid);
      StepKeepsInv(h, Run(h, s, front), events[|events| - 1]);
      DoomedStays(h, Run(h, s, front), events[|events| - 1], uid);
    }
  }

  /** The exception is real: a reconciliation that listed before the deletion still creates its job,
      and the burden grows by exactly that job. */
  lemma LateCreateAdds(h: HashFunction, s: System, o: Outcome)
    requires Inv(h, s) && s.local.AtCreate? && !o.NotDelivered?
    requires GeneratedName(s.local.job, Suffix(o)) !in s.w.jobs
    ensures Burden(OpStep(h, s, o).w, s.local.obj.uid) > Burden(s.w, s.local.obj.uid)
  {
    CreateWrites(h, s, o);
    hide OpStep, Inv, Burden, GeneratedName, UidLabel;
    BurdenAdded(s.w, OpStep(h, s, o).w, s.local.obj.uid, GeneratedName(s.local.job, Suffix(o)));
  }

  /** Exactly when a request does not keep the burden from growing: it is a create for that very
      ReactiveJob that the server carries out. */
  lemma BurdenGrowsExactly(h: HashFunction, s: System, o: Outcome, uid: string)
    requires Inv(h, s)
    ensures Burden(OpStep(h, s, o).w, uid) > Burden(s.w, uid)
            <==> s.local.AtCreate? && s.local.obj.uid == uid && !o.NotDelivered?
                 && GeneratedName(s.local.job, Suffix(o)) !in s.w.jobs
  {
    OpLightens(h, s, o, uid);
    if s.local.AtCreate? {
      CreateWrites(h, s, o);
      hide OpStep, Inv, Burden, GeneratedName, UidLabel;
      if s.local.obj.uid != uid {
        OtherCreates(h, s, o, uid);
      } else if o.NotDelivered? || GeneratedName(s.local.job, Suffix(o)) in s.w.jobs {
        SameBurden(s.w, OpStep(h, s, o).w, uid);
      } else {
        LateCreateAdds(h, s, o);
      }
    }
  }

  // ---------- Error-free reconciliations of a ReactiveJob that is being deleted ----------

  /** A job the operator is done with: marked for deletion and not held. */
  ghost predicate LetGo(j: Job) {
    j.deleting && Operator !in j.finalizers
  }

  /** The store in the middle of an undisturbed drain that has handled the jobs before position i. */
  ghost predicate DrainingFrom(w: World, obj: ReactiveJob, jobs: seq<Job>, i: nat) {
    && w.rj.Some? && w.rj.value.uid == obj.uid && w.rj.value.resourceVersion == obj.resourceVersion
    && w.rj.value.finalizers != []
    && (forall k :: i <= k < |jobs| ==> jobs[k].name in w.jobs && w.jobs[jobs[k].name] == jobs[k])
    && (forall j, k :: 0 <= j < k < |jobs| ==> jobs[j].name != jobs[k].name)
    && (forall n :: n in w.jobs && UidLabel(w.jobs[n]) == Some(obj.uid) && !LetGo(w.jobs[n]) ==>
          exists k :: i <= k < |jobs| && jobs[k].name == n)
  }

  /** The same after job i was released, with its deletion still to come. */
  ghost predicate DrainingAt(w: World, obj: ReactiveJob, jobs: seq<Job>, i: nat)
    requires i < |jobs|
  {
    && w.rj.Some? && w.rj.value.uid == obj.uid && w.rj.value.resourceVersion == obj.resourceVersion
    && w.rj.value.finalizers != []
    && jobs[i].name in w.jobs && !w.jobs[jobs[i].name].deleting && Operator !in w.jobs[jobs[i].name].finalizers
    && (forall k :: i < k < |jobs| ==> jobs[k].name in w.jobs && w.jobs[jobs[k].name] == jobs[k])
    && (forall j, k :: 0 <= j < k < |jobs| ==> jobs[j].name != jobs[k].name)
    && (forall n :: n in w.jobs && UidLabel(w.jobs[n]) == Some(obj.uid) && !LetGo(w.jobs[n]) ==>
          exists k :: i <= k < |jobs| && jobs[k].name == n)
  }

  /** The drain takes the jobs in order. From position i on it stops at the first job that is not let
      go: to release it if it is held, to delete it if it is not and is unmarked; with none left it is over. */
  lemma {:induction false} DrainVisits(w: World, obj: ReactiveJob, jobs: seq<Job>, i: nat)
    ensures var l := Drain(w, obj, jobs, i).local;
            && (l.AtStatus? || l.AtRelease? || l.AtDelete?)
            && (l.AtStatus? ==> forall x :: i <= x < |jobs| ==> LetGo(jobs[x]))
            && (!l.AtStatus? ==>
                  && l.obj == obj && l.jobs == jobs && i <= l.i < |jobs|
                  && (forall x :: i <= x < l.i ==> LetGo(jobs[x]))
                  && (if l.AtRelease? then Operator in jobs[l.i].finalizers
                      else Operator !in jobs[l.i].finalizers && !jobs[l.i].deleting))
    decreases |jobs| - i
  {
    if i < |jobs| && Operator !in jobs[i].finalizers && jobs[i].deleting {
      DrainVisits(w, obj, jobs, i + 1);
    }
  }

  /** One accepted request of the drain: a released job is deleted next unless it is marked already; after
      that, or after its deletion, the drain goes on with the job behind it. */
  lemma DrainGoesInOrder(h: HashFunction, s: System, o: Outcome)
    requires (s.local.AtRelease? || s.local.AtDelete?) && s.local.i < |s.local.jobs| && !Fails(s, o)
    ensures var next := OpStep(h, s, o);
            if s.local.AtRelease? && !s.local.jobs[s.local.i].deleting then
              next.local == AtDelete(s.local.obj, s.local.jobs, s.local.i)
            else next.local == Drain(next.w, s.local.obj, s.local.jobs, s.local.i + 1).local
  {
    hide SetState, PutJob, JobUpdateAccepted, Unheld;
    var u := if s.local.AtRelease? then UpdateJob(s.w, Unheld(s.local.jobs[s.local.i])).0
             else DeleteJob(s.w, s.local.jobs[s.local.i].name, true).0;
    DrainKeepsWorld(u, s.local.obj, s.local.jobs, s.local.i + 1);
  }

  lemma ReleaseOne(w: World, obj: ReactiveJob, jobs: seq<Job>, i: nat)
    requires DrainingFrom(w, obj, jobs, i) && i < |jobs|
    ensures UpdateJob(w, Unheld(jobs[i])).1.Accepted?
    ensures var v := UpdateJob(w, Unheld(jobs[i])).0;
            && (if jobs[i].deleting then DrainingFrom(v, obj, jobs, i + 1) else DrainingAt(v, obj, jobs, i))
            && v.rj == w.rj && v.created == w.created && v.now == w.now
  {
    var v := UpdateJob(w, Unheld(jobs[i])).0;
    assert v.jobs == w.jobs - {jobs[i].name}
        || v.jobs == w.jobs[jobs[i].name := Unheld(jobs[i]).(name := jobs[i].name, resourceVersion := w.revision + 1)];
  }

  lemma DeleteOne(w: World, obj: ReactiveJob, jobs: seq<Job>, i: nat)
    requires i < |jobs| && DrainingAt(w, obj, jobs, i)
    ensures DeleteJob(w, jobs[i].name, true).1.Accepted?
    ensures var v := DeleteJob(w, jobs[i].name, true).0;
            DrainingFrom(v, obj, jobs, i + 1) && v.rj == w.rj && v.created == w.created && v.now == w.now
  {
    var v := DeleteJob(w, jobs[i].name, true).0;
    var n := jobs[i].name;
    assert v.jobs == w.jobs[n := Marked(w.jobs[n], n, w.revision + 1)];
  }

  lemma ReleaseStep(h: HashFunction, w: World, obj: ReactiveJob, jobs: seq<Job>, i: nat, outcomes: seq<Outcome>,
                    t: System)
    requires i < |jobs| && CleanRun(h, System(w, AtRelease(obj, jobs, i)), outcomes, t)
    requires UpdateJob(w, Unheld(jobs[i])).1.Accepted?
    ensures CleanRun(h, DrainUnheld(UpdateJob(w, Unheld(jobs[i])).0, obj, jobs, i), outcomes[1..], t)
  {
    hide JobUpdateAccepted, SetState;
    var v := UpdateJob(w, Unheld(jobs[i])).0;
    DrainGoesOn(v, obj, jobs, i + 1);
    assert OpStep(h, System(w, AtRelease(obj, jobs, i)), outcomes[0]) == DrainUnheld(v, obj, jobs, i);
  }

  lemma DeleteStep(h: HashFunction, w: World, obj: ReactiveJob, jobs: seq<Job>, i: nat, outcomes: seq<Outcome>,
                   t: System)
    requires i < |jobs| && CleanRun(h, System(w, AtDelete(obj, jobs, i)), outcomes, t)
    requires DeleteJob(w, jobs[i].name, true).1.Accepted?
    ensures CleanRun(h, Drain(DeleteJob(w, jobs[i].name, true).0, obj, jobs, i + 1), outcomes[1..], t)
  {
    hide SetState;
    var v := DeleteJob(w, jobs[i].name, true).0;
    DrainGoesOn(v, obj, jobs, i + 1);
    assert OpStep(h, System(w, AtDelete(obj, jobs, i)), outcomes[0]) == Drain(v, obj, jobs, i + 1);
  }

  lemma {:induction false} DrainEnds(h: HashFunction, w: World, obj: ReactiveJob, jobs: seq<Job>, i: nat,
                                     outcomes: seq<Outcome>, t: System)
    requires DrainingFrom(w, obj, jobs, i) && CleanRun(h, Drain(w, obj, jobs, i), outcomes, t)
    ensures forall n :: n in t.w.jobs && UidLabel(t.w.jobs[n]) == Some(obj.uid) ==> LetGo(t.w.jobs[n])
    ensures t.w.rj.Some? && t.w.rj.value.uid == obj.uid && t.w.rj.value.finalizers == w.rj.value.finalizers
    ensures t.w.rj.value.status.observedGeneration == obj.status.observedGeneration
            && t.w.rj.value.generation == w.rj.value.generation
    ensures t.w.rj.value.deleting == w.rj.value.deleting && t.w.created == w.created
    ensures t.local == Idle(RequeueAfter(10)) && Reports(t.w.rj.value.status, StateDeleting, WaitingForDependents)
    decreases |jobs| - i, 1
  {
    if i >= |jobs| {
      hide SetState, OpStep;
      StatusStep(h, Drain(w, obj, jobs, i), outcomes, t);
      ReportsWhatIsSet(obj.status, StateDeleting, WaitingForDependents, w.now);
    } else if Operator in jobs[i].finalizers {
      ReleaseOne(w, obj, jobs, i);
      ReleaseStep(h, w, obj, jobs, i, outcomes, t);
      var v := UpdateJob(w, Unheld(jobs[i])).0;
      hide DrainingFrom, DrainingAt, UpdateJob, CleanRun;
      if jobs[i].deleting {
        DrainEnds(h, v, obj, jobs, i + 1, outcomes[1..], t);
      } else {
        DrainAtEnds(h, v, obj, jobs, i, outcomes[1..], t);
      }
    } else if jobs[i].deleting {
      SkipLetGo(w, obj, jobs, i);
      hide DrainingFrom, CleanRun;
      DrainEnds(h, w, obj, jobs, i + 1, outcomes, t);
    } else {
      hide CleanRun;
      DrainAtEnds(h, w, obj, jobs, i, outcomes, t);
    }
  }

  lemma SkipLetGo(w: World, obj: ReactiveJob, jobs: seq<Job>, i: nat)
    requires DrainingFrom(w, obj, jobs, i) && i < |jobs| && LetGo(jobs[i])
    ensures DrainingFrom(w, obj, jobs, i + 1)
  {
  }

  lemma {:induction false} DrainAtEnds(h: HashFunction, w: World, obj: ReactiveJob, jobs: seq<Job>, i: nat,
                                       outcomes: seq<Outcome>, t: System)
    requires i < |jobs| && DrainingAt(w, obj, jobs, i)
    requires CleanRun(h, System(w, AtDelete(obj, jobs, i)), outcomes, t)
    ensures forall n :: n in t.w.jobs && UidLabel(t.w.jobs[n]) == Some(obj.uid) ==> LetGo(t.w.jobs[n])
    ensures t.w.rj.Some? && t.w.rj.value.uid == obj.uid && t.w.rj.value.finalizers == w.rj.value.finalizers
    ensures t.w.rj.value.status.observedGeneration == obj.status.observedGeneration
            && t.w.rj.value.generation == w.rj.value.generation
    ensures t.w.rj.value.deleting == w.rj.value.deleting && t.w.created == w.created
    ensures t.local == Idle(RequeueAfter(10)) && Reports(t.w.rj.value.status, StateDeleting, WaitingForDependents)
    decreases |jobs| - i, 0
  {
    DeleteOne(w, obj, jobs, i);
    DeleteStep(h, w, obj, jobs, i, outcomes, t);
    hide DrainingFrom, DrainingAt, DeleteJob, CleanRun;
    DrainEnds(h, DeleteJob(w, jobs[i].name, true).0, obj, jobs, i + 1, outcomes[1..], t);
  }

  lemma DrainStarts(h: HashFunction, w: World, obj: ReactiveJob, items: seq<Job>)
    requires StoreInv(h, w) && w.rj.Some? && w.rj.value.deleting && OnlyOperator(w.rj.value.finalizers)
    requires obj == Acknowledge(w.rj.value) && IsListing(w, obj.uid, items)
    ensures DrainingFrom(w, obj, Sorted(items), 0)
    ensures Sorted(items) != [] ==> Dispatch(h, w, obj, Sorted(items)) == Drain(w, obj, Sorted(items), 0)
    ensures Sorted(items) == [] ==>
              NoneOf(w, obj.uid)
              && Dispatch(h, w, obj, Sorted(items)) == System(w, AtClear(obj.(finalizers := [])))
  {
    hide LogOk, LogOrder, LogBlock, Owned, Truthful, Guarded, StatusShape, GenerationOf, Sorted, BuildJob, Shared,
         Proceed, SetState;
    var jobs := Sorted(items);
    SortedMembers(items);
    SortedStrictly(h, w, obj.uid, items);
    OnlyOperatorLeft(obj.finalizers);
    assert obj.finalizers[0] in obj.finalizers;
    forall k | 0 <= k < |jobs| ensures jobs[k].name in w.jobs && w.jobs[jobs[k].name] == jobs[k] {
      assert jobs[k] in items;
    }
    forall n | n in w.jobs && UidLabel(w.jobs[n]) == Some(obj.uid)
      ensures exists k :: 0 <= k < |jobs| && jobs[k].name == n
    {
      assert w.jobs[n] in items;
      assert w.jobs[n] in jobs;
      var k :| 0 <= k < |jobs| && jobs[k] == w.jobs[n];
    }
  }

  /** An error-free reconciliation of a ReactiveJob that is being deleted, with only the operator's
      finalizer left: if no job is left, the ReactiveJob disappears; otherwise it stays, and every
      job left is marked for deletion and no longer held by the operator. */
  lemma DeletingReconciliation(h: HashFunction, s: System, t: System)
    requires Inv(h, s) && Reconciles(h, s, t)
    requires s.w.rj.Some? && s.w.rj.value.deleting && OnlyOperator(s.w.rj.value.finalizers)
    ensures if Burden(s.w, s.w.rj.value.uid) == 0 then
              t.w.rj.None? && t.local == Idle(Nothing)
            else
              && t.w.rj.Some? && t.w.rj.value.uid == s.w.rj.value.uid && t.w.rj.value.deleting
              && OnlyOperator(t.w.rj.value.finalizers)
              && t.w.created == s.w.created && t.local == Idle(RequeueAfter(10))
              && Reports(t.w.rj.value.status, StateDeleting, WaitingForDependents)
              && t.w.rj.value.status.observedGeneration == t.w.rj.value.generation
              && forall n :: n in t.w.jobs && UidLabel(t.w.jobs[n]) == Some(s.w.rj.value.uid) ==> LetGo(t.w.jobs[n])
  {
    var outcomes :| CleanRun(h, s, outcomes, t);
    BurdenZero(s.w, s.w.rj.value.uid);
    var w := s.w.(queued := false);
    assert NoneOf(w, s.w.rj.value.uid) == NoneOf(s.w, s.w.rj.value.uid);
    QueueKeeps(h, s.w, false);
    BeginKeeps(h, w);
    assert Operator in w.rj.value.finalizers by { assert w.rj.value.finalizers[0] in w.rj.value.finalizers; }
    FirstDeletingStep(h, s, outcomes, t);
    hide OpStep, Inv, CleanRun, Begin, NoneOf;
    DeletingList(h, w, outcomes[1..], t);
  }

  lemma FirstDeletingStep(h: HashFunction, s: System, outcomes: seq<Outcome>, t: System)
    requires s.local.Idle? && s.w.queued && s.w.rj.Some? && s.w.rj.value.status.state != StateUnset
             && CleanRun(h, s, outcomes, t)
    ensures Begin(s.w.(queued := false), s.w.rj.value)
            == System(s.w.(queued := false), AtList(Acknowledge(s.w.rj.value)))
    ensures CleanRun(h, System(s.w.(queued := false), AtList(Acknowledge(s.w.rj.value))), outcomes[1..], t)
  {
  }

  lemma DeletingList(h: HashFunction, w: World, outcomes: seq<Outcome>, t: System)
    requires w.rj.Some? && w.rj.value.deleting && OnlyOperator(w.rj.value.finalizers)
    requires Inv(h, System(w, AtList(Acknowledge(w.rj.value))))
    requires CleanRun(h, System(w, AtList(Acknowledge(w.rj.value))), outcomes, t)
    ensures if NoneOf(w, w.rj.value.uid) then
              t.w.rj.None? && t.local == Idle(Nothing)
            else
              && t.w.rj.Some? && t.w.rj.value.uid == w.rj.value.uid && t.w.rj.value.deleting
              && OnlyOperator(t.w.rj.value.finalizers)
              && t.w.created == w.created && t.local == Idle(RequeueAfter(10))
              && Reports(t.w.rj.value.status, StateDeleting, WaitingForDependents)
              && t.w.rj.value.status.observedGeneration == t.w.rj.value.generation
              && forall n :: n in t.w.jobs && UidLabel(t.w.jobs[n]) == Some(w.rj.value.uid) ==> LetGo(t.w.jobs[n])
  {
    var obj := Acknowledge(w.rj.value);
    var items := ListStep(h, w, obj, outcomes, t);
    var jobs := Sorted(items);
    assert StoreInv(h, w);
    DrainStarts(h, w, obj, items);
    if jobs == [] {
      var cleared := obj.(finalizers := []);
      assert Inv(h, System(w, AtClear(cleared)));
      ClearRun(h, w, cleared, outcomes[1..], t);
    } else {
      SortedMembers(items);
      assert items[0] in items;
      assert !NoneOf(w, obj.uid);
      hide Inv, CleanRun, DrainingFrom, Dispatch, Sorted, NoneOf;
      DrainEnds(h, w, obj, jobs, 0, outcomes[1..], t);
    }
  }

  /** With foreign finalizers left, an error-free reconciliation touches no job and says that the
      deletion is blocked. */
  lemma BlockedReconciliation(h: HashFunction, s: System, t: System)
    requires Inv(h, s) && Reconciles(h, s, t)
    requires s.w.rj.Some? && s.w.rj.value.deleting && !OnlyOperator(s.w.rj.value.finalizers)
    requires s.w.rj.value.status.state != StateUnset
    ensures OnlyStatusDiffers(s.w, t.w) && t.local == Idle(RequeueAfter(10))
    ensures Reports(t.w.rj.value.status, StateDeletionBlocked, ForeignFinalizersBlock)
    ensures t.w.rj.value.status.observedGeneration == t.w.rj.value.generation
  {
    var outcomes :| CleanRun(h, s, outcomes, t);
    var w := s.w.(queued := false);
    var obj := Acknowledge(w.rj.value);
    QueueKeeps(h, s.w, false);
    BeginKeeps(h, w);
    FirstDeletingStep(h, s, outcomes, t);
    var items := ListStep(h, w, obj, outcomes[1..], t);
    OnlyOperatorLeft(obj.finalizers);
    var next := Dispatch(h, w, obj, Sorted(items));
    assert next
           == System(w, AtStatus(WithState(w, obj, StateDeletionBlocked, ForeignFinalizersBlock), RequeueAfter(10)));
    assert StoredOk(w);
    hide OpStep, Inv, CleanRun, Dispatch, WithState, Reports, StoredOk, StoreInv;
    StatusStep(h, next, outcomes[2..], t);
    WithStateSets(w, obj, StateDeletionBlocked, ForeignFinalizersBlock);
  }

  /** With no job left, clearing the finalizer lets the ReactiveJob disappear. */
  lemma ClearRun(h: HashFunction, w: World, obj: ReactiveJob, outcomes: seq<Outcome>, t: System)
    requires Inv(h, System(w, AtClear(obj))) && CleanRun(h, System(w, AtClear(obj)), outcomes, t)
    requires w.rj.Some? && w.rj.value.resourceVersion == obj.resourceVersion
    ensures t.w.rj.None? && t.local == Idle(Nothing)
  {
    hide LogOk, LogOrder, LogBlock, Owned, Truthful, Guarded, StatusShape;
    assert UpdateAccepted(w, obj);
    ClearKeeps(h, w, obj);
  }
}
