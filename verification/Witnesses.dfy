/** Runs in which the surprising cases happen, built event by event from the empty store. */
module Witnesses {
  import opened Options
  import opened Decimal
  import opened Status
  import opened Objects
  import opened Sorting
  import opened Cluster
  import opened Reconciler
  import opened Invariant
  import opened OperatorSteps
  import opened Requests
  import opened Safety
  import opened Effects
  import opened Convergence
  import opened Deletion
  import opened Failures

  /** An answer, where the server has nothing to choose. */
  const CLEAN := Answered([], "")

  // ---------- Building blocks ----------

  /** The stored ReactiveJob of a uid, scheduled, at a generation. */
  ghost predicate Scheduled(w: World, uid: string, template: Template, fs: seq<Finalizer>, generation: int) {
    && w.queued && Alive(w)
    && w.rj.value.uid == uid && w.rj.value.template == template
    && w.rj.value.finalizers == fs && w.rj.value.generation == generation
  }

  lemma Submits(h: HashFunction, key: NamespacedName, uid: string, template: Template, fs: seq<Finalizer>)
      returns (events: seq<Event>)
    requires Operator !in fs
    ensures var s := Reached(h, key, events);
            && s.local.Idle? && s.w.jobs == map[] && Scheduled(s.w, uid, template, fs, 1)
            && s.w.rj.value.status.state == StateUnset
  {
    var e := Env(Submit(uid, template, fs));
    events := [] + [e];
    LastStep(h, Start(key), [], e);
  }

  /** A whole error-free reconciliation after a run. */
  lemma Reconciled(h: HashFunction, key: NamespacedName, before: seq<Event>)
      returns (events: seq<Event>, outcomes: seq<Outcome>)
    requires Reached(h, key, before).local.Idle? && Reached(h, key, before).w.queued
    ensures Inv(h, Reached(h, key, before))
    ensures var t := Reached(h, key, events);
            && CleanRun(h, Reached(h, key, before), outcomes, t)
            && t.local.Idle? && (t.w.rj.Some? ==> t.w.queued)
  {
    hide Inv, OpStep, Step, CleanRun;
    var s := Reached(h, key, before);
    ReachedInv(h, key, before);
    var t := ReconciliationExists(h, s);
    outcomes :| CleanRun(h, s, outcomes, t);
    ReconcilesKeepsInv(h, s, t);
    var more := CleanRunIsRun(h, s, outcomes, t);
    RunConcat(h, Start(key), before, more);
    events := before + more;
  }

  /** A ReactiveJob that was submitted and seen for the first time. */
  lemma Seen(h: HashFunction, key: NamespacedName, uid: string, template: Template, fs: seq<Finalizer>)
      returns (events: seq<Event>)
    requires Operator !in fs
    ensures var s := Reached(h, key, events);
            && s.local.Idle? && s.w.jobs == map[] && Scheduled(s.w, uid, template, fs, 1)
            && s.w.rj.value.status.state == StateNew && s.w.rj.value.status.observedGeneration == 1
  {
    hide Run, Step, Inv, CleanRun;
    var before := Submits(h, key, uid, template, fs);
    var outcomes;
    events, outcomes := Reconciled(h, key, before);
    FirstSeenReconciliation(h, Reached(h, key, before), outcomes, Reached(h, key, events));
  }

  /** The reconciliation that creates a job. */
  lemma Creates(h: HashFunction, key: NamespacedName, before: seq<Event>) returns (events: seq<Event>)
    requires var s := Reached(h, key, before);
             && s.local.Idle? && s.w.queued && Alive(s.w)
             && s.w.rj.value.status.state != StateUnset && !Matches(h, s.w)
    ensures var w := Reached(h, key, before).w;
            var t := Reached(h, key, events);
            && t.local.Idle? && t.w.queued && Alive(t.w) && Matches(h, t.w)
            && Reports(t.w.rj.value.status, StateProcessing, JobCreated)
            && NowHeld(w, t.w) && OneMoreJob(h, w, t.w)
            && t.w.rj.value.status.observedGeneration
               == if Operator in w.rj.value.finalizers then w.rj.value.generation
                  else w.rj.value.status.observedGeneration
  {
    hide Run, Step, Inv, CleanRun, Matches, OneMoreJob, NowHeld, Reports;
    var outcomes;
    events, outcomes := Reconciled(h, key, before);
    CreatingReconciliation(h, Reached(h, key, before), outcomes, Reached(h, key, events));
  }

  lemma NothingMatches(h: HashFunction, w: World)
    requires w.jobs == map[]
    ensures !Matches(h, w)
  {
  }

  /** A user deletes the ReactiveJob, at any moment of a reconciliation. */
  lemma Deletes(h: HashFunction, key: NamespacedName, before: seq<Event>) returns (events: seq<Event>)
    requires var w := Reached(h, key, before).w;
             Alive(w) && w.rj.value.finalizers != [] && w.rj.value.generation < MAX_INT64
    ensures var s := Reached(h, key, before);
            var t := Reached(h, key, events);
            && t.local == s.local && t.w.queued && t.w.jobs == s.w.jobs && t.w.created == s.w.created
            && t.w.uids == s.w.uids
            && t.w.rj.Some?
            && t.w.rj.value == s.w.rj.value.(deleting := true, generation := s.w.rj.value.generation + 1,
                                             resourceVersion := t.w.rj.value.resourceVersion)
  {
    hide Run;
    var e := Env(DeleteReactiveJob(false));
    LastStep(h, Start(key), before, e);
    events := before + [e];
  }

  /** A user edits the template. */
  lemma Edits(h: HashFunction, key: NamespacedName, before: seq<Event>, template: Template) returns (events: seq<Event>)
    requires var w := Reached(h, key, before).w;
             Alive(w) && w.rj.value.template != template && w.rj.value.generation < MAX_INT64
    ensures var s := Reached(h, key, before);
            var t := Reached(h, key, events);
            && t.local == s.local && t.w.queued && t.w.jobs == s.w.jobs && t.w.created == s.w.created
            && t.w.rj.Some?
            && t.w.rj.value == s.w.rj.value.(template := template, generation := s.w.rj.value.generation + 1,
                                             resourceVersion := t.w.rj.value.resourceVersion)
  {
    hide Run;
    var e := Env(EditTemplate(template));
    LastStep(h, Start(key), before, e);
    events := before + [e];
  }

  /** A reconciliation starts, reads and lists. */
  lemma Lists(h: HashFunction, key: NamespacedName, before: seq<Event>) returns (events: seq<Event>, items: seq<Job>)
    requires var s := Reached(h, key, before);
             s.local.Idle? && s.w.queued && s.w.rj.Some? && s.w.rj.value.status.state != StateUnset
    ensures var w := Reached(h, key, before).w.(queued := false);
            var obj := Acknowledge(w.rj.value);
            && StoreInv(h, w) && IsListing(w, obj.uid, items)
            && Reached(h, key, events) == Dispatch(h, w, obj, Sorted(items))
  {
    var s := Reached(h, key, before);
    var w := s.w.(queued := false);
    var obj := Acknowledge(w.rj.value);
    ReachedInv(h, key, before);
    LastStep(h, Start(key), before, Op(CLEAN));
    var middle := before + [Op(CLEAN)];
    assert Reached(h, key, middle) == System(w, AtList(obj)) by { hide Run, Inv, SetState; }
    ReachedInv(h, key, middle);
    var o := CleanOutcome(h, System(w, AtList(obj)));
    items := o.items;
    LastStep(h, Start(key), middle, Op(o));
    ListKeeps(h, w, obj, items);
    events := middle + [Op(o)];
    hide Run, StoreInv, LocalInv, Dispatch;
  }

  // ---------- A create after the deletion mark ----------

  lemma ListsNothing(h: HashFunction, w: World, obj: ReactiveJob, items: seq<Job>)
    requires w.jobs == map[] && IsListing(w, obj.uid, items) && !obj.deleting && Operator !in obj.finalizers
    ensures Dispatch(h, w, obj, Sorted(items))
            == System(w, AtFence(obj.(finalizers := obj.finalizers + [Operator]), []))
  {
    if items != [] {
      HeadIsStored(w, obj.uid, items);
    }
  }

  lemma HeadIsStored(w: World, uid: string, items: seq<Job>)
    requires IsListing(w, uid, items) && items != []
    ensures items[0].name in w.jobs
  {
    assert items[0] in items;
  }

  lemma Fences(h: HashFunction, key: NamespacedName, before: seq<Event>) returns (events: seq<Event>)
    requires var s := Reached(h, key, before);
             && s.w.jobs == map[] && Alive(s.w) && s.local.AtFence? && s.local.jobs == []
             && s.local.obj.resourceVersion == s.w.rj.value.resourceVersion && s.local.obj.uid == s.w.rj.value.uid
    ensures var s := Reached(h, key, before);
            var t := Reached(h, key, events);
            && t.w.jobs == map[] && Alive(t.w) && t.local.AtCreate? && t.local.obj.uid == s.local.obj.uid
            && t.w.rj.value == s.w.rj.value.(resourceVersion := t.w.rj.value.resourceVersion,
                  finalizers := s.local.obj.finalizers)
  {
    hide Run, SetState, BuildJob, Shared;
    var s := Reached(h, key, before);
    ReachedInv(h, key, before);
    LastStep(h, Start(key), before, Op(CLEAN));
    FenceAccepted(h, s.w, s.local.obj);
    hide Inv;
    events := before + [Op(CLEAN)];
  }

  /** A run in which the operator adds to a deletion in progress: a ReactiveJob with any foreign
      finalizers is seen, listed and fenced; then a user deletes it; then the reconciliation that
      started before still creates its job. So a request may add to the burden after the deletion has
      begun, and may change jobs while foreign finalizers remain. */
  lemma LateCreateHappens(h: HashFunction, key: NamespacedName, uid: string, template: Template, fs: seq<Finalizer>)
      returns (events: seq<Event>)
    requires Operator !in fs
    ensures var s := Reached(h, key, events);
            var t := Reached(h, key, events + [Op(CLEAN)]);
            && s.w.rj.Some? && s.w.rj.value.uid == uid && s.w.rj.value.deleting
            && RemoveFinalizer(s.w.rj.value.finalizers, Operator) == fs
            && s.w.jobs == map[] && t.w.jobs != s.w.jobs
            && Burden(t.w, uid) > Burden(s.w, uid)
  {
    hide Step, Burden, Run, Reached, Act, RemoveFinalizer, StoreInv, IsListing, Dispatch, Sorted;
    var seen := Seen(h, key, uid, template, fs);
    var listed, items := Lists(h, key, seen);
    var w := Reached(h, key, seen).w.(queued := false);
    ListsNothing(h, w, Acknowledge(w.rj.value), items);
    var fenced := Fences(h, key, listed);
    events := Deletes(h, key, fenced);
    CreatesLate(h, key, events);
    AddedThenRemoved(fs);
  }

  lemma CreatesLate(h: HashFunction, key: NamespacedName, events: seq<Event>)
    requires var s := Reached(h, key, events); s.w.jobs == map[] && s.local.AtCreate?
    ensures var s := Reached(h, key, events);
            var t := Reached(h, key, events + [Op(CLEAN)]);
            t.w.jobs != s.w.jobs && Burden(t.w, s.local.obj.uid) > Burden(s.w, s.local.obj.uid)
  {
    LastStep(h, Start(key), events, Op(CLEAN));
    ReachedInv(h, key, events);
    var s := Reached(h, key, events);
    assert Reached(h, key, events + [Op(CLEAN)]) == Step(h, s, Op(CLEAN));
    hide Run, Reached, Inv, OpStep, Burden;
    CreateWrites(h, s, CLEAN);
    LateCreateAdds(h, s, CLEAN);
  }

  // ---------- A strip after the deletion mark ----------

  /** With an older job still held, a sweep stops at it. */
  lemma StopsAtOlder(h: HashFunction, w: World, items: seq<Job>, n: string) returns (jobs: seq<Job>, k: nat)
    requires StoreInv(h, w) && Alive(w) && Matches(h, w) && IsListing(w, w.rj.value.uid, items)
    requires n in w.jobs && UidLabel(w.jobs[n]) == Some(w.rj.value.uid) && n != Latest(w).name
    requires Operator in w.jobs[n].finalizers
    ensures 1 <= k < |jobs| && jobs[k].name in w.jobs && w.jobs[jobs[k].name] == jobs[k]
    ensures Dispatch(h, w, Acknowledge(w.rj.value), Sorted(items))
            == System(w, AtStrip(Acknowledge(w.rj.value), jobs, k))
  {
    var obj := Acknowledge(w.rj.value);
    jobs := Sorted(items);
    SweepStarts(h, w, obj, items);
    hide Sorted, StoreInv, Dispatch, Matches, IsListing, HasJob, Conclude, UidLabel;
    k := NextHeld(jobs, 1);
    var x :| 1 <= x < |jobs| && jobs[x].name == n;
    assert jobs[x] == w.jobs[n];
  }

  /** Two held jobs, the older one made for the first template. */
  lemma TwoJobs(h: HashFunction, key: NamespacedName, uid: string, template: Template, edited: Template,
                fs: seq<Finalizer>)
      returns (events: seq<Event>, n: string)
    requires Operator !in fs && h(template) != h(edited)
    ensures var s := Reached(h, key, events);
            && s.local.Idle? && Scheduled(s.w, uid, edited, fs + [Operator], 2) && Matches(h, s.w)
            && s.w.rj.value.status.state != StateUnset
            && n in s.w.jobs && UidLabel(s.w.jobs[n]) == Some(uid) && n != Latest(s.w).name
            && Operator in s.w.jobs[n].finalizers
  {
    hide Step, Run, Reached, Act, StoreInv, LatestHeld, HashOf, GenerationOf, UidLabel;
    var seen := Seen(h, key, uid, template, fs);
    NothingMatches(h, Reached(h, key, seen).w);
    var first := Creates(h, key, seen);
    var w := Reached(h, key, first).w;
    n := Latest(w).name;
    LatestIsHeld(h, w);
    var changed := Edits(h, key, first, edited);
    assert !Matches(h, Reached(h, key, changed).w);
    events := Creates(h, key, changed);
  }

  lemma LatestIsHeld(h: HashFunction, w: World)
    requires Matches(h, w)
    ensures Latest(w).name in w.jobs && UidLabel(w.jobs[Latest(w).name]) == Some(w.rj.value.uid)
    ensures Operator in w.jobs[Latest(w).name].finalizers
  {
    hide HashOf, GenerationOf;
  }

  /** A run in which a sweep changes a job although the deletion is blocked: two jobs exist, a
      reconciliation lists them, a user deletes the ReactiveJob, which has foreign finalizers, and the
      older job still loses the operator's finalizer. */
  lemma LateStripHappens(h: HashFunction, key: NamespacedName, uid: string, template: Template, edited: Template,
                         fs: seq<Finalizer>)
      returns (events: seq<Event>)
    requires Operator !in fs && fs != [] && h(template) != h(edited)
    ensures var s := Reached(h, key, events);
            var t := Reached(h, key, events + [Op(CLEAN)]);
            && s.w.rj.Some? && s.w.rj.value.deleting && !OnlyOperator(s.w.rj.value.finalizers)
            && s.local.AtStrip? && t.w.jobs != s.w.jobs
  {
    hide Step, Run, Reached, Act, StoreInv, IsListing, Dispatch, Sorted, Matches, UidLabel;
    var two, n := TwoJobs(h, key, uid, template, edited, fs);
    var listed, items := Lists(h, key, two);
    var w := Reached(h, key, two).w.(queued := false);
    MatchesIgnoresQueue(h, Reached(h, key, two).w, w);
    var jobs, k := StopsAtOlder(h, w, items, n);
    events := Deletes(h, key, listed);
    var s := Reached(h, key, events);
    assert s.w.rj.value.finalizers[0] in s.w.rj.value.finalizers;
    assert JobUpdateAccepted(s.w, Unheld(jobs[k]));
    BlockedJobsTouchedExactly(h, key, events, CLEAN);
  }

  // ---------- A namesake that is deleted ----------

  /** The first request of a drain whose only job is held by the operator alone. */
  lemma DrainsOne(h: HashFunction, w: World, items: seq<Job>, n: string)
    requires StoreInv(h, w) && w.rj.Some? && w.rj.value.deleting && w.rj.value.finalizers == [Operator]
    requires IsListing(w, w.rj.value.uid, items)
    requires n in w.jobs && w.jobs == map[n := w.jobs[n]] && UidLabel(w.jobs[n]) == Some(w.rj.value.uid)
    requires Operator in w.jobs[n].finalizers
    ensures Dispatch(h, w, Acknowledge(w.rj.value), Sorted(items))
            == System(w, AtRelease(Acknowledge(w.rj.value), [w.jobs[n]], 0))
    ensures w.jobs[n].name == n
  {
    var obj := Acknowledge(w.rj.value);
    DrainStarts(h, w, obj, items);
    var jobs := Sorted(items);
    SortedMembers(items);
    assert w.jobs[n] in jobs;
    assert forall k :: 0 <= k < |jobs| ==> jobs[k].name == n;
    assert |jobs| == 1 && jobs == [w.jobs[n]];
  }

  /** The job is released, and its deletion comes next. */
  lemma Releases(h: HashFunction, key: NamespacedName, before: seq<Event>, obj: ReactiveJob, job: Job)
      returns (events: seq<Event>)
    requires var s := Reached(h, key, before);
             && s.local == AtRelease(obj, [job], 0) && job.name in s.w.jobs && s.w.jobs[job.name] == job
             && s.w.jobs == map[job.name := job] && job.finalizers == [Operator] && !job.deleting
    ensures var s := Reached(h, key, before);
            var t := Reached(h, key, events);
            && t.local == AtDelete(obj, [job], 0) && t.w.uids == s.w.uids
            && job.name in t.w.jobs && t.w.jobs == map[job.name := t.w.jobs[job.name]]
            && t.w.jobs[job.name].finalizers == [] && !t.w.jobs[job.name].deleting
  {
    hide Run, SetState, Wakes;
    LastStep(h, Start(key), before, Op(CLEAN));
    events := before + [Op(CLEAN)];
    assert Unheld(job).finalizers == [];
    var s := Reached(h, key, before);
    assert JobUpdateAccepted(s.w, Unheld(job));
  }

  /** Somebody removes the released job, and somebody else's job takes its name. */
  lemma Replaces(h: HashFunction, key: NamespacedName, before: seq<Event>, n: string, other: Job)
      returns (events: seq<Event>)
    requires var s := Reached(h, key, before);
             n in s.w.jobs && s.w.jobs == map[n := s.w.jobs[n]] && s.w.jobs[n].finalizers == [] && !s.w.jobs[n].deleting
    requires UidLabel(other).None? && !other.deleting
    ensures var s := Reached(h, key, before);
            var t := Reached(h, key, events);
            && t.local == s.local && n in t.w.jobs
            && t.w.jobs[n] == other.(name := n, resourceVersion := t.w.jobs[n].resourceVersion)
            && !Ours(t.w, t.w.jobs[n])
  {
    hide Run, Wakes;
    var gone := Env(RemoveJob(n, false));
    var new_ := Env(AddForeignJob(other.(name := n)));
    LastStep(h, Start(key), before, gone);
    LastStep(h, Start(key), before + [gone], new_);
    events := before + [gone] + [new_];
  }

  /** A run in which a delete by name hits a job of somebody else: the operator releases its only job;
      before the delete that follows, the job is removed and any other job takes its name. */
  lemma NamesakeHit(h: HashFunction, key: NamespacedName, uid: string, template: Template, other: Job)
      returns (events: seq<Event>, n: string)
    requires template.finalizers == [] && UidLabel(other).None? && !other.deleting
    ensures var s := Reached(h, key, events);
            var t := Reached(h, key, events + [Op(CLEAN)]);
            && n in s.w.jobs && s.w.jobs[n] == other.(name := n, resourceVersion := s.w.jobs[n].resourceVersion)
            && !Ours(s.w, s.w.jobs[n])
            && !(n in t.w.jobs && t.w.jobs[n] == s.w.jobs[n])
  {
    hide Step, Run, Reached, Act, StoreInv, IsListing, Dispatch, Sorted, UidLabel, Ours, HashOf, GenerationOf,
         LatestHeld;
    var seen := Seen(h, key, uid, template, []);
    NothingMatches(h, Reached(h, key, seen).w);
    var first := Creates(h, key, seen);
    n := Latest(Reached(h, key, first).w).name;
    LatestIsHeld(h, Reached(h, key, first).w);
    var marked := Deletes(h, key, first);
    var listed, items := Lists(h, key, marked);
    var w := Reached(h, key, marked).w.(queued := false);
    DrainsOne(h, w, items, n);
    var released := Releases(h, key, listed, Acknowledge(w.rj.value), w.jobs[n]);
    events := Replaces(h, key, released, n, other);
    OtherJobTouchedExactly(h, key, events, CLEAN, n);
  }

  // ---------- The acknowledged generation ----------

  /** When an error-free reconciliation that leaves the ReactiveJob in the store acknowledges its
      generation: always, except when it has to set the finalizer first and the generation was not
      acknowledged before. */
  lemma AcknowledgesExactly(h: HashFunction, s: System, t: System)
    requires Inv(h, s) && Reconciles(h, s, t) && s.w.rj.Some? && t.w.rj.Some?
    ensures t.w.rj.value.status.observedGeneration == t.w.rj.value.generation
            <==> !(&& Alive(s.w) && s.w.rj.value.status.state != StateUnset
                   && Operator !in s.w.rj.value.finalizers
                   && s.w.rj.value.status.observedGeneration != s.w.rj.value.generation)
  {
    var outcomes :| CleanRun(h, s, outcomes, t);
    StoredHolds(h, s);
    hide Inv, CleanRun, Reports, Matches, LatestHeld, OneMoreJob, LetGo, UidLabel, Settlement;
    if s.w.rj.value.status.state == StateUnset {
      FirstSeenReconciliation(h, s, outcomes, t);
    } else if !Alive(s.w) {
      if OnlyOperator(s.w.rj.value.finalizers) {
        DeletingReconciliation(h, s, t);
      } else {
        BlockedReconciliation(h, s, t);
      }
    } else if Matches(h, s.w) {
      MatchingReconciliation(h, s, outcomes, t);
    } else {
      CreatingReconciliation(h, s, outcomes, t);
    }
  }

  /** A run after which an error-free reconciliation leaves the acknowledged generation behind: a
      ReactiveJob is seen, then edited, then reconciled to its first job. */
  lemma AcknowledgementLags(h: HashFunction, key: NamespacedName, uid: string, template: Template, edited: Template,
                            fs: seq<Finalizer>)
      returns (before: seq<Event>, events: seq<Event>, outcomes: seq<Outcome>)
    requires Operator !in fs && template != edited
    ensures var s := Reached(h, key, before);
            var t := Reached(h, key, events);
            && s.local.Idle? && s.w.queued && CleanRun(h, s, outcomes, t)
            && Scheduled(t.w, uid, edited, fs + [Operator], 2) && t.w.rj.value.status.observedGeneration == 1
  {
    hide Step, Run, Reached, Act, Inv, CleanRun, Matches, OneMoreJob, Reports;
    var seen := Seen(h, key, uid, template, fs);
    before := Edits(h, key, seen, edited);
    NothingMatches(h, Reached(h, key, before).w);
    events, outcomes := Reconciled(h, key, before);
    CreatingReconciliation(h, Reached(h, key, before), outcomes, Reached(h, key, events));
  }
}
