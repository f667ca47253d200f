/** What a single request does to the jobs, and what history records. */
module Effects {
  import opened Options
  import opened Decimal
  import opened Objects
  import opened Cluster
  import opened Reconciler
  import opened Invariant
  import opened Environment
  import opened OperatorSteps
  import opened Requests
  import opened Safety

  // ---------- One request ----------

  /** A job marked for foreground deletion. */
  function Marked(j: Job, name: string, revision: nat): Job {
    j.(name := name, deleting := true, finalizers := AddFinalizer(j.finalizers, ForegroundDeletion),
       resourceVersion := revision)
  }

  /** The jobs after a request of the reconciler: unchanged, or one job created, or one listed job
      without the operator's finalizer, or one job marked for deletion. */
  ghost predicate JobEffect(s: System, v: World) {
    var w := s.w;
    || v.jobs == w.jobs
    || (s.local.AtCreate? && exists name ::
          name !in w.jobs && name in v.jobs && v.jobs == w.jobs[name := v.jobs[name]])
    || ((s.local.AtStrip? || s.local.AtRelease?) && s.local.i < |s.local.jobs|
          && var j := s.local.jobs[s.local.i];
             && j.name in w.jobs && w.jobs[j.name] == j
             && (v.jobs == w.jobs - {j.name}
                 || v.jobs == w.jobs[j.name := Unheld(j).(resourceVersion := w.revision + 1)]))
    || (s.local.AtDelete? && s.local.i < |s.local.jobs|
          && var n := s.local.jobs[s.local.i].name;
             && n in w.jobs && !w.jobs[n].deleting
             && v.jobs == w.jobs[n := Marked(w.jobs[n], n, w.revision + 1)])
  }

  lemma UnholdJobs(w: World, j: Job)
    requires Revisions(w) && Snapshot(w, j)
    ensures var v := UpdateJob(w, Unheld(j)).0;
            v == w || (j.name in w.jobs && w.jobs[j.name] == j
                       && (v.jobs == w.jobs - {j.name}
                           || v.jobs == w.jobs[j.name := Unheld(j).(resourceVersion := w.revision + 1)]))
  {
    UnholdEffect(w, j);
  }

  /** The job a loop request is about: listed for the ReactiveJob in memory, and as listed unless written since. */
  lemma LoopJob(h: HashFunction, s: System)
    requires Inv(h, s) && (s.local.AtStrip? || s.local.AtRelease? || s.local.AtDelete?)
    ensures s.local.i < |s.local.jobs|
    ensures var j := s.local.jobs[s.local.i];
            Snapshot(s.w, j) && UidLabel(j) == Some(s.local.obj.uid) && s.local.obj.uid in s.w.uids
    ensures Revisions(s.w)
    ensures !s.local.AtDelete? ==> Operator in s.local.jobs[s.local.i].finalizers
  {
    hide StatusShape, LatestHeld, ConditionTrueFor, StoredOk, HistoryOk, LogOk, LogOrder, LogBlock, Owned, Fenced,
         Guarded, Truthful;
    assert s.local.jobs[s.local.i] in s.local.jobs;
  }

  lemma UnholdEffectOn(s: System, o: Outcome)
    requires (s.local.AtStrip? || s.local.AtRelease?) && s.local.i < |s.local.jobs|
    requires Revisions(s.w) && Snapshot(s.w, s.local.jobs[s.local.i])
    ensures JobEffect(s, RequestEffect(s.w, s.local, o))
  {
    UnholdJobs(s.w, s.local.jobs[s.local.i]);
    hide Snapshot, Revisions, UpdateJob, Unheld;
  }

  lemma DeleteEffectOn(s: System, o: Outcome)
    requires s.local.AtDelete? && s.local.i < |s.local.jobs|
    ensures JobEffect(s, RequestEffect(s.w, s.local, o))
  {
    hide Wakes;
  }

  lemma LoopJobEffect(h: HashFunction, s: System, o: Outcome)
    requires Inv(h, s) && (s.local.AtStrip? || s.local.AtRelease? || s.local.AtDelete?)
    ensures JobEffect(s, RequestEffect(s.w, s.local, o))
  {
    LoopJob(h, s);
    hide Inv, Snapshot, Revisions, JobEffect, RequestEffect;
    if s.local.AtDelete? {
      DeleteEffectOn(s, o);
    } else {
      UnholdEffectOn(s, o);
    }
  }

  lemma OpJobEffect(h: HashFunction, s: System, o: Outcome)
    requires Inv(h, s)
    ensures JobEffect(s, OpStep(h, s, o).w)
  {
    hide OpStep, Inv, CreateJob;
    StepEffect(h, s, o);
    if s.local.AtCreate? {
      CreateAddsOne(s.w, s.local.job, Suffix(o));
    } else if s.local.AtFence? || s.local.AtClear? || s.local.AtStatus? {
      hide RequestEffect;
      ObjectRequestsKeep(s.w, s.local, o);
    } else if s.local.Idle? || s.local.AtList? {
      hide RequestEffect;
      JobRequestsKeep(s.w, s.local, o);
    } else {
      hide RequestEffect;
      LoopJobEffect(h, s, o);
    }
  }

  lemma CreateAddsOne(w: World, job: Job, suffix: string)
    ensures var v := CreateJob(w, job, suffix).0;
            v.jobs == w.jobs
            || exists name :: name !in w.jobs && name in v.jobs && v.jobs == w.jobs[name := v.jobs[name]]
  {
    hide HashOf, GenerationOf, Wakes;
    var name := GeneratedName(job, suffix);
    var v := CreateJob(w, job, suffix).0;
    if name !in w.jobs {
      assert v.jobs == w.jobs[name := v.jobs[name]];
    }
  }

  /** A stored job after a request of the operator: as it was; or, at the request about the listed job
      of its name, without the operator's finalizer and otherwise as it was, gone if nothing else holds
      it; or marked for foreground deletion and otherwise as it was. */
  ghost predicate JobAfter(s: System, v: World, n: string)
    requires n in s.w.jobs
  {
    var j := s.w.jobs[n];
    || (n in v.jobs && v.jobs[n] == j)
    || (&& (s.local.AtStrip? || s.local.AtRelease?) && s.local.i < |s.local.jobs| && s.local.jobs[s.local.i] == j
        && Operator in j.finalizers
        && (n !in v.jobs ==> j.deleting && forall f :: f in j.finalizers ==> f == Operator)
        && (n in v.jobs ==> v.jobs[n] == j.(finalizers := RemoveFinalizer(j.finalizers, Operator),
                                            resourceVersion := v.jobs[n].resourceVersion)))
    || (&& s.local.AtDelete? && s.local.i < |s.local.jobs| && s.local.jobs[s.local.i].name == n && !j.deleting
        && n in v.jobs
        && var fs := j.finalizers;
           v.jobs[n] == j.(deleting := true, resourceVersion := v.jobs[n].resourceVersion,
                           finalizers := if ForegroundDeletion in fs then fs else fs + [ForegroundDeletion]))
  }

  lemma UpdatedJob(w: World, j: Job, n: string)
    requires Revisions(w) && Snapshot(w, j) && Operator in j.finalizers && n in w.jobs
    ensures var v := UpdateJob(w, Unheld(j)).0;
            || (n in v.jobs && v.jobs[n] == w.jobs[n])
            || (&& w.jobs[n] == j
                && (n !in v.jobs ==> j.deleting && forall f :: f in j.finalizers ==> f == Operator)
                && (n in v.jobs ==> v.jobs[n] == j.(finalizers := RemoveFinalizer(j.finalizers, Operator),
                                                    resourceVersion := v.jobs[n].resourceVersion)))
  {
    OnlyOperatorLeft(j.finalizers);
    hide Wakes;
  }

  lemma DeletedJob(w: World, m: string, n: string)
    requires Revisions(w) && n in w.jobs
    ensures var v := DeleteJob(w, m, true).0;
            || (n in v.jobs && v.jobs[n] == w.jobs[n])
            || (&& m == n && !w.jobs[n].deleting && n in v.jobs
                && var fs := w.jobs[n].finalizers;
                   v.jobs[n] == w.jobs[n].(deleting := true, resourceVersion := v.jobs[n].resourceVersion,
                                           finalizers := if ForegroundDeletion in fs then fs
                                                         else fs + [ForegroundDeletion]))
  {
    hide Wakes;
  }

  /** No request of the operator does anything else to a job that exists. */
  lemma JobChangesExactly(h: HashFunction, key: NamespacedName, events: seq<Event>, o: Outcome, n: string)
    requires n in Reached(h, key, events).w.jobs
    ensures JobAfter(Reached(h, key, events), Reached(h, key, events + [Op(o)]).w, n)
  {
    var s := Reached(h, key, events);
    ReachedInv(h, key, events);
    LastStep(h, Start(key), events, Op(o));
    assert Reached(h, key, events + [Op(o)]).w == OpStep(h, s, o).w;
    if s.local.AtStrip? || s.local.AtRelease? || s.local.AtDelete? {
      LoopJob(h, s);
      LoopStepEffect(h, s, o);
      hide Run, Reached, Inv, OpStep, UpdateJob, DeleteJob, Unheld, Snapshot, Revisions;
      if s.local.AtDelete? {
        DeletedJob(s.w, s.local.jobs[s.local.i].name, n);
      } else {
        UpdatedJob(s.w, s.local.jobs[s.local.i], n);
      }
    } else {
      OpJobEffect(h, s, o);
      hide Run, Reached, Inv, OpStep;
      NoLoopLeavesOthers(s, OpStep(h, s, o).w, n);
    }
  }

  /** Every job, at the moment its line enters the log of any run: it is in the store under the name of
      the line, made from the template on record for that ReactiveJob and generation. */
  lemma CreatedJobIsMade(h: HashFunction, key: NamespacedName, events: seq<Event>, e: Event)
    requires Reached(h, key, events + [e]).w.created != Reached(h, key, events).w.created
    ensures var w := Reached(h, key, events).w;
            var v := Reached(h, key, events + [e]).w;
            && |v.created| == |w.created| + 1 && w.created <= v.created
            && var line := Latest(v);
               && (line.uid, line.generation) in v.history
               && line.name !in w.jobs && line.name in v.jobs && v.jobs[line.name].name == line.name
               && key.name + "-" <= line.name
               && MadeFrom(v.jobs[line.name], v.history[(line.uid, line.generation)], key, line.uid, line.generation,
                           line.hash)
  {
    var s := Reached(h, key, events);
    ReachedInv(h, key, events);
    ReachedKey(h, key, events);
    LastStep(h, Start(key), events, e);
    assert Reached(h, key, events + [e]) == Step(h, s, e);
    hide Run, Reached, Inv, OpStep, Act, MadeFrom;
    match e
    case Env(a) => LogOfOthers(h, s, a);
    case Op(o) =>
      OpKeepsLog(h, s, o);
      CreateStepEffect(h, s, o);
      CreateAtHand(h, s);
      OneLine(s.w, s.local.job, Suffix(o));
      CreateEffect(h, s.w, s.local.obj, s.local.job, Suffix(o));
      hide CreateJob, BuildJob, HashOf, GenerationOf, ParsedGeneration, EnqueueMapper, UidLabel, Record;
    case Crash =>
  }

  lemma OneLine(w: World, job: Job, suffix: string)
    ensures CreateJob(w, job, suffix).0.created != w.created ==> GeneratedName(job, suffix) !in w.jobs
  {
  }

  lemma LogOfOthers(h: HashFunction, s: System, a: Action)
    requires Inv(h, s)
    ensures Act(s.w, a).created == s.w.created && Act(s.w, a).key == s.w.key
  {
    ActRelies(s.w, a);
    hide Act, RelyJobs, RelyReactiveJob;
  }

  lemma CreateAtHand(h: HashFunction, s: System)
    requires Inv(h, s) && s.local.AtCreate?
    ensures var obj := s.local.obj;
            && 1 <= obj.generation <= MAX_INT64 && (obj.uid, obj.generation) in s.w.history
            && s.local.job == BuildJob(h, s.w.key, obj.uid, obj.generation, s.w.history[(obj.uid, obj.generation)])
  {
    hide StoreInv, BuildJob, StatusShape, HashOf;
  }

  lemma {:induction false} ReachedKey(h: HashFunction, key: NamespacedName, events: seq<Event>)
    ensures Reached(h, key, events).w.key == key
    decreases |events|
  {
    if events != [] {
      var front := events[..|events| - 1];
      var s := Reached(h, key, front);
      ReachedKey(h, key, front);
      ReachedInv(h, key, front);
      hide Inv, OpStep, Act;
      match events[|events| - 1]
      case Env(a) => LogOfOthers(h, s, a);
      case Op(o) => StepKeepsKey(h, s, o);
      case Crash =>
    }
  }

  lemma StepKeepsKey(h: HashFunction, s: System, o: Outcome)
    ensures OpStep(h, s, o).w.key == s.w.key
  {
    hide OpStep, RequestEffect;
    StepEffect(h, s, o);
    if s.local.AtFence? || s.local.AtClear? || s.local.AtStatus? {
      ObjectRequestsKeep(s.w, s.local, o);
    } else {
      JobRequestsKeep(s.w, s.local, o);
    }
  }

  /** The job n lost the operator's finalizer, or is gone. */
  ghost predicate Lost(w: World, v: World, n: string) {
    && n in w.jobs && Operator in w.jobs[n].finalizers
    && (n !in v.jobs || Operator !in v.jobs[n].finalizers)
  }

  lemma OthersLoseNothing(h: HashFunction, s: System, a: Action, n: string)
    requires Inv(h, s)
    ensures !Lost(s.w, Act(s.w, a), n)
  {
    hide Act, LocalInv, RelyReactiveJob;
    ActRelies(s.w, a);
    if n in Act(s.w, a).jobs {
      assert RelyJob(s.w, Act(s.w, a), n);
    }
  }

  /** An older job is let go only behind a newer one: while the ReactiveJob is not being deleted, a
      job loses the operator's finalizer only to a strip request, and then the latest job is another
      one, of larger generation, that is in the store, holds the finalizer, and carries the hash of
      the template at the generation being reconciled. */
  lemma OlderJobsGoLast(h: HashFunction, key: NamespacedName, events: seq<Event>, e: Event, n: string)
    requires var w := Reached(h, key, events).w; w.rj.Some? && !w.rj.value.deleting
    requires Lost(Reached(h, key, events).w, Reached(h, key, events + [e]).w, n)
    ensures var s := Reached(h, key, events);
            var v := Reached(h, key, events + [e]).w;
            && e.Op? && s.local.AtStrip?
            && s.local.obj.uid == s.w.rj.value.uid
            && |v.created| > 0 && Latest(v).uid == s.w.rj.value.uid
            && Latest(v).name in v.jobs && Operator in v.jobs[Latest(v).name].finalizers
            && Latest(v).name != n && GenerationOf(s.w.jobs[n]) < Latest(v).generation
            && (s.local.obj.uid, s.local.obj.generation) in v.history
            && HashOf(v.jobs[Latest(v).name]) == h(v.history[(s.local.obj.uid, s.local.obj.generation)])
  {
    var s := Reached(h, key, events);
    ReachedInv(h, key, events);
    LastStep(h, Start(key), events, e);
    assert Reached(h, key, events + [e]) == Step(h, s, e);
    hide Inv, Act, OpStep, Run, Reached, GenerationOf, HashOf;
    match e
    case Env(action) => OthersLoseNothing(h, s, action, n);
    case Crash =>
    case Op(o) => StripGuarded(h, s, o, n);
  }

  lemma StripGuarded(h: HashFunction, s: System, o: Outcome, n: string)
    requires Inv(h, s) && s.w.rj.Some? && !s.w.rj.value.deleting
    requires Lost(s.w, OpStep(h, s, o).w, n)
    ensures var v := OpStep(h, s, o).w;
            && s.local.AtStrip?
            && s.local.obj.uid == s.w.rj.value.uid
            && |v.created| > 0 && Latest(v).uid == s.w.rj.value.uid
            && Latest(v).name in v.jobs && Operator in v.jobs[Latest(v).name].finalizers
            && Latest(v).name != n && GenerationOf(s.w.jobs[n]) < Latest(v).generation
            && (s.local.obj.uid, s.local.obj.generation) in v.history
            && HashOf(v.jobs[Latest(v).name]) == h(v.history[(s.local.obj.uid, s.local.obj.generation)])
  {
    var v := OpStep(h, s, o).w;
    OpJobEffect(h, s, o);
    OpStepKeepsInv(h, s, o);
    OpKeepsLog(h, s, o);
    hide OpStep, LocalInv, JobEffect, RequestEffect;
    LossAtStrip(h, s, v, n);
    StepEffect(h, s, o);
    JobRequestsKeep(s.w, s.local, o);
    StripHead(h, s, v, n);
  }

  lemma LossAtStrip(h: HashFunction, s: System, v: World, n: string)
    requires LocalInv(h, s.w, s.local) && s.w.rj.Some? && !s.w.rj.value.deleting
    requires JobEffect(s, v) && Lost(s.w, v, n)
    ensures s.local.AtStrip?
  {
    hide MemoryOk, SweepList, LatestHeld, Snapshot;
  }

  lemma StripHead(h: HashFunction, s: System, v: World, n: string)
    requires StoreInv(h, s.w) && LocalInv(h, s.w, s.local) && StoreInv(h, v) && s.local.AtStrip?
    requires JobEffect(s, v) && Lost(s.w, v, n)
    requires v.rj == s.w.rj && v.history == s.w.history && v.created == s.w.created
    requires s.w.rj.Some? && !s.w.rj.value.deleting
    ensures && s.local.obj.uid == s.w.rj.value.uid
            && |v.created| > 0 && Latest(v).uid == s.w.rj.value.uid
            && Latest(v).name in v.jobs && Operator in v.jobs[Latest(v).name].finalizers
            && Latest(v).name != n && GenerationOf(s.w.jobs[n]) < Latest(v).generation
            && (s.local.obj.uid, s.local.obj.generation) in v.history
            && HashOf(v.jobs[Latest(v).name]) == h(v.history[(s.local.obj.uid, s.local.obj.generation)])
  {
    LoopJob(h, s);
    SweepFacts(h, s);
    StripTarget(s, v, n);
    OlderThanLatest(h, s.w, n);
    hide StoreInv, LocalInv, HashOf, GenerationOf, UidLabel, Revisions, Snapshot, Ours, JobEffect;
    HeldJob(s.w);
  }

  /** What a sweep knows about the latest job. */
  lemma SweepFacts(h: HashFunction, s: System)
    requires LocalInv(h, s.w, s.local) && s.local.AtStrip?
    ensures Same(s.w, s.local.obj) && HasJob(s.w, s.local.obj.uid) && LatestHeld(s.w)
    ensures 1 <= s.local.i < |s.local.jobs| && s.local.jobs[s.local.i].name != Latest(s.w).name
    ensures (s.local.obj.uid, s.local.obj.generation) in s.w.history
    ensures Latest(s.w).hash == h(s.w.history[(s.local.obj.uid, s.local.obj.generation)])
    ensures Operator in s.w.jobs[Latest(s.w).name].finalizers
  {
    hide StatusShape, Snapshot, HashOf, GenerationOf, ConditionTrueFor, UidLabel;
  }

  /** Only the job the request is about can lose the finalizer. */
  lemma StripTarget(s: System, v: World, n: string)
    requires s.local.AtStrip? && s.local.i < |s.local.jobs| && JobEffect(s, v) && Lost(s.w, v, n)
    ensures n == s.local.jobs[s.local.i].name && s.w.jobs[n] == s.local.jobs[s.local.i]
    ensures forall m :: m in s.w.jobs && m != n ==> m in v.jobs && v.jobs[m] == s.w.jobs[m]
  {
  }

  lemma OlderThanLatest(h: HashFunction, w: World, n: string)
    requires StoreInv(h, w) && n in w.jobs && Ours(w, w.jobs[n]) && w.rj.Some?
    requires HasJob(w, w.rj.value.uid) && Latest(w).name != n
    ensures GenerationOf(w.jobs[n]) < Latest(w).generation
  {
    hide LogOk, LogOrder, StatusShape, Truthful, Guarded, HashOf, GenerationOf, ParsedGeneration;
    assert OwnedJob(w, n);
    LatestIsNewest(w.created, Record(n, w.jobs[n]));
  }

  /** Deletion order: a request changes a job only while creating or sweeping for a ReactiveJob that
      was read as not being deleted, or in the deletion case, and then the stored ReactiveJob is
      being deleted and holds no finalizer but the operator's. */
  lemma DeletionOrder(h: HashFunction, key: NamespacedName, events: seq<Event>, o: Outcome)
    requires Reached(h, key, events + [Op(o)]).w.jobs != Reached(h, key, events).w.jobs
    ensures var s := Reached(h, key, events);
            if s.local.AtCreate? || s.local.AtStrip? then
              !s.local.obj.deleting
            else
              && (s.local.AtRelease? || s.local.AtDelete?)
              && s.w.rj.Some? && s.w.rj.value.deleting && OnlyOperator(s.w.rj.value.finalizers)
  {
    var s := Reached(h, key, events);
    ReachedInv(h, key, events);
    LastStep(h, Start(key), events, Op(o));
    OpJobEffect(h, s, o);
    hide OpStep, Run, Reached, StoreInv, MemoryOk, SweepList;
  }

  /** An update that takes the finalizer off a job changes the jobs exactly when it is accepted: the
      revision tells. */
  lemma UnholdChangesExactly(w: World, j: Job)
    requires Revisions(w)
    ensures UpdateJob(w, Unheld(j)).0.jobs != w.jobs <==> JobUpdateAccepted(w, Unheld(j))
  {
    hide Unheld, Wakes;
    var k := Unheld(j);
    var v := UpdateJob(w, k).0;
    if JobUpdateAccepted(w, k) {
      assert k.name !in v.jobs || v.jobs[k.name].resourceVersion == w.revision + 1;
      assert w.jobs[k.name].resourceVersion <= w.revision;
    }
  }

  /** Exactly when a request changes jobs although the stored ReactiveJob is being deleted and has
      foreign finalizers: it reaches the server, and it is a create under a fresh name or a strip that
      is accepted. Both belong to a reconciliation that read the ReactiveJob before its deletion. */
  lemma BlockedJobsTouchedExactly(h: HashFunction, key: NamespacedName, events: seq<Event>, o: Outcome)
    requires var w := Reached(h, key, events).w;
             w.rj.Some? && w.rj.value.deleting && !OnlyOperator(w.rj.value.finalizers)
    ensures var s := Reached(h, key, events);
            Reached(h, key, events + [Op(o)]).w.jobs != s.w.jobs
            <==> !o.NotDelivered?
                 && ((s.local.AtCreate? && GeneratedName(s.local.job, Suffix(o)) !in s.w.jobs)
                     || (s.local.AtStrip? && s.local.i < |s.local.jobs|
                         && JobUpdateAccepted(s.w, Unheld(s.local.jobs[s.local.i]))))
  {
    var s := Reached(h, key, events);
    ReachedInv(h, key, events);
    LastStep(h, Start(key), events, Op(o));
    if s.local.AtCreate? {
      hide Run, Reached, Inv, OpStep, HashOf, GenerationOf, Wakes;
      CreateStepEffect(h, s, o);
    } else if s.local.AtStrip? {
      LoopJob(h, s);
      hide Run, Reached, Inv, OpStep, UpdateJob, JobUpdateAccepted, Unheld, Snapshot, Revisions;
      LoopStepEffect(h, s, o);
      UnholdChangesExactly(s.w, s.local.jobs[s.local.i]);
    } else if Reached(h, key, events + [Op(o)]).w.jobs != s.w.jobs {
      DeletionOrder(h, key, events, o);
    }
  }

  /** Jobs of others stay as they are: a request changes a job that does not carry the uid of a
      ReactiveJob under the key only when it is a delete by name and the listed job of that name has
      been replaced since it was listed. */
  lemma OtherJobsUntouched(h: HashFunction, key: NamespacedName, events: seq<Event>, o: Outcome, n: string)
    requires var w := Reached(h, key, events).w; n in w.jobs && !Ours(w, w.jobs[n])
    ensures var s := Reached(h, key, events);
            var v := Reached(h, key, events + [Op(o)]).w;
            || (n in v.jobs && v.jobs[n] == s.w.jobs[n])
            || (&& s.local.AtDelete? && s.local.i < |s.local.jobs|
                && s.local.jobs[s.local.i].name == n
                && s.local.jobs[s.local.i].resourceVersion != s.w.jobs[n].resourceVersion)
  {
    var s := Reached(h, key, events);
    ReachedInv(h, key, events);
    LastStep(h, Start(key), events, Op(o));
    OpJobEffect(h, s, o);
    hide OpStep, Run, Reached, Inv, JobEffect;
    if s.local.AtStrip? || s.local.AtRelease? || s.local.AtDelete? {
      LoopJob(h, s);
      LoopLeavesOthers(s, OpStep(h, s, o).w, n);
    } else {
      NoLoopLeavesOthers(s, OpStep(h, s, o).w, n);
    }
  }

  lemma LoopLeavesOthers(s: System, v: World, n: string)
    requires (s.local.AtStrip? || s.local.AtRelease? || s.local.AtDelete?) && s.local.i < |s.local.jobs|
    requires JobEffect(s, v) && n in s.w.jobs && !Ours(s.w, s.w.jobs[n])
    requires var j := s.local.jobs[s.local.i];
             Snapshot(s.w, j) && UidLabel(j) == Some(s.local.obj.uid) && s.local.obj.uid in s.w.uids
    ensures || (n in v.jobs && v.jobs[n] == s.w.jobs[n])
            || (&& s.local.AtDelete? && s.local.jobs[s.local.i].name == n
                && s.local.jobs[s.local.i].resourceVersion != s.w.jobs[n].resourceVersion)
  {
    hide Marked, Unheld;
  }

  lemma NoLoopLeavesOthers(s: System, v: World, n: string)
    requires !s.local.AtStrip? && !s.local.AtRelease? && !s.local.AtDelete?
    requires JobEffect(s, v) && n in s.w.jobs
    ensures n in v.jobs && v.jobs[n] == s.w.jobs[n]
  {
  }

  /** Exactly when a request touches such a job: it is a delete that the server carries out, and the
      job took the name of the listed one and is not being deleted already. */
  lemma OtherJobTouchedExactly(h: HashFunction, key: NamespacedName, events: seq<Event>, o: Outcome, n: string)
    requires var w := Reached(h, key, events).w; n in w.jobs && !Ours(w, w.jobs[n])
    ensures var s := Reached(h, key, events);
            var v := Reached(h, key, events + [Op(o)]).w;
            (n in v.jobs && v.jobs[n] == s.w.jobs[n])
            <==> !(&& s.local.AtDelete? && s.local.i < |s.local.jobs| && s.local.jobs[s.local.i].name == n
                   && !s.w.jobs[n].deleting && !o.NotDelivered?)
  {
    var s := Reached(h, key, events);
    ReachedInv(h, key, events);
    LastStep(h, Start(key), events, Op(o));
    if s.local.AtDelete? {
      LoopJob(h, s);
      hide OpStep, Run, Reached, Inv, Snapshot, Ours, UidLabel, Wakes;
      LoopStepEffect(h, s, o);
    } else {
      OtherJobsUntouched(h, key, events, o, n);
    }
  }

  // ---------- History is what was stored ----------

  /** Every recorded template was stored at its generation in some state of the run. */
  lemma {:induction false} HistoryWasStored(h: HashFunction, key: NamespacedName, events: seq<Event>, uid: string,
                                            generation: int)
      returns (n: nat)
    requires (uid, generation) in Reached(h, key, events).w.history
    ensures n <= |events|
    ensures var w := Reached(h, key, events[..n]).w;
            && w.rj.Some? && w.rj.value.uid == uid && w.rj.value.generation == generation
            && w.rj.value.template == Reached(h, key, events).w.history[(uid, generation)]
    decreases |events|
  {
    var k := |events|;
    n := k;
    ReachedInv(h, key, events);
    hide Step;
    if k > 0 {
      var front := events[..k - 1];
      var s := Reached(h, key, front);
      assert Reached(h, key, events) == Step(h, s, events[k - 1]);
      ReachedInv(h, key, front);
      if (uid, generation) in s.w.history {
        n := HistoryWasStored(h, key, front, uid, generation);
        assert front[..n] == events[..n];
        StepForwards(h, s, events[k - 1]);
      } else {
        assert events[..n] == events;
        NewHistoryIsStored(h, s, events[k - 1], uid, generation);
      }
    }
  }

  lemma NewHistoryIsStored(h: HashFunction, s: System, e: Event, uid: string, generation: int)
    requires Inv(h, s)
    requires (uid, generation) !in s.w.history && (uid, generation) in Step(h, s, e).w.history
    ensures var w := Step(h, s, e).w;
            && w.rj.Some? && w.rj.value.uid == uid && w.rj.value.generation == generation
            && w.rj.value.template == w.history[(uid, generation)]
  {
    hide Act, OpStep, LocalInv, RelyJobs;
    match e
    case Env(action) => ActRelies(s.w, action);
    case Op(o) => OpKeepsSpec(h, s, o);
    case Crash =>
  }

  /** Hash history: every created job carries the hash of the template that its ReactiveJob had, in
      some state of the run, at the generation in the job's annotation. */
  lemma CreatedFromStoredTemplate(h: HashFunction, key: NamespacedName, events: seq<Event>, line: Created)
      returns (n: nat)
    requires line in Reached(h, key, events).w.created
    ensures n <= |events|
    ensures var w := Reached(h, key, events[..n]).w;
            && w.rj.Some? && w.rj.value.uid == line.uid && w.rj.value.generation == line.generation
            && line.hash == h(w.rj.value.template)
  {
    hide Step;
    ReachedInv(h, key, events);
    n := HistoryWasStored(h, key, events, line.uid, line.generation);
  }
}
