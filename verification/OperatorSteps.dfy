/** Every step of the reconciler keeps the invariant. */
module OperatorSteps {
  import opened Options
  import opened Decimal
  import opened Status
  import opened Objects
  import opened Sorting
  import opened Cluster
  import opened Reconciler
  import opened Invariant
  import opened Environment

  // ---------- Status bookkeeping in memory ----------

  lemma WithStateShape(w: World, obj: ReactiveJob, state: ReactiveJobState, message: Message)
    requires StatusShape(obj.status) && state != StateUnset
    ensures StatusShape(WithState(w, obj, state, message).status)
  {
    SetStateAgrees(obj.status, state, message, w.now);
  }

  lemma WithStateMemory(w: World, obj: ReactiveJob, state: ReactiveJobState, message: Message)
    requires MemoryOk(w, obj) && state != StateUnset
    ensures MemoryOk(w, WithState(w, obj, state, message))
  {
    hide StatusShape;
    WithStateShape(w, obj, state, message);
  }

  lemma AbortKeeps(h: HashFunction, w: World, obj: ReactiveJob, call: Call)
    requires MemoryOk(w, obj)
    ensures Abort(w, obj, call).w == w
    ensures LocalInv(h, w, Abort(w, obj, call).local)
  {
    hide MemoryOk;
    WithStateMemory(w, obj, StateError, Failure(call));
  }

  // ---------- Reading the ReactiveJob ----------

  lemma CreatedBefore(h: HashFunction, w: World)
    requires LogOk(h, w) && HistoryOk(w) && w.rj.Some?
    ensures forall line :: line in w.created && line.uid == w.rj.value.uid ==> line.generation <= w.rj.value.generation
  {
    forall line | line in w.created && line.uid == w.rj.value.uid
      ensures line.generation <= w.rj.value.generation
    {
      assert (line.uid, line.generation) in w.history;
    }
  }

  lemma BeginKeeps(h: HashFunction, w: World)
    requires StoreInv(h, w) && w.rj.Some?
    ensures Begin(w, w.rj.value).w == w
    ensures LocalInv(h, w, Begin(w, w.rj.value).local)
  {
    hide LatestHeld, StatusShape, LogOrder, Owned, Truthful, LogOk;
    var r := w.rj.value;
    var obj := Acknowledge(r);
    assert StatusShape(obj.status) by {
      AcknowledgeShape(r);
    }
    assert MemoryOk(w, obj);
    if obj.status.state == StateUnset {
      WithStateMemory(w, obj, StateNew, FirstSeen);
    } else {
      CreatedBefore(h, w);
      assert obj.finalizers != [] ==> obj.finalizers[0] in obj.finalizers;
    }
  }

  lemma AcknowledgeShape(r: ReactiveJob)
    requires StatusShape(r.status)
    ensures StatusShape(Acknowledge(r).status)
  {
  }

  // ---------- Writing the ReactiveJob ----------

  /** v is w after a write of the operator to the stored ReactiveJob that keeps spec and deletion mark. */
  ghost predicate OwnWrite(w: World, v: World) {
    && w.rj.Some? && v.rj.Some?
    && v == w.(revision := w.revision + 1, rj := v.rj)
    && v.rj.value == w.rj.value.(resourceVersion := w.revision + 1,
                                 finalizers := v.rj.value.finalizers, status := v.rj.value.status)
    && (Operator in w.rj.value.finalizers ==> Operator in v.rj.value.finalizers)
    && (v.rj.value.deleting ==> v.rj.value.finalizers != [])
    && StatusShape(v.rj.value.status)
    && (Operator in v.rj.value.finalizers ==> v.rj.value.status.state != StateUnset)
    && -1 <= v.rj.value.status.observedGeneration <= v.rj.value.generation
  }

  lemma OwnWriteKeepsStore(h: HashFunction, w: World, v: World)
    requires StoreInv(h, w) && OwnWrite(w, v) && Truthful(h, v)
    ensures StoreInv(h, v)
  {
    hide StatusShape, LogOrder, Truthful, ParsedGeneration, GenerationOf, HashOf, EnqueueMapper;
    forall n | n in v.jobs && Ours(v, v.jobs[n]) ensures OwnedJob(v, n) {
      assert OwnedJob(w, n);
    }
    assert LatestHeld(w) ==> LatestHeld(v);
  }

  lemma FenceKeeps(h: HashFunction, w: World, obj: ReactiveJob, jobs: seq<Job>)
    requires StoreInv(h, w) && LocalInv(h, w, AtFence(obj, jobs)) && UpdateAccepted(w, obj)
    ensures var (v, reply) := UpdateReactiveJob(w, obj);
            && reply.Accepted? && StoreInv(h, v)
            && MemoryOk(v, reply.value) && Pristine(v, reply.value) && HeldInStore(v, reply.value)
            && reply.value.status.state == w.rj.value.status.state
            && reply.value.uid == obj.uid && !reply.value.deleting && v.created == w.created && v.key == w.key
  {
    hide StatusShape, LogOk, LogOrder, Owned, Truthful, ParsedGeneration, GenerationOf, HashOf, EnqueueMapper, ReadyFor;
    var (v, reply) := UpdateReactiveJob(w, obj);
    var r := w.rj.value;
    assert r.template == obj.template;
    assert v.history == w.history;
    assert Truthful(h, v) by {
      NoJobsTruthful(h, w, v);
    }
    OwnWriteKeepsStore(h, w, v);
  }

  lemma NoJobsTruthful(h: HashFunction, w: World, v: World)
    requires Truthful(h, w) && w.rj.Some?
    requires forall line :: line in w.created ==> line.uid != w.rj.value.uid
    requires v.rj.Some? && v.rj.value.uid == w.rj.value.uid && v.rj.value.status == w.rj.value.status
    requires v.rj.value.generation == w.rj.value.generation && v.rj.value.deleting == w.rj.value.deleting
    ensures Truthful(h, v)
  {
  }

  lemma StatusKeeps(h: HashFunction, w: World, obj: ReactiveJob, result: Result)
    requires StoreInv(h, w) && LocalInv(h, w, AtStatus(obj, result))
    ensures StoreInv(h, UpdateStatus(w, obj).0)
  {
    hide StatusShape, LogOk, LogOrder, Owned, ParsedGeneration, GenerationOf, HashOf, EnqueueMapper, LatestHeld,
         ConditionTrueFor;
    if StatusAccepted(w, obj) {
      var v := UpdateStatus(w, obj).0;
      assert v.history == w.history;
      assert v.jobs == w.jobs && v.created == w.created;
      assert OwnWrite(w, v);
      assert Truthful(h, v);
      OwnWriteKeepsStore(h, w, v);
    }
  }

  // ---------- Listing and sorting the jobs ----------

  /** Each listed job is on record, and so its generation is known and its own. */
  lemma ListedOnRecord(h: HashFunction, w: World, uid: string, items: seq<Job>)
    requires StoreInv(h, w) && uid in w.uids && IsListing(w, uid, items)
    ensures forall j :: j in items ==>
              && w.rj.Some? && w.rj.value.uid == uid && Snapshot(w, j)
              && ParsedGeneration(j).Some? && Record(j.name, j) in w.created && Record(j.name, j).uid == uid
    ensures !SortPanics(items)
  {
    hide LogOk, LogOrder, Truthful, Guarded, StoredOk, HistoryOk, GenerationOf, HashOf, ParsedGeneration, EnqueueMapper;
    forall j | j in items
      ensures w.rj.Some? && w.rj.value.uid == uid && ParsedGeneration(j).Some?
      ensures Record(j.name, j) in w.created && Record(j.name, j).uid == uid && Snapshot(w, j)
    {
      assert Ours(w, w.jobs[j.name]) && OwnedJob(w, j.name);
    }
  }

  lemma RecordsDiffer(log: seq<Created>, a: Created, b: Created)
    requires LogOrder(log) && a in log && b in log && a.uid == b.uid && a.name != b.name
    ensures a.generation != b.generation
  {
    var i :| 0 <= i < |log| && log[i] == a;
    var j :| 0 <= j < |log| && log[j] == b;
  }

  lemma LatestIsNewest(log: seq<Created>, a: Created)
    requires LogOrder(log) && a in log && a.uid == log[|log| - 1].uid
    ensures a == log[|log| - 1] || a.generation < log[|log| - 1].generation
  {
    var i :| 0 <= i < |log| && log[i] == a;
  }

  lemma ListedDistinct(h: HashFunction, w: World, uid: string, items: seq<Job>)
    requires StoreInv(h, w) && uid in w.uids && IsListing(w, uid, items)
    ensures DistinctGenerations(items)
  {
    hide StoreInv, GenerationOf, HashOf;
    ListedOnRecord(h, w, uid, items);
    assert LogOrder(w.created) by { LogOrderOf(h, w); }
    forall i, j | 0 <= i < j < |items| ensures GenerationOf(items[i]) != GenerationOf(items[j]) {
      RecordsDiffer(w.created, Record(items[i].name, items[i]), Record(items[j].name, items[j]));
    }
  }

  lemma LogOrderOf(h: HashFunction, w: World)
    requires StoreInv(h, w)
    ensures LogOrder(w.created) && LogBlock(w)
  {
  }

  /** The sorted list is strictly ordered and has no two jobs of one name. */
  lemma SortedStrictly(h: HashFunction, w: World, uid: string, items: seq<Job>)
    requires StoreInv(h, w) && uid in w.uids && IsListing(w, uid, items)
    ensures StrictlyNewestFirst(Sorted(items))
    ensures forall j, k :: 0 <= j < k < |Sorted(items)| ==> Sorted(items)[j].name != Sorted(items)[k].name
  {
    hide StoreInv, GenerationOf, HashOf, Snapshot;
    var jobs := Sorted(items);
    SortedIsOrdered(items);
    SortedMembers(items);
    LogOrderOf(h, w);
    forall j, k | 0 <= j < k < |jobs|
      ensures jobs[j].name != jobs[k].name && GenerationOf(jobs[j]) > GenerationOf(jobs[k])
    {
      hide Sorted, LogOrder, NewestFirst, LogBlock;
      assert jobs[j] in items && jobs[k] in items;
      assert GenerationOf(jobs[j]) >= GenerationOf(jobs[k]) by { OrderedPair(jobs, j, k); }
      assert w.jobs[jobs[j].name] == jobs[j] && w.jobs[jobs[k].name] == jobs[k];
      NoRepeats(items, jobs, j, k);
      ListedOnRecord(h, w, uid, items);
      RecordsDiffer(w.created, Record(jobs[j].name, jobs[j]), Record(jobs[k].name, jobs[k]));
    }
  }

  lemma OrderedPair(jobs: seq<Job>, j: nat, k: nat)
    requires NewestFirst(jobs) && j < k < |jobs|
    ensures GenerationOf(jobs[j]) >= GenerationOf(jobs[k])
  {
    hide GenerationOf;
  }

  lemma HeldJob(w: World)
    requires LatestHeld(w)
    ensures |w.created| > 0 && Latest(w).name in w.jobs
    ensures UidLabel(w.jobs[Latest(w).name]) == Some(Latest(w).uid)
    ensures Record(Latest(w).name, w.jobs[Latest(w).name]) == Latest(w)
  {
  }

  /** The head of the sorted list is the latest job, if that one is still held. */
  lemma SortedHead(h: HashFunction, w: World, uid: string, items: seq<Job>)
    requires StoreInv(h, w) && uid in w.uids && IsListing(w, uid, items)
    requires HasJob(w, uid) && LatestHeld(w)
    ensures Sorted(items) != [] && Sorted(items)[0] == w.jobs[Latest(w).name] && Sorted(items)[0].name == Latest(w).name
  {
    hide StoreInv, GenerationOf, HashOf, Snapshot, LatestHeld, Sorted, LogOrder, UidLabel;
    var jobs := Sorted(items);
    SortedMembers(items);
    LogOrderOf(h, w);
    HeldJob(w);
    var top := w.jobs[Latest(w).name];
    assert top in jobs;
    var t :| 0 <= t < |jobs| && jobs[t] == top;
    assert jobs[0] in items;
    assert t > 0 ==> GenerationOf(jobs[0]) > GenerationOf(jobs[t]) by {
      SortedStrictly(h, w, uid, items);
    }
    ListedOnRecord(h, w, uid, items);
    LatestIsNewest(w.created, Record(jobs[0].name, jobs[0]));
    assert Record(jobs[0].name, jobs[0]) == Latest(w);
  }

  lemma NothingListed(h: HashFunction, w: World, uid: string, items: seq<Job>)
    requires StoreInv(h, w) && uid in w.uids && IsListing(w, uid, items) && !HasJob(w, uid)
    ensures items == []
  {
    hide StoreInv, GenerationOf, HashOf, Snapshot;
    if items != [] {
      assert items[0] in items;
      ListedOnRecord(h, w, uid, items);
      LogOrderOf(h, w);
    }
  }

  /** A permutation of a list without repeated names repeats none either. */
  lemma NoRepeats(items: seq<Job>, jobs: seq<Job>, j: nat, k: nat)
    requires multiset(items) == multiset(jobs)
    requires forall a, b :: 0 <= a < b < |items| ==> items[a].name != items[b].name
    requires j < k < |jobs|
    ensures jobs[j] != jobs[k]
  {
    if jobs[j] == jobs[k] {
      var x := jobs[j];
      TwiceInMultiset(jobs, j, k);
      AtMostOnce(items, x);
    }
  }

  lemma {:induction false} AtMostOnce(items: seq<Job>, x: Job)
    requires forall a, b :: 0 <= a < b < |items| ==> items[a].name != items[b].name
    ensures multiset(items)[x] <= 1
  {
    if items != [] {
      assert items == [items[0]] + items[1..];
      AtMostOnce(items[1..], x);
      if items[0] == x {
        assert x !in items[1..];
        assert x !in multiset(items[1..]);
      }
    }
  }

  lemma TwiceInMultiset(jobs: seq<Job>, j: nat, k: nat)
    requires j < k < |jobs| && jobs[j] == jobs[k]
    ensures multiset(jobs)[jobs[j]] >= 2
  {
    assert jobs == jobs[..j] + [jobs[j]] + jobs[j + 1..k] + [jobs[k]] + jobs[k + 1..];
  }

  // ---------- Deciding what to do ----------

  lemma ScanReady(conditions: seq<JobCondition>)
    ensures Scan(conditions).0 == StateReady ==> ConditionTrueFor(conditions, JobComplete)
    ensures Scan(conditions).0 != StateUnset
  {
    if conditions != [] {
      ScanReady(conditions[1..]);
      if ConditionTrueFor(conditions[1..], JobComplete) {
        var i :| 0 <= i < |conditions[1..]| && conditions[1..][i].typ == JobComplete
            && conditions[1..][i].status == ConditionTrue;
        assert conditions[i + 1] == conditions[1..][i];
      }
      assert conditions[0].typ == JobComplete && conditions[0].status == ConditionTrue ==>
               ConditionTrueFor(conditions, JobComplete);
    }
  }

  lemma {:induction false} ScanDelay(conditions: seq<JobCondition>)
    ensures Scan(conditions).2 > 0
  {
    if conditions != [] {
      ScanDelay(conditions[1..]);
    }
  }

  lemma NamedShape(obj: ReactiveJob, name: string)
    requires StatusShape(obj.status)
    ensures StatusShape(obj.status.(currentJobName := name))
  {
  }

  lemma ConcludeKeeps(h: HashFunction, w: World, obj: ReactiveJob, jobs: seq<Job>)
    requires MemoryOk(w, obj) && HeldInStore(w, obj) && obj.status.observedGeneration == obj.generation
    requires SweepList(h, w, obj, jobs)
    ensures Conclude(w, obj, jobs[0]).w == w
    ensures LocalInv(h, w, Conclude(w, obj, jobs[0]).local)
  {
    hide StatusShape, Snapshot, ConditionTrueFor, GenerationOf, HashOf;
    var named := obj.(status := obj.status.(currentJobName := jobs[0].name));
    NamedShape(obj, jobs[0].name);
    assert MemoryOk(w, named);
    var (state, message, seconds) := Scan(jobs[0].conditions);
    ScanReady(jobs[0].conditions);
    ScanDelay(jobs[0].conditions);
    WithStateMemory(w, named, state, message);
  }

  lemma SweepKeeps(h: HashFunction, w: World, obj: ReactiveJob, jobs: seq<Job>, i: nat)
    requires MemoryOk(w, obj) && HeldInStore(w, obj) && !obj.deleting
    requires obj.status.state != StateUnset && obj.status.observedGeneration == obj.generation
    requires SweepList(h, w, obj, jobs) && SortedJobsOf(obj.uid, jobs) && 1 <= i <= |jobs|
    ensures Sweep(w, obj, jobs, i).w == w
    ensures LocalInv(h, w, Sweep(w, obj, jobs, i).local)
  {
    hide MemoryOk, SweepList, SortedJobsOf;
    if NextHeld(jobs, i) == |jobs| {
      ConcludeKeeps(h, w, obj, jobs);
    }
  }

  /** What the create/update case knows when it compares hashes. */
  ghost predicate ReadyToProceed(h: HashFunction, w: World, obj: ReactiveJob, jobs: seq<Job>) {
    && MemoryOk(w, obj) && Pristine(w, obj) && HeldInStore(w, obj) && !obj.deleting && obj.status.state != StateUnset
    && (forall line :: line in w.created && line.uid == obj.uid ==>
          line.generation <= obj.generation && HasJob(w, obj.uid))
    && (HasJob(w, obj.uid) ==>
          && LatestHeld(w)
          && jobs != [] && jobs[0] == w.jobs[Latest(w).name] && jobs[0].name == Latest(w).name
          && obj.status.observedGeneration == obj.generation)
    && (!HasJob(w, obj.uid) ==> jobs == [])
    && SortedJobsOf(obj.uid, jobs) && (forall j :: j in jobs ==> Snapshot(w, j))
    && (forall k :: 1 <= k < |jobs| ==> jobs[k].name != jobs[0].name)
  }

  lemma AllBefore(h: HashFunction, w: World, obj: ReactiveJob)
    requires LogOk(h, w) && LogOrder(w.created) && Pristine(w, obj)
    requires forall line :: line in w.created && line.uid == obj.uid ==>
               line.generation <= obj.generation && HasJob(w, obj.uid)
    requires HasJob(w, obj.uid) ==> Latest(w).hash != h(obj.template)
    ensures forall line :: line in w.created && line.uid == obj.uid ==> line.generation < obj.generation
  {
    forall line | line in w.created && line.uid == obj.uid ensures line.generation < obj.generation {
      assert Latest(w) in w.created;
      LatestIsNewest(w.created, line);
    }
  }

  lemma BuiltHash(h: HashFunction, key: NamespacedName, uid: string, generation: int, t: Template)
    ensures HashOf(BuildJob(h, key, uid, generation, t)) == h(t)
  {
    hide Decimal.FormatInt;
  }

  lemma ProceedKeeps(h: HashFunction, w: World, obj: ReactiveJob, jobs: seq<Job>)
    requires StoreInv(h, w) && ReadyToProceed(h, w, obj, jobs)
    ensures Proceed(h, w, obj, jobs).w == w
    ensures LocalInv(h, w, Proceed(h, w, obj, jobs).local)
  {
    hide SortedJobsOf, StatusShape, LogOrder, Owned, Truthful, Guarded, GenerationOf, HashOf, Snapshot, BuildJob,
         Shared, ConditionTrueFor;
    if jobs == [] || HashOf(jobs[0]) != h(obj.template) {
      AllBefore(h, w, obj);
      BuiltHash(h, w.key, obj.uid, obj.generation, obj.template);
    } else {
      assert SweepList(h, w, obj, jobs);
      SweepKeeps(h, w, obj, jobs, 1);
    }
  }

  lemma DrainKeeps(h: HashFunction, w: World, obj: ReactiveJob, jobs: seq<Job>, i: nat)
    requires MemoryOk(w, obj) && Draining(w, obj) && obj.status.state != StateUnset
    requires SortedJobsOf(obj.uid, jobs) && forall j :: j in jobs ==> Snapshot(w, j)
    ensures Drain(w, obj, jobs, i).w == w
    ensures LocalInv(h, w, Drain(w, obj, jobs, i).local)
    decreases |jobs| - i
  {
    hide MemoryOk, Draining, Snapshot, SortedJobsOf;
    if i >= |jobs| {
      WithStateMemory(w, obj, StateDeleting, WaitingForDependents);
    } else if Operator !in jobs[i].finalizers {
      DrainUnheldKeeps(h, w, obj, jobs, i);
    }
  }

  lemma DrainUnheldKeeps(h: HashFunction, w: World, obj: ReactiveJob, jobs: seq<Job>, i: nat)
    requires MemoryOk(w, obj) && Draining(w, obj) && obj.status.state != StateUnset
    requires SortedJobsOf(obj.uid, jobs) && forall j :: j in jobs ==> Snapshot(w, j)
    requires i < |jobs|
    ensures DrainUnheld(w, obj, jobs, i).w == w
    ensures LocalInv(h, w, DrainUnheld(w, obj, jobs, i).local)
    decreases |jobs| - i, 0
  {
    hide MemoryOk, Draining, Snapshot, SortedJobsOf;
    if jobs[i].deleting {
      DrainKeeps(h, w, obj, jobs, i + 1);
    }
  }

  lemma OnlyOperatorLeft(fs: seq<Finalizer>)
    ensures RemoveFinalizer(fs, Operator) == [] <==> OnlyOperator(fs)
  {
    if RemoveFinalizer(fs, Operator) != [] {
      assert RemoveFinalizer(fs, Operator)[0] in RemoveFinalizer(fs, Operator);
    } else {
      forall f | f in fs ensures f == Operator {
        assert f != Operator ==> f in RemoveFinalizer(fs, Operator);
      }
    }
  }

  lemma {:induction false} AddedThenRemoved(fs: seq<Finalizer>)
    requires Operator !in fs
    ensures RemoveFinalizer(fs + [Operator], Operator) == fs
  {
    if fs == [] {
      assert fs + [Operator] == [Operator];
    } else {
      assert (fs + [Operator])[1..] == fs[1..] + [Operator];
      AddedThenRemoved(fs[1..]);
    }
  }

  lemma ListKeepsAlive(h: HashFunction, w: World, obj: ReactiveJob, items: seq<Job>)
    requires StoreInv(h, w) && LocalInv(h, w, AtList(obj)) && IsListing(w, obj.uid, items) && !obj.deleting
    requires SortedJobsOf(obj.uid, Sorted(items)) && forall j :: j in Sorted(items) ==> Snapshot(w, j)
    requires forall j, k :: 0 <= j < k < |Sorted(items)| ==> Sorted(items)[j].name != Sorted(items)[k].name
    ensures Dispatch(h, w, obj, Sorted(items)).w == w
    ensures LocalInv(h, w, Dispatch(h, w, obj, Sorted(items)).local)
  {
    hide StoreInv, StatusShape, LatestHeld, Snapshot, Sorted, BuildJob, Shared, GenerationOf, HashOf, IsListing,
         SortedJobsOf, Proceed;
    var jobs := Sorted(items);
    assert obj.uid in w.uids;
    if HasJob(w, obj.uid) {
      SortedHead(h, w, obj.uid, items);
    } else {
      NothingListed(h, w, obj.uid, items);
      SortedMembers(items);
    }
    if Operator !in obj.finalizers {
      AddedThenRemoved(obj.finalizers);
    } else {
      assert ReadyToProceed(h, w, obj, jobs);
      ProceedKeeps(h, w, obj, jobs);
    }
  }

  lemma ListKeepsDeleting(h: HashFunction, w: World, obj: ReactiveJob, items: seq<Job>)
    requires StoreInv(h, w) && LocalInv(h, w, AtList(obj)) && IsListing(w, obj.uid, items) && obj.deleting
    requires SortedJobsOf(obj.uid, Sorted(items)) && forall j :: j in Sorted(items) ==> Snapshot(w, j)
    ensures Dispatch(h, w, obj, Sorted(items)).w == w
    ensures LocalInv(h, w, Dispatch(h, w, obj, Sorted(items)).local)
  {
    hide StoreInv, StatusShape, LatestHeld, Snapshot, Sorted, GenerationOf, HashOf, SortedJobsOf, Drain, Proceed;
    var jobs := Sorted(items);
    SortedMembers(items);
    OnlyOperatorLeft(obj.finalizers);
    if !OnlyOperator(obj.finalizers) {
      WithStateMemory(w, obj, StateDeletionBlocked, ForeignFinalizersBlock);
    } else if jobs == [] {
      assert Operator in obj.finalizers by { assert obj.finalizers[0] in obj.finalizers; }
      assert items == [];
      assert NoneOf(w, obj.uid);
    } else {
      DrainKeeps(h, w, obj, jobs, 0);
    }
  }

  lemma ListKeeps(h: HashFunction, w: World, obj: ReactiveJob, items: seq<Job>)
    requires StoreInv(h, w) && LocalInv(h, w, AtList(obj)) && IsListing(w, obj.uid, items)
    ensures !SortPanics(items)
    ensures Dispatch(h, w, obj, Sorted(items)).w == w
    ensures LocalInv(h, w, Dispatch(h, w, obj, Sorted(items)).local)
  {
    assert obj.uid in w.uids;
    hide StoreInv, LocalInv, Snapshot, Sorted, GenerationOf, ParsedGeneration, HashOf, IsListing, Dispatch;
    ListedOnRecord(h, w, obj.uid, items);
    SortedMembers(items);
    SortedStrictly(h, w, obj.uid, items);
    ListingLabels(w, obj.uid, items);
    assert SortedJobsOf(obj.uid, Sorted(items));
    if obj.deleting {
      ListKeepsDeleting(h, w, obj, items);
    } else {
      ListKeepsAlive(h, w, obj, items);
    }
  }

  lemma ListingLabels(w: World, uid: string, items: seq<Job>)
    requires IsListing(w, uid, items)
    ensures forall j :: j in items ==> UidLabel(j) == Some(uid)
  {
  }

  // ---------- Creating a job ----------

  lemma LogGrows(log: seq<Created>, line: Created)
    requires LogOrder(log)
    requires forall x :: x in log && x.uid == line.uid ==> x.generation < line.generation
    requires |log| > 0 && log[|log| - 1].uid == line.uid ==> log[|log| - 1].hash != line.hash
    ensures LogOrder(log + [line])
  {
    var grown := log + [line];
    forall i, j | 0 <= i < j < |grown| && grown[i].uid == grown[j].uid
      ensures grown[i].generation < grown[j].generation
    {
      assert i < |log| && grown[i] in log;
    }
  }

  /** What a stored job looks like right after the operator created it. */
  lemma BuiltJobOwned(h: HashFunction, key: NamespacedName, uid: string, generation: int, t: Template, name: string,
                      revision: nat)
    requires 1 <= generation <= MAX_INT64
    ensures var j := BuildJob(h, key, uid, generation, t);
            var stored := j.(deleting := false, conditions := [], name := name, resourceVersion := revision);
            && UidLabel(stored) == Some(uid) && Lookup(j.labels, ControllerUid) == uid
            && ParsedGeneration(stored).Some? && GenerationOf(j) == generation
            && HashOf(j) == h(t)
            && Record(name, stored) == Created(uid, generation, h(t), name)
            && EnqueueMapper(stored) == key && ControllerName in stored.labels
            && Operator in stored.finalizers
            && MadeFrom(stored, t, key, uid, generation, h(t)) && j.generateName == key.name + "-"
  {
    var j := BuildJob(h, key, uid, generation, t);
    BuiltJobCarries(h, key, uid, generation, t);
    StoredAsMade(j, t, key, uid, generation, h(t), name, revision);
    hide Decimal.Atoi, Decimal.FormatInt, MadeFrom, Overlaid;
  }

  /** While a job is about to be created, no stored status can truthfully say Ready at the stored generation. */
  lemma NotReadyYet(h: HashFunction, w: World, obj: ReactiveJob, job: Job)
    requires StoredOk(w) && Truthful(h, w) && LocalInv(h, w, AtCreate(obj, job))
    ensures !(w.rj.Some? && !w.rj.value.deleting && w.rj.value.status.state == StateReady
              && w.rj.value.status.observedGeneration == w.rj.value.generation)
  {
    hide StatusShape, LatestHeld, ConditionTrueFor, BuildJob, HashOf;
    BuiltHash(h, w.key, obj.uid, obj.generation, w.history[(obj.uid, obj.generation)]);
  }

  /** The accepted create, spelled out. */
  lemma CreateEffect(h: HashFunction, w: World, obj: ReactiveJob, job: Job, suffix: string)
    requires 1 <= obj.generation <= MAX_INT64 && (obj.uid, obj.generation) in w.history
    requires job == BuildJob(h, w.key, obj.uid, obj.generation, w.history[(obj.uid, obj.generation)])
    requires GeneratedName(job, suffix) !in w.jobs
    ensures var v := CreateJob(w, job, suffix).0;
            var name := GeneratedName(job, suffix);
            var line := Created(obj.uid, obj.generation, h(w.history[(obj.uid, obj.generation)]), name);
            && name in v.jobs && v.jobs == w.jobs[name := v.jobs[name]]
            && v == w.(revision := w.revision + 1, jobs := v.jobs, queued := v.queued, created := w.created + [line])
            && v.jobs[name].name == name && v.jobs[name].resourceVersion == v.revision
            && UidLabel(v.jobs[name]) == Some(obj.uid) && ParsedGeneration(v.jobs[name]).Some?
            && Record(name, v.jobs[name]) == line && Operator in v.jobs[name].finalizers
            && EnqueueMapper(v.jobs[name]) == w.key && ControllerName in v.jobs[name].labels
            && MadeFrom(v.jobs[name], w.history[(obj.uid, obj.generation)], w.key, obj.uid, obj.generation, line.hash)
            && w.key.name + "-" <= name
  {
    var name := GeneratedName(job, suffix);
    BuiltJobOwned(h, w.key, obj.uid, obj.generation, w.history[(obj.uid, obj.generation)], name, w.revision + 1);
    hide HashOf, GenerationOf, ParsedGeneration, EnqueueMapper, UidLabel, Record, BuildJob, Wakes, MadeFrom;
    assert !job.(deleting := false, conditions := []).deleting;
  }

  lemma CreateKeeps(h: HashFunction, w: World, obj: ReactiveJob, job: Job, suffix: string)
    requires StoreInv(h, w) && LocalInv(h, w, AtCreate(obj, job))
    ensures StoreInv(h, CreateJob(w, job, suffix).0) && MemoryOk(CreateJob(w, job, suffix).0, obj)
  {
    hide ReadyFor, StatusShape, BuildJob, HashOf, GenerationOf, ParsedGeneration, EnqueueMapper, UidLabel, Record,
         LogOrder;
    var name := GeneratedName(job, suffix);
    var v := CreateJob(w, job, suffix).0;
    if name !in w.jobs {
      CreateEffect(h, w, obj, job, suffix);
      BuiltHash(h, w.key, obj.uid, obj.generation, w.history[(obj.uid, obj.generation)]);
      NotReadyYet(h, w, obj, job);
      hide CreateJob;
      LogGrows(w.created, Latest(v));
      CreateKeepsOwned(h, w, v, name);
      assert LatestHeld(v);
    }
  }

  lemma CreateKeepsOwned(h: HashFunction, w: World, v: World, name: string)
    requires Owned(w) && w.rj.Some? && v.rj == w.rj && v.uids == w.uids && v.key == w.key
    requires name !in w.jobs && name in v.jobs && v.jobs == w.jobs[name := v.jobs[name]]
    requires forall line :: line in w.created ==> line in v.created
    requires OwnedJob(v, name)
    ensures Owned(v)
  {
    hide HashOf, GenerationOf, ParsedGeneration, EnqueueMapper, Record;
    forall n | n in v.jobs && Ours(v, v.jobs[n]) ensures OwnedJob(v, n) {
      if n != name {
        assert Ours(w, w.jobs[n]) && OwnedJob(w, n);
      }
    }
  }

  // ---------- Taking the finalizer off a job ----------

  /** v is w after the operator took its finalizer off job n, which may have made the job disappear. */
  ghost predicate OwnJobWrite(w: World, v: World, n: string) {
    && n in w.jobs
    && v == w.(revision := w.revision + 1, jobs := v.jobs, queued := v.queued)
    && (w.queued ==> v.queued)
    && (v.jobs == w.jobs - {n}
        || v.jobs == w.jobs[n := Unheld(w.jobs[n]).(resourceVersion := w.revision + 1)])
  }

  lemma UnholdEffect(w: World, j: Job)
    requires Revisions(w) && Snapshot(w, j)
    ensures var (v, reply) := UpdateJob(w, Unheld(j));
            if reply.Accepted? then OwnJobWrite(w, v, j.name) && w.jobs[j.name] == j else v == w
  {
    var (v, reply) := UpdateJob(w, Unheld(j));
    if reply.Accepted? {
      assert w.jobs[j.name] == j && j.name in w.jobs;
      assert w.jobs[j.name].(labels := j.labels, annotations := j.annotations, finalizers := Unheld(j).finalizers)
             == Unheld(j);
    }
  }

  lemma OwnJobWriteKeepsOwned(w: World, v: World, n: string)
    requires Owned(w) && OwnJobWrite(w, v, n)
    ensures Owned(v)
  {
    hide Decimal.Atoi;
    forall m | m in v.jobs && Ours(v, v.jobs[m]) ensures OwnedJob(v, m) {
      assert Ours(w, w.jobs[m]) && OwnedJob(w, m);
    }
  }

  lemma OwnJobWriteKeepsStore(h: HashFunction, w: World, v: World, n: string)
    requires StoreInv(h, w) && OwnJobWrite(w, v, n)
    requires w.rj.Some? && !w.rj.value.deleting && HasJob(w, w.rj.value.uid) ==> Latest(w).name != n
    ensures StoreInv(h, v)
  {
    hide LogOrder, StatusShape, GenerationOf, HashOf, ConditionTrueFor, Owned;
    OwnJobWriteKeepsOwned(w, v, n);
  }

  lemma OwnJobWriteKeepsSnapshots(w: World, v: World, n: string, jobs: seq<Job>)
    requires OwnJobWrite(w, v, n)
    requires forall j :: j in jobs ==> Snapshot(w, j)
    ensures forall j :: j in jobs ==> Snapshot(v, j)
  {
  }

  lemma OwnJobWriteKeepsSweep(h: HashFunction, w: World, v: World, n: string, obj: ReactiveJob, jobs: seq<Job>)
    requires OwnJobWrite(w, v, n) && SweepList(h, w, obj, jobs) && n != jobs[0].name
    ensures SweepList(h, v, obj, jobs)
  {
    hide Snapshot, GenerationOf, HashOf, UidLabel, ConditionTrueFor;
    OwnJobWriteKeepsSnapshots(w, v, n, jobs);
  }

  lemma StripKeeps(h: HashFunction, w: World, obj: ReactiveJob, jobs: seq<Job>, i: nat)
    requires StoreInv(h, w) && LocalInv(h, w, AtStrip(obj, jobs, i))
    ensures var (v, reply) := UpdateJob(w, Unheld(jobs[i]));
            && StoreInv(h, v) && LocalInv(h, v, AtStrip(obj, jobs, i))
  {
    hide SortedJobsOf, StatusShape, Snapshot, LogOk, LogOrder, LogBlock, Owned, Truthful, LatestHeld,
         ConditionTrueFor, JobUpdateAccepted, PutJob, Revisions;
    var (v, reply) := UpdateJob(w, Unheld(jobs[i]));
    assert jobs[i] in jobs;
    UnholdEffect(w, jobs[i]);
    if reply.Accepted? {
      OwnJobWriteKeepsStore(h, w, v, jobs[i].name);
      OwnJobWriteKeepsSweep(h, w, v, jobs[i].name, obj, jobs);
    }
  }

  lemma ReleaseKeeps(h: HashFunction, w: World, obj: ReactiveJob, jobs: seq<Job>, i: nat)
    requires StoreInv(h, w) && LocalInv(h, w, AtRelease(obj, jobs, i))
    ensures var (v, reply) := UpdateJob(w, Unheld(jobs[i]));
            && StoreInv(h, v) && LocalInv(h, v, AtRelease(obj, jobs, i))
  {
    hide SortedJobsOf, StatusShape, Snapshot, LogOk, LogOrder, LogBlock, Owned, Truthful, LatestHeld,
         ConditionTrueFor, JobUpdateAccepted, PutJob, Revisions;
    var (v, reply) := UpdateJob(w, Unheld(jobs[i]));
    assert jobs[i] in jobs;
    UnholdEffect(w, jobs[i]);
    if reply.Accepted? {
      OwnJobWriteKeepsStore(h, w, v, jobs[i].name);
      OwnJobWriteKeepsSnapshots(w, v, jobs[i].name, jobs);
    }
  }

  /** A delete request is no different from one made by anybody else. */
  lemma DeleteKeeps(h: HashFunction, w: World, local: Local, n: string)
    requires StoreInv(h, w) && LocalInv(h, w, local)
    ensures StoreInv(h, DeleteJob(w, n, true).0) && LocalInv(h, DeleteJob(w, n, true).0, local)
  {
    hide DeleteJob, Rely, LocalInv;
    var v := DeleteJob(w, n, true).0;
    if n in w.jobs && !w.jobs[n].deleting {
      DeleteKept(w, n, true);
      RelyKeepsStoreInv(h, w, v);
      RelyKeepsLocal(h, w, v, local);
    } else {
      NothingDeleted(w, n);
    }
  }

  lemma NothingDeleted(w: World, n: string)
    requires !(n in w.jobs && !w.jobs[n].deleting)
    ensures DeleteJob(w, n, true).0 == w
  {
  }

  // ---------- Letting the ReactiveJob go ----------

  lemma ClearKeeps(h: HashFunction, w: World, obj: ReactiveJob)
    requires StoreInv(h, w) && LocalInv(h, w, AtClear(obj))
    ensures var (v, reply) := UpdateReactiveJob(w, obj);
            && StoreInv(h, v)
            && (if reply.Accepted? then v.rj.None? else v == w)
            && MemoryOk(v, obj)
  {
    hide StatusShape, LogOrder, LatestHeld, ReadyFor, Decimal.Atoi;
    var (v, reply) := UpdateReactiveJob(w, obj);
    if reply.Accepted? {
      assert w.rj.value.template == obj.template;
      assert v.history == w.history;
      NoneOurs(w, obj);
      assert v.jobs == w.jobs;
    }
  }

  lemma NoneOurs(w: World, obj: ReactiveJob)
    requires Owned(w) && NoneOf(w, obj.uid) && Same(w, obj)
    ensures forall n :: n in w.jobs ==> !Ours(w, w.jobs[n])
  {
    forall n | n in w.jobs ensures !Ours(w, w.jobs[n]) {
      assert Ours(w, w.jobs[n]) ==> OwnedJob(w, n);
    }
  }

  // ---------- One step ----------

  lemma QueueKeeps(h: HashFunction, w: World, queued: bool)
    requires StoreInv(h, w)
    ensures StoreInv(h, w.(queued := queued))
  {
    hide LogOrder, StatusShape, ConditionTrueFor, Decimal.Atoi;
    var v := w.(queued := queued);
    forall n | n in v.jobs && Ours(v, v.jobs[n]) ensures OwnedJob(v, n) {
      assert OwnedJob(w, n);
    }
  }

  lemma FinishKeeps(h: HashFunction, w: World, result: Result)
    requires StoreInv(h, w) && result != Panicked && Delayed(result) && (result == Nothing ==> w.rj.None?)
    ensures Inv(h, Finish(w, result))
  {
    hide StoreInv;
    QueueKeeps(h, w, w.queued || result != Nothing);
  }

  lemma IdleStepKeeps(h: HashFunction, s: System, o: Outcome)
    requires Inv(h, s) && s.local.Idle?
    ensures Inv(h, OpStep(h, s, o))
  {
    hide StoreInv, Begin;
    if s.w.queued {
      var taken := s.w.(queued := false);
      QueueKeeps(h, s.w, false);
      if !o.Answered? {
        FinishKeeps(h, taken, Failed);
      } else if s.w.rj.None? {
        FinishKeeps(h, taken, Nothing);
      } else {
        BeginKeeps(h, taken);
      }
    }
  }

  lemma ListStepKeeps(h: HashFunction, s: System, o: Outcome)
    requires Inv(h, s) && s.local.AtList?
    ensures Inv(h, OpStep(h, s, o))
  {
    hide StoreInv, MemoryOk, Dispatch, IsListing, SortPanics, Sorted, Abort;
    if o.Answered? && IsListing(s.w, s.local.obj.uid, o.items) {
      ListKeeps(h, s.w, s.local.obj, o.items);
    } else {
      AbortKeeps(h, s.w, s.local.obj, ListCall);
    }
  }

  lemma FenceStepKeeps(h: HashFunction, s: System, o: Outcome)
    requires Inv(h, s) && s.local.AtFence?
    ensures Inv(h, OpStep(h, s, o))
  {
    hide StoreInv, MemoryOk, Proceed, Abort, UpdateReactiveJob, StatusShape;
    var obj := s.local.obj;
    var jobs := s.local.jobs;
    var (v, reply) := UpdateReactiveJob(s.w, obj);
    FenceMemory(h, s.w, obj, jobs);
    if reply.Accepted? && o.Answered? {
      assert ReadyToProceed(h, v, reply.value, jobs);
      ProceedKeeps(h, v, reply.value, jobs);
    } else if o.NotDelivered? {
      AbortKeeps(h, s.w, obj, SetFinalizerCall);
    } else {
      AbortKeeps(h, v, obj, SetFinalizerCall);
    }
  }

  lemma FenceMemory(h: HashFunction, w: World, obj: ReactiveJob, jobs: seq<Job>)
    requires StoreInv(h, w) && LocalInv(h, w, AtFence(obj, jobs))
    ensures var (v, reply) := UpdateReactiveJob(w, obj);
            && StoreInv(h, v) && MemoryOk(v, obj)
            && (reply.Accepted? ==>
                  && MemoryOk(v, reply.value) && Pristine(v, reply.value) && HeldInStore(v, reply.value)
                  && reply.value.status.state != StateUnset && !reply.value.deleting
                  && jobs == [] && forall line :: line in v.created ==> line.uid != reply.value.uid)
  {
    hide StatusShape, LogOk, LogOrder, LogBlock, Owned, Fenced, Guarded, Truthful, HistoryOk, GenerationOf, LatestHeld;
    if UpdateAccepted(w, obj) {
      FenceKeeps(h, w, obj, jobs);
      assert w.rj.value.status.state == obj.status.state;
    }
  }

  lemma CreateStepKeeps(h: HashFunction, s: System, o: Outcome)
    requires Inv(h, s) && s.local.AtCreate?
    ensures Inv(h, OpStep(h, s, o))
  {
    hide StoreInv, MemoryOk, Abort, CreateJob, BuildJob, HashOf;
    var obj := s.local.obj;
    var v := CreateJob(s.w, s.local.job, Suffix(o)).0;
    CreateKeeps(h, s.w, obj, s.local.job, Suffix(o));
    WithStateMemory(v, obj, StateProcessing, JobCreated);
    AbortKeeps(h, v, obj, CreateCall);
    AbortKeeps(h, s.w, obj, CreateCall);
  }

  lemma StripStepKeeps(h: HashFunction, s: System, o: Outcome)
    requires Inv(h, s) && s.local.AtStrip?
    ensures Inv(h, OpStep(h, s, o))
  {
    hide SortedJobsOf, StoreInv, MemoryOk, Abort, UpdateJob, SweepList, Sweep;
    var obj := s.local.obj;
    var jobs := s.local.jobs;
    var i := s.local.i;
    var (v, reply) := UpdateJob(s.w, Unheld(jobs[i]));
    StripKeeps(h, s.w, obj, jobs, i);
    if reply.Accepted? && o.Answered? {
      SweepKeeps(h, v, obj, jobs, i + 1);
    } else if o.NotDelivered? {
      AbortKeeps(h, s.w, obj, StripCall);
    } else {
      AbortKeeps(h, v, obj, StripCall);
    }
  }

  lemma ReleaseStepKeeps(h: HashFunction, s: System, o: Outcome)
    requires Inv(h, s) && s.local.AtRelease?
    ensures Inv(h, OpStep(h, s, o))
  {
    hide SortedJobsOf, StoreInv, MemoryOk, Abort, UpdateJob, DrainUnheld, Draining, Snapshot;
    var obj := s.local.obj;
    var jobs := s.local.jobs;
    var i := s.local.i;
    var (v, reply) := UpdateJob(s.w, Unheld(jobs[i]));
    ReleaseKeeps(h, s.w, obj, jobs, i);
    if reply.Accepted? && o.Answered? {
      DrainUnheldKeeps(h, v, obj, jobs, i);
    } else if o.NotDelivered? {
      AbortKeeps(h, s.w, obj, StripCall);
    } else {
      AbortKeeps(h, v, obj, StripCall);
    }
  }

  lemma DeleteStepKeeps(h: HashFunction, s: System, o: Outcome)
    requires Inv(h, s) && s.local.AtDelete?
    ensures Inv(h, OpStep(h, s, o))
  {
    hide SortedJobsOf, StoreInv, MemoryOk, Abort, DeleteJob, Drain, Draining, Snapshot;
    var obj := s.local.obj;
    var jobs := s.local.jobs;
    var i := s.local.i;
    var (v, reply) := DeleteJob(s.w, jobs[i].name, true);
    DeleteKeeps(h, s.w, s.local, jobs[i].name);
    if reply.Accepted? && o.Answered? {
      DrainKeeps(h, v, obj, jobs, i + 1);
    } else if o.NotDelivered? {
      AbortKeeps(h, s.w, obj, DeleteCall);
    } else {
      AbortKeeps(h, v, obj, DeleteCall);
    }
  }

  lemma ClearStepKeeps(h: HashFunction, s: System, o: Outcome)
    requires Inv(h, s) && s.local.AtClear?
    ensures Inv(h, OpStep(h, s, o))
  {
    hide StoreInv, MemoryOk, Abort, UpdateReactiveJob, Draining, NoneOf, Finish;
    var obj := s.local.obj;
    var (v, reply) := UpdateReactiveJob(s.w, obj);
    ClearKeeps(h, s.w, obj);
    if reply.Accepted? && o.Answered? {
      FinishKeeps(h, v, Nothing);
    } else if o.NotDelivered? {
      AbortKeeps(h, s.w, obj, ClearFinalizerCall);
    } else {
      AbortKeeps(h, v, obj, ClearFinalizerCall);
    }
  }

  lemma StatusStepKeeps(h: HashFunction, s: System, o: Outcome)
    requires Inv(h, s) && s.local.AtStatus?
    ensures Inv(h, OpStep(h, s, o))
  {
    hide StoreInv, MemoryOk, UpdateStatus, Finish;
    var obj := s.local.obj;
    var result := s.local.result;
    var (v, reply) := UpdateStatus(s.w, obj);
    StatusKeeps(h, s.w, obj, result);
    FinishKeeps(h, v, result);
    FinishKeeps(h, v, Failed);
    FinishKeeps(h, s.w, Failed);
  }

  /** Every request of the reconciler, whatever becomes of it, keeps the invariant. */
  lemma OpStepKeepsInv(h: HashFunction, s: System, o: Outcome)
    requires Inv(h, s)
    ensures Inv(h, OpStep(h, s, o))
  {
    hide Inv, OpStep;
    match s.local
    case Idle(_) => IdleStepKeeps(h, s, o);
    case AtList(_) => ListStepKeeps(h, s, o);
    case AtFence(_, _) => FenceStepKeeps(h, s, o);
    case AtCreate(_, _) => CreateStepKeeps(h, s, o);
    case AtStrip(_, _, _) => StripStepKeeps(h, s, o);
    case AtClear(_) => ClearStepKeeps(h, s, o);
    case AtRelease(_, _, _) => ReleaseStepKeeps(h, s, o);
    case AtDelete(_, _, _) => DeleteStepKeeps(h, s, o);
    case AtStatus(_, _) => StatusStepKeeps(h, s, o);
  }

  lemma StepKeepsInv(h: HashFunction, s: System, e: Event)
    requires Inv(h, s)
    ensures Inv(h, Step(h, s, e))
  {
    match e
    case Env(action) => ActKeepsInv(h, s, action);
    case Op(outcome) => OpStepKeepsInv(h, s, outcome);
    case Crash => FinishKeeps(h, s.w, Failed);
  }

  lemma StartInv(h: HashFunction, key: NamespacedName)
    ensures Inv(h, Start(key))
  {
  }

  /** The invariant holds in every reachable state: after any list of events, in any interleaving. */
  lemma {:induction false} RunKeepsInv(h: HashFunction, s: System, events: seq<Event>)
    requires Inv(h, s)
    ensures Inv(h, Run(h, s, events))
    decreases |events|
  {
    hide Inv, Step;
    if events != [] {
      RunKeepsInv(h, s, events[..|events| - 1]);
      StepKeepsInv(h, Run(h, s, events[..|events| - 1]), events[|events| - 1]);
    }
  }
}
