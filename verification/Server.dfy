/** The API server as the running program meets it: requests that may fail or lose their reply, with
    anybody else acting in between. Every request is one step of the reconciler machine, so whatever
    a program does through this class is a run. */
module Server {
  import opened Options
  import opened Status
  import opened StatusHeap
  import opened Objects
  import opened ObjectHeap
  import opened Sorting
  import opened Cluster
  import opened Reconciler
  import opened Invariant
  import opened Environment
  import opened OperatorSteps
  import opened Requests
  import opened Safety

  datatype GetReply = GetError | NotFound | Found

  class ApiServer {
    const h: HashFunction
    const key: NamespacedName
    var w: World

    /** Where the reconciliation stands, and everything that happened since the store was empty. */
    ghost var local: Local
    ghost var events: seq<Event>

    /** The job updates of this client that took effect, in order, as they were sent. */
    ghost var written: seq<Job>

    ghost predicate Valid()
      reads this
    {
      System(w, local) == Reached(h, key, events) && w.key == key
    }

    constructor (h: HashFunction, key: NamespacedName)
      ensures Valid() && events == [] && this.h == h && this.key == key
    {
      this.h, this.key := h, key;
      w := EmptyWorld(key);
      local := Idle(Nothing);
      events := [];
      written := [];
    }

    /** What happened since, without a crash, and without a new reconciliation being started. */
    ghost predicate Since(past: seq<Event>)
      reads this
    {
      Continues(h, key, past, events, 0)
    }

    /** One event after the run so far. */
    lemma Extend(e: Event)
      requires Valid()
      ensures Reached(h, key, events + [e]) == Step(h, System(w, local), e)
      ensures Inv(h, System(w, local))
    {
      LastStep(h, Start(key), events, e);
      ReachedInv(h, key, events);
    }

    /** Anybody else may act, any number of times. */
    method Interfere()
      requires Valid()
      modifies this`w, this`events
      ensures Valid() && Since(old(events)) && (old(w).queued ==> w.queued)
    {
      var rounds: nat := *;
      while rounds > 0
        invariant Valid() && Since(old(events)) && (old(w).queued ==> w.queued)
      {
        var a: Action := *;
        Extend(Env(a));
        OneMoreEvent(h, key, events, Env(a));
        assert Rely(w, Act(w, a)) by {
          ActRelies(w, a);
        }
        w := Act(w, a);
        events := events + [Env(a)];
        rounds := rounds - 1;
      }
    }

    /** The last request was made in store u at position from, and met with outcome o. */
    ghost predicate After(u: World, from: Local, o: Outcome)
      reads this
    {
      && Inv(h, System(u, from))
      && System(w, local) == OpStep(h, System(u, from), o)
    }

    /** Books a request whose effect on the store is already in place. */
    ghost method Book(u: World, o: Outcome)
      requires System(u, local) == Reached(h, key, events) && u.key == key
      requires w == OpStep(h, System(u, local), o).w && w.key == key
      modifies this`local, this`events
      ensures Valid() && Continues(h, key, old(events), events, if old(local).Idle? then 1 else 0)
      ensures After(u, old(local), o)
    {
      LastStep(h, Start(key), events, Op(o));
      ReachedInv(h, key, events);
      OneMoreEvent(h, key, events, Op(o));
      local := OpStep(h, System(u, local), o).local;
      events := events + [Op(o)];
    }

    /** Takes the key off the queue and fetches the ReactiveJob. */
    method Fetch() returns (reply: GetReply, stored: Option<ReactiveJob>, ghost u: World, ghost o: Outcome)
      requires Valid() && local.Idle? && w.queued
      modifies this
      ensures Valid() && Continues(h, key, old(events), events, 1) && After(u, old(local), o) && u.queued
              && u.key == key
      ensures match reply
              case GetError => !o.Answered?
              case NotFound => o.Answered? && u.rj.None?
              case Found => o.Answered? && u.rj.Some? && stored == u.rj
    {
      hide OpStep, Inv, Reached;
      Interfere();
      u := w;
      stored := w.rj;
      var answered: bool := *;
      if !answered {
        o, reply := NotDelivered, GetError;
      } else {
        o, reply := Answered([], ""), if w.rj.None? then NotFound else Found;
      }
      w := w.(queued := !answered);
      GetWorld(h, u, local, o);
      Book(u, o);
    }

    /** Fetches the ReactiveJob into a new object. */
    method Get() returns (reply: GetReply, obj: ReactiveJobObject, ghost u: World, ghost o: Outcome)
      requires Valid() && local.Idle? && w.queued
      modifies this
      ensures Valid() && Continues(h, key, old(events), events, 1) && After(u, old(local), o) && u.queued
              && u.key == key
      ensures obj.Valid() && fresh(obj.Repr())
      ensures match reply
              case GetError => !o.Answered?
              case NotFound => o.Answered? && u.rj.None?
              case Found => o.Answered? && u.rj.Some? && obj.Value() == u.rj.value
    {
      hide OpStep, Inv, Reached;
      var stored;
      reply, stored, u, o := Fetch();
      obj := new ReactiveJobObject();
      if reply.Found? {
        obj.Load(stored.value);
      }
    }

    /** The jobs carrying a uid label, in any order. */
    method Enumerate(uid: string) returns (items: seq<Job>)
      requires Revisions(w)
      ensures IsListing(w, uid, items)
    {
      items := [];
      var names := w.jobs.Keys;
      while names != {}
        invariant names <= w.jobs.Keys
        invariant forall i, j :: 0 <= i < j < |items| ==> items[i].name != items[j].name
        invariant forall j :: j in items ==>
                    j.name in w.jobs && j.name !in names && w.jobs[j.name] == j && UidLabel(j) == Some(uid)
        invariant forall n :: n in w.jobs && n !in names && UidLabel(w.jobs[n]) == Some(uid) ==> w.jobs[n] in items
        decreases |names|
      {
        var n :| n in names;
        names := names - {n};
        if UidLabel(w.jobs[n]) == Some(uid) {
          items := items + [w.jobs[n]];
        }
      }
    }

    method List(uid: string) returns (ok: bool, items: seq<Job>, ghost u: World, ghost o: Outcome)
      requires Valid() && local.AtList? && local.obj.uid == uid
      modifies this
      ensures Valid() && Since(old(events)) && After(u, old(local), o) && w == u
      ensures if ok then o.Answered? && o.items == items && IsListing(u, uid, items) else !o.Answered?
    {
      Interfere();
      u := w;
      ok := *;
      items := [];
      o := NotDelivered;
      ReachedInv(h, key, events);
      if ok {
        assert Revisions(w) by { StoredRevisions(h, w, local); }
        items := Enumerate(uid);
        o := Answered(items, "");
        ListKeepsWorld(h, u, local, items);
      }
      Book(u, o);
    }

    method SendUpdate(sent: ReactiveJob) returns (ok: bool, answer: ReactiveJob, ghost u: World, ghost o: Outcome)
      requires Valid()
      requires (local.AtFence? || local.AtClear?) && local.obj == sent
      modifies this
      ensures Valid() && Since(old(events)) && After(u, old(local), o) && u.key == key
      ensures ok == (o.Answered? && UpdateReactiveJob(u, sent).1.Accepted?)
      ensures ok ==> answer == UpdateReactiveJob(u, sent).1.value
    {
      hide OpStep, Inv, Reached, UpdateReactiveJob;
      Interfere();
      u := w;
      var delivered: bool := *;
      var answered: bool := *;
      var (v, reply) := UpdateReactiveJob(w, sent);
      o := if !delivered then NotDelivered else if answered then Answered([], "") else ReplyLost("");
      ok := delivered && answered && reply.Accepted?;
      answer := if reply.Accepted? then reply.value else sent;
      if delivered {
        w := v;
      }
      UpdateWorld(h, u, local, o);
      Book(u, o);
    }

    /** Update of the ReactiveJob. An answer refreshes the object in memory, the status included. */
    method Update(obj: ReactiveJobObject) returns (ok: bool, ghost u: World, ghost o: Outcome)
      requires Valid() && obj.Valid() && this !in obj.Repr()
      requires (local.AtFence? || local.AtClear?) && local.obj == obj.Value()
      modifies this, obj, obj.template, obj.status
      ensures Valid() && Since(old(events)) && After(u, old(local), o) && u.key == key
      ensures obj.Valid() && fresh(obj.Repr() - old(obj.Repr())) && this !in obj.Repr()
      ensures ok == (o.Answered? && UpdateReactiveJob(u, old(obj.Value())).1.Accepted?)
      ensures obj.Value() == if ok then UpdateReactiveJob(u, old(obj.Value())).1.value else old(obj.Value())
    {
      hide OpStep, Inv, Reached, UpdateReactiveJob;
      var sent := Encode(obj);
      var answer;
      ok, answer, u, o := SendUpdate(sent);
      if ok {
        obj.Load(answer);
      }
    }

    method Create(job: Job) returns (ok: bool, ghost u: World, ghost o: Outcome)
      requires Valid() && local.AtCreate? && local.job == job
      modifies this
      ensures Valid() && Since(old(events)) && After(u, old(local), o) && u.key == key
      ensures ok == (o.Answered? && CreateJob(u, job, Suffix(o)).1.Accepted?)
    {
      hide OpStep, Inv, Reached, CreateJob;
      Interfere();
      u := w;
      var delivered: bool := *;
      var answered: bool := *;
      var suffix: string := *;
      var (v, reply) := CreateJob(w, job, suffix);
      o := if !delivered then NotDelivered else if answered then Answered([], suffix) else ReplyLost(suffix);
      ok := delivered && answered && reply.Accepted?;
      if delivered {
        w := v;
      }
      JobRequestWorld(h, u, local, o);
      Book(u, o);
    }

    method UpdateDependent(job: Job) returns (ok: bool, ghost u: World, ghost o: Outcome)
      requires Valid() && (local.AtStrip? || local.AtRelease?) && local.i < |local.jobs|
               && job == Unheld(local.jobs[local.i])
      modifies this
      ensures Valid() && Since(old(events)) && After(u, old(local), o) && u.key == key
      ensures ok == (o.Answered? && UpdateJob(u, job).1.Accepted?)
      ensures written == old(written) + (if !o.NotDelivered? && UpdateJob(u, job).1.Accepted? then [job] else [])
    {
      hide OpStep, Inv, Reached, UpdateJob, Unheld;
      Interfere();
      u := w;
      var delivered: bool := *;
      var answered: bool := *;
      var (v, reply) := UpdateJob(w, job);
      o := if !delivered then NotDelivered else if answered then Answered([], "") else ReplyLost("");
      ok := delivered && answered && reply.Accepted?;
      if delivered {
        w := v;
        written := written + (if reply.Accepted? then [job] else []);
      }
      JobRequestWorld(h, u, local, o);
      Book(u, o);
    }

    method Delete(job: Job) returns (ok: bool, ghost u: World, ghost o: Outcome)
      requires Valid() && local.AtDelete? && local.i < |local.jobs| && job.name == local.jobs[local.i].name
      modifies this
      ensures Valid() && Since(old(events)) && After(u, old(local), o) && u.key == key
      ensures ok == (o.Answered? && DeleteJob(u, job.name, true).1.Accepted?)
    {
      hide OpStep, Inv, Reached, DeleteJob;
      Interfere();
      u := w;
      var delivered: bool := *;
      var answered: bool := *;
      var (v, reply) := DeleteJob(w, job.name, true);
      o := if !delivered then NotDelivered else if answered then Answered([], "") else ReplyLost("");
      ok := delivered && answered && reply.Accepted?;
      if delivered {
        w := v;
      }
      JobRequestWorld(h, u, local, o);
      Book(u, o);
    }

    /** Update of the status subresource: the last request of a reconciliation, which returns `result`
        if it succeeds and an error if not; either may schedule the next one. */
    method SendStatus(sent: ReactiveJob, result: Result) returns (ok: bool, ghost u: World, ghost o: Outcome)
      requires Valid() && local == AtStatus(sent, result) && result != Panicked
      modifies this
      ensures Valid() && Since(old(events)) && After(u, old(local), o) && u.key == key
      ensures local == Idle(if ok then result else Failed)
      ensures ok == (o.Answered? && StatusAccepted(u, sent))
    {
      hide OpStep, Inv, Reached, UpdateStatus;
      Interfere();
      u := w;
      var delivered: bool := *;
      var answered: bool := *;
      var (v, reply) := UpdateStatus(w, sent);
      o := if !delivered then NotDelivered else if answered then Answered([], "") else ReplyLost("");
      ok := delivered && answered && reply.Accepted?;
      if delivered {
        w := v;
      }
      w := w.(queued := w.queued || !ok || result != Nothing);
      StatusReply(u, sent);
      StatusRequestWorld(h, u, local, o);
      Book(u, o);
    }
  }

  /** How many reconciliations were started in a run: the requests made from an idle position. */
  ghost function Begun(h: HashFunction, key: NamespacedName, events: seq<Event>): nat
    decreases |events|
  {
    if events == [] then 0
    else
      var front := events[..|events| - 1];
      Begun(h, key, front) + (if events[|events| - 1].Op? && Reached(h, key, front).local.Idle? then 1 else 0)
  }

  /** The run went on without a crash, and `more` reconciliations were started. */
  ghost predicate Continues(h: HashFunction, key: NamespacedName, past: seq<Event>, now: seq<Event>, more: nat) {
    && past <= now && Begun(h, key, now) == Begun(h, key, past) + more
    && forall i :: |past| <= i < |now| ==> now[i] != Crash
  }

  lemma OneMoreEvent(h: HashFunction, key: NamespacedName, past: seq<Event>, e: Event)
    requires e != Crash
    ensures Continues(h, key, past, past + [e], if e.Op? && Reached(h, key, past).local.Idle? then 1 else 0)
  {
    hide Reached;
    assert (past + [e])[..|past + [e]| - 1] == past;
  }

  /** What is sent is the object's value. */
  method Encode(obj: ReactiveJobObject) returns (r: ReactiveJob)
    requires obj.Valid()
    ensures r == obj.Value()
  {
    var conditions: seq<Condition> := [];
    for i := 0 to |obj.status.conditions|
      invariant conditions == obj.status.contents[..i]
    {
      conditions := conditions + [obj.status.conditions[i].Value()];
    }
    r := ReactiveJob(obj.uid, obj.generation, obj.resourceVersion, obj.deleting, obj.finalizers, obj.template.Value(),
                     JobStatus(obj.status.observedGeneration, conditions, obj.status.state, obj.status.currentJobName));
  }

  lemma StoredRevisions(h: HashFunction, w: World, local: Local)
    requires Inv(h, System(w, local))
    ensures Revisions(w)
  {
  }

  lemma GetWorld(h: HashFunction, w: World, local: Local, o: Outcome)
    requires local.Idle? && w.queued
    ensures OpStep(h, System(w, local), o).w == w.(queued := !o.Answered?)
  {
    if w.rj.Some? {
      BeginKeepsWorld(w.(queued := false), w.rj.value);
    }
    hide Begin;
  }

  lemma ListKeepsWorld(h: HashFunction, w: World, local: Local, items: seq<Job>)
    requires Inv(h, System(w, local)) && local.AtList? && IsListing(w, local.obj.uid, items)
    ensures OpStep(h, System(w, local), Answered(items, "")).w == w
  {
    ListKeeps(h, w, local.obj, items);
    hide StoreInv, Dispatch;
  }

  lemma UpdateWorld(h: HashFunction, w: World, local: Local, o: Outcome)
    requires local.AtFence? || local.AtClear?
    ensures OpStep(h, System(w, local), o).w == if o.NotDelivered? then w else UpdateReactiveJob(w, local.obj).0
    ensures OpStep(h, System(w, local), o).w.key == w.key
  {
    hide OpStep, UpdateReactiveJob;
    ObjectStepEffect(h, System(w, local), o);
    ObjectRequestsKeep(w, local, o);
  }

  lemma JobRequestWorld(h: HashFunction, w: World, local: Local, o: Outcome)
    requires local.AtCreate? || local.AtStrip? || local.AtRelease? || local.AtDelete?
    ensures OpStep(h, System(w, local), o).w == RequestEffect(w, local, o)
    ensures OpStep(h, System(w, local), o).w.key == w.key
  {
    hide OpStep, RequestEffect;
    JobRequestsKeep(w, local, o);
    if local.AtCreate? {
      CreateStepEffect(h, System(w, local), o);
    } else {
      LoopStepEffect(h, System(w, local), o);
    }
  }

  lemma StatusReply(w: World, r: ReactiveJob)
    ensures UpdateStatus(w, r).1.Accepted? <==> StatusAccepted(w, r)
  {
  }

  lemma StatusRequestWorld(h: HashFunction, w: World, local: Local, o: Outcome)
    requires local.AtStatus? && local.result != Panicked
    ensures var (v, reply) := UpdateStatus(w, local.obj);
            var t := OpStep(h, System(w, local), o);
            var accepted := o.Answered? && reply.Accepted?;
            var x := if o.NotDelivered? then w else v;
            && v.key == w.key
            && t.local == Idle(if accepted then local.result else Failed)
            && t.w == x.(queued := x.queued || !accepted || local.result != Nothing)
  {
  }
}
