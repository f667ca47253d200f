/** The shared informer factory: a state guarded by one lock, so that every critical section is one
    step, and a wait group that counts the informers running. */
module InformerFactory {
  import opened Options

  type TypeName = string
  type Informer = int

  /** running are the goroutines the wait group counts; launched lists every launch in order.
      shutdowns counts the calls of Shutdown that have set the flag, returned those whose wait is over. */
  datatype Factory = Factory(
    informers: map<TypeName, Informer>,
    started: set<TypeName>,
    shuttingDown: bool,
    running: set<TypeName>,
    launched: seq<(TypeName, Informer)>,
    shutdowns: nat,
    returned: nat)

  const NEW_FACTORY := Factory(map[], {}, false, {}, [], 0, 0)

  /** What the callers of the factory, and the informers' goroutines, may do next. */
  datatype Action =
    | InformerFor(typ: TypeName, made: Informer)
    | Start(order: seq<TypeName>)
    | BeginShutdown
    | EndShutdown
    | Exit(typ: TypeName)

  /** An order in which a map can be walked: every key once. */
  ghost predicate IsOrder(order: seq<TypeName>, keys: set<TypeName>) {
    && (forall i, j :: 0 <= i < j < |order| ==> order[i] != order[j])
    && (forall t :: t in keys <==> t in order)
  }

  /** Launches the types of a list that were not started yet. */
  function LaunchAll(f: Factory, order: seq<TypeName>): Factory
    requires forall t :: t in order ==> t in f.informers
  {
    if order == [] then f
    else
      var front := order[..|order| - 1];
      assert forall t :: t in front ==> t in order;
      Launch(LaunchAll(f, front), order[|order| - 1], f.informers[order[|order| - 1]])
  }

  function Launch(f: Factory, typ: TypeName, informer: Informer): Factory {
    if typ in f.started then f
    else f.(started := f.started + {typ}, running := f.running + {typ}, launched := f.launched + [(typ, informer)])
  }

  /** One step. Shutdown returns only when the wait group is empty; a step that is not possible
      changes nothing. */
  ghost function Act(f: Factory, a: Action): Factory {
    match a
    case InformerFor(typ, made) =>
      if typ in f.informers then f else f.(informers := f.informers[typ := made])
    case Start(order) =>
      if f.shuttingDown || !IsOrder(order, f.informers.Keys) then f else LaunchAll(f, order)
    case BeginShutdown => f.(shuttingDown := true, shutdowns := f.shutdowns + 1)
    case EndShutdown =>
      if f.returned < f.shutdowns && f.running == {} then f.(returned := f.returned + 1) else f
    case Exit(typ) => f.(running := f.running - {typ})
  }

  ghost function Run(f: Factory, actions: seq<Action>): Factory
    decreases |actions|
  {
    if actions == [] then f
    else Act(Run(f, actions[..|actions| - 1]), actions[|actions| - 1])
  }

  // ---------- The invariant ----------

  ghost predicate Valid(f: Factory) {
    && f.started <= f.informers.Keys
    && f.running <= f.started
    && (forall i :: 0 <= i < |f.launched| ==>
          && f.launched[i].0 in f.started
          && f.informers[f.launched[i].0] == f.launched[i].1)
    && (forall t :: t in f.started ==> exists i :: 0 <= i < |f.launched| && f.launched[i].0 == t)
    && (forall i, j :: 0 <= i < j < |f.launched| ==> f.launched[i].0 != f.launched[j].0)
    && (f.shutdowns > 0 ==> f.shuttingDown)
    && f.returned <= f.shutdowns
    && (f.returned > 0 ==> f.running == {})
  }

  /** g is a later state than f: informers and launches are kept, and once the factory is shutting
      down nothing is launched any more. */
  ghost predicate Later(f: Factory, g: Factory) {
    && (forall t :: t in f.informers ==> t in g.informers && g.informers[t] == f.informers[t])
    && f.started <= g.started
    && f.launched <= g.launched
    && (f.shuttingDown ==> g.shuttingDown && g.running <= f.running)
    && (f.shuttingDown ==> g.launched == f.launched && g.started == f.started)
  }

  lemma LaunchKeeps(f: Factory, typ: TypeName)
    requires Valid(f) && !f.shuttingDown && typ in f.informers
    ensures var g := Launch(f, typ, f.informers[typ]);
            && Valid(g) && Later(f, g) && !g.shuttingDown && g.informers == f.informers
            && g.started == f.started + {typ} && g.returned == f.returned && g.shutdowns == f.shutdowns
            && |g.launched| == |f.launched| + (if typ in f.started then 0 else 1)
  {
    var g := Launch(f, typ, f.informers[typ]);
    if typ !in f.started {
      forall t | t in g.started ensures exists i :: 0 <= i < |g.launched| && g.launched[i].0 == t {
        if t == typ {
          assert g.launched[|f.launched|].0 == t;
        } else {
          var i :| 0 <= i < |f.launched| && f.launched[i].0 == t;
          assert g.launched[i].0 == t;
        }
      }
    }
  }

  lemma {:induction false} LaunchAllKeeps(f: Factory, order: seq<TypeName>)
    requires Valid(f) && !f.shuttingDown
    requires forall t :: t in order ==> t in f.informers
    ensures var g := LaunchAll(f, order);
            && Valid(g) && Later(f, g) && !g.shuttingDown && g.informers == f.informers
            && g.returned == f.returned && g.shutdowns == f.shutdowns
            && forall t :: t in g.started <==> t in f.started || t in order
  {
    if order != [] {
      var front := order[..|order| - 1];
      var last := order[|order| - 1];
      assert order == front + [last];
      LaunchAllKeeps(f, front);
      LaunchKeeps(LaunchAll(f, front), last);
    }
  }

  lemma LaterRefl(f: Factory)
    ensures Later(f, f)
  {
  }

  lemma InformerForKeeps(f: Factory, typ: TypeName, made: Informer)
    requires Valid(f)
    ensures Valid(Act(f, InformerFor(typ, made))) && Later(f, Act(f, InformerFor(typ, made)))
  {
    hide LaunchAll, IsOrder;
  }

  lemma ExitKeeps(f: Factory, typ: TypeName)
    requires Valid(f)
    ensures Valid(Act(f, Exit(typ))) && Later(f, Act(f, Exit(typ)))
  {
    hide LaunchAll, IsOrder;
  }

  lemma ActKeeps(f: Factory, a: Action)
    requires Valid(f)
    ensures Valid(Act(f, a)) && Later(f, Act(f, a))
  {
    match a
    case InformerFor(typ, made) => InformerForKeeps(f, typ, made);
    case Start(order) =>
      hide Valid, Later;
      LaterRefl(f);
      if !f.shuttingDown && IsOrder(order, f.informers.Keys) {
        LaunchAllKeeps(f, order);
      }
    case Exit(typ) => ExitKeeps(f, typ);
    case _ =>
  }

  lemma {:induction false} RunKeeps(f: Factory, actions: seq<Action>)
    requires Valid(f)
    ensures Valid(Run(f, actions)) && Later(f, Run(f, actions))
    decreases |actions|
  {
    if actions != [] {
      RunKeeps(f, actions[..|actions| - 1]);
      ActKeeps(Run(f, actions[..|actions| - 1]), actions[|actions| - 1]);
    }
  }

  lemma {:induction false} RunConcat(f: Factory, a: seq<Action>, b: seq<Action>)
    ensures Run(f, a + b) == Run(Run(f, a), b)
    decreases |b|
  {
    hide Act;
    if b == [] {
      assert a + b == a;
    } else {
      RunConcat(f, a, b[..|b| - 1]);
      assert (a + b)[..|a + b| - 1] == a + b[..|b| - 1];
    }
  }

  // ---------- What callers are promised ----------

  /** Over any interleaving: each type keeps one informer forever, and each is launched at most once,
      with that informer. */
  lemma OneInformerOneLaunch(before: seq<Action>, after: seq<Action>, typ: TypeName)
    ensures var f := Run(NEW_FACTORY, before);
            var g := Run(NEW_FACTORY, before + after);
            && (typ in f.informers ==> typ in g.informers && g.informers[typ] == f.informers[typ])
            && (forall i, j :: 0 <= i < j < |g.launched| ==> g.launched[i].0 != g.launched[j].0)
            && (forall i :: 0 <= i < |g.launched| && g.launched[i].0 == typ ==>
                  typ in g.informers && g.launched[i].1 == g.informers[typ])
            && (typ in g.started <==> exists i :: 0 <= i < |g.launched| && g.launched[i].0 == typ)
  {
    RunKeeps(NEW_FACTORY, before);
    RunKeeps(NEW_FACTORY, before + after);
    RunConcat(NEW_FACTORY, before, after);
    RunKeeps(Run(NEW_FACTORY, before), after);
  }

  // ---------- The wait group ----------

  ghost predicate Launched(f: Factory, typ: TypeName) {
    exists i :: 0 <= i < |f.launched| && f.launched[i].0 == typ
  }

  /** Action n launched the type. */
  ghost predicate LaunchedBy(actions: seq<Action>, n: nat, typ: TypeName) {
    n < |actions| && !Launched(Run(NEW_FACTORY, actions[..n]), typ) && Launched(Run(NEW_FACTORY, actions[..n + 1]), typ)
  }

  /** The type was launched, and its goroutine has not ended since. */
  ghost predicate StillRuns(actions: seq<Action>, typ: TypeName) {
    exists n: nat :: LaunchedBy(actions, n, typ) && NoExitAfter(actions, n, typ)
  }

  ghost predicate NoExitAfter(actions: seq<Action>, n: nat, typ: TypeName) {
    forall m :: n < m < |actions| ==> actions[m] != Exit(typ)
  }

  lemma OneMoreExit(actions: seq<Action>, n: nat, typ: TypeName)
    requires n < |actions|
    ensures var last := |actions| - 1;
            NoExitAfter(actions, n, typ)
            <==> n == last || (NoExitAfter(actions[..last], n, typ) && actions[last] != Exit(typ))
  {
    var last := |actions| - 1;
    var front := actions[..last];
    assert forall m :: 0 <= m < last ==> front[m] == actions[m];
    if n != last && NoExitAfter(front, n, typ) && actions[last] != Exit(typ) {
      forall m | n < m < |actions| ensures actions[m] != Exit(typ) {
        assert m == last || front[m] == actions[m];
      }
    }
    if NoExitAfter(actions, n, typ) {
      forall m | n < m < last ensures front[m] != Exit(typ) {
        assert front[m] == actions[m];
      }
    }
  }

  lemma LaunchRuns(f: Factory, typ: TypeName, informer: Informer, t: TypeName)
    ensures t in Launch(f, typ, informer).running <==> t in f.running || (t == typ && typ !in f.started)
    ensures t in Launch(f, typ, informer).started <==> t in f.started || t == typ
  {
  }

  lemma {:induction false} LaunchAllRuns(f: Factory, order: seq<TypeName>, t: TypeName)
    requires forall x :: x in order ==> x in f.informers
    ensures t in LaunchAll(f, order).running <==> t in f.running || (t in order && t !in f.started)
    ensures t in LaunchAll(f, order).started <==> t in f.started || t in order
  {
    if order != [] {
      var front := order[..|order| - 1];
      var last := order[|order| - 1];
      assert order == front + [last];
      LaunchAllRuns(f, front, t);
      LaunchAllRuns(f, front, last);
      LaunchRuns(LaunchAll(f, front), last, f.informers[last], t);
    }
  }

  /** One action: a type runs afterwards exactly if this action launched it, or it ran and did not exit. */
  lemma ActRuns(f: Factory, a: Action, t: TypeName)
    requires Valid(f)
    ensures var g := Act(f, a);
            t in g.running <==> (Launched(g, t) && !Launched(f, t)) || (t in f.running && a != Exit(t))
  {
    ActKeeps(f, a);
    StartedIsLaunched(f, t);
    StartedIsLaunched(Act(f, a), t);
    hide Valid, Later, Launched;
    RunningIsStarted(f, t);
    if a.Start? && !f.shuttingDown && IsOrder(a.order, f.informers.Keys) {
      LaunchAllRuns(f, a.order, t);
    }
  }

  lemma StartedIsLaunched(f: Factory, t: TypeName)
    requires Valid(f)
    ensures t in f.started <==> Launched(f, t)
  {
  }

  lemma RunningIsStarted(f: Factory, t: TypeName)
    requires Valid(f)
    ensures t in f.running ==> t in f.started
  {
  }

  /** Launches by an earlier action are launches by that action of the longer list. */
  lemma LaunchedEarlier(actions: seq<Action>, n: nat, typ: TypeName)
    requires actions != [] && n < |actions| - 1
    ensures LaunchedBy(actions, n, typ) <==> LaunchedBy(actions[..|actions| - 1], n, typ)
  {
    var front := actions[..|actions| - 1];
    assert front[..n] == actions[..n] && front[..n + 1] == actions[..n + 1];
  }

  /** The wait group counts exactly the informers that were launched and whose goroutine has not ended
      since, over any run. */
  lemma {:induction false} RunningExactly(actions: seq<Action>, typ: TypeName)
    ensures typ in Run(NEW_FACTORY, actions).running <==> StillRuns(actions, typ)
    decreases |actions|
  {
    hide Act, Launched;
    if actions != [] {
      var last := |actions| - 1;
      var front := actions[..last];
      RunningExactly(front, typ);
      RunKeeps(NEW_FACTORY, front);
      ActRuns(Run(NEW_FACTORY, front), actions[last], typ);
      assert actions[..last + 1] == actions;
      assert LaunchedBy(actions, last, typ) <==>
             Launched(Run(NEW_FACTORY, actions), typ) && !Launched(Run(NEW_FACTORY, front), typ);
      forall n: nat | n < last ensures LaunchedBy(actions, n, typ) <==> LaunchedBy(front, n, typ) {
        LaunchedEarlier(actions, n, typ);
      }
      hide LaunchedBy;
      OneMoreAction(actions, typ);
    }
  }

  lemma OneMoreAction(actions: seq<Action>, typ: TypeName)
    requires actions != []
    requires var last := |actions| - 1;
             forall n: nat :: n < last ==> (LaunchedBy(actions, n, typ) <==> LaunchedBy(actions[..last], n, typ))
    ensures var last := |actions| - 1;
            StillRuns(actions, typ) <==>
              LaunchedBy(actions, last, typ) || (StillRuns(actions[..last], typ) && actions[last] != Exit(typ))
  {
    hide NoExitAfter, LaunchedBy;
    var last := |actions| - 1;
    var front := actions[..last];
    OneMoreExit(actions, last, typ);
    if StillRuns(front, typ) && actions[last] != Exit(typ) {
      var n: nat :| LaunchedBy(front, n, typ) && NoExitAfter(front, n, typ);
      InRange(front, n, typ);
      OneMoreExit(actions, n, typ);
      assert LaunchedBy(actions, n, typ);
    }
    if StillRuns(actions, typ) && !LaunchedBy(actions, last, typ) {
      var n: nat :| LaunchedBy(actions, n, typ) && NoExitAfter(actions, n, typ);
      InRange(actions, n, typ);
      OneMoreExit(actions, n, typ);
      assert LaunchedBy(front, n, typ);
    }
  }

  lemma InRange(actions: seq<Action>, n: nat, typ: TypeName)
    requires LaunchedBy(actions, n, typ)
    ensures n < |actions|
  {
  }

  /** How many calls of Shutdown have set the flag. */
  function ShutdownsIn(actions: seq<Action>): nat {
    if actions == [] then 0
    else ShutdownsIn(actions[..|actions| - 1]) + (if actions[|actions| - 1] == BeginShutdown then 1 else 0)
  }

  lemma {:induction false} ShutdownsCounted(actions: seq<Action>)
    ensures Run(NEW_FACTORY, actions).shutdowns == ShutdownsIn(actions)
    decreases |actions|
  {
    if actions != [] {
      ShutdownsCounted(actions[..|actions| - 1]);
      var f := Run(NEW_FACTORY, actions[..|actions| - 1]);
      RunKeeps(NEW_FACTORY, actions[..|actions| - 1]);
      var a := actions[|actions| - 1];
      hide Valid, Later;
      if a.Start? && !f.shuttingDown && IsOrder(a.order, f.informers.Keys) {
        LaunchAllKeeps(f, a.order);
      }
    }
  }

  /** A Shutdown that has set the flag returns exactly when every informer launched has ended. */
  lemma ShutdownReturnsExactly(actions: seq<Action>)
    ensures var f := Run(NEW_FACTORY, actions);
            Act(f, EndShutdown).returned == f.returned + 1 <==>
              f.returned < ShutdownsIn(actions) && forall typ :: !StillRuns(actions, typ)
  {
    ShutdownsCounted(actions);
    var f := Run(NEW_FACTORY, actions);
    forall typ ensures typ in f.running <==> StillRuns(actions, typ) {
      RunningExactly(actions, typ);
    }
    hide StillRuns, Run;
    if forall typ :: !StillRuns(actions, typ) {
      assert f.running == {};
    }
  }

  lemma {:induction false} ShutdownIsBegun(actions: seq<Action>, n: nat)
    requires n < |actions| && actions[n] == BeginShutdown
    ensures ShutdownsIn(actions) > 0
  {
    if n < |actions| - 1 {
      ShutdownIsBegun(actions[..|actions| - 1], n);
    }
  }

  /** Once some Shutdown has set the flag, nothing is launched any more; and once some Shutdown has
      returned, nothing runs and nothing ever will. */
  lemma NothingAfterShutdown(before: seq<Action>, after: seq<Action>, n: nat)
    requires n < |before| && before[n] == BeginShutdown
    ensures var f := Run(NEW_FACTORY, before);
            var g := Run(NEW_FACTORY, before + after);
            && g.launched == f.launched && g.running <= f.running
            && (g.returned > 0 ==> forall typ :: !StillRuns(before + after, typ))
  {
    ShutdownIsBegun(before, n);
    ShutdownsCounted(before);
    RunKeeps(NEW_FACTORY, before);
    RunKeeps(NEW_FACTORY, before + after);
    RunConcat(NEW_FACTORY, before, after);
    RunKeeps(Run(NEW_FACTORY, before), after);
    forall typ ensures typ in Run(NEW_FACTORY, before + after).running <==> StillRuns(before + after, typ) {
      RunningExactly(before + after, typ);
    }
    hide StillRuns, Act, Run;
  }

  /** After a Start that is not refused, exactly the types asked for so far are started. */
  lemma StartStartsAll(actions: seq<Action>, order: seq<TypeName>)
    requires var f := Run(NEW_FACTORY, actions);
             !f.shuttingDown && IsOrder(order, f.informers.Keys)
    ensures var g := Act(Run(NEW_FACTORY, actions), Start(order));
            g.started == g.informers.Keys && g.informers == Run(NEW_FACTORY, actions).informers
  {
    RunKeeps(NEW_FACTORY, actions);
    LaunchAllKeeps(Run(NEW_FACTORY, actions), order);
  }

  /** The started informers. */
  ghost function Waited(f: Factory): map<TypeName, Informer> {
    map t | t in f.informers && t in f.started :: f.informers[t]
  }

  /** What is waited for after the lock is released stays started, with the same informers. */
  lemma WaitedStays(before: seq<Action>, after: seq<Action>, typ: TypeName)
    requires typ in Waited(Run(NEW_FACTORY, before))
    ensures var g := Run(NEW_FACTORY, before + after);
            typ in Waited(g) && Waited(g)[typ] == Waited(Run(NEW_FACTORY, before))[typ]
  {
    RunKeeps(NEW_FACTORY, before);
    RunConcat(NEW_FACTORY, before, after);
    RunKeeps(Run(NEW_FACTORY, before), after);
  }

  // ---------- The factory as the program holds it ----------

  /** The fields behind the lock. Each method is one critical section; it is proved to be one step. */
  class SharedInformerFactory {
    const defaultResync: int
    var customResync: map<TypeName, int>
    var informers: map<TypeName, Informer>
    var startedInformers: map<TypeName, bool>
    var shuttingDown: bool

    /** The goroutines in the wait group. */
    var running: set<TypeName>

    ghost var launched: seq<(TypeName, Informer)>
    ghost var shutdowns: nat
    ghost var returned: nat

    /** The abstract state. */
    ghost function State(): Factory
      reads this
    {
      Factory(informers, (set t | t in startedInformers && startedInformers[t]), shuttingDown, running,
              launched, shutdowns, returned)
    }

    constructor (defaultResync: int, customResync: map<TypeName, int>)
      ensures State() == NEW_FACTORY && this.customResync == customResync && this.defaultResync == defaultResync
    {
      this.defaultResync, this.customResync := defaultResync, customResync;
      informers, startedInformers, shuttingDown, running := map[], map[], false, {};
      launched, shutdowns, returned := [], 0, 0;
    }

    /** The informer for a type: the one made before, or a new one with the type's resync period. */
    method InformerFor(typ: TypeName, newFunc: int -> Informer) returns (informer: Informer)
      modifies this`informers
      ensures var made := newFunc(if typ in customResync then customResync[typ] else defaultResync);
              State() == Act(old(State()), Action.InformerFor(typ, made))
              && informer == (if typ in old(informers) then old(informers)[typ] else made)
      ensures typ in informers && informers[typ] == informer
    {
      if typ in informers {
        return informers[typ];
      }
      var resyncPeriod := defaultResync;
      if typ in customResync {
        resyncPeriod := customResync[typ];
      }
      informer := newFunc(resyncPeriod);
      informers := informers[typ := informer];
    }

    /** Launches one informer, if its type was not started. */
    method StartOne(typ: TypeName)
      requires typ in informers
      modifies this`startedInformers, this`running, this`launched
      ensures State() == Launch(old(State()), typ, informers[typ])
    {
      if !(typ in startedInformers && startedInformers[typ]) {
        running := running + {typ};
        launched := launched + [(typ, informers[typ])];
        startedInformers := startedInformers[typ := true];
      }
    }

    /** Starts every informer that was not started, walking the map in any order. */
    method StartWithContext() returns (ghost order: seq<TypeName>)
      modifies this
      ensures IsOrder(order, old(informers).Keys)
      ensures State() == Act(old(State()), Start(order))
      ensures customResync == old(customResync)
    {
      order := AnyOrder(informers.Keys);
      if shuttingDown {
        return;
      }
      order := [];
      ghost var before := State();
      var todo := informers.Keys;
      while todo != {}
        invariant todo <= informers.Keys && informers == before.informers && !before.shuttingDown
        invariant forall i, j :: 0 <= i < j < |order| ==> order[i] != order[j]
        invariant forall t :: t in before.informers <==> t in order || t in todo
        invariant forall t :: t in order ==> t !in todo
        invariant State() == LaunchAll(before, order)
        invariant customResync == old(customResync)
        decreases |todo|
      {
        var typ :| typ in todo;
        todo := todo - {typ};
        ghost var front := order;
        order := order + [typ];
        StartOne(typ);
        assert order[..|order| - 1] == front;
      }
    }

    /** The first half of Shutdown: under the lock, the flag. */
    method BeginShutdown()
      modifies this`shuttingDown, this`shutdowns
      ensures State() == Act(old(State()), Action.BeginShutdown)
    {
      shuttingDown := true;
      shutdowns := shutdowns + 1;
    }

    /** The second half: the wait is over when no goroutine is counted any more. */
    method TryEndShutdown() returns (over: bool)
      requires returned < shutdowns
      modifies this`returned
      ensures State() == Act(old(State()), EndShutdown)
      ensures over <==> running == {}
    {
      over := running == {};
      if over {
        returned := returned + 1;
      }
    }

    /** An informer's goroutine ends. */
    method Done(typ: TypeName)
      modifies this`running
      ensures State() == Act(old(State()), Exit(typ))
    {
      running := running - {typ};
    }

    /** The informers whose caches are waited for: those started when the lock was held. */
    method StartedInformers() returns (result: map<TypeName, Informer>)
      ensures result == Waited(State())
    {
      result := map[];
      var todo := informers.Keys;
      while todo != {}
        invariant todo <= informers.Keys
        invariant result == map t | t in informers && t !in todo && t in State().started :: informers[t]
        decreases |todo|
      {
        var typ :| typ in todo;
        todo := todo - {typ};
        if typ in startedInformers && startedInformers[typ] {
          result := result[typ := informers[typ]];
        }
      }
    }

    /** The answer of WaitForCacheSync for the informers waited for. The lock is no longer held, so it
        is about these, whatever was started since. Each informer is asked once, each at its own moment:
        every type is reported with its answer, and the error is the cause the wait ended with, exactly
        when some informer has not synced. */
    static method SyncResult(waited: map<TypeName, Informer>, hasSynced: (TypeName, Informer) -> bool,
                             cause: Option<string>)
        returns (synced: map<TypeName, bool>, err: Option<string>)
      ensures synced == map t | t in waited :: hasSynced(t, waited[t])
      ensures err == if exists t :: t in waited && !hasSynced(t, waited[t]) then cause else None
    {
      synced := map[];
      var failed := false;
      var todo := waited.Keys;
      while todo != {}
        invariant todo <= waited.Keys
        invariant synced == map t | t in waited && t !in todo :: hasSynced(t, waited[t])
        invariant failed <==> exists t :: t in synced && !hasSynced(t, waited[t])
        decreases |todo|
      {
        var typ :| typ in todo;
        todo := todo - {typ};
        var ok := hasSynced(typ, waited[typ]);
        if !ok {
          failed := true;
        }
        synced := synced[typ := ok];
      }
      err := if failed then cause else None;
    }
  }

  lemma {:induction false} AnyOrder(keys: set<TypeName>) returns (order: seq<TypeName>)
    ensures IsOrder(order, keys)
    decreases |keys|
  {
    if keys == {} {
      order := [];
    } else {
      var t :| t in keys;
      var rest := AnyOrder(keys - {t});
      order := rest + [t];
    }
  }
}
