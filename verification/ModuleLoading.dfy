/** Loading user modules, after lib/ModuleManager.cpp: the load map that lets the global mutex be dropped while
    a module is parsed or initialised.

    A step is one stretch of code under the mutex.  While a thread parses or initialises a module it may
    request others, so every thread has a stack of loads.
  */
module LoadModel {
  import opened Common

  type Feature = string

  datatype Phase = Parsing | Initializing

  datatype Load = Load(feature: Feature, phase: Phase)

  datatype State = State(
    loadMap: map<Feature, Tid>,        // module_load_map
    modules: set<Feature>,             // the keys of the module map
    registrations: seq<Feature>,       // every addModule() so far
    waiting: int,                      // module_load_waiting
    stacks: map<Tid, seq<Load>>,       // the loads each thread is in, innermost last
    sleeping: map<Tid, Feature>,       // blocked, not signalled, and the feature waited for
    notified: map<Tid, Feature>)       // signalled, but not yet running again

  datatype Event =
    | Request(t: Tid, f: Feature, startOk: bool)
    | Wake(t: Tid, startOk: bool)
    | ParseEnds(t: Tid, ok: bool, hasInit: bool)
    | InitEnds(t: Tid, ok: bool)

  function Stack(s: State, t: Tid): seq<Load> {
    if t in s.stacks then s.stacks[t] else []
  }

  predicate Blocked(s: State, t: Tid) {
    t in s.sleeping || t in s.notified
  }

  /** loadModuleIntern() from the test of the load map: returns, waits, or starts to load `f`.  `startOk` is
      false if the load fails, or is not needed, before anything is parsed. */
  function Proceed(s: State, t: Tid, f: Feature, startOk: bool): State {
    if f in s.loadMap then
      if s.loadMap[f] == t then s
      else s.(waiting := s.waiting + 1, sleeping := s.sleeping[t := f])
    else if f in s.modules || !startOk then s
    else BeginLoad(s, t, f, Parsing)
  }

  /** ModuleLoadMapHelper(): enters `f` into the load map before the mutex is dropped. */
  function BeginLoad(s: State, t: Tid, f: Feature, phase: Phase): State {
    s.(loadMap := s.loadMap[f := t], stacks := s.stacks[t := Stack(s, t) + [Load(f, phase)]])
  }

  /** A thread returns from wait(). */
  function Awake(s: State, t: Tid): State {
    s.(waiting := s.waiting - 1, sleeping := s.sleeping - {t}, notified := s.notified - {t})
  }

  /** ~ModuleLoadMapHelper(): erases the entry and wakes all waiters. */
  function Erase(s: State, f: Feature): State {
    var s1 := s.(loadMap := s.loadMap - {f});
    if s.waiting != 0 then s1.(sleeping := map[], notified := s.notified + s.sleeping) else s1
  }

  function Pop(s: State, t: Tid): State
    requires Stack(s, t) != []
  {
    s.(stacks := s.stacks[t := Stack(s, t)[..|Stack(s, t)| - 1]])
  }

  /** addModule(). */
  function Register(s: State, f: Feature): State {
    s.(modules := s.modules + {f}, registrations := s.registrations + [f])
  }

  function Top(s: State, t: Tid): Load
    requires Stack(s, t) != []
  {
    Stack(s, t)[|Stack(s, t)| - 1]
  }

  predicate Enabled(s: State, e: Event) {
    match e
    case Request(t, _, _) => !Blocked(s, t)
    case Wake(t, _) => Blocked(s, t)
    case ParseEnds(t, _, _) => !Blocked(s, t) && Stack(s, t) != [] && Top(s, t).phase == Parsing
    case InitEnds(t, _) => !Blocked(s, t) && Stack(s, t) != [] && Top(s, t).phase == Initializing
  }

  function Step(s: State, e: Event): State
    requires Enabled(s, e)
  {
    match e
    case Request(t, f, startOk) => Proceed(s, t, f, startOk)
    case Wake(t, startOk) =>
      var f := if t in s.sleeping then s.sleeping[t] else s.notified[t];
      Proceed(Awake(s, t), t, f, startOk)
    case ParseEnds(t, ok, hasInit) =>
      // the rest of loadUserModuleFromPath(), and setupUserModule() up to the initialisation code
      var f := Top(s, t).feature;
      var s1 := Erase(s, f);
      if f in s.modules || !ok then Pop(s1, t)
      else if hasInit then BeginLoad(Pop(s1, t), t, f, Initializing)
      else Register(Pop(s1, t), f)
    case InitEnds(t, ok) =>
      var f := Top(s, t).feature;
      var s1 := Pop(Erase(s, f), t);
      if ok then Register(s1, f) else s1
  }

  const INITIAL := State(map[], {}, [], 0, map[], map[], map[])

  ghost predicate IsRun(states: seq<State>, events: seq<Event>) {
    && |states| == |events| + 1
    && states[0] == INITIAL
    && forall i :: 0 <= i < |events| ==>
         Enabled(states[i], events[i]) && states[i + 1] == Step(states[i], events[i])
  }
}

module LoadTheorems {
  import opened Common
  import opened LoadModel

  predicate Loading(stack: seq<Load>, f: Feature) {
    exists i :: 0 <= i < |stack| && stack[i].feature == f
  }

  predicate Distinct(stack: seq<Load>) {
    forall i, j :: 0 <= i < j < |stack| ==> stack[i].feature != stack[j].feature
  }

  /** The load map says who is loading what: a feature on a stack is entered with that thread. */
  ghost predicate ThreadOk(s: State, t: Tid) {
    && Distinct(Stack(s, t))
    && forall f :: Loading(Stack(s, t), f) <==> f in s.loadMap && s.loadMap[f] == t
  }

  /** An unsignalled sleeper waits for a feature that another thread is still loading. */
  predicate Sleepers(s: State) {
    && (forall t :: t in s.sleeping ==> s.sleeping[t] in s.loadMap && s.loadMap[s.sleeping[t]] != t)
    && s.sleeping.Keys !! s.notified.Keys
    && s.waiting == |s.sleeping| + |s.notified|
  }

  ghost predicate Registered(s: State) {
    && (forall f :: f in s.loadMap ==> f !in s.modules)
    && (forall f :: f in s.registrations <==> f in s.modules)
    && (forall i, j :: 0 <= i < j < |s.registrations| ==> s.registrations[i] != s.registrations[j])
  }

  ghost predicate Inv(s: State) {
    && (forall t :: ThreadOk(s, t))
    && Sleepers(s)
    && Registered(s)
  }

  lemma BeginLoadThreads(s: State, t: Tid, f: Feature, phase: Phase, u: Tid)
    requires ThreadOk(s, t) && ThreadOk(s, u) && f !in s.loadMap
    ensures ThreadOk(BeginLoad(s, t, f, phase), u)
  {
    var s' := BeginLoad(s, t, f, phase);
    if u == t {
      var old', new' := Stack(s, t), Stack(s', t);
      assert !Loading(old', f);
      forall g
        ensures Loading(new', g) <==> g in s'.loadMap && s'.loadMap[g] == t
      {
        assert Loading(old', g) <==> g in s.loadMap && s.loadMap[g] == t;
        if Loading(old', g) {
          var i :| 0 <= i < |old'| && old'[i].feature == g;
          assert new'[i].feature == g;
        }
        if g == f {
          assert new'[|old'|].feature == g;
        }
      }
    } else {
      assert Stack(s', u) == Stack(s, u);
      forall g
        ensures Loading(Stack(s', u), g) <==> g in s'.loadMap && s'.loadMap[g] == u
      {
        assert Loading(Stack(s, u), g) <==> g in s.loadMap && s.loadMap[g] == u;
      }
    }
  }

  /** Ending the innermost load of `t` takes exactly its feature off the load map. */
  lemma EndLoadThreads(s: State, t: Tid, u: Tid)
    requires ThreadOk(s, t) && ThreadOk(s, u) && Stack(s, t) != []
    ensures ThreadOk(Pop(Erase(s, Top(s, t).feature), t), u)
  {
    var f := Top(s, t).feature;
    var s' := Pop(Erase(s, f), t);
    var n := |Stack(s, t)| - 1;
    assert Stack(s, t)[n].feature == f;
    assert Loading(Stack(s, t), f);
    forall g
      ensures Loading(Stack(s', u), g) <==> g in s'.loadMap && s'.loadMap[g] == u
    {
      assert Loading(Stack(s, u), g) <==> g in s.loadMap && s.loadMap[g] == u;
      if u == t {
        assert Stack(s', t) == Stack(s, t)[..n];
        if Loading(Stack(s, t), g) && g != f {
          var i :| 0 <= i < n && Stack(s, t)[i].feature == g;
          assert Stack(s', t)[i].feature == g;
        }
      }
    }
  }

  lemma UnionSize(a: map<Tid, Feature>, b: map<Tid, Feature>)
    requires a.Keys !! b.Keys
    ensures |a + b| == |a| + |b|
  {
    assert (a + b).Keys == a.Keys + b.Keys;
    assert |a + b| == |(a + b).Keys|;
  }

  lemma RemoveSize(a: map<Tid, Feature>, t: Tid)
    ensures |a - {t}| == if t in a then |a| - 1 else |a|
  {
    assert (a - {t}).Keys == a.Keys - {t};
    assert |a - {t}| == |(a - {t}).Keys|;
  }

  lemma EraseSleepers(s: State, f: Feature)
    requires Sleepers(s)
    ensures Sleepers(Erase(s, f)) && Erase(s, f).sleeping == map[]
  {
    UnionSize(s.notified, s.sleeping);
    if s.waiting == 0 {
      assert |s.sleeping| == 0;
    }
  }

  lemma ProceedInv(s: State, t: Tid, f: Feature, startOk: bool)
    requires Inv(s) && !Blocked(s, t)
    ensures Inv(Proceed(s, t, f, startOk))
  {
    var s' := Proceed(s, t, f, startOk);
    forall u
      ensures ThreadOk(s', u)
    {
      assert ThreadOk(s, t) && ThreadOk(s, u);
      if f !in s.loadMap && f !in s.modules && startOk {
        BeginLoadThreads(s, t, f, Parsing, u);
      }
    }
  }

  lemma WakeInv(s: State, t: Tid, startOk: bool)
    requires Inv(s) && Blocked(s, t)
    ensures Inv(Step(s, Wake(t, startOk)))
  {
    hide Inv, Proceed;
    AwakeInv(s, t);
    var f := if t in s.sleeping then s.sleeping[t] else s.notified[t];
    ProceedInv(Awake(s, t), t, f, startOk);
  }

  lemma AwakeInv(s: State, t: Tid)
    requires Inv(s) && Blocked(s, t)
    ensures Inv(Awake(s, t)) && !Blocked(Awake(s, t), t)
  {
    RemoveSize(s.sleeping, t);
    RemoveSize(s.notified, t);
    forall u
      ensures ThreadOk(Awake(s, t), u)
    {
      assert ThreadOk(s, u);
    }
  }

  /** A finished or failed load leaves everything in order; its feature is nobody's any more. */
  lemma EndLoadInv(s: State, t: Tid)
    requires Inv(s) && Stack(s, t) != []
    ensures var f := Top(s, t).feature; var s' := Pop(Erase(s, f), t);
      Inv(s') && f !in s'.loadMap && f !in s'.modules && s'.sleeping == map[]
  {
    var f := Top(s, t).feature;
    assert ThreadOk(s, t);
    assert Loading(Stack(s, t), f);
    EraseSleepers(s, f);
    var s' := Pop(Erase(s, f), t);
    forall u
      ensures ThreadOk(s', u)
    {
      assert ThreadOk(s, u);
      EndLoadThreads(s, t, u);
    }
  }

  lemma RegisterInv(s: State, f: Feature)
    requires Inv(s) && f !in s.loadMap && f !in s.modules
    ensures Inv(Register(s, f))
  {
    var s' := Register(s, f);
    forall u
      ensures ThreadOk(s', u)
    {
      assert ThreadOk(s, u);
    }
    assert forall g :: g in s'.registrations <==> g in s.registrations || g == f;
  }

  /** Entering the feature again for its initialisation: sleepers have all been signalled. */
  lemma BeginInitInv(s: State, t: Tid, f: Feature)
    requires Inv(s) && f !in s.loadMap && f !in s.modules && s.sleeping == map[]
    ensures Inv(BeginLoad(s, t, f, Initializing))
  {
    forall u
      ensures ThreadOk(BeginLoad(s, t, f, Initializing), u)
    {
      assert ThreadOk(s, t) && ThreadOk(s, u);
      BeginLoadThreads(s, t, f, Initializing, u);
    }
  }

  /** Every step keeps the invariant. */
  lemma StepInv(s: State, e: Event)
    requires Inv(s) && Enabled(s, e)
    ensures Inv(Step(s, e))
  {
    hide Proceed, Erase;
    match e
    case Request(t, f, startOk) => ProceedInv(s, t, f, startOk);
    case Wake(t, startOk) => WakeInv(s, t, startOk);
    case ParseEnds(t, ok, hasInit) =>
      var f := Top(s, t).feature;
      EraseKeepsStacks(s, f);
      EndLoadInv(s, t);
      var s1 := Pop(Erase(s, f), t);
      RegisterInv(s1, f);
      BeginInitInv(s1, t, f);
      assert ThreadOk(s, t);
      assert Loading(Stack(s, t), f);
    case InitEnds(t, ok) =>
      var f := Top(s, t).feature;
      EraseKeepsStacks(s, f);
      EndLoadInv(s, t);
      RegisterInv(Pop(Erase(s, f), t), f);
  }

  lemma EraseKeepsStacks(s: State, f: Feature)
    ensures Erase(s, f).stacks == s.stacks && Erase(s, f).modules == s.modules
    ensures Erase(s, f).registrations == s.registrations
  {
  }

  lemma {:induction false} RunInv(states: seq<State>, events: seq<Event>, i: nat)
    requires IsRun(states, events) && i < |states|
    ensures Inv(states[i])
  {
    if i != 0 {
      RunInv(states, events, i - 1);
      StepInv(states[i - 1], events[i - 1]);
    }
  }

  /** Each feature is being loaded by at most one thread, at one depth; the load map names it. */
  lemma OneLoaderPerFeature(states: seq<State>, events: seq<Event>, i: nat, t: Tid, j: nat, u: Tid, k: nat)
    requires IsRun(states, events) && i < |states|
    requires j < |Stack(states[i], t)| && k < |Stack(states[i], u)|
    requires Stack(states[i], t)[j].feature == Stack(states[i], u)[k].feature
    ensures t == u && j == k
    ensures Stack(states[i], t)[j].feature in states[i].loadMap
    ensures states[i].loadMap[Stack(states[i], t)[j].feature] == t
  {
    RunInv(states, events, i);
    var s := states[i];
    assert ThreadOk(s, t) && ThreadOk(s, u);
    assert Loading(Stack(s, t), Stack(s, t)[j].feature) && Loading(Stack(s, u), Stack(s, u)[k].feature);
  }

  /** addModule() finds its place in the module map free: only the thread that has the feature in the load
      map registers it, and a feature being loaded is not registered. */
  lemma RegistrationsAreNew(states: seq<State>, events: seq<Event>, i: nat) returns (f: Feature)
    requires IsRun(states, events) && i < |events|
    requires states[i + 1].modules != states[i].modules
    ensures f in states[i].loadMap && states[i].loadMap[f] == events[i].t && f !in states[i + 1].loadMap
    ensures f !in states[i].modules && states[i + 1].modules == states[i].modules + {f}
    ensures states[i + 1].registrations == states[i].registrations + [f]
  {
    hide Erase;
    RunInv(states, events, i);
    var s, e := states[i], events[i];
    f := Top(s, e.t).feature;
    EraseKeepsStacks(s, f);
    EndLoadInv(s, e.t);
    assert ThreadOk(s, e.t);
    assert Loading(Stack(s, e.t), f);
  }

  /** The helper's constructor finds its place in the load map free: a thread takes no feature over from
      another, and starts to load none that is registered. */
  lemma LoadsAreNew(states: seq<State>, events: seq<Event>, i: nat, f: Feature)
    requires IsRun(states, events) && i < |events| && f in states[i + 1].loadMap
    ensures f in states[i].loadMap ==> states[i + 1].loadMap[f] == states[i].loadMap[f]
    ensures f !in states[i].loadMap ==> f !in states[i].modules && states[i + 1].loadMap[f] == events[i].t
  {
    RunInv(states, events, i);
    var s, e := states[i], events[i];
    if e.ParseEnds? || e.InitEnds? {
      assert ThreadOk(s, e.t);
      assert Loading(Stack(s, e.t), Top(s, e.t).feature);
      EndEntersNothing(s, e, f);
    } else {
      RequestEntersNew(s, e, f);
    }
  }

  lemma EndEntersNothing(s: State, e: Event, f: Feature)
    requires (e.ParseEnds? || e.InitEnds?) && Enabled(s, e) && f in Step(s, e).loadMap
    requires Top(s, e.t).feature in s.loadMap && s.loadMap[Top(s, e.t).feature] == e.t
    ensures f in s.loadMap && Step(s, e).loadMap[f] == s.loadMap[f]
  {
    var g := Top(s, e.t).feature;
    assert Erase(s, g).loadMap == s.loadMap - {g};
  }

  lemma RequestEntersNew(s: State, e: Event, f: Feature)
    requires (e.Request? || e.Wake?) && Enabled(s, e) && f in Step(s, e).loadMap
    ensures f in s.loadMap ==> Step(s, e).loadMap[f] == s.loadMap[f]
    ensures f !in s.loadMap ==> f !in s.modules && Step(s, e).loadMap[f] == e.t
  {
  }

  /** What the end of a parse or of an initialisation makes of the feature: registered, last of all, if it
      succeeded; neither registered nor being loaded if it failed; being initialised by the same thread if there
      is something to initialise. */
  lemma LoadOutcome(states: seq<State>, events: seq<Event>, i: nat)
    requires IsRun(states, events) && i < |events| && (events[i].ParseEnds? || events[i].InitEnds?)
    ensures var s, e, s' := states[i], events[i], states[i + 1];
      Stack(s, e.t) != [] && var f := Top(s, e.t).feature;
      && f !in s.modules
      && (if !e.ok then s'.modules == s.modules && s'.registrations == s.registrations && f !in s'.loadMap
          else if e.ParseEnds? && e.hasInit then
            && s'.modules == s.modules && s'.registrations == s.registrations
            && f in s'.loadMap && s'.loadMap[f] == e.t
            && Stack(s', e.t) == Stack(s, e.t)[..|Stack(s, e.t)| - 1] + [Load(f, Initializing)]
          else s'.modules == s.modules + {f} && s'.registrations == s.registrations + [f] && f !in s'.loadMap)
      && (!(e.ok && e.ParseEnds? && e.hasInit) ==> Stack(s', e.t) == Stack(s, e.t)[..|Stack(s, e.t)| - 1])
  {
    RunInv(states, events, i);
    var s, e := states[i], events[i];
    assert ThreadOk(s, e.t);
    assert Loading(Stack(s, e.t), Top(s, e.t).feature);
    hide Inv;
    EraseKeepsStacks(s, Top(s, e.t).feature);
  }

  /** What is registered stays registered. */
  lemma {:induction false} ModulesGrow(states: seq<State>, events: seq<Event>, i: nat, j: nat)
    requires IsRun(states, events) && i <= j < |states|
    ensures states[i].modules <= states[j].modules && states[i].registrations <= states[j].registrations
    decreases j
  {
    if i < j {
      ModulesGrow(states, events, i, j - 1);
      StepGrows(states[j - 1], events[j - 1]);
      hide Step, Enabled, IsRun;
      Transitive(states[i].registrations, states[j - 1].registrations, states[j].registrations);
    }
  }

  lemma Transitive<T>(a: seq<T>, b: seq<T>, c: seq<T>)
    requires a <= b <= c
    ensures a <= c
  {
    assert forall i :: 0 <= i < |a| ==> a[i] == b[i] == c[i];
  }

  lemma StepGrows(s: State, e: Event)
    requires Enabled(s, e)
    ensures s.modules <= Step(s, e).modules && s.registrations <= Step(s, e).registrations
  {
  }

  /** The feature that a thread asks for, or goes on asking for after a wait. */
  function Asked(s: State, e: Event): Feature
    requires (e.Request? || e.Wake?) && Enabled(s, e)
  {
    if e.Request? then e.f else if e.t in s.sleeping then s.sleeping[e.t] else s.notified[e.t]
  }

  /** A registered feature is neither waited for nor loaded again. */
  lemma RegisteredIsThere(states: seq<State>, events: seq<Event>, i: nat)
    requires IsRun(states, events) && i < |events| && (events[i].Request? || events[i].Wake?)
    requires Asked(states[i], events[i]) in states[i].modules
    ensures var t, s, s' := events[i].t, states[i], states[i + 1];
      !Blocked(s', t) && s'.stacks == s.stacks && s'.loadMap == s.loadMap && s'.modules == s.modules
  {
    RunInv(states, events, i);
  }

  /** Any other feature is waited for if another thread is loading it; if nobody is, and it can be loaded, the thread
      starts to parse it. */
  lemma RequestOutcome(states: seq<State>, events: seq<Event>, i: nat)
    requires IsRun(states, events) && i < |events| && (events[i].Request? || events[i].Wake?)
    requires Asked(states[i], events[i]) !in states[i].modules
    ensures var t, s, s', f := events[i].t, states[i], states[i + 1], Asked(states[i], events[i]);
      && (t in s'.sleeping <==> f in s.loadMap && s.loadMap[f] != t)
      && (t in s'.sleeping ==> s'.sleeping[t] == f)
      && (f !in s.loadMap && events[i].startOk ==> Stack(s', t) == Stack(s, t) + [Load(f, Parsing)])
      && (f in s.loadMap || !events[i].startOk ==> s'.stacks == s.stacks && s'.loadMap == s.loadMap)
      && t !in s'.notified
  {
    RunInv(states, events, i);
  }

  /** No feature is ever registered twice, although the mutex is dropped during parse and initialisation. */
  lemma NeverRegisteredTwice(states: seq<State>, events: seq<Event>, i: nat, j: nat, k: nat)
    requires IsRun(states, events) && i < |states| && j < k < |states[i].registrations|
    ensures states[i].registrations[j] != states[i].registrations[k]
  {
    RunInv(states, events, i);
  }

  /** A thread that sleeps unsignalled waits for a feature that some other thread is loading right now. */
  lemma SleepersWaitForALoad(states: seq<State>, events: seq<Event>, i: nat, t: Tid)
    requires IsRun(states, events) && i < |states| && t in states[i].sleeping
    ensures var f := states[i].sleeping[t];
      && f in states[i].loadMap
      && states[i].loadMap[f] != t
      && Loading(Stack(states[i], states[i].loadMap[f]), f)
  {
    RunInv(states, events, i);
    var s := states[i];
    assert ThreadOk(s, s.loadMap[s.sleeping[t]]);
  }

  /** When a load ends, nobody is left asleep: each waiter runs again and sees the outcome. */
  lemma LoadEndWakesAll(states: seq<State>, events: seq<Event>, i: nat)
    requires IsRun(states, events) && i < |events|
    requires events[i].ParseEnds? || events[i].InitEnds?
    ensures states[i + 1].sleeping == map[]
    ensures states[i + 1].notified == states[i].notified + states[i].sleeping
  {
    RunInv(states, events, i);
    EraseSleepers(states[i], Top(states[i], events[i].t).feature);
    if states[i].waiting == 0 {
      assert states[i].sleeping == map[];
      assert states[i].notified + states[i].sleeping == states[i].notified;
    }
  }
}

/** Who waits for whom, and when a waiting thread is stuck: two threads whose modules request each other wait for
    each other for ever. */
module LoadDeadlocks {
  import opened Common
  import opened LoadModel
  import opened LoadTheorems

  function Awaited(s: State, t: Tid): Feature
    requires Blocked(s, t)
  {
    if t in s.sleeping then s.sleeping[t] else s.notified[t]
  }

  /** However often `t` is woken, it would sleep again: another thread is loading what it waits for. */
  predicate Waits(s: State, t: Tid) {
    Blocked(s, t) && Awaited(s, t) in s.loadMap && s.loadMap[Awaited(s, t)] != t
  }

  /** The thread that `t` waits for. */
  function Holder(s: State, t: Tid): Tid
    requires Waits(s, t)
  {
    s.loadMap[Awaited(s, t)]
  }

  /** Each of these threads waits for another one of them, so that following them closes a cycle. */
  predicate Deadlock(s: State, c: set<Tid>) {
    forall t :: t in c ==> Waits(s, t) && Holder(s, t) in c
  }

  ghost predicate Stuck(s: State, t: Tid) {
    exists c :: t in c && Deadlock(s, c)
  }

  /** Following the threads that wait for one another from `t` ends within `n` steps at one that does not. */
  predicate Ends(s: State, t: Tid, n: nat)
    decreases n
  {
    !Waits(s, t) || (n > 0 && Ends(s, Holder(s, t), n - 1))
  }

  lemma {:induction false} EndsLater(s: State, t: Tid, n: nat, m: nat)
    requires Ends(s, t, n) && n <= m
    ensures Ends(s, t, m)
    decreases n
  {
    if n > 0 && Waits(s, t) {
      EndsLater(s, Holder(s, t), n - 1, m - 1);
    }
  }

  lemma {:induction false} DeadlockNeverEnds(s: State, c: set<Tid>, t: Tid, n: nat)
    requires Deadlock(s, c) && t in c
    ensures !Ends(s, t, n)
    decreases n
  {
    if n > 0 {
      DeadlockNeverEnds(s, c, Holder(s, t), n - 1);
    }
  }

  ghost predicate EverEnds(s: State, t: Tid) {
    exists n: nat :: Ends(s, t, n)
  }

  /** The threads that a thread waits for, one after the other, either come to one that does not wait or close a
      cycle, and not both. */
  lemma StuckOrEnds(s: State, t: Tid)
    ensures Stuck(s, t) <==> !EverEnds(s, t)
  {
    hide Ends;
    if !EverEnds(s, t) {
      var c := set u | u in s.sleeping.Keys + s.notified.Keys && !EverEnds(s, u);
      forall u | u in c
        ensures Waits(s, u) && Holder(s, u) in c
      {
        NeverEnds(s, u);
      }
      NeverEnds(s, t);
      assert Deadlock(s, c) && t in c;
    } else if Stuck(s, t) {
      var n: nat :| Ends(s, t, n);
      var c :| t in c && Deadlock(s, c);
      DeadlockNeverEnds(s, c, t, n);
    }
  }

  lemma NeverEnds(s: State, t: Tid)
    requires !EverEnds(s, t)
    ensures Waits(s, t) && Waits(s, Holder(s, t)) && !EverEnds(s, Holder(s, t))
  {
    assert !Ends(s, t, 0);
    var h := Holder(s, t);
    assert !EverEnds(s, h) by {
      if EverEnds(s, h) {
        var n: nat :| Ends(s, h, n);
        assert Ends(s, t, n + 1);
      }
    }
    assert !Ends(s, h, 0);
  }

  /** A thread that waits goes on waiting for the same feature, in the middle of the same loads. */
  predicate Kept(s: State, s': State, t: Tid) {
    Blocked(s, t) ==> Blocked(s', t) && Awaited(s', t) == Awaited(s, t) && Stack(s', t) == Stack(s, t)
  }

  /** The end of a load wakes the waiters, which are still waiting as long as they have not run. */
  lemma EraseKeeps(s: State, f: Feature, t: Tid)
    requires s.sleeping.Keys !! s.notified.Keys
    ensures Kept(s, Erase(s, f), t) && (Blocked(Erase(s, f), t) <==> Blocked(s, t))
    ensures Erase(s, f).loadMap == s.loadMap - {f} && Erase(s, f).stacks == s.stacks
  {
  }

  /** A load ends, and others are not touched. */
  lemma EndKeeps(s: State, e: Event, t: Tid)
    requires (e.ParseEnds? || e.InitEnds?) && Enabled(s, e) && ThreadOk(s, e.t) && t != e.t
    requires s.sleeping.Keys !! s.notified.Keys
    ensures Kept(s, Step(s, e), t)
    ensures forall f :: f in s.loadMap && s.loadMap[f] != e.t ==>
      f in Step(s, e).loadMap && Step(s, e).loadMap[f] == s.loadMap[f]
  {
    var g := Top(s, e.t).feature;
    EraseKeeps(s, g, t);
    hide Erase;
    assert Loading(Stack(s, e.t), g);
  }

  /** A thread in a deadlock stays where it is, whoever takes a step. */
  lemma StillWaits(s: State, e: Event, c: set<Tid>, t: Tid)
    requires Inv(s) && Enabled(s, e) && Deadlock(s, c) && t in c
    ensures Waits(Step(s, e), t) && Holder(Step(s, e), t) == Holder(s, t)
  {
    assert ThreadOk(s, e.t) && Waits(s, t) && Waits(s, Holder(s, t));
    hide Inv, ThreadOk, Deadlock, Erase;
    if e.ParseEnds? || e.InitEnds? {
      EndKeeps(s, e, t);
    }
  }

  lemma DeadlockPersists(s: State, e: Event, c: set<Tid>)
    requires Inv(s) && Enabled(s, e) && Deadlock(s, c)
    ensures Deadlock(Step(s, e), c)
  {
    forall t | t in c
      ensures Waits(Step(s, e), t) && Holder(Step(s, e), t) in c
    {
      StillWaits(s, e, c, t);
    }
  }

  /** The events lead from `s` to `s'`. */
  ghost predicate Leads(s: State, events: seq<Event>, s': State)
    decreases |events|
  {
    if events == [] then s == s'
    else Enabled(s, events[0]) && Leads(Step(s, events[0]), events[1..], s')
  }

  lemma {:induction false} LeadsOn(s: State, a: seq<Event>, s': State, b: seq<Event>, s'': State)
    requires Leads(s, a, s') && Leads(s', b, s'')
    ensures Leads(s, a + b, s'')
    decreases |a|
  {
    if a == [] {
      assert a + b == b;
    } else {
      assert (a + b)[1..] == a[1..] + b;
      LeadsOn(Step(s, a[0]), a[1..], s', b, s'');
    }
  }

  lemma LeadsOne(s: State, e: Event)
    requires Enabled(s, e)
    ensures Leads(s, [e], Step(s, e))
  {
    assert Leads(Step(s, e), [], Step(s, e));
    assert [e][1..] == [];
  }

  lemma {:induction false} DeadlockIsForever(s: State, events: seq<Event>, s': State, c: set<Tid>)
    requires Inv(s) && Deadlock(s, c) && Leads(s, events, s')
    ensures Deadlock(s', c)
    decreases |events|
  {
    if events != [] {
      StepInv(s, events[0]);
      DeadlockPersists(s, events[0], c);
      DeadlockIsForever(Step(s, events[0]), events[1..], s', c);
    }
  }

  /** The innermost load of a running thread can fail. */
  lemma FailLoad(s: State, t: Tid) returns (e: Event)
    requires Inv(s) && !Blocked(s, t) && Stack(s, t) != []
    ensures Enabled(s, e) && e.t == t && Step(s, e) == Pop(Erase(s, Top(s, t).feature), t)
    ensures Inv(Step(s, e)) && !Blocked(Step(s, e), t)
    ensures forall u :: u != t ==> Kept(s, Step(s, e), u)
  {
    e := if Top(s, t).phase == Parsing then ParseEnds(t, false, false) else InitEnds(t, false);
    StepInv(s, e);
    assert ThreadOk(s, t);
    hide Inv, ThreadOk;
    EraseKeeps(s, Top(s, t).feature, t);
    forall u | u != t
      ensures Kept(s, Step(s, e), u)
    {
      EndKeeps(s, e, u);
    }
  }

  /** A running thread can end its loads until that of `f` has ended. */
  lemma {:induction false} EndLoads(s: State, t: Tid, f: Feature) returns (events: seq<Event>, s': State)
    requires Inv(s) && !Blocked(s, t) && f in s.loadMap && s.loadMap[f] == t
    ensures Leads(s, events, s') && Inv(s') && f !in s'.loadMap
    ensures forall u :: u != t ==> Kept(s, s', u)
    decreases |Stack(s, t)|
  {
    assert ThreadOk(s, t);
    assert Loading(Stack(s, t), f);
    hide Inv, ThreadOk, Step, Enabled, Erase, Loading;
    var e := FailLoad(s, t);
    var g := Top(s, t).feature;
    var s1 := Step(s, e);
    LeadsOne(s, e);
    EraseKeeps(s, g, t);
    if g == f {
      return [e], s1;
    }
    var more;
    more, s' := EndLoads(s1, t, f);
    LeadsOn(s, [e], s1, more, s');
    events := [e] + more;
    forall u | u != t
      ensures Kept(s, s', u)
    {
      assert Kept(s, s1, u) && Kept(s1, s', u);
    }
  }

  /** A thread that is woken and finds that nobody is loading its feature goes on, here without loading it. */
  lemma GoOn(s: State, t: Tid)
    requires Inv(s) && Blocked(s, t) && !Waits(s, t)
    ensures Enabled(s, Wake(t, false)) && Inv(Step(s, Wake(t, false))) && !Blocked(Step(s, Wake(t, false)), t)
    ensures Stack(Step(s, Wake(t, false)), t) == Stack(s, t)
    ensures forall u :: u != t ==> Kept(s, Step(s, Wake(t, false)), u)
  {
    StepInv(s, Wake(t, false));
  }

  /** If the chain from `t` ends, its threads can finish what they are doing, from its end back to `t`. */
  lemma {:induction false} Unblock(s: State, t: Tid, n: nat) returns (events: seq<Event>, s': State)
    requires Inv(s) && Ends(s, t, n)
    ensures Leads(s, events, s') && Inv(s') && !Blocked(s', t) && Stack(s', t) == Stack(s, t)
    ensures forall u :: !Ends(s, u, n) ==> Kept(s, s', u)
    decreases n
  {
    if n > 0 && Ends(s, t, n - 1) {
      events, s' := Unblock(s, t, n - 1);
      forall u | !Ends(s, u, n)
        ensures Kept(s, s', u)
      {
        NotEarlier(s, u, n);
      }
    } else if !Waits(s, t) {
      events, s' := [], s;
      if Blocked(s, t) {
        GoOn(s, t);
        LeadsOne(s, Wake(t, false));
        events, s' := [Wake(t, false)], Step(s, Wake(t, false));
      }
    } else {
      events, s' := UnblockBehind(s, t, n);
    }
  }

  lemma NotEarlier(s: State, u: Tid, n: nat)
    requires n > 0 && !Ends(s, u, n)
    ensures !Ends(s, u, n - 1)
  {
    if Ends(s, u, n - 1) {
      EndsLater(s, u, n - 1, n);
    }
  }

  lemma {:induction false} UnblockBehind(s: State, t: Tid, n: nat) returns (events: seq<Event>, s': State)
    requires Inv(s) && Waits(s, t) && n > 0 && Ends(s, t, n) && !Ends(s, t, n - 1)
    ensures Leads(s, events, s') && Inv(s') && !Blocked(s', t) && Stack(s', t) == Stack(s, t)
    ensures forall u :: !Ends(s, u, n) ==> Kept(s, s', u)
    decreases n, 0
  {
    var h, f := Holder(s, t), Awaited(s, t);
    var a, s1 := Unblock(s, h, n - 1);
    assert Kept(s, s1, t);
    assert ThreadOk(s, h) && ThreadOk(s1, h);
    assert Loading(Stack(s1, h), f);
    var b, s2 := EndLoads(s1, h, f);
    assert Kept(s1, s2, t);
    GoOn(s2, t);
    s' := Step(s2, Wake(t, false));
    LeadsOne(s2, Wake(t, false));
    LeadsOn(s, a, s1, b, s2);
    LeadsOn(s, a + b, s2, [Wake(t, false)], s');
    events := a + b + [Wake(t, false)];
    forall u | !Ends(s, u, n)
      ensures Kept(s, s', u)
    {
      NotEarlier(s, u, n);
      EndsLater(s, h, n - 1, n);
      assert Kept(s, s1, u) && Kept(s1, s2, u) && Kept(s2, s', u);
    }
  }

  ghost predicate CanGoOn(s: State, t: Tid) {
    exists events, s' :: Leads(s, events, s') && !Blocked(s', t)
  }

  /** In every reachable state a waiting thread is blocked for ever, whatever all the threads do from then on, if
      and only if the threads it waits for close a cycle. */
  lemma StuckForever(states: seq<State>, events: seq<Event>, i: nat, t: Tid)
    requires IsRun(states, events) && i < |states| && Blocked(states[i], t)
    ensures Stuck(states[i], t) <==> !CanGoOn(states[i], t)
  {
    hide Leads, Ends;
    RunInv(states, events, i);
    var s := states[i];
    StuckOrEnds(s, t);
    if Stuck(s, t) {
      var c :| t in c && Deadlock(s, c);
      if CanGoOn(s, t) {
        var more, s' :| Leads(s, more, s') && !Blocked(s', t);
        DeadlockIsForever(s, more, s', c);
      }
    } else {
      var n: nat :| Ends(s, t, n);
      var more, s' := Unblock(s, t, n);
    }
  }

  /** Such a state is reached when two threads load modules that request each other. */
  lemma CircularRequestsBlock(a: Feature, b: Feature) returns (s: State)
    requires a != b
    ensures Leads(INITIAL, [Request(1, a, true), Request(2, b, true), Request(1, b, true), Request(2, a, true)], s)
    ensures Deadlock(s, {1, 2})
  {
    var s1 := Step(INITIAL, Request(1, a, true));
    var s2 := Step(s1, Request(2, b, true));
    var s3 := Step(s2, Request(1, b, true));
    s := Step(s3, Request(2, a, true));
    assert s.sleeping == map[1 := b, 2 := a] && s.loadMap == map[a := 1, b := 2];
    LeadsOne(INITIAL, Request(1, a, true));
    LeadsOne(s1, Request(2, b, true));
    LeadsOne(s2, Request(1, b, true));
    LeadsOne(s3, Request(2, a, true));
    LeadsOn(s2, [Request(1, b, true)], s3, [Request(2, a, true)], s);
    LeadsOn(s1, [Request(2, b, true)], s2, [Request(1, b, true)] + [Request(2, a, true)], s);
    LeadsOn(INITIAL, [Request(1, a, true)], s1,
            [Request(2, b, true)] + ([Request(1, b, true)] + [Request(2, a, true)]), s);
    assert [Request(1, a, true)] + ([Request(2, b, true)] + ([Request(1, b, true)] + [Request(2, a, true)])) ==
      [Request(1, a, true), Request(2, b, true), Request(1, b, true), Request(2, a, true)];
  }
}

/** The module manager: its locked stretches perform exactly the steps of the model. */
module Manager {
  import opened Common
  import opened LoadModel

  datatype Outcome = Returned | Waiting | Loading

  class QoreModuleManager {
    var loadMap: map<Feature, Tid>
    var modules: set<Feature>
    var loadWaiting: int
    ghost var registrations: seq<Feature>
    ghost var stacks: map<Tid, seq<Load>>
    ghost var sleeping: map<Tid, Feature>
    ghost var notified: map<Tid, Feature>

    ghost function Abs(): State
      reads this
    {
      State(loadMap, modules, registrations, loadWaiting, stacks, sleeping, notified)
    }

    constructor ()
      ensures Abs() == INITIAL
    {
      loadMap, modules, loadWaiting := map[], {}, 0;
      registrations, stacks, sleeping, notified := [], map[], map[], map[];
    }

    /** ModuleLoadMapHelper's constructor. */
    method EnterLoad(t: Tid, f: Feature, ghost phase: Phase)
      requires f !in loadMap
      modifies this
      ensures Abs() == BeginLoad(old(Abs()), t, f, phase)
    {
      loadMap := loadMap[f := t];
      stacks := stacks[t := Stack(Abs(), t) + [Load(f, phase)]];
    }

    /** ModuleLoadMapHelper's destructor. */
    method LeaveLoad(f: Feature)
      modifies this
      ensures Abs() == Erase(old(Abs()), f)
    {
      loadMap := loadMap - {f};
      if loadWaiting != 0 {
        // broadcast()
        notified := notified + sleeping;
        sleeping := map[];
      }
    }

    /** loadModuleIntern() from one test of the load map to the next wait, return or parse. */
    method TryLoad(t: Tid, f: Feature, startOk: bool) returns (outcome: Outcome)
      modifies this
      ensures Abs() == Proceed(old(Abs()), t, f, startOk)
      ensures outcome == Waiting <==> f in old(loadMap) && old(loadMap)[f] != t
      ensures outcome == Loading <==> f !in old(loadMap) && f !in old(modules) && startOk
    {
      if f in loadMap {
        if loadMap[f] == t {
          return Returned;
        }
        loadWaiting := loadWaiting + 1;
        sleeping := sleeping[t := f];
        return Waiting;
      }
      if f in modules || !startOk {
        return Returned;
      }
      EnterLoad(t, f, Parsing);
      outcome := Loading;
    }

    method WaitReturned(t: Tid, f: Feature, startOk: bool) returns (outcome: Outcome)
      requires Enabled(Abs(), Wake(t, startOk))
      requires f == if t in sleeping then sleeping[t] else notified[t]
      modifies this
      ensures Abs() == Step(old(Abs()), Wake(t, startOk))
    {
      loadWaiting := loadWaiting - 1;
      sleeping := sleeping - {t};
      notified := notified - {t};
      outcome := TryLoad(t, f, startOk);
    }

    /** loadUserModuleFromPath() after the parse, and setupUserModule() up to the initialisation code. */
    method ParseEnded(t: Tid, f: Feature, ok: bool, hasInit: bool)
      requires Enabled(Abs(), ParseEnds(t, ok, hasInit)) && f == Top(Abs(), t).feature
      modifies this
      ensures Abs() == Step(old(Abs()), ParseEnds(t, ok, hasInit))
    {
      LeaveLoad(f);
      stacks := Pop(Abs(), t).stacks;
      if f in modules || !ok {
        return;
      }
      if hasInit {
        EnterLoad(t, f, Initializing);
      } else {
        AddModule(f);
      }
    }

    /** The rest of setupUserModule() after the initialisation code. */
    method InitEnded(t: Tid, f: Feature, ok: bool)
      requires Enabled(Abs(), InitEnds(t, ok)) && f == Top(Abs(), t).feature
      modifies this
      ensures Abs() == Step(old(Abs()), InitEnds(t, ok))
    {
      LeaveLoad(f);
      stacks := Pop(Abs(), t).stacks;
      if ok {
        AddModule(f);
      }
    }

    method AddModule(f: Feature)
      modifies this
      ensures Abs() == Register(old(Abs()), f)
    {
      modules := modules + {f};
      registrations := registrations + [f];
    }
  }
}
