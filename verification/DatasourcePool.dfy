/** The connection pool of lib/DatasourcePool.cpp as a step system over an unbounded set of threads.

    Every step is one stretch of code that a thread runs without releasing the pool's lock (or one
    update of that thread's own resource list).  A thread blocked on the condition variable is either
    `sleeping` (not signalled) or `notified` (signalled, but not yet running again).
  */
module PoolModel {

  import opened Common

  /** Where a thread is with respect to the pool. */
  datatype Pc =
    | Idle                 // between calls
    | Waiting              // blocked in getDSIntern()
    | Allotted             // has a connection, set_thread_resource() not yet called
    | InCall(isNew: bool)  // inside an action; `isNew` is the source's new_ds
    | Releasing            // in freeDS(): resource removed, lock not yet taken
    | Exiting              // purged from the resource list, cleanup() not yet finished

  datatype State = State(
    max: nat,
    timeoutMs: nat,        // tl_timeout_ms; zero means to wait without a limit
    cmax: nat,
    freeList: seq<nat>,
    tmap: map<Tid, nat>,
    tidList: seq<Tid>,
    waitCount: int,
    reqs: nat,
    hits: nat,
    pc: map<Tid, Pc>,
    sleeping: set<Tid>,
    notified: set<Tid>,
    resources: set<Tid>)

  datatype Event =
    | Request(t: Tid)
    | Register(t: Tid)
    | WakeNotified(t: Tid)
    | WakeSpurious(t: Tid)
    | Timeout(t: Tid)
    | SwallowedTimeout(t: Tid)   // a timed wait that used up a signal and still reports a timeout
    | OpenFailed(t: Tid)
    | EndCall(t: Tid, cmd: Command, aborted: bool, keepLock: bool)
    | Free(t: Tid, woken: Option<Tid>)
    | ThreadExit(t: Tid)
    | Cleanup(t: Tid, woken: Option<Tid>)

  function PcOf(s: State, t: Tid): Pc {
    if t in s.pc then s.pc[t] else Idle
  }

  predicate CanTake(s: State) {
    s.freeList != [] || s.cmax < s.max
  }

  /** The two allocating branches of the loop in getDSIntern(). */
  function Take(s: State, t: Tid): State
    requires CanTake(s)
    requires if s.freeList != [] then s.freeList[0] < |s.tidList| else s.cmax < |s.tidList|
  {
    if s.freeList != [] then
      var fi := s.freeList[0];
      s.(tmap := s.tmap[t := fi], freeList := s.freeList[1..], tidList := s.tidList[fi := t],
         pc := s.pc[t := Allotted])
    else
      s.(tmap := s.tmap[t := s.cmax], tidList := s.tidList[s.cmax := t], cmax := s.cmax + 1,
         pc := s.pc[t := Allotted])
  }

  function Sleep(s: State, t: Tid): State {
    s.(waitCount := s.waitCount + 1, sleeping := s.sleeping + {t}, pc := s.pc[t := Waiting])
  }

  /** One pass of the loop body for a thread that holds the lock and has no connection. */
  function TakeOrSleep(s: State, t: Tid): State
    requires TakeDefined(s)
  {
    if CanTake(s) then Take(s, t) else Sleep(s, t)
  }

  /** A thread returns from wait(): it is neither sleeping nor notified any more. */
  function Awake(s: State, t: Tid): State {
    s.(waitCount := s.waitCount - 1, sleeping := s.sleeping - {t}, notified := s.notified - {t})
  }

  function Signal(s: State, woken: Option<Tid>): State {
    match woken
    case None => s
    case Some(w) => s.(sleeping := s.sleeping - {w}, notified := s.notified + {w})
  }

  /** The tail shared by freeDS() and cleanup(). */
  function GiveBack(s: State, t: Tid, woken: Option<Tid>): State
    requires t in s.tmap
  {
    var s1 := s.(freeList := s.freeList + [s.tmap[t]], tmap := s.tmap - {t}, pc := s.pc[t := Idle]);
    if s.waitCount != 0 then Signal(s1, woken) else s1
  }

  /** signal() wakes one sleeping thread of the system's choice, if there is one. */
  predicate SignalChoice(s: State, woken: Option<Tid>) {
    match woken
    case None => s.sleeping == {} || s.waitCount == 0
    case Some(w) => w in s.sleeping && s.waitCount != 0
  }

  predicate Releases(isNew: bool, cmd: Command, aborted: bool, keepLock: bool) {
    cmd == Release || aborted || (isNew && cmd == NoChange && !keepLock)
  }

  predicate Enabled(s: State, e: Event) {
    match e
    case Request(t) => PcOf(s, t) == Idle
    case Register(t) => PcOf(s, t) == Allotted
    case WakeNotified(t) => t in s.notified
    case WakeSpurious(t) => t in s.sleeping
    case Timeout(t) => t in s.sleeping && s.timeoutMs != 0
    case SwallowedTimeout(t) => t in s.notified && s.timeoutMs != 0
    case OpenFailed(t) => PcOf(s, t) == InCall(true)
    case EndCall(t, _, _, _) => PcOf(s, t).InCall?
    case Free(t, woken) => PcOf(s, t) == Releasing && SignalChoice(s, woken)
    case ThreadExit(t) => PcOf(s, t) == Idle && t in s.resources
    case Cleanup(t, woken) => PcOf(s, t) == Exiting && SignalChoice(s, woken)
  }

  /** Array subscripts in range for the allocating branches. */
  predicate TakeDefined(s: State) {
    && (s.freeList != [] ==> s.freeList[0] < |s.tidList|)
    && (s.freeList == [] && s.cmax < s.max ==> s.cmax < |s.tidList|)
  }

  /** What the source takes for granted in a step: subscripts in range, map lookups that succeed. */
  predicate Defined(s: State, e: Event) {
    match e
    case Request(_) => TakeDefined(s)
    case WakeNotified(_) => TakeDefined(s)
    case WakeSpurious(_) => TakeDefined(s)
    case Free(t, _) => t in s.tmap
    case Cleanup(t, _) => t in s.tmap
    case _ => true
  }

  function Step(s: State, e: Event): State
    requires Defined(s, e)
  {
    match e
    case Request(t) =>
      var s1 := s.(reqs := s.reqs + 1);
      if t in s.tmap then s1.(hits := s.hits + 1, pc := s.pc[t := InCall(false)])
      else if CanTake(s) then Take(s1.(hits := s.hits + 1), t)
      else Sleep(s1, t)
    case Register(t) => s.(resources := s.resources + {t}, pc := s.pc[t := InCall(true)])
    case WakeNotified(t) => TakeOrSleep(Awake(s, t), t)
    case WakeSpurious(t) => TakeOrSleep(Awake(s, t), t)
    case Timeout(t) => Awake(s, t).(pc := s.pc[t := Idle])
    case SwallowedTimeout(t) => Awake(s, t).(pc := s.pc[t := Idle])
    case OpenFailed(t) => s.(resources := s.resources - {t}, pc := s.pc[t := Releasing])
    case EndCall(t, cmd, aborted, keepLock) =>
      if PcOf(s, t).InCall? && Releases(PcOf(s, t).isNew, cmd, aborted, keepLock) then
        s.(resources := s.resources - {t}, pc := s.pc[t := Releasing])
      else
        s.(pc := s.pc[t := Idle])
    case Free(t, woken) => GiveBack(s, t, woken)
    case ThreadExit(t) => s.(resources := s.resources - {t}, pc := s.pc[t := Exiting])
    case Cleanup(t, woken) => GiveBack(s, t, woken)
  }

  function UpTo(n: nat): (r: seq<nat>)
    ensures |r| == n && forall i :: 0 <= i < n ==> r[i] == i
    ensures forall c: nat :: c in r <==> c < n
  {
    if n == 0 then [] else UpTo(n - 1) + [n - 1]
  }

  /** The state init() leaves behind when every connection could be opened. */
  predicate Initial(s: State) {
    && 1 <= s.cmax <= s.max == |s.tidList|
    && s.freeList == UpTo(s.cmax)
    && s.tmap == map[] && s.pc == map[] && s.sleeping == {} && s.notified == {} && s.resources == {}
    && s.waitCount == 0 && s.reqs == 0 && s.hits == 0
  }

  /** A finite run: `states[i + 1]` results from the step `events[i]` in `states[i]`. */
  ghost predicate IsRun(states: seq<State>, events: seq<Event>) {
    && |states| == |events| + 1
    && Initial(states[0])
    && forall i :: 0 <= i < |events| ==>
         Enabled(states[i], events[i]) && Defined(states[i], events[i]) &&
         states[i + 1] == Step(states[i], events[i])
  }
}

module PoolInvariant {
  import opened Common
  import opened PoolModel

  /** Each index below cmax is on the free list or held by the thread that tid_list records for it. */
  predicate Split(cmax: nat, free: seq<nat>, tmap: map<Tid, nat>, tids: seq<Tid>) {
    && cmax <= |tids|
    && (forall i, j :: 0 <= i < j < |free| ==> free[i] != free[j])
    && (forall i :: 0 <= i < |free| ==> free[i] < cmax)
    && (forall t :: t in tmap ==> tmap[t] < cmax && tmap[t] !in free && tids[tmap[t]] == t)
    && (forall i :: 0 <= i < cmax ==> i in free || (tids[i] in tmap && tmap[tids[i]] == i))
    && |free| + |tmap| == cmax
  }

  predicate Ownership(s: State) {
    && |s.tidList| == s.max
    && Split(s.cmax, s.freeList, s.tmap, s.tidList)
  }

  /** How a thread's position fixes whether it holds a connection and is a registered resource. */
  predicate Control(pc: Pc, holds: bool, registered: bool) {
    match pc
    case Idle => holds <==> registered
    case Waiting => !holds && !registered
    case Allotted => holds && !registered
    case InCall(_) => holds && registered
    case Releasing => holds && !registered
    case Exiting => holds && !registered
  }

  ghost predicate ThreadOk(s: State, t: Tid) {
    && Control(PcOf(s, t), t in s.tmap, t in s.resources)
    && (PcOf(s, t) == Waiting <==> t in s.sleeping || t in s.notified)
  }

  predicate Waiters(s: State) {
    && s.sleeping !! s.notified
    && s.waitCount == |s.sleeping| + |s.notified|
    && (s.waitCount != 0 ==> s.cmax == s.max)
  }

  /** While anybody sleeps unsignalled, all but `k` of the free connections are spoken for. */
  predicate LostWakeups(s: State, k: nat) {
    s.sleeping != {} ==> |s.freeList| <= |s.notified| + k
  }

  /** The invariant, `k` signals having been swallowed. */
  ghost predicate Inv(s: State, k: nat) {
    && Ownership(s)
    && Waiters(s)
    && LostWakeups(s, k)
    && (forall t :: ThreadOk(s, t))
  }

  lemma AllFree(cmax: nat, free: seq<nat>, tmap: map<Tid, nat>, tids: seq<Tid>)
    requires cmax <= |tids| && free == UpTo(cmax) && tmap == map[]
    ensures Split(cmax, free, tmap, tids)
  {
    forall i | 0 <= i < cmax
      ensures i in free
    {
      assert free[i] == i;
    }
  }

  lemma InitialInv(s: State)
    requires Initial(s)
    ensures Inv(s, 0)
  {
    AllFree(s.cmax, s.freeList, s.tmap, s.tidList);
  }

  lemma SubscriptsInRange(s: State)
    requires Ownership(s)
    ensures TakeDefined(s)
  {
  }

  /** In a state of the invariant every step the code can take is well defined. */
  lemma StepsAreDefined(s: State, e: Event, k: nat)
    requires Inv(s, k) && Enabled(s, e)
    ensures Defined(s, e)
  {
    SubscriptsInRange(s);
    assert ThreadOk(s, e.t);
  }

  lemma RemoveKeySize(m: map<Tid, nat>, t: Tid)
    requires t in m
    ensures |m - {t}| == |m| - 1
  {
    assert (m - {t}).Keys == m.Keys - {t};
    assert |m - {t}| == |(m - {t}).Keys|;
  }

  lemma TakeFreeSplit(cmax: nat, free: seq<nat>, tmap: map<Tid, nat>, tids: seq<Tid>, t: Tid)
    requires Split(cmax, free, tmap, tids) && free != [] && t !in tmap
    ensures Split(cmax, free[1..], tmap[t := free[0]], tids[free[0] := t])
  {
    var fi := free[0];
    assert free == [fi] + free[1..];
    assert fi !in free[1..];
    forall i | 0 <= i < cmax
      ensures i in free[1..] || (tids[fi := t][i] in tmap[t := fi] && tmap[t := fi][tids[fi := t][i]] == i)
    {
      assert i in free ==> i == fi || i in free[1..];
    }
  }

  lemma TakeNewSplit(cmax: nat, free: seq<nat>, tmap: map<Tid, nat>, tids: seq<Tid>, t: Tid)
    requires Split(cmax, free, tmap, tids) && cmax < |tids| && t !in tmap
    ensures Split(cmax + 1, free, tmap[t := cmax], tids[cmax := t])
  {
  }

  lemma GiveBackSplit(cmax: nat, free: seq<nat>, tmap: map<Tid, nat>, tids: seq<Tid>, t: Tid)
    requires Split(cmax, free, tmap, tids) && t in tmap
    ensures Split(cmax, free + [tmap[t]], tmap - {t}, tids)
  {
    RemoveKeySize(tmap, t);
    var free' := free + [tmap[t]];
    forall i | 0 <= i < cmax
      ensures i in free' || (tids[i] in tmap - {t} && (tmap - {t})[tids[i]] == i)
    {
      if i in free {
        assert i in free';
      } else if tids[i] == t {
        assert free'[|free|] == i;
      }
    }
  }

  lemma TakeOwnership(s: State, t: Tid)
    requires Ownership(s) && CanTake(s) && t !in s.tmap
    ensures TakeDefined(s)
    ensures Ownership(Take(s, t))
  {
    SubscriptsInRange(s);
    if s.freeList != [] {
      TakeFreeSplit(s.cmax, s.freeList, s.tmap, s.tidList, t);
    } else {
      TakeNewSplit(s.cmax, s.freeList, s.tmap, s.tidList, t);
    }
  }

  /** All threads but `t` are where the invariant wants them. */
  ghost predicate OthersOk(s: State, t: Tid) {
    forall u :: u != t ==> ThreadOk(s, u)
  }

  lemma TakeInv(s: State, t: Tid, k: nat)
    requires Ownership(s) && Waiters(s) && OthersOk(s, t) && CanTake(s)
    requires s.sleeping == {} || |s.freeList| <= |s.notified| + k + 1
    requires t !in s.tmap && t !in s.resources && t !in s.sleeping && t !in s.notified
    ensures TakeDefined(s) && Inv(Take(s, t), k)
  {
    TakeOwnership(s, t);
    var s' := Take(s, t);
    forall u
      ensures ThreadOk(s', u)
    {
      if u != t {
        assert ThreadOk(s, u);
      }
    }
  }

  lemma SleepInv(s: State, t: Tid, k: nat)
    requires Ownership(s) && Waiters(s) && OthersOk(s, t) && !CanTake(s)
    requires t !in s.tmap && t !in s.resources && t !in s.sleeping && t !in s.notified
    ensures Inv(Sleep(s, t), k)
  {
    var s' := Sleep(s, t);
    forall u
      ensures ThreadOk(s', u)
    {
      if u != t {
        assert ThreadOk(s, u);
      }
    }
  }

  lemma GiveBackInv(s: State, t: Tid, woken: Option<Tid>, k: nat)
    requires Inv(s, k) && t in s.tmap && t !in s.resources && SignalChoice(s, woken)
    ensures Inv(GiveBack(s, t, woken), k)
  {
    assert ThreadOk(s, t);
    GiveBackSplit(s.cmax, s.freeList, s.tmap, s.tidList, t);
    var s' := GiveBack(s, t, woken);
    forall u
      ensures ThreadOk(s', u)
    {
      assert ThreadOk(s, u);
    }
  }

  /** A waiter that gets a connection consumes the signal that was meant for it, or none. */
  lemma WakeInv(s: State, t: Tid, k: nat)
    requires Inv(s, k) && (t in s.sleeping || t in s.notified)
    ensures TakeDefined(Awake(s, t))
    ensures Inv(TakeOrSleep(Awake(s, t), t), k)
  {
    hide Split;
    assert ThreadOk(s, t);
    var a := Awake(s, t);
    SubscriptsInRange(a);
    forall u | u != t
      ensures ThreadOk(a, u)
    {
      assert ThreadOk(s, u);
    }
    if CanTake(a) {
      TakeInv(a, t, k);
    } else {
      SleepInv(a, t, k);
    }
  }

  /** A step that touches neither connections nor waiters, and keeps `t` in order. */
  lemma LocalInv(s: State, s': State, t: Tid, k: nat)
    requires Inv(s, k)
    requires s' == s.(reqs := s'.reqs, hits := s'.hits, pc := s'.pc, resources := s'.resources)
    requires s'.pc == s.pc[t := PcOf(s', t)] && s'.resources - {t} == s.resources - {t}
    requires ThreadOk(s', t)
    ensures Inv(s', k)
  {
    forall u
      ensures ThreadOk(s', u)
    {
      assert ThreadOk(s, u);
      assert u != t ==> (u in s'.resources - {t} <==> u in s.resources - {t});
    }
  }

  /** A timeout takes a waiter away; if it had been signalled, one more connection may be left lying. */
  lemma TimeoutInv(s: State, t: Tid, k: nat)
    requires Inv(s, k) && (t in s.sleeping || t in s.notified)
    ensures Inv(Awake(s, t).(pc := s.pc[t := Idle]), if t in s.notified then k + 1 else k)
  {
    hide Split;
    var s' := Awake(s, t).(pc := s.pc[t := Idle]);
    assert ThreadOk(s, t);
    forall u
      ensures ThreadOk(s', u)
    {
      assert ThreadOk(s, u);
    }
  }

  lemma RequestInv(s: State, t: Tid, k: nat)
    requires Inv(s, k) && PcOf(s, t) == Idle && TakeDefined(s)
    ensures Inv(Step(s, Request(t)), k)
  {
    hide Split;
    assert ThreadOk(s, t);
    var s1 := s.(reqs := s.reqs + 1);
    var s2 := s1.(hits := s.hits + 1);
    forall u
      ensures ThreadOk(s1, u) && ThreadOk(s2, u)
    {
      assert ThreadOk(s, u);
    }
    if t in s.tmap {
      LocalInv(s, Step(s, Request(t)), t, k);
    } else if CanTake(s) {
      TakeInv(s2, t, k);
    } else {
      SleepInv(s1, t, k);
    }
  }

  /** Every step keeps the invariant, a swallowed signal counted. */
  lemma StepInv(s: State, e: Event, k: nat)
    requires Inv(s, k) && Enabled(s, e) && Defined(s, e)
    ensures Inv(Step(s, e), if e.SwallowedTimeout? then k + 1 else k)
  {
    assert ThreadOk(s, e.t);
    match e
    case Request(t) => RequestInv(s, t, k);
    case WakeNotified(t) => WakeInv(s, t, k);
    case WakeSpurious(t) => WakeInv(s, t, k);
    case Free(t, woken) => GiveBackInv(s, t, woken, k);
    case Cleanup(t, woken) => GiveBackInv(s, t, woken, k);
    case Timeout(t) => TimeoutInv(s, t, k);
    case SwallowedTimeout(t) => TimeoutInv(s, t, k);
    case _ => LocalInv(s, Step(s, e), e.t, k);
  }
}

/** What holds in every state of every run of the pool. */
module PoolTheorems {
  import opened Common
  import opened PoolModel
  import opened PoolInvariant

  /** The number of signals swallowed by timed waits among the first `n` events. */
  function Swallowed(events: seq<Event>, n: nat): nat
    requires n <= |events|
  {
    if n == 0 then 0 else Swallowed(events, n - 1) + if events[n - 1].SwallowedTimeout? then 1 else 0
  }

  lemma {:induction false} RunInv(states: seq<State>, events: seq<Event>, i: nat)
    requires IsRun(states, events) && i < |states|
    ensures Inv(states[i], Swallowed(events, i))
  {
    if i == 0 {
      InitialInv(states[0]);
    } else {
      RunInv(states, events, i - 1);
      StepInv(states[i - 1], events[i - 1], Swallowed(events, i - 1));
    }
  }

  lemma HolderOf(tmap: map<Tid, nat>, c: nat) returns (t: Tid)
    requires c in tmap.Values
    ensures t in tmap && tmap[t] == c
  {
    t :| t in tmap && tmap[t] == c;
  }

  /** The indices below cmax are split between the free list and the values of tmap. */
  lemma ConnectionsArePartitioned(states: seq<State>, events: seq<Event>, i: nat)
    requires IsRun(states, events) && i < |states|
    ensures var s := states[i];
      && s.cmax <= s.max
      && (forall c: nat :: c in s.freeList || c in s.tmap.Values <==> c < s.cmax)
      && (forall c: nat :: !(c in s.freeList && c in s.tmap.Values))
      && (forall j, k :: 0 <= j < k < |s.freeList| ==> s.freeList[j] != s.freeList[k])
      && (forall t, u :: t in s.tmap && u in s.tmap && s.tmap[t] == s.tmap[u] ==> t == u)
      && (forall t :: t in s.tmap ==> s.tmap[t] < |s.tidList| && s.tidList[s.tmap[t]] == t)
  {
    RunInv(states, events, i);
    var s := states[i];
    assert Split(s.cmax, s.freeList, s.tmap, s.tidList);
    forall c: nat
      ensures c in s.freeList || c in s.tmap.Values <==> c < s.cmax
      ensures !(c in s.freeList && c in s.tmap.Values)
    {
      if c in s.tmap.Values {
        var t := HolderOf(s.tmap, c);
      }
    }
  }

  /** Between calls a thread is a registered resource holder exactly when it holds a connection. */
  lemma RegisteredIffHolding(states: seq<State>, events: seq<Event>, i: nat, t: Tid)
    requires IsRun(states, events) && i < |states|
    requires PcOf(states[i], t) == Idle
    ensures t in states[i].resources <==> t in states[i].tmap
  {
    RunInv(states, events, i);
    assert ThreadOk(states[i], t);
  }

  /** What becomes of a thread's connection at the end of a call: it is on its way back to the pool if the
      transaction ended, the connection broke, or it was taken for this call only and no lock is to be kept;
      otherwise the thread keeps it and stays registered. */
  lemma ConnectionAfterCall(states: seq<State>, events: seq<Event>, i: nat)
    requires IsRun(states, events) && i < |events| && events[i].EndCall?
    ensures var EndCall(t, cmd, aborted, keepLock) := events[i];
      && PcOf(states[i], t).InCall? && t in states[i].tmap
      && states[i + 1].tmap == states[i].tmap && states[i + 1].freeList == states[i].freeList
      && (PcOf(states[i + 1], t) == Releasing <==>
            cmd == Release || aborted || (PcOf(states[i], t).isNew && cmd == NoChange && !keepLock))
      && (t in states[i + 1].resources <==> PcOf(states[i + 1], t) == Idle)
      && (forall woken :: PcOf(states[i + 1], t) == Releasing && Enabled(states[i + 1], Free(t, woken)) ==>
            var s' := Step(states[i + 1], Free(t, woken));
            t !in s'.tmap && s'.freeList == states[i].freeList + [states[i].tmap[t]])
  {
    RunInv(states, events, i);
    assert ThreadOk(states[i], events[i].t);
  }

  /** What a thread can do next, wherever it is: there is always something, except that a thread asleep needs a
      spurious wake-up, a signal or a timeout. */
  lemma WhatCanHappen(states: seq<State>, events: seq<Event>, i: nat, t: Tid, woken: Option<Tid>)
    requires IsRun(states, events) && i < |states| && SignalChoice(states[i], woken)
    ensures CanDo(states[i], t, woken)
  {
    hide CanDo;
    RunInv(states, events, i);
    assert ThreadOk(states[i], t);
    Moves(states[i], t, woken);
  }

  lemma Moves(s: State, t: Tid, woken: Option<Tid>)
    requires ThreadOk(s, t) && SignalChoice(s, woken)
    ensures CanDo(s, t, woken)
  {
  }

  ghost predicate CanDo(s: State, t: Tid, woken: Option<Tid>) {
    match PcOf(s, t)
    case Idle => Enabled(s, Request(t)) && (Enabled(s, ThreadExit(t)) <==> t in s.tmap)
    case Waiting =>
      && (Enabled(s, WakeNotified(t)) <==> t in s.notified) && (Enabled(s, WakeSpurious(t)) <==> t in s.sleeping)
      && (Enabled(s, Timeout(t)) <==> t in s.sleeping && s.timeoutMs != 0)
      && (Enabled(s, SwallowedTimeout(t)) <==> t in s.notified && s.timeoutMs != 0)
      && (t in s.sleeping || t in s.notified)
    case Allotted => Enabled(s, Register(t))
    case InCall(isNew) =>
      && (Enabled(s, OpenFailed(t)) <==> isNew)
      && forall cmd, aborted, keepLock :: Enabled(s, EndCall(t, cmd, aborted, keepLock))
    case Releasing => Enabled(s, Free(t, woken))
    case Exiting => Enabled(s, Cleanup(t, woken))
  }

  /** No step changes the connection, the registration or the position of another thread. */
  lemma OthersUntouched(s: State, e: Event, u: Tid)
    requires Enabled(s, e) && Defined(s, e) && u != e.t
    ensures var s' := Step(s, e);
      && (u in s'.tmap <==> u in s.tmap) && (u in s.tmap ==> s'.tmap[u] == s.tmap[u])
      && PcOf(s', u) == PcOf(s, u) && (u in s'.resources <==> u in s.resources)
  {
  }

  /** `r` is the last request of thread `t` among the first `i` events. */
  ghost predicate LastRequest(events: seq<Event>, i: nat, t: Tid, r: nat)
    requires i <= |events|
  {
    r < i && events[r] == Request(t) && forall j :: r < j < i ==> events[j] != Request(t)
  }

  /** What a thread in the middle of a call had when it made its request. */
  ghost predicate Origin(s: State, t: Tid, before: State) {
    match PcOf(s, t)
    case Waiting => t !in before.tmap
    case Allotted => t !in before.tmap
    case InCall(isNew) => isNew <==> t !in before.tmap
    case _ => true
  }

  predicate InMidCall(pc: Pc) {
    pc.Waiting? || pc.Allotted? || pc.InCall?
  }

  lemma OwnStep(s: State, e: Event, k: nat, before: State)
    requires Inv(s, k) && Enabled(s, e) && Defined(s, e) && !e.Request?
    requires InMidCall(PcOf(s, e.t)) ==> Origin(s, e.t, before)
    ensures InMidCall(PcOf(Step(s, e), e.t)) ==> InMidCall(PcOf(s, e.t)) && Origin(Step(s, e), e.t, before)
  {
    assert ThreadOk(s, e.t);
  }

  /** A thread inside a call has a new connection if and only if it had none when it made its request. */
  lemma {:induction false} NewMeansHadNone(states: seq<State>, events: seq<Event>, i: nat, t: Tid) returns (r: nat)
    requires IsRun(states, events) && i < |states| && InMidCall(PcOf(states[i], t))
    ensures LastRequest(events, i, t, r)
    ensures PcOf(states[i], t) == InCall(true) ==> t !in states[r].tmap
    ensures PcOf(states[i], t) == InCall(false) ==> t in states[r].tmap
    ensures Origin(states[i], t, states[r])
  {
    var s, e := states[i - 1], events[i - 1];
    RunInv(states, events, i - 1);
    if e == Request(t) {
      assert ThreadOk(s, t);
      return i - 1;
    }
    hide Inv, IsRun;
    if e.t != t {
      OthersUntouched(s, e, t);
      hide Step, Enabled, Defined;
      r := NewMeansHadNone(states, events, i - 1, t);
    } else {
      MidCallBefore(s, e, Swallowed(events, i - 1));
      r := NewMeansHadNone(states, events, i - 1, t);
      OwnStep(s, e, Swallowed(events, i - 1), states[r]);
    }
  }

  lemma MidCallBefore(s: State, e: Event, k: nat)
    requires Inv(s, k) && Enabled(s, e) && Defined(s, e) && !e.Request?
    ensures InMidCall(PcOf(Step(s, e), e.t)) ==> InMidCall(PcOf(s, e.t))
  {
    assert ThreadOk(s, e.t);
  }

  /** A call of `t` that ends its transaction, or its end. */
  predicate GivesUp(e: Event, t: Tid) {
    (e.EndCall? && e.t == t && (e.cmd == Release || e.aborted)) || e == ThreadExit(t)
  }

  /** A thread that keeps its connection after a call has the same one in all later calls, until one of them ends
      with a release or an abort, or the thread exits. */
  lemma {:induction false} ConnectionIsKept(states: seq<State>, events: seq<Event>, i: nat, j: nat, t: Tid)
    requires IsRun(states, events) && i <= j < |states|
    requires PcOf(states[i], t) == Idle && t in states[i].tmap
    requires forall m :: i <= m < j ==> !GivesUp(events[m], t)
    ensures t in states[j].tmap && states[j].tmap[t] == states[i].tmap[t]
    ensures PcOf(states[j], t) == Idle || PcOf(states[j], t) == InCall(false)
    decreases j
  {
    if i < j {
      ConnectionIsKept(states, events, i, j - 1, t);
      var s, e := states[j - 1], events[j - 1];
      RunInv(states, events, j - 1);
      assert ThreadOk(s, t);
      if e.t != t {
        OthersUntouched(s, e, t);
      }
    }
  }

  /** A connection that could not be opened, and that of a thread that exits, is no longer registered and goes back
      to the end of the free list. */
  lemma ConnectionGoesBack(states: seq<State>, events: seq<Event>, i: nat)
    requires IsRun(states, events) && i < |events| && (events[i].OpenFailed? || events[i].ThreadExit?)
    ensures var t, s := events[i].t, states[i + 1];
      && t !in s.resources && t in s.tmap && s.tmap == states[i].tmap && s.freeList == states[i].freeList
      && PcOf(s, t) == (if events[i].OpenFailed? then Releasing else Exiting)
      && forall woken :: SignalChoice(s, woken) ==>
           var e := if events[i].OpenFailed? then Free(t, woken) else Cleanup(t, woken);
           Enabled(s, e) && var s' := Step(s, e);
           t !in s'.tmap && s'.freeList == s.freeList + [s.tmap[t]] && PcOf(s', t) == Idle
  {
    RunInv(states, events, i);
    assert ThreadOk(states[i], events[i].t);
    GoesBack(states[i], events[i]);
    hide Inv, Step, Enabled, Defined, SignalChoice;
  }

  lemma GoesBack(s: State, e: Event)
    requires ThreadOk(s, e.t) && Enabled(s, e) && (e.OpenFailed? || e.ThreadExit?)
    ensures var t, s1 := e.t, Step(s, e);
      && t !in s1.resources && t in s1.tmap && s1.tmap == s.tmap && s1.freeList == s.freeList
      && PcOf(s1, t) == (if e.OpenFailed? then Releasing else Exiting)
      && forall woken :: SignalChoice(s1, woken) ==>
           var e' := if e.OpenFailed? then Free(t, woken) else Cleanup(t, woken);
           Enabled(s1, e') && var s2 := Step(s1, e');
           t !in s2.tmap && s2.freeList == s1.freeList + [s1.tmap[t]] && PcOf(s2, t) == Idle
  {
  }

  /** Free connections are handed out in the order in which they came back. */
  lemma FreeListIsAQueue(s: State, e: Event)
    requires Enabled(s, e) && Defined(s, e)
    ensures var s' := Step(s, e);
      || s'.freeList == s.freeList
      || (s.freeList != [] && s'.freeList == s.freeList[1..] && e.t in s'.tmap && s'.tmap[e.t] == s.freeList[0])
      || (e.t in s.tmap && s'.freeList == s.freeList + [s.tmap[e.t]] && e.t !in s'.tmap)
  {
  }

  function Requests(events: seq<Event>, n: nat): nat
    requires n <= |events|
  {
    if n == 0 then 0 else Requests(events, n - 1) + if events[n - 1].Request? then 1 else 0
  }

  /** The other statistic is the number of requests. */
  lemma {:induction false} RequestsAreCounted(states: seq<State>, events: seq<Event>, n: nat)
    requires IsRun(states, events) && n <= |events|
    ensures states[n].reqs == Requests(events, n)
  {
    if n != 0 {
      RequestsAreCounted(states, events, n - 1);
      StepRequests(states[n - 1], events[n - 1]);
      hide Step, Enabled, Defined, Initial;
    }
  }

  lemma StepRequests(s: State, e: Event)
    requires Defined(s, e)
    ensures Step(s, e).reqs == s.reqs + if e.Request? then 1 else 0
  {
  }

  /** While somebody sleeps unsignalled, no more free connections are left lying, without a signalled waiter on
      its way, than signals were swallowed. */
  lemma LostConnections(states: seq<State>, events: seq<Event>, i: nat)
    requires IsRun(states, events) && i < |states|
    requires states[i].sleeping != {}
    ensures |states[i].freeList| <= |states[i].notified| + Swallowed(events, i)
  {
    RunInv(states, events, i);
  }

  /** Unless a signal was swallowed, every free connection has a signalled waiter on its way, and that waiter
      gets a connection as soon as it runs. */
  lemma SignalsAreNeverLost(states: seq<State>, events: seq<Event>, i: nat) returns (w: Tid)
    requires IsRun(states, events) && i < |states|
    requires forall j :: 0 <= j < i ==> !events[j].SwallowedTimeout?
    requires states[i].sleeping != {}
    ensures |states[i].freeList| <= |states[i].notified|
    ensures states[i].freeList != [] ==>
      && Enabled(states[i], WakeNotified(w))
      && Defined(states[i], WakeNotified(w))
      && w in Step(states[i], WakeNotified(w)).tmap
  {
    RunInv(states, events, i);
    NoneSwallowed(events, i);
    var s := states[i];
    if s.freeList == [] {
      w := 0;
    } else {
      assert |s.notified| > 0;
      w := SomeThread(s.notified);
      StepsAreDefined(s, WakeNotified(w), 0);
    }
  }

  lemma {:induction false} NoneSwallowed(events: seq<Event>, n: nat)
    requires n <= |events| && forall j :: 0 <= j < n ==> !events[j].SwallowedTimeout?
    ensures Swallowed(events, n) == 0
  {
    if n != 0 {
      NoneSwallowed(events, n - 1);
    }
  }

  lemma {:induction false} TimeoutIsConstant(states: seq<State>, events: seq<Event>, i: nat)
    requires IsRun(states, events) && i < |states|
    ensures states[i].timeoutMs == states[0].timeoutMs
  {
    if i != 0 {
      TimeoutIsConstant(states, events, i - 1);
    }
  }

  /** In particular no wake-up is lost in a pool without a timeout. */
  lemma WithoutTimeout(states: seq<State>, events: seq<Event>, i: nat)
    requires IsRun(states, events) && i < |states|
    requires states[0].timeoutMs == 0 && states[i].sleeping != {}
    ensures |states[i].freeList| <= |states[i].notified|
  {
    forall j | 0 <= j < i
      ensures !events[j].SwallowedTimeout?
    {
      TimeoutIsConstant(states, events, j);
    }
    var w := SignalsAreNeverLost(states, events, i);
  }

  /** Some run leads from `s0` to `s`. */
  ghost predicate Reachable(s0: State, s: State) {
    exists states, events :: IsRun(states, events) && states[0] == s0 && states[|events|] == s
  }

  lemma ReachableInv(s0: State, s: State) returns (k: nat)
    requires Reachable(s0, s)
    ensures Inv(s, k)
  {
    var states, events :| IsRun(states, events) && states[0] == s0 && states[|events|] == s;
    RunInv(states, events, |events|);
    k := Swallowed(events, |events|);
  }

  /** A run goes on with any step that is enabled. */
  lemma ReachableStep(s0: State, s: State, e: Event)
    requires Reachable(s0, s) && Enabled(s, e)
    ensures Defined(s, e) && Reachable(s0, Step(s, e))
  {
    var k := ReachableInv(s0, s);
    StepsAreDefined(s, e, k);
    hide Inv, Step, Enabled, Defined, Initial;
    var states, events :| IsRun(states, events) && states[0] == s0 && states[|events|] == s;
    var states', events' := states + [Step(s, e)], events + [e];
    forall i | 0 <= i < |events'|
      ensures Enabled(states'[i], events'[i]) && Defined(states'[i], events'[i])
      ensures states'[i + 1] == Step(states'[i], events'[i])
    {
      if i < |events| {
        assert states'[i] == states[i] && states'[i + 1] == states[i + 1] && events'[i] == events[i];
      }
    }
    assert IsRun(states', events') && states'[0] == s0 && states'[|events'|] == Step(s, e);
  }

  /** Threads 1 to `n` each have a connection, and nobody else does anything. */
  ghost predicate Busy(s: State, n: nat) {
    && |s.tmap| == n && s.waitCount == 0 && s.sleeping == {} && s.notified == {}
    && forall t: Tid :: if 1 <= t <= n then t in s.tmap && PcOf(s, t) == InCall(true)
                        else t !in s.tmap && PcOf(s, t) == Idle
  }

  lemma SomethingToTake(s: State, k: nat)
    requires Inv(s, k) && |s.tmap| < s.max
    ensures CanTake(s)
  {
  }

  lemma OneMoreBusy(s: State, n: nat)
    requires CanTake(s) && TakeDefined(s) && Busy(s, n)
    ensures var t := n + 1;
      Enabled(s, Request(t)) && var s1 := Step(s, Request(t));
      Enabled(s1, Register(t)) && var s2 := Step(s1, Register(t));
      Busy(s2, n + 1) && s2.max == s.max && s2.timeoutMs == s.timeoutMs
  {
    var t := n + 1;
    assert t !in s.tmap && PcOf(s, t) == Idle;
    var s2 := Step(Step(s, Request(t)), Register(t));
    hide Step;
    forall u: Tid
      ensures if 1 <= u <= t then u in s2.tmap && PcOf(s2, u) == InCall(true)
              else u !in s2.tmap && PcOf(s2, u) == Idle
    {
      assert u != t ==> (u in s2.tmap <==> u in s.tmap) && PcOf(s2, u) == PcOf(s, u);
    }
  }

  /** As many threads as there are connections can have one each. */
  lemma {:induction false} AllBusy(s0: State, n: nat) returns (s: State)
    requires Initial(s0) && n <= s0.max
    ensures Reachable(s0, s) && Busy(s, n) && s.max == s0.max && s.timeoutMs == s0.timeoutMs
  {
    if n == 0 {
      assert IsRun([s0], []) && [s0][0] == s0;
      return s0;
    }
    s := AllBusy(s0, n - 1);
    hide Reachable, Initial, Busy;
    s := BusyNext(s0, s, n);
  }

  lemma BusyNext(s0: State, was: State, n: nat) returns (s: State)
    requires Reachable(s0, was) && 0 < n <= was.max && Busy(was, n - 1)
    ensures Reachable(s0, s) && Busy(s, n) && s.max == was.max && s.timeoutMs == was.timeoutMs
  {
    var k := ReachableInv(s0, was);
    SomethingToTake(was, k);
    SubscriptsInRange(was);
    OneMoreBusy(was, n - 1);
    hide Reachable, Inv, Busy, Step, Enabled, Defined, Ownership, CanTake, TakeDefined;
    ReachableStep(s0, was, Request(n));
    ReachableStep(s0, Step(was, Request(n)), Register(n));
    s := Step(Step(was, Request(n)), Register(n));
  }

  /** All connections are held and two more threads wait for one. */
  ghost predicate TwoWait(s: State, a: Tid, b: Tid) {
    && s.sleeping == {a, b} && s.notified == {} && s.waitCount == 2 && a != b
    && 1 in s.tmap && PcOf(s, 1) == InCall(true) && s.freeList == []
  }

  lemma TwoMore(s: State, k: nat)
    requires Inv(s, k) && Busy(s, s.max) && s.max > 0
    ensures var a, b := s.max + 1, s.max + 2;
      Enabled(s, Request(a)) && Defined(s, Request(a)) && var s1 := Step(s, Request(a));
      Enabled(s1, Request(b)) && Defined(s1, Request(b)) && var s2 := Step(s1, Request(b));
      TwoWait(s2, a, b) && s2.timeoutMs == s.timeoutMs
  {
    assert s.cmax == s.max && s.freeList == [];
    var a, b := s.max + 1, s.max + 2;
    assert PcOf(s, a) == Idle && PcOf(s, b) == Idle && PcOf(s, 1) == InCall(true) && 1 in s.tmap;
    hide Split, Inv, Busy;
    assert {} + {a} == {a} && {a} + {b} == {a, b};
  }

  /** The connection of thread 1 is given back, and the signal swallowed by thread `a`. */
  lemma OneLoses(s: State, a: Tid, b: Tid)
    requires TwoWait(s, a, b) && s.timeoutMs != 0
    ensures Enabled(s, EndCall(1, Release, false, false)) &&
      var s1 := Step(s, EndCall(1, Release, false, false));
      Enabled(s1, Free(1, Some(a))) && Defined(s1, Free(1, Some(a))) &&
      var s2 := Step(s1, Free(1, Some(a)));
      Enabled(s2, SwallowedTimeout(a)) && LostWakeup(Step(s2, SwallowedTimeout(a)))
  {
    assert {a, b} - {a} == {b} && {b} - {a} == {b} && {} + {a} == {a} && {a} - {a} == {};
  }

  /** With a timeout a wake-up can be lost in every pool: all connections are held and two threads wait; one
      connection is given back, the signal goes to a thread whose wait has just timed out, and the other sleeps
      beside a free connection. */
  lemma WakeupCanBeLost(s0: State) returns (s: State)
    requires Initial(s0) && s0.timeoutMs != 0
    ensures Reachable(s0, s) && LostWakeup(s)
  {
    var a, b := s0.max + 1, s0.max + 2;
    s := AllBusy(s0, s0.max);
    var k := ReachableInv(s0, s);
    TwoMore(s, k);
    hide Reachable, Initial, Inv, Busy, TwoWait, Step, Enabled, Defined, LostWakeup;
    ReachableStep(s0, s, Request(a));
    s := Step(s, Request(a));
    ReachableStep(s0, s, Request(b));
    s := Step(s, Request(b));
    s := LoseOne(s0, s, a, b);
  }

  lemma LoseOne(s0: State, s: State, a: Tid, b: Tid) returns (s': State)
    requires Reachable(s0, s) && TwoWait(s, a, b) && s.timeoutMs != 0
    ensures Reachable(s0, s') && LostWakeup(s')
  {
    OneLoses(s, a, b);
    hide Reachable, TwoWait, Step, Enabled, Defined, LostWakeup;
    ReachableStep(s0, s, EndCall(1, Release, false, false));
    s' := Step(s, EndCall(1, Release, false, false));
    ReachableStep(s0, s', Free(1, Some(a)));
    s' := Step(s', Free(1, Some(a)));
    ReachableStep(s0, s', SwallowedTimeout(a));
    s' := Step(s', SwallowedTimeout(a));
  }

  /** A thread sleeps unsignalled, and a connection is free that no signalled waiter will take. */
  predicate LostWakeup(s: State) {
    s.sleeping != {} && |s.freeList| > |s.notified|
  }

  /** No run of the pool from `s0` on loses a wake-up. */
  ghost predicate KeepsWakeups(s0: State) {
    forall s :: Reachable(s0, s) ==> !LostWakeup(s)
  }

  /** A pool never loses a wake-up if and only if it has no timeout. */
  lemma WhenWakeupsAreKept(s0: State)
    requires Initial(s0)
    ensures KeepsWakeups(s0) <==> s0.timeoutMs == 0
  {
    if s0.timeoutMs == 0 {
      forall s | Reachable(s0, s)
        ensures !LostWakeup(s)
      {
        var states, events :| IsRun(states, events) && states[0] == s0 && states[|events|] == s;
        if s.sleeping != {} {
          WithoutTimeout(states, events, |events|);
        }
      }
    } else {
      var s := WakeupCanBeLost(s0);
    }
  }

  /** A thread that is asleep after its own step found every one of the `max` connections held. */
  lemma SleepsOnlyWhenAllHeld(states: seq<State>, events: seq<Event>, i: nat)
    requires IsRun(states, events) && i < |events|
    requires events[i].t in states[i + 1].sleeping
    ensures |states[i + 1].tmap| == states[i + 1].max
  {
    RunInv(states, events, i);
    RunInv(states, events, i + 1);
    assert ThreadOk(states[i], events[i].t);
    assert ThreadOk(states[i + 1], events[i].t);
    assert states[i + 1].freeList == [];
  }

  function Max(a: nat, b: nat): nat {
    if a < b then b else a
  }

  /** The largest number of connections held at the same time in any of the states. */
  function Peak(states: seq<State>): nat {
    if states == [] then 0
    else Max(Peak(states[..|states| - 1]), |states[|states| - 1].tmap|)
  }

  lemma StepCmax(s: State, e: Event, k: nat)
    requires Inv(s, k) && Enabled(s, e) && Defined(s, e)
    ensures Step(s, e).cmax == Max(s.cmax, |Step(s, e).tmap|)
  {
    StepInv(s, e, k);
  }

  /** Connections are opened only on demand: cmax is the larger of its initial value and the peak. */
  lemma {:induction false} CmaxIsPeakDemand(states: seq<State>, events: seq<Event>, i: nat)
    requires IsRun(states, events) && i < |states|
    ensures states[i].cmax == Max(states[0].cmax, Peak(states[..i + 1]))
  {
    hide Inv, Step, Enabled, Defined;
    assert states[..i + 1][..i] == states[..i];
    if i == 0 {
      assert Peak(states[..0]) == 0;
    } else {
      CmaxIsPeakDemand(states, events, i - 1);
      RunInv(states, events, i - 1);
      StepCmax(states[i - 1], events[i - 1], Swallowed(events, i - 1));
    }
  }

  /** The number of requests among the first `n` events that had to enter a wait. */
  function RequestsThatWaited(states: seq<State>, events: seq<Event>, n: nat): nat
    requires n <= |events| && |states| == |events| + 1
  {
    if n == 0 then 0
    else
      RequestsThatWaited(states, events, n - 1) +
      (if events[n - 1].Request? && events[n - 1].t in states[n].sleeping then 1 else 0)
  }

  /** The two usage statistics differ by exactly the number of requests that ever waited. */
  lemma {:induction false} StatisticsCountWaits(states: seq<State>, events: seq<Event>, n: nat)
    requires IsRun(states, events) && n <= |events|
    ensures states[n].reqs - states[n].hits == RequestsThatWaited(states, events, n)
  {
    if n != 0 {
      StatisticsCountWaits(states, events, n - 1);
      RunInv(states, events, n - 1);
      assert ThreadOk(states[n - 1], events[n - 1].t);
      StepStatistics(states[n - 1], events[n - 1]);
    }
  }

  lemma StepStatistics(s: State, e: Event)
    requires Enabled(s, e) && Defined(s, e) && ThreadOk(s, e.t)
    ensures var s' := Step(s, e);
      s'.reqs - s'.hits == s.reqs - s.hits + if e.Request? && e.t in s'.sleeping then 1 else 0
  {
  }
}

/** The pool object itself.  Its methods are the locked stretches of the source's methods; each is
    proved to perform exactly one step of the model. */
module Pool {
  import opened Common
  import opened PoolModel
  import opened PoolInvariant

  class DatasourcePool {
    const max: nat
    const timeoutMs: nat
    var cmax: nat
    var freeList: seq<nat>
    var tmap: map<Tid, nat>
    var tidList: array<Tid>
    var waitCount: int
    var reqs: nat
    var hits: nat
    var valid: bool
    // the rest of the system, as far as the pool's protocol sees it
    ghost var pc: map<Tid, Pc>
    ghost var sleeping: set<Tid>
    ghost var notified: set<Tid>
    ghost var resources: set<Tid>

    ghost function Abs(): State
      reads this, tidList
    {
      State(max, timeoutMs, cmax, freeList, tmap, tidList[..], waitCount, reqs, hits, pc, sleeping, notified, resources)
    }

    /** Every connection opened has its place in the arrays of size `max`. */
    predicate InRange()
      reads this`freeList
    {
      forall i :: i in freeList ==> i < max
    }

    /** init(): `opens(i)` says whether connection `i` could be configured and opened. */
    constructor (min: nat, max: nat, timeoutMs: nat, opens: nat -> bool)
      requires 1 <= max
      ensures this.max == max && this.timeoutMs == timeoutMs && fresh(tidList)
      ensures valid <==> forall i: nat :: i < (if min == 0 then 1 else min) ==> opens(i)
      ensures InRange() <==> min <= max || exists i: nat :: i <= max && !opens(i)
      ensures freeList == UpTo(cmax) && tmap == map[]
      ensures valid ==> cmax == if min == 0 then 1 else min
      ensures valid && min <= max ==> Initial(Abs())
      ensures !valid ==> !opens(cmax)
      ensures !valid && InRange() ==> Ownership(Abs())
    {
      this.max, this.timeoutMs := max, timeoutMs;
      tidList := new Tid[max];
      cmax, freeList, tmap, waitCount, reqs, hits, valid := 0, [], map[], 0, 0, 0, false;
      pc, sleeping, notified, resources := map[], {}, {}, {};
      new;
      valid := OpenAll(min, opens);
      hide Split, UpTo;
      if cmax <= max {
        AllFree(cmax, freeList, tmap, tidList[..]);
      }
    }

    /** The body of init(): the first connection, then the others until `min` are open or one fails.  It stays
        inside the arrays if and only if `min` does, or it fails in time. */
    method OpenAll(min: nat, opens: nat -> bool) returns (ok: bool)
      requires cmax == 0 && freeList == [] && 1 <= max
      modifies this`cmax, this`freeList
      ensures freeList == UpTo(cmax) && cmax <= (if min == 0 then 1 else min)
      ensures forall i: nat :: i < cmax ==> opens(i)
      ensures ok <==> cmax == if min == 0 then 1 else min
      ensures !ok ==> !opens(cmax)
      ensures InRange() <==> cmax <= max
      ensures InRange() <==> min <= max || exists i: nat :: i <= max && !opens(i)
    {
      hide UpTo;
      ok := opens(0);
      if ok {
        freeList := freeList + [0];
        cmax := cmax + 1;
        assert freeList == UpTo(cmax);
        while cmax < min && ok
          invariant cmax == 1 || cmax <= min
          invariant freeList == UpTo(cmax)
          invariant forall i: nat :: i < cmax ==> opens(i)
          invariant !ok ==> cmax < min && !opens(cmax)
          decreases min - cmax, ok
        {
          ok := opens(cmax);
          if ok {
            freeList := freeList + [cmax];
            cmax := cmax + 1;
            assert freeList == UpTo(cmax);
          }
        }
      }
      assert forall c: nat :: c in freeList <==> c < cmax;
      assert cmax > max ==> max in freeList;
    }

    /** One pass of the loop in getDSIntern(), for a thread without a connection. */
    method TakeOrSleep(t: Tid, iter: bool) returns (conn: Option<nat>)
      requires TakeDefined(Abs())
      modifies this, tidList
      ensures var s := old(Abs());
        Abs() == PoolModel.TakeOrSleep(s.(hits := if CanTake(s) && !iter then s.hits + 1 else s.hits), t)
      ensures old(CanTake(Abs())) ==> t in tmap && conn == Some(tmap[t])
      ensures !old(CanTake(Abs())) ==> tmap == old(tmap) && conn == None
      ensures tidList == old(tidList) && valid == old(valid)
    {
      if freeList != [] {
        var fi := freeList[0];
        freeList := freeList[1..];
        tmap := tmap[t := fi];
        tidList[fi] := t;
        if !iter {
          hits := hits + 1;
        }
        pc := pc[t := Allotted];
        conn := Some(fi);
      } else if cmax < max {
        tmap := tmap[t := cmax];
        tidList[cmax] := t;
        conn := Some(cmax);
        cmax := cmax + 1;
        if !iter {
          hits := hits + 1;
        }
        pc := pc[t := Allotted];
      } else {
        waitCount := waitCount + 1;
        sleeping := sleeping + {t};
        pc := pc[t := Waiting];
        conn := None;
      }
    }

    /** getDSIntern() up to its first wait(). */
    method GetDS(t: Tid) returns (conn: Option<nat>, isNew: bool)
      requires Enabled(Abs(), Request(t)) && Defined(Abs(), Request(t))
      modifies this, tidList
      ensures Abs() == Step(old(Abs()), Request(t))
      ensures isNew <==> t !in old(tmap)
      ensures conn.Some? <==> t in tmap
      ensures conn.Some? ==> conn.value == tmap[t]
      ensures tidList == old(tidList) && valid == old(valid)
    {
      reqs := reqs + 1;
      if t in tmap {
        hits := hits + 1;
        pc := pc[t := InCall(false)];
        return Some(tmap[t]), false;
      }
      isNew := true;
      conn := TakeOrSleep(t, false);
    }

    /** The event a return from wait() stands for; `timedOut` is a non-zero rc. */
    ghost function WaitEvent(t: Tid, timedOut: bool): Event
      reads this
    {
      if timedOut then if t in notified then SwallowedTimeout(t) else Timeout(t)
      else if t in notified then WakeNotified(t) else WakeSpurious(t)
    }

    /** getDSIntern() from the return of wait(). */
    method WaitReturned(t: Tid, timedOut: bool) returns (conn: Option<nat>)
      requires Enabled(Abs(), WaitEvent(t, timedOut)) && Defined(Abs(), WaitEvent(t, timedOut))
      requires t !in tmap
      modifies this, tidList
      ensures Abs() == Step(old(Abs()), old(WaitEvent(t, timedOut)))
      ensures conn.Some? <==> t in tmap
      ensures conn.Some? ==> conn.value == tmap[t]
      ensures tidList == old(tidList) && valid == old(valid)
    {
      waitCount := waitCount - 1;
      sleeping := sleeping - {t};
      notified := notified - {t};
      if timedOut {
        pc := pc[t := Idle];
        return None;
      }
      conn := TakeOrSleep(t, true);
    }

    /** The event that giving a connection back stands for: freeDS() or cleanup(). */
    ghost function GiveBackEvent(t: Tid, woken: Option<Tid>): Event
      reads this, tidList
    {
      if PcOf(Abs(), t) == Releasing then Free(t, woken) else Cleanup(t, woken)
    }

    /** The locked part of freeDS() and the second locked part of cleanup(). */
    method GiveBack(t: Tid, ghost woken: Option<Tid>)
      requires Enabled(Abs(), GiveBackEvent(t, woken)) && Defined(Abs(), GiveBackEvent(t, woken))
      modifies this
      ensures Abs() == Step(old(Abs()), old(GiveBackEvent(t, woken)))
      ensures tidList == old(tidList) && valid == old(valid)
    {
      freeList := freeList + [tmap[t]];
      tmap := tmap - {t};
      pc := pc[t := Idle];
      if waitCount != 0 {
        // signal()
        if woken.Some? {
          sleeping := sleeping - {woken.value};
          notified := notified + {woken.value};
        }
      }
    }
  }

  const DP_MIN := 3
  const DP_MAX := 10

  /** The limits that the constructor from a configuration hash makes of the options `min` and `max`, or None if it
      raises an exception. */
  function Limits(min: Option<int>, max: Option<int>): Option<(nat, nat)> {
    var lo, hi := if min.Some? then min.value else 0, if max.Some? then max.value else 0;
    if min.Some? && lo < 0 then None
    else if max.Some? && (hi < lo || hi == 0) then None
    else Some((if lo == 0 then DP_MIN else lo, if hi == 0 then DP_MAX else hi))
  }

  /** Limits are rejected if and only if the minimum given is negative, or the maximum given is zero or below the
      minimum given or zero; otherwise those given are taken as they are, zero standing for the default. */
  lemma LimitsAccepted(min: Option<int>, max: Option<int>)
    ensures Limits(min, max) == None <==>
      || (min.Some? && min.value < 0)
      || (max.Some? && (max.value <= 0 || (min.Some? && max.value < min.value)))
    ensures Limits(min, max).Some? ==>
      && Limits(min, max).value.0 == (if min.Some? && min.value != 0 then min.value else DP_MIN)
      && Limits(min, max).value.1 == (if max.Some? then max.value else DP_MAX)
  {
  }

  /** The limits that are accepted are in order if and only if a maximum given alone is not below the default
      minimum, nor a minimum given alone above the default maximum. */
  lemma LimitsInOrder(min: Option<int>, max: Option<int>)
    requires Limits(min, max).Some?
    ensures var (lo, hi) := Limits(min, max).value;
      1 <= hi && (lo <= hi <==> ((min == None || min == Some(0)) && max.Some? ==> max.value >= DP_MIN) &&
                                (min.Some? && max == None ==> min.value <= DP_MAX))
  {
  }

  /** A maximum of two connections, given alone: the pool opens a third and writes it behind its arrays. */
  method SmallMaximum() returns (p: DatasourcePool)
    ensures Limits(None, Some(2)) == Some((3, 2))
    ensures p.max == 2 && p.valid && 2 in p.freeList && !p.InRange()
  {
    p := new DatasourcePool(3, 2, 0, i => true);
    assert p.cmax == 3;
  }
}
