/** The transaction lock of lib/ManagedDatasource.cpp as a step system over an unbounded set of threads.

    A step is one stretch of code under `ds_lock`; `tid` is the thread holding the transaction lock,
    which outlives the mutex.
  */
module LockModel {

  import opened Common

  datatype Action = Select | Exec | Begin | Commit | Rollback

  /** The command with which each action constructs its DatasourceActionHelper. */
  function CommandFor(a: Action, autocommit: bool): Command {
    match a
    case Select => NoChange
    case Exec | Begin => if autocommit then NoChange else Acquire
    case Commit | Rollback => if autocommit then NoChange else Release
  }

  datatype Pc =
    | Idle
    | Waiting(cmd: Command)
    | InAction(isNew: bool, cmd: Command)
    | Exiting

  datatype State = State(
    timeoutMs: nat,        // tl_timeout_ms; zero means to wait without a limit
    tid: Option<Tid>,
    waiting: int,
    pc: map<Tid, Pc>,
    sleeping: set<Tid>,
    notified: set<Tid>,
    resources: set<Tid>)

  datatype Event =
    | Start(t: Tid, action: Action, autocommit: bool, openOk: bool, woken: Option<Tid>)
    | WaitReturned(t: Tid, openOk: bool, woken: Option<Tid>)
    | Timeout(t: Tid)
    | SwallowedTimeout(t: Tid)   // a timed wait that used up a signal and still reports a timeout
    | End(t: Tid, inTransaction: bool, aborted: bool, keepLock: bool, woken: Option<Tid>)
    | ThreadExit(t: Tid)
    | Cleanup(t: Tid, woken: Option<Tid>)

  function PcOf(s: State, t: Tid): Pc {
    if t in s.pc then s.pc[t] else Idle
  }

  function Sleep(s: State, t: Tid, cmd: Command): State {
    s.(waiting := s.waiting + 1, sleeping := s.sleeping + {t}, pc := s.pc[t := Waiting(cmd)])
  }

  function Awake(s: State, t: Tid): State {
    s.(waiting := s.waiting - 1, sleeping := s.sleeping - {t}, notified := s.notified - {t})
  }

  predicate SignalChoice(s: State, woken: Option<Tid>) {
    match woken
    case None => s.sleeping == {} || s.waiting == 0
    case Some(w) => w in s.sleeping && s.waiting != 0
  }

  /** releaseLockIntern(). */
  function ReleaseLock(s: State, woken: Option<Tid>): State {
    var s1 := s.(tid := None);
    if s.waiting != 0 && woken.Some? then
      s1.(sleeping := s.sleeping - {woken.value}, notified := s.notified + {woken.value})
    else
      s1
  }

  /** The rest of startDBAction() once grabLock() has succeeded. */
  function Granted(s: State, t: Tid, isNew: bool, cmd: Command, openOk: bool, woken: Option<Tid>): State {
    var s1 := s.(tid := Some(t));
    if openOk then s1.(pc := s.pc[t := InAction(isNew, cmd)])
    else (if isNew then ReleaseLock(s1, woken) else s1).(pc := s.pc[t := Idle])
  }

  /** The command that ~DatasourceActionHelper() ends the action with. */
  function FinalCommand(isNew: bool, cmd: Command, inTransaction: bool, aborted: bool, keepLock: bool): Command {
    if aborted then Release
    else if isNew then
      if cmd == NoChange && inTransaction && keepLock then Acquire
      else if cmd == NoChange || !inTransaction then Release
      else cmd
    else cmd
  }

  /** endDBActionIntern(). */
  function EndAction(s: State, t: Tid, isNew: bool, cmd: Command, woken: Option<Tid>): State {
    match cmd
    case NoChange => s
    case Acquire => if isNew then s.(resources := s.resources + {t}) else s
    case Release => ReleaseLock(s.(resources := s.resources - {t}), woken)
  }

  predicate Enabled(s: State, e: Event) {
    match e
    case Start(t, _, _, _, woken) => PcOf(s, t) == Idle && SignalChoice(s, woken)
    case WaitReturned(t, _, woken) =>
      (t in s.sleeping || t in s.notified) && PcOf(s, t).Waiting? && SignalChoice(Awake(s, t), woken)
    case Timeout(t) => t in s.sleeping && s.timeoutMs != 0
    case SwallowedTimeout(t) => t in s.notified && s.timeoutMs != 0
    case End(t, _, _, _, woken) => PcOf(s, t).InAction? && SignalChoice(s, woken)
    case ThreadExit(t) => PcOf(s, t) == Idle && t in s.resources
    case Cleanup(t, woken) => PcOf(s, t) == Exiting && SignalChoice(s, woken)
  }

  function Step(s: State, e: Event): State
    requires Enabled(s, e)
  {
    match e
    case Start(t, action, autocommit, openOk, woken) =>
      var cmd := CommandFor(action, autocommit);
      if s.tid == None || s.tid == Some(t) then Granted(s, t, s.tid == None, cmd, openOk, woken)
      else Sleep(s, t, cmd)
    case WaitReturned(t, openOk, woken) =>
      var a := Awake(s, t);
      if s.tid == None then Granted(a, t, true, PcOf(s, t).cmd, openOk, woken)
      else Sleep(a, t, PcOf(s, t).cmd)
    case Timeout(t) => Awake(s, t).(pc := s.pc[t := Idle])
    case SwallowedTimeout(t) => Awake(s, t).(pc := s.pc[t := Idle])
    case End(t, inTransaction, aborted, keepLock, woken) =>
      var InAction(isNew, cmd) := PcOf(s, t);
      EndAction(s, t, isNew, FinalCommand(isNew, cmd, inTransaction, aborted, keepLock), woken)
        .(pc := s.pc[t := Idle])
    case ThreadExit(t) => s.(resources := s.resources - {t}, pc := s.pc[t := Exiting])
    case Cleanup(t, woken) => ReleaseLock(s, woken).(pc := s.pc[t := Idle])
  }

  function Initial(timeoutMs: nat): State {
    State(timeoutMs, None, 0, map[], {}, {}, {})
  }

  ghost predicate IsRun(states: seq<State>, events: seq<Event>) {
    && |states| == |events| + 1
    && states[0] == Initial(states[0].timeoutMs)
    && forall i :: 0 <= i < |events| ==>
         Enabled(states[i], events[i]) && states[i + 1] == Step(states[i], events[i])
  }
}

module LockTheorems {
  import opened Common
  import opened LockModel

  /** How a thread's position fixes whether it owns the lock and is a registered resource. */
  predicate Control(pc: Pc, owns: bool, registered: bool) {
    match pc
    case Idle => owns <==> registered
    case Waiting(_) => !owns && !registered
    case InAction(isNew, _) => owns && (registered <==> !isNew)
    case Exiting => owns && !registered
  }

  ghost predicate ThreadOk(s: State, t: Tid) {
    && Control(PcOf(s, t), s.tid == Some(t), t in s.resources)
    && (PcOf(s, t).Waiting? <==> t in s.sleeping || t in s.notified)
  }

  /** `k` is the number of signals swallowed since the lock was last held. */
  predicate Waiters(s: State, k: nat) {
    && s.sleeping !! s.notified
    && s.waiting == |s.sleeping| + |s.notified|
    && (s.sleeping != {} && s.tid == None ==> s.notified != {} || k > 0)
  }

  ghost predicate Inv(s: State, k: nat) {
    Waiters(s, k) && forall t :: ThreadOk(s, t)
  }

  lemma ReleaseWaiters(s: State, woken: Option<Tid>)
    requires s.sleeping !! s.notified && s.waiting == |s.sleeping| + |s.notified|
    requires SignalChoice(s, woken)
    ensures Waiters(ReleaseLock(s, woken), 0)
    ensures forall u ::
      (u in ReleaseLock(s, woken).sleeping || u in ReleaseLock(s, woken).notified) <==>
      (u in s.sleeping || u in s.notified)
  {
  }

  lemma GrantedWaiters(s: State, t: Tid, isNew: bool, cmd: Command, openOk: bool, woken: Option<Tid>)
    requires s.sleeping !! s.notified && s.waiting == |s.sleeping| + |s.notified|
    requires SignalChoice(s, woken)
    ensures Waiters(Granted(s, t, isNew, cmd, openOk, woken), 0)
  {
    ReleaseWaiters(s.(tid := Some(t)), woken);
  }

  lemma EndActionWaiters(s: State, t: Tid, isNew: bool, cmd: Command, woken: Option<Tid>, k: nat)
    requires Waiters(s, k) && SignalChoice(s, woken)
    ensures Waiters(EndAction(s, t, isNew, cmd, woken), k)
  {
    ReleaseWaiters(s.(resources := s.resources - {t}), woken);
  }

  lemma StepWaiters(s: State, e: Event, k: nat)
    requires Waiters(s, k) && ThreadOk(s, e.t) && Enabled(s, e)
    ensures Waiters(Step(s, e), if e.SwallowedTimeout? then k + 1 else k)
  {
    match e
    case Start(t, action, autocommit, openOk, woken) =>
      GrantedWaiters(s, t, s.tid == None, CommandFor(action, autocommit), openOk, woken);
    case WaitReturned(t, openOk, woken) =>
      GrantedWaiters(Awake(s, t), t, true, PcOf(s, t).cmd, openOk, woken);
    case End(t, inTransaction, aborted, keepLock, woken) =>
      var InAction(isNew, cmd) := PcOf(s, t);
      EndActionWaiters(s, t, isNew, FinalCommand(isNew, cmd, inTransaction, aborted, keepLock), woken, k);
    case Cleanup(_, woken) =>
      ReleaseWaiters(s, woken);
    case _ =>
  }

  lemma StepThread(s: State, e: Event)
    requires ThreadOk(s, e.t) && s.sleeping !! s.notified && Enabled(s, e)
    ensures ThreadOk(Step(s, e), e.t)
  {
  }

  lemma StepOtherThread(s: State, e: Event, u: Tid)
    requires ThreadOk(s, e.t) && ThreadOk(s, u) && Enabled(s, e) && u != e.t
    ensures ThreadOk(Step(s, e), u)
  {
  }

  lemma StepInv(s: State, e: Event, k: nat)
    requires Inv(s, k) && Enabled(s, e)
    ensures Inv(Step(s, e), if e.SwallowedTimeout? then k + 1 else k)
  {
    assert ThreadOk(s, e.t);
    StepWaiters(s, e, k);
    forall u
      ensures ThreadOk(Step(s, e), u)
    {
      assert ThreadOk(s, u);
      if u == e.t {
        StepThread(s, e);
      } else {
        StepOtherThread(s, e, u);
      }
    }
  }

  /** A step that leaves the lock free has signalled a waiter, whatever was swallowed before. */
  lemma ReleaseStep(s: State, e: Event, k: nat)
    requires Waiters(s, k) && ThreadOk(s, e.t) && Enabled(s, e)
    requires s.tid != None && Step(s, e).tid == None
    ensures Waiters(Step(s, e), 0)
  {
    match e
    case End(t, inTransaction, aborted, keepLock, woken) =>
      ReleaseWaiters(s.(resources := s.resources - {t}), woken);
    case Cleanup(_, woken) =>
      ReleaseWaiters(s, woken);
    case _ =>
  }

  /** The number of signals swallowed by timed waits in the first `n` events since the lock was last held. */
  function Swallowed(states: seq<State>, events: seq<Event>, n: nat): nat
    requires |states| == |events| + 1 && n <= |events|
  {
    if n == 0 || states[n].tid != None || states[n - 1].tid != None then 0
    else Swallowed(states, events, n - 1) + if events[n - 1].SwallowedTimeout? then 1 else 0
  }

  lemma {:induction false} NoneSwallowed(states: seq<State>, events: seq<Event>, n: nat)
    requires |states| == |events| + 1 && n <= |events|
    requires forall j :: 0 <= j < n ==> !events[j].SwallowedTimeout?
    ensures Swallowed(states, events, n) == 0
  {
    if n != 0 {
      NoneSwallowed(states, events, n - 1);
    }
  }

  lemma {:induction false} RunInv(states: seq<State>, events: seq<Event>, i: nat)
    requires IsRun(states, events) && i < |states|
    ensures Inv(states[i], Swallowed(states, events, i))
  {
    if i != 0 {
      RunInv(states, events, i - 1);
      var s, e, k := states[i - 1], events[i - 1], Swallowed(states, events, i - 1);
      StepInv(s, e, k);
      assert ThreadOk(s, e.t);
      if s.tid != None && states[i].tid == None {
        ReleaseStep(s, e, k);
      }
    }
  }

  /** Two threads are never inside an action, or winding up after one, at the same time. */
  lemma MutualExclusion(states: seq<State>, events: seq<Event>, i: nat, t: Tid, u: Tid)
    requires IsRun(states, events) && i < |states|
    requires PcOf(states[i], t).InAction? || PcOf(states[i], t).Exiting?
    requires PcOf(states[i], u).InAction? || PcOf(states[i], u).Exiting?
    ensures t == u && states[i].tid == Some(t)
  {
    RunInv(states, events, i);
    assert ThreadOk(states[i], t) && ThreadOk(states[i], u);
  }

  /** Between actions a thread owns the lock exactly when it is registered as a thread resource. */
  lemma OwnsIffRegistered(states: seq<State>, events: seq<Event>, i: nat, t: Tid)
    requires IsRun(states, events) && i < |states|
    requires PcOf(states[i], t) == Idle
    ensures states[i].tid == Some(t) <==> t in states[i].resources
  {
    RunInv(states, events, i);
    assert ThreadOk(states[i], t);
  }

  /** No step changes another thread's ownership, registration or position. */
  lemma OthersUntouched(states: seq<State>, events: seq<Event>, i: nat, u: Tid)
    requires IsRun(states, events) && i < |events|
    requires u != events[i].t
    ensures states[i + 1].tid == Some(u) <==> states[i].tid == Some(u)
    ensures u in states[i + 1].resources <==> u in states[i].resources
    ensures PcOf(states[i + 1], u) == PcOf(states[i], u)
  {
    RunInv(states, events, i);
    assert ThreadOk(states[i], events[i].t);
  }

  /** Who owns the lock when an action is over, by what the action was and how it went. */
  lemma OwnershipAfterAction(states: seq<State>, events: seq<Event>, i: nat)
    requires IsRun(states, events) && i < |events| && events[i].End?
    ensures var End(t, inTransaction, aborted, keepLock, _) := events[i];
      var InAction(isNew, cmd) := PcOf(states[i], t);
      && PcOf(states[i + 1], t) == Idle
      && (t in states[i + 1].resources <==> states[i + 1].tid == Some(t))
      && (states[i + 1].tid == Some(t) <==>
            && !aborted
            && (if isNew then inTransaction && (cmd == Acquire || (cmd == NoChange && keepLock))
                else cmd != Release))
      && (states[i + 1].tid != Some(t) ==> states[i + 1].tid == None)
  {
    RunInv(states, events, i);
    RunInv(states, events, i + 1);
    assert ThreadOk(states[i], events[i].t);
    assert ThreadOk(states[i + 1], events[i].t);
  }

  /** What a thread can do next, wherever it is. */
  lemma WhatCanHappen(states: seq<State>, events: seq<Event>, i: nat, t: Tid, woken: Option<Tid>)
    requires IsRun(states, events) && i < |states| && SignalChoice(states[i], woken)
    ensures var s := states[i];
      match PcOf(s, t)
      case Idle =>
        && (forall action, autocommit, openOk :: Enabled(s, Start(t, action, autocommit, openOk, woken)))
        && (Enabled(s, ThreadExit(t)) <==> s.tid == Some(t))
      case Waiting(_) =>
        && (t in s.sleeping || t in s.notified)
        && (Enabled(s, Timeout(t)) <==> t in s.sleeping && s.timeoutMs != 0)
        && (Enabled(s, SwallowedTimeout(t)) <==> t in s.notified && s.timeoutMs != 0)
        && (SignalChoice(Awake(s, t), woken) ==> forall openOk :: Enabled(s, WaitReturned(t, openOk, woken)))
      case InAction(_, _) =>
        forall inTransaction, aborted, keepLock :: Enabled(s, End(t, inTransaction, aborted, keepLock, woken))
      case Exiting => Enabled(s, Cleanup(t, woken))
  {
    RunInv(states, events, i);
    assert ThreadOk(states[i], t);
  }

  /** `r` is where thread `t` started its last action before event `i`. */
  ghost predicate LastStart(events: seq<Event>, i: nat, t: Tid, r: nat)
    requires i <= |events|
  {
    && r < i && events[r].Start? && events[r].t == t
    && forall j :: r < j < i ==> !(events[j].Start? && events[j].t == t)
  }

  /** What is recorded of an action in progress, by how it was started. */
  ghost predicate Recorded(pc: Pc, start: Event, owned: bool)
    requires start.Start?
  {
    var cmd := CommandFor(start.action, start.autocommit);
    match pc
    case Waiting(c) => c == cmd && !owned
    case InAction(isNew, c) => c == cmd && (isNew <==> !owned)
    case _ => true
  }

  predicate InProgress(pc: Pc) {
    pc.Waiting? || pc.InAction?
  }

  lemma RecordedStep(s: State, e: Event, start: Event, owned: bool)
    requires ThreadOk(s, e.t) && Enabled(s, e) && !e.Start? && start.Start?
    ensures InProgress(PcOf(Step(s, e), e.t)) ==> InProgress(PcOf(s, e.t))
    ensures Recorded(PcOf(s, e.t), start, owned) && InProgress(PcOf(s, e.t)) ==>
      Recorded(PcOf(Step(s, e), e.t), start, owned)
  {
  }

  lemma StartRecorded(s: State, e: Event)
    requires Enabled(s, e) && e.Start?
    ensures Recorded(PcOf(Step(s, e), e.t), e, s.tid == Some(e.t))
  {
  }

  /** An action in progress, through any waits, is the one that the thread started last. */
  lemma {:induction false} ActionInProgress(states: seq<State>, events: seq<Event>, i: nat, t: Tid) returns (r: nat)
    requires IsRun(states, events) && i < |states| && InProgress(PcOf(states[i], t))
    ensures LastStart(events, i, t, r)
    ensures Recorded(PcOf(states[i], t), events[r], states[r].tid == Some(t))
  {
    var s, e := states[i - 1], events[i - 1];
    RunInv(states, events, i - 1);
    assert ThreadOk(s, e.t);
    if e.t != t {
      OthersUntouched(states, events, i - 1, t);
      r := ActionInProgress(states, events, i - 1, t);
    } else if e.Start? {
      StartRecorded(s, e);
      r := i - 1;
    } else {
      RecordedStep(s, e, Start(t, Select, true, true, None), true);
      r := ActionInProgress(states, events, i - 1, t);
      RecordedStep(s, e, events[r], states[r].tid == Some(t));
    }
  }

  /** What each action does to the lock, by the action that was started, whether the thread owned the lock then, and
      how the action went: commit and rollback free it, a lost connection does too, exec and begin acquire it for
      a transaction, and a select leaves it as it was, unless it started a transaction that keeps it.  With
      autocommit every action is like a select. */
  lemma LockAfterAction(states: seq<State>, events: seq<Event>, i: nat, r: nat)
    requires IsRun(states, events) && i < |events| && events[i].End? && LastStart(events, i, events[i].t, r)
    ensures var End(t, inTransaction, aborted, keepLock, _) := events[i];
      var Start(_, action, autocommit, _, _) := events[r];
      var owned, owns := states[r].tid == Some(t), states[i + 1].tid == Some(t);
      && (aborted ==> states[i + 1].tid == None)
      && (!autocommit && (action == Commit || action == Rollback) ==> states[i + 1].tid == None)
      && (!autocommit && (action == Exec || action == Begin) && !aborted ==> (owns <==> owned || inTransaction))
      && ((autocommit || action == Select) && !aborted ==> (owns <==> owned || (inTransaction && keepLock)))
      && (owns <==> t in states[i + 1].resources) && (!owns ==> states[i + 1].tid == None)
  {
    var t := events[i].t;
    var q := ActionInProgress(states, events, i, t);
    assert q == r;
    OwnershipAfterAction(states, events, i);
  }

  /** An action starts at once if the lock is free or the thread's own and the datasource can be opened; if it
      cannot, the lock is as it was; if another thread has the lock, the thread waits. */
  lemma ActionStarts(states: seq<State>, events: seq<Event>, i: nat)
    requires IsRun(states, events) && i < |events| && events[i].Start?
    ensures var t, s, s' := events[i].t, states[i], states[i + 1];
      if s.tid != None && s.tid != Some(t) then t in s'.sleeping && s'.tid == s.tid
      else if events[i].openOk then PcOf(s', t).InAction? && s'.tid == Some(t)
      else PcOf(s', t) == Idle && s'.tid == s.tid
  {
    RunInv(states, events, i);
    assert ThreadOk(states[i], events[i].t);
  }

  /** A thread that exits is no longer registered, and its lock is freed. */
  lemma LockGoesBack(states: seq<State>, events: seq<Event>, i: nat, woken: Option<Tid>)
    requires IsRun(states, events) && i < |events| && events[i].ThreadExit? && SignalChoice(states[i + 1], woken)
    ensures var t, s := events[i].t, states[i + 1];
      && t !in s.resources && s.tid == Some(t)
      && Enabled(s, Cleanup(t, woken)) && Step(s, Cleanup(t, woken)).tid == None
  {
    RunInv(states, events, i);
    assert ThreadOk(states[i], events[i].t);
  }

  /** The lock is free, a thread sleeps unsignalled, and no signalled waiter will take the lock. */
  predicate LostWakeup(s: State) {
    s.tid == None && s.sleeping != {} && s.notified == {}
  }

  /** A wake-up is lost only if a signal was swallowed since the lock was last held. */
  lemma LostMeansSwallowed(states: seq<State>, events: seq<Event>, i: nat)
    requires IsRun(states, events) && i < |states| && LostWakeup(states[i])
    ensures Swallowed(states, events, i) > 0
  {
    RunInv(states, events, i);
  }

  /** Otherwise some signalled waiter is on its way to a free lock, and gets it as soon as it runs. */
  lemma SignalsAreNeverLost(states: seq<State>, events: seq<Event>, i: nat) returns (e: Event)
    requires IsRun(states, events) && i < |states|
    requires Swallowed(states, events, i) == 0
    requires states[i].sleeping != {} && states[i].tid == None
    ensures e.WaitReturned? && e.t in states[i].notified && Enabled(states[i], e)
    ensures Step(states[i], e).tid == Some(e.t)
  {
    RunInv(states, events, i);
    var w := SomeThread(states[i].notified);
    var next := SomeThread(states[i].sleeping);
    assert ThreadOk(states[i], w);
    e := WaitReturned(w, true, Some(next));
  }

  lemma {:induction false} TimeoutIsConstant(states: seq<State>, events: seq<Event>, i: nat)
    requires IsRun(states, events) && i < |states|
    ensures states[i].timeoutMs == states[0].timeoutMs
  {
    if i != 0 {
      TimeoutIsConstant(states, events, i - 1);
    }
  }

  /** In particular none is lost without a timeout. */
  lemma WithoutTimeout(states: seq<State>, events: seq<Event>, i: nat)
    requires IsRun(states, events) && i < |states| && states[0].timeoutMs == 0
    ensures !LostWakeup(states[i])
  {
    forall j | 0 <= j < i
      ensures !events[j].SwallowedTimeout?
    {
      TimeoutIsConstant(states, events, j);
    }
    NoneSwallowed(states, events, i);
    RunInv(states, events, i);
  }

  /** With a timeout one can be: thread 1 ends its transaction, the signal goes to thread 2, whose wait has just
      timed out, and thread 3 sleeps although nobody has the lock. */
  lemma WakeupCanBeLost(timeoutMs: nat) returns (states: seq<State>, events: seq<Event>)
    requires timeoutMs != 0
    ensures IsRun(states, events) && states[0].timeoutMs == timeoutMs
    ensures LostWakeup(states[|events|])
  {
    events := [Start(1, Select, true, true, None), Start(2, Select, true, true, None),
               Start(3, Select, true, true, Some(2)), End(1, false, false, false, Some(2)), SwallowedTimeout(2)];
    states := seq(6, i requires 0 <= i < 6 => LostState(timeoutMs, i));
    forall i | 0 <= i < |events|
      ensures Enabled(states[i], events[i]) && states[i + 1] == Step(states[i], events[i])
    {
      LosingStep(timeoutMs, i, events[i]);
    }
  }

  /** No run with this timeout loses a wake-up. */
  ghost predicate KeepsWakeups(timeoutMs: nat) {
    forall states, events :: IsRun(states, events) && states[0] == Initial(timeoutMs) ==> !LostWakeup(states[|events|])
  }

  /** The lock never loses a wake-up if and only if there is no timeout. */
  lemma WhenWakeupsAreKept(timeoutMs: nat)
    ensures KeepsWakeups(timeoutMs) <==> timeoutMs == 0
  {
    if timeoutMs == 0 {
      forall states: seq<State>, events | IsRun(states, events) && states[0] == Initial(0)
        ensures !LostWakeup(states[|events|])
      {
        WithoutTimeout(states, events, |events|);
      }
    } else {
      var states, events := WakeupCanBeLost(timeoutMs);
    }
  }

  /** The states of that run. */
  function LostState(timeoutMs: nat, n: nat): State {
    var w := Waiting(NoChange);
    var pc := map[1 := InAction(true, NoChange)];
    match n
    case 0 => Initial(timeoutMs)
    case 1 => State(timeoutMs, Some(1), 0, pc, {}, {}, {})
    case 2 => State(timeoutMs, Some(1), 1, pc[2 := w], {2}, {}, {})
    case 3 => State(timeoutMs, Some(1), 2, pc[2 := w][3 := w], {2, 3}, {}, {})
    case 4 => State(timeoutMs, None, 2, pc[2 := w][3 := w][1 := Idle], {3}, {2}, {})
    case _ => State(timeoutMs, None, 1, pc[2 := w][3 := w][1 := Idle][2 := Idle], {3}, {}, {})
  }

  lemma LosingStep(timeoutMs: nat, n: nat, e: Event)
    requires timeoutMs != 0 && n < 5
    requires e == [Start(1, Select, true, true, None), Start(2, Select, true, true, None),
                   Start(3, Select, true, true, Some(2)), End(1, false, false, false, Some(2)), SwallowedTimeout(2)][n]
    ensures Enabled(LostState(timeoutMs, n), e)
    ensures LostState(timeoutMs, n + 1) == Step(LostState(timeoutMs, n), e)
  {
    match n
    case 0 =>
    case 1 => assert {} + {2} == {2};
    case 2 => assert {2} + {3} == {2, 3};
    case 3 => assert {2, 3} - {2} == {3} && {} + {2} == {2};
    case 4 => assert {3} - {2} == {3} && {2} - {2} == {};
  }
}

/** The managed datasource: its locked stretches perform exactly the steps of the model. */
module Managed {
  import opened Common
  import opened LockModel

  class ManagedDatasource {
    const timeoutMs: nat
    var tid: Option<Tid>
    var waiting: int
    ghost var pc: map<Tid, Pc>
    ghost var sleeping: set<Tid>
    ghost var notified: set<Tid>
    ghost var resources: set<Tid>

    ghost function Abs(): State
      reads this
    {
      State(timeoutMs, tid, waiting, pc, sleeping, notified, resources)
    }

    constructor (timeoutMs: nat)
      ensures Abs() == Initial(timeoutMs)
    {
      this.timeoutMs := timeoutMs;
      tid, waiting := None, 0;
      pc, sleeping, notified, resources := map[], {}, {}, {};
    }

    method ReleaseLockIntern(ghost woken: Option<Tid>)
      modifies this
      ensures Abs() == ReleaseLock(old(Abs()), woken)
    {
      tid := None;
      if waiting != 0 {
        // cond.signal()
        if woken.Some? {
          sleeping := sleeping - {woken.value};
          notified := notified + {woken.value};
        }
      }
    }

    /** startDBAction() up to the first wait in grabLockIntern(); `ok` is a zero return. */
    method StartDBAction(t: Tid, ghost action: Action, ghost autocommit: bool, openOk: bool, ghost woken: Option<Tid>)
      returns (ok: bool, isNew: bool)
      requires Enabled(Abs(), Start(t, action, autocommit, openOk, woken))
      modifies this
      ensures Abs() == Step(old(Abs()), Start(t, action, autocommit, openOk, woken))
      ensures isNew <==> old(tid) != Some(t)
      ensures ok <==> PcOf(Abs(), t).InAction?
    {
      ghost var cmd := CommandFor(action, autocommit);
      isNew := tid != Some(t);
      if isNew && tid != None {
        waiting := waiting + 1;
        sleeping := sleeping + {t};
        pc := pc[t := Waiting(cmd)];
        return false, isNew;
      }
      tid := Some(t);
      ok := Opened(t, isNew, cmd, openOk, woken);
    }

    /** startDBAction() with the lock granted. */
    method Opened(t: Tid, isNew: bool, ghost cmd: Command, openOk: bool, ghost woken: Option<Tid>) returns (ok: bool)
      requires tid == Some(t)
      modifies this
      ensures Abs() == Granted(old(Abs()), t, isNew, cmd, openOk, woken)
      ensures ok == openOk
    {
      if !openOk {
        if isNew {
          ReleaseLockIntern(woken);
        }
        pc := pc[t := Idle];
        return false;
      }
      pc := pc[t := InAction(isNew, cmd)];
      ok := true;
    }

    /** The event that a return from the wait stands for. */
    ghost function WaitEvent(t: Tid, timedOut: bool, openOk: bool, woken: Option<Tid>): Event
      reads this
    {
      if timedOut then if t in notified then SwallowedTimeout(t) else Timeout(t)
      else WaitReturned(t, openOk, woken)
    }

    /** grabLockIntern() from the return of its wait, and the rest of startDBAction(). */
    method WaitReturns(t: Tid, timedOut: bool, openOk: bool, ghost woken: Option<Tid>) returns (ok: bool)
      requires Enabled(Abs(), WaitEvent(t, timedOut, openOk, woken))
      modifies this
      ensures Abs() == Step(old(Abs()), old(WaitEvent(t, timedOut, openOk, woken)))
      ensures ok <==> PcOf(Abs(), t).InAction?
    {
      ghost var cmd := if PcOf(Abs(), t).Waiting? then PcOf(Abs(), t).cmd else NoChange;
      waiting := waiting - 1;
      sleeping := sleeping - {t};
      notified := notified - {t};
      if timedOut {
        pc := pc[t := Idle];
        return false;
      }
      if tid != None {
        waiting := waiting + 1;
        sleeping := sleeping + {t};
        pc := pc[t := Waiting(cmd)];
        return false;
      }
      tid := Some(t);
      ok := Opened(t, true, cmd, openOk, woken);
    }

    /** ~DatasourceActionHelper() and endDBActionIntern(). */
    method EndDBAction(t: Tid, isNew: bool, command: Command, inTransaction: bool, aborted: bool, keepLock: bool,
                       ghost woken: Option<Tid>)
      returns (owns: bool)
      requires Enabled(Abs(), End(t, inTransaction, aborted, keepLock, woken))
      requires PcOf(Abs(), t) == InAction(isNew, command)
      modifies this
      ensures Abs() == Step(old(Abs()), End(t, inTransaction, aborted, keepLock, woken))
      ensures owns <==> tid == Some(t)
    {
      var cmd := command;
      if aborted {
        cmd := Release;
      } else if isNew {
        if cmd == NoChange && inTransaction && keepLock {
          cmd := Acquire;
        } else if cmd == NoChange || !inTransaction {
          cmd := Release;
        }
      }
      pc := pc[t := Idle];
      if cmd == Acquire {
        if isNew {
          resources := resources + {t};
        }
      } else if cmd != NoChange {
        resources := resources - {t};
        ReleaseLockIntern(woken);
      }
      owns := tid == Some(t);
    }
  }
}
