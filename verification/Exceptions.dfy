/** Exception sinks and the thread's count of active exceptions, after lib/ExceptionSink.cpp. */
module SinkSpec {

  /** A sink: its exceptions up to the one that `tail` points at, what is linked behind that one, their count,
      and its flags. */
  datatype Sink<T> = Sink(list: seq<T>, rest: seq<T>, count: nat, managed: bool, threadExit: bool)

  /** Everything that can be reached from `head`. */
  function Content<T>(s: Sink<T>): seq<T> {
    s.list + s.rest
  }

  /** The tail is the end of the list, so that the list can grow there. */
  predicate WellFormed<T>(s: Sink<T>) {
    s.rest == []
  }

  function Fresh<T>(): Sink<T> {
    Sink([], [], 0, false, false)
  }

  /** insert() of the first exception of the chain `es`: the tail is that exception, whatever follows it, and
      what was linked behind the old tail is cut off. */
  function Inserted<T>(s: Sink<T>, es: seq<T>): Sink<T>
    requires es != []
  {
    s.(list := s.list + [es[0]], rest := es[1..], count := if s.managed then s.count else s.count + 1)
  }

  /** assimilate(): the sink that takes over and the one that is emptied. */
  function Assimilated<T>(s: Sink<T>, x: Sink<T>): (Sink<T>, Sink<T>) {
    var s1, x1 := s.(threadExit := s.threadExit || x.threadExit), x.(threadExit := false);
    if x.list == [] then (s1, x1)
    else
      var moved := if x.managed then 0 else x.count;
      (s1.(list := s.list + x.list, rest := x.rest, count := s.count + moved),
       x1.(list := [], rest := [], count := x.count - moved))
  }

  function Caught<T>(s: Sink<T>): Sink<T> {
    s.(list := [], rest := [], count := 0)
  }

  function Cleared<T>(s: Sink<T>): Sink<T> {
    s.(list := [], rest := [], count := 0, threadExit := false)
  }

  /** raiseThreadExit(). */
  function Exited<T>(s: Sink<T>): Sink<T> {
    s.(threadExit := true)
  }

  function Marked<T>(s: Sink<T>): Sink<T> {
    if s.managed then s else s.(managed := true, count := 0)
  }

  /** What the assertions of the source take for granted: an externally managed sink counts nothing, any
      other counts its exceptions. */
  predicate CountOk<T>(s: Sink<T>) {
    s.count == if s.managed then 0 else |Content(s)|
  }

  predicate Good<T>(s: Sink<T>) {
    WellFormed(s) && CountOk(s)
  }

  /** Catching, clearing and marking keep a sink in order. */
  lemma OperationsKeepCounts<T>(s: Sink<T>)
    requires Good(s)
    ensures Good(Caught(s)) && Good(Cleared(s)) && Good(Marked(s))
  {
  }

  /** Clearing leaves a sink as if it were new, apart from who manages it; catching leaves the request for the end of
      the thread as well. */
  lemma ClearedIsNew<T>(s: Sink<T>)
    ensures Cleared(s) == Fresh<T>().(managed := s.managed)
    ensures Caught(s) == Cleared(s).(threadExit := s.threadExit)
  {
  }

  /** Inserting keeps the list well-formed if and only if nothing follows the exception, and the count right
      if and only if nothing follows it or nothing is counted. */
  lemma InsertKeeps<T>(s: Sink<T>, es: seq<T>)
    requires Good(s) && es != []
    ensures WellFormed(Inserted(s, es)) <==> |es| == 1
    ensures CountOk(Inserted(s, es)) <==> s.managed || |es| == 1
  {
  }

  /** Assimilation keeps a sink in order exactly when there is nothing to take over or both sinks are managed
      alike. */
  lemma AssimilationKeepsCounts<T>(s: Sink<T>, x: Sink<T>)
    requires Good(s) && Good(x)
    ensures var (s', x') := Assimilated(s, x);
      && Good(x') && WellFormed(s')
      && (CountOk(s') <==> x.list == [] || s.managed == x.managed)
  {
    assert |s.list + x.list| == |s.list| + |x.list|;
  }

  /** No exception gets lost in an insertion or an assimilation if and only if the list was well-formed. */
  lemma NothingIsLost<T>(s: Sink<T>, es: seq<T>, x: Sink<T>)
    requires es != [] && x.list != []
    ensures Content(Inserted(s, es)) == Content(s) + es <==> WellFormed(s)
    ensures Content(Assimilated(s, x).0) == Content(s) + Content(x) <==> WellFormed(s)
  {
    assert [es[0]] + es[1..] == es;
    LostOrNot(s.list, s.rest, es, Content(Inserted(s, es)));
    LostOrNot(s.list, s.rest, Content(x), Content(Assimilated(s, x).0));
  }

  lemma LostOrNot<T>(list: seq<T>, rest: seq<T>, more: seq<T>, content: seq<T>)
    requires content == list + more
    ensures content == list + rest + more <==> rest == []
  {
    assert |list + more| == |list| + |more|;
    assert |list + rest + more| == |list| + |rest| + |more|;
    if rest == [] {
      assert list + rest == list;
    }
  }

  /** The sinks of a thread and its counter of active exceptions. */
  datatype World<T> = World(sinks: seq<Sink<T>>, active: int)

  /** Rethrow inserts a copy of an exception that was caught, with copies of all that follow it. */
  datatype Event<T> =
    | New
    | Raise(k: nat, e: T)
    | Rethrow(k: nat, es: seq<T>)
    | Exit(k: nat)
    | Assimilate(k: nat, from: nat)
    | Catch(k: nat)
    | Clear(k: nat)
    | Mark(k: nat)

  predicate Enabled<T>(w: World<T>, e: Event<T>) {
    match e
    case New => true
    case Raise(k, _) => k < |w.sinks|
    case Rethrow(k, es) => k < |w.sinks| && es != []
    case Exit(k) => k < |w.sinks|
    case Assimilate(k, j) => k < |w.sinks| && j < |w.sinks| && k != j
    case Catch(k) => k < |w.sinks|
    case Clear(k) => k < |w.sinks|
    case Mark(k) => k < |w.sinks|
  }

  function InsertStep<T>(w: World<T>, k: nat, es: seq<T>): World<T>
    requires k < |w.sinks| && es != []
  {
    World(w.sinks[k := Inserted(w.sinks[k], es)], if w.sinks[k].managed then w.active else w.active + 1)
  }

  /** The counter moves as inc_active_exceptions() moves it: with the sink's own count. */
  function Step<T>(w: World<T>, e: Event<T>): World<T>
    requires Enabled(w, e)
  {
    match e
    case New => w.(sinks := w.sinks + [Fresh()])
    case Raise(k, x) => InsertStep(w, k, [x])
    case Rethrow(k, es) => InsertStep(w, k, es)
    case Exit(k) => w.(sinks := w.sinks[k := Exited(w.sinks[k])])
    case Assimilate(k, j) =>
      var (s, x) := Assimilated(w.sinks[k], w.sinks[j]);
      w.(sinks := w.sinks[k := s][j := x])
    case Catch(k) => World(w.sinks[k := Caught(w.sinks[k])], w.active - w.sinks[k].count)
    case Clear(k) => World(w.sinks[k := Cleared(w.sinks[k])], w.active - w.sinks[k].count)
    case Mark(k) =>
      World(w.sinks[k := Marked(w.sinks[k])],
            if w.sinks[k].managed then w.active else w.active - w.sinks[k].count)
  }

  lemma IsAssimilation<T>(w: World<T>, w': World<T>, k: nat, j: nat)
    requires |w.sinks| == |w'.sinks| && w.active == w'.active && Enabled(w, Assimilate(k, j))
    requires (w'.sinks[k], w'.sinks[j]) == Assimilated(w.sinks[k], w.sinks[j])
    requires forall i :: 0 <= i < |w.sinks| && i != k && i != j ==> w'.sinks[i] == w.sinks[i]
    ensures w' == Step(w, Assimilate(k, j))
  {
    hide Assimilated;
  }

  lemma IsInsertion<T>(w: World<T>, w': World<T>, k: nat, es: seq<T>)
    requires |w.sinks| == |w'.sinks| && k < |w.sinks| && es != []
    requires w'.active == w.active + if w.sinks[k].managed then 0 else 1
    requires w'.sinks[k] == Inserted(w.sinks[k], es)
    requires forall i :: 0 <= i < |w.sinks| && i != k ==> w'.sinks[i] == w.sinks[i]
    ensures w' == InsertStep(w, k, es)
  {
    hide Inserted;
  }

  function Total<T>(sinks: seq<Sink<T>>): nat {
    if sinks == [] then 0 else Total(sinks[..|sinks| - 1]) + sinks[|sinks| - 1].count
  }

  lemma {:induction false} TotalUpdate<T>(sinks: seq<Sink<T>>, k: nat, s: Sink<T>)
    requires k < |sinks|
    ensures Total(sinks[k := s]) == Total(sinks) - sinks[k].count + s.count
  {
    var n := |sinks| - 1;
    if k < n {
      assert sinks[k := s][..n] == sinks[..n][k := s];
      TotalUpdate(sinks[..n], k, s);
    } else {
      assert sinks[k := s][..n] == sinks[..n];
    }
  }

  lemma StepBalance<T>(w: World<T>, e: Event<T>)
    requires Enabled(w, e) && w.active == Total(w.sinks)
    ensures Step(w, e).active == Total(Step(w, e).sinks)
  {
    match e
    case New => assert (w.sinks + [Fresh()])[..|w.sinks|] == w.sinks;
    case Raise(k, x) => TotalUpdate(w.sinks, k, Inserted(w.sinks[k], [x]));
    case Rethrow(k, es) => TotalUpdate(w.sinks, k, Inserted(w.sinks[k], es));
    case Exit(k) => TotalUpdate(w.sinks, k, Exited(w.sinks[k]));
    case Assimilate(k, j) =>
      var (s, x) := Assimilated(w.sinks[k], w.sinks[j]);
      TotalUpdate(w.sinks, k, s);
      TotalUpdate(w.sinks[k := s], j, x);
    case Catch(k) => TotalUpdate(w.sinks, k, Caught(w.sinks[k]));
    case Clear(k) => TotalUpdate(w.sinks, k, Cleared(w.sinks[k]));
    case Mark(k) => TotalUpdate(w.sinks, k, Marked(w.sinks[k]));
  }

  ghost predicate IsRun<T>(worlds: seq<World<T>>, events: seq<Event<T>>) {
    && |worlds| == |events| + 1
    && worlds[0] == World([], 0)
    && forall i :: 0 <= i < |events| ==>
         Enabled(worlds[i], events[i]) && worlds[i + 1] == Step(worlds[i], events[i])
  }

  /** The thread's counter is always the sum of its sinks' counts, whatever the operations were. */
  lemma {:induction false} CounterIsTotal<T>(worlds: seq<World<T>>, events: seq<Event<T>>, i: nat)
    requires IsRun(worlds, events) && i < |worlds|
    ensures worlds[i].active == Total(worlds[i].sinks)
  {
    if i != 0 {
      CounterIsTotal(worlds, events, i - 1);
      StepBalance(worlds[i - 1], events[i - 1]);
    }
  }

  predicate AllGood<T>(w: World<T>) {
    forall k :: 0 <= k < |w.sinks| ==> Good(w.sinks[k])
  }

  /** What is rethrown is a single exception, and what is taken over comes from a sink managed alike. */
  predicate Compatible<T>(w: World<T>, e: Event<T>) {
    Enabled(w, e) ==>
      match e
      case Rethrow(_, es) => |es| == 1
      case Assimilate(k, j) => w.sinks[j].list == [] || w.sinks[k].managed == w.sinks[j].managed
      case _ => true
  }

  /** One operation keeps all sinks in order if and only if it is compatible. */
  lemma StepKeepsOrder<T>(w: World<T>, e: Event<T>)
    requires AllGood(w) && Enabled(w, e)
    ensures AllGood(Step(w, e)) <==> Compatible(w, e)
  {
    var w' := Step(w, e);
    if e.Rethrow? {
      InsertKeeps(w.sinks[e.k], e.es);
      assert AllGood(w') ==> Good(w'.sinks[e.k]);
    } else if e.Assimilate? {
      AssimilationKeepsCounts(w.sinks[e.k], w.sinks[e.from]);
      assert AllGood(w') ==> Good(w'.sinks[e.k]);
    }
  }

  /** In a run all lists stay well-formed and all counts right, so that the counter is the number of exceptions
      held by the sinks that are not externally managed, if and only if every operation is compatible. */
  lemma {:induction false} RunKeepsOrder<T>(worlds: seq<World<T>>, events: seq<Event<T>>, i: nat)
    requires IsRun(worlds, events) && i < |worlds|
    ensures (forall j :: 0 <= j <= i ==> AllGood(worlds[j])) <==>
      (forall j :: 0 <= j < i ==> Compatible(worlds[j], events[j]))
  {
    if i != 0 {
      RunKeepsOrder(worlds, events, i - 1);
      assert (forall j :: 0 <= j <= i ==> AllGood(worlds[j])) <==>
        (forall j :: 0 <= j <= i - 1 ==> AllGood(worlds[j])) && AllGood(worlds[i]);
      assert (forall j :: 0 <= j < i ==> Compatible(worlds[j], events[j])) <==>
        (forall j :: 0 <= j < i - 1 ==> Compatible(worlds[j], events[j])) && Compatible(worlds[i - 1], events[i - 1]);
      if AllGood(worlds[i - 1]) {
        StepKeepsOrder(worlds[i - 1], events[i - 1]);
      }
    }
  }

  /** Some sink asks for the end of the thread. */
  predicate Exiting<T>(w: World<T>) {
    exists k :: 0 <= k < |w.sinks| && w.sinks[k].threadExit
  }

  /** Clearing apart, an operation neither loses the request nor makes one up, wherever it moves to. */
  lemma StepKeepsExit<T>(w: World<T>, e: Event<T>)
    requires Enabled(w, e) && !e.Clear?
    ensures Exiting(Step(w, e)) <==> Exiting(w) || e.Exit?
  {
    var w' := Step(w, e);
    if e.Assimilate? {
      var (s, x) := Assimilated(w.sinks[e.k], w.sinks[e.from]);
      assert w'.sinks[e.k] == s && w'.sinks[e.from] == x;
      hide Assimilated;
    } else if e.Exit? {
      assert w'.sinks[e.k].threadExit;
    }
    if k :| 0 <= k < |w.sinks| && w.sinks[k].threadExit {
      assert w'.sinks[if e.Assimilate? && k == e.from then e.k else k].threadExit;
    }
    if k :| 0 <= k < |w'.sinks| && w'.sinks[k].threadExit {
      assert e.Exit? || (k < |w.sinks| && w.sinks[k].threadExit) || (e.Assimilate? && w.sinks[e.from].threadExit);
    }
  }

  /** A request for the end of the thread stays until a sink is cleared. */
  lemma {:induction false} ExitIsKept<T>(worlds: seq<World<T>>, events: seq<Event<T>>, i: nat, j: nat)
    requires IsRun(worlds, events) && i <= j < |worlds| && forall m :: i <= m < j ==> !events[m].Clear?
    ensures Exiting(worlds[j]) <==> Exiting(worlds[i]) || exists m :: i <= m < j && events[m].Exit?
    decreases j
  {
    if i < j {
      ExitIsKept(worlds, events, i, j - 1);
      StepKeepsExit(worlds[j - 1], events[j - 1]);
    }
  }

  lemma OneSink<T>(s: Sink<T>, active: int, es: seq<T>)
    requires es != [] && !s.managed
    ensures InsertStep(World([s], active), 0, es) == World([Inserted(s, es)], active + 1)
  {
  }

  /** An input that breaks it: two exceptions raised, caught together and rethrown are counted once, and raising
      another exception cuts off the second. */
  lemma RethrownChainIsCut<T>(a: T, b: T, c: T) returns (worlds: seq<World<T>>, events: seq<Event<T>>)
    ensures events == [New, Raise(0, a), Raise(0, b), Catch(0), Rethrow(0, [a, b]), Raise(0, c)]
    ensures IsRun(worlds, events) && Content(worlds[3].sinks[0]) == [a, b]
    ensures worlds[5] == World([Sink([a], [b], 1, false, false)], 1)
    ensures !WellFormed(worlds[5].sinks[0]) && !CountOk(worlds[5].sinks[0])
    ensures Content(worlds[6].sinks[0]) == [a, c]
  {
    events := [New, Raise(0, a), Raise(0, b), Catch(0), Rethrow(0, [a, b]), Raise(0, c)];
    var w0: World<T> := World([], 0);
    var w1, w2 := World([Fresh()], 0), World([Sink([a], [], 1, false, false)], 1);
    var w3, w5 := World([Sink([a, b], [], 2, false, false)], 2), World([Sink([a], [b], 1, false, false)], 1);
    var w6 := World([Sink([a, c], [], 2, false, false)], 2);
    assert [a][1..] == [] && [b][1..] == [] && [c][1..] == [] && [a, b][1..] == [b];
    assert [] + [a] == [a] && [a] + [b] == [a, b] && [a] + [c] == [a, c];
    assert Step(w0, New) == w1;
    OneSink(w1.sinks[0], 0, [a]);
    OneSink(w2.sinks[0], 1, [b]);
    assert Step(w3, Catch(0)) == w1;
    OneSink(w1.sinks[0], 0, [a, b]);
    OneSink(w5.sinks[0], 1, [c]);
    hide InsertStep;
    worlds := [w0, w1, w2, w3, w1, w5, w6];
  }
}

module ExceptionSinks {
  import Spec = SinkSpec

  class QoreException {
    var next: QoreException?

    constructor ()
      ensures next == null
    {
      next := null;
    }
  }

  /** The thread's counter of active exceptions. */
  class ThreadData {
    var active: int
  }

  /** A chain of exceptions through their next links to the end, without repetition. */
  ghost predicate Linked(chain: seq<QoreException>, head: QoreException?)
    reads chain
  {
    if chain == [] then head == null
    else
      && head == chain[0]
      && (forall i :: 0 <= i < |chain| - 1 ==> chain[i].next == chain[i + 1])
      && chain[|chain| - 1].next == null
      && (forall i, j :: 0 <= i < j < |chain| ==> chain[i] != chain[j])
  }

  ghost predicate Disjoint(a: seq<QoreException>, b: seq<QoreException>) {
    forall i, j :: 0 <= i < |a| && 0 <= j < |b| ==> a[i] != b[j]
  }

  /** QoreException's copy constructor: copies the exception and all that follow it. */
  method CopyChain(original: QoreException, ghost chain: seq<QoreException>)
    returns (e: QoreException, ghost copies: seq<QoreException>)
    requires Linked(chain, original)
    ensures Linked(copies, e) && |copies| == |chain|
    ensures forall i :: 0 <= i < |copies| ==> fresh(copies[i])
    decreases |chain|
  {
    assert |chain| > 1 ==> chain[0].next == chain[0 + 1];
    e := new QoreException();
    copies := [e];
    if original.next != null {
      assert |chain| > 1 && chain[1..][0] == original.next;
      var next, rest := CopyChain(original.next, chain[1..]);
      e.next := next;
      copies := [e] + rest;
    }
  }

  lemma HungLinked(front: seq<QoreException>, back: seq<QoreException>)
    requires back != [] && Linked(back, back[0]) && Disjoint(front, back)
    requires forall i :: 0 <= i < |front| - 1 ==> front[i].next == front[i + 1]
    requires forall i, j :: 0 <= i < j < |front| ==> front[i] != front[j]
    requires front != [] ==> front[|front| - 1].next == back[0]
    ensures Linked(front + back, (front + back)[0])
  {
    var all := front + back;
    forall i | 0 <= i < |all| - 1
      ensures all[i].next == all[i + 1]
    {
      if i >= |front| {
        assert all[i] == back[i - |front|] && all[i + 1] == back[i - |front| + 1];
      }
    }
  }

  class ExceptionSink {
    var head: QoreException?
    var tail: QoreException?
    var count: nat
    var threadExit: bool
    var externallyManaged: bool
    ghost var chain: seq<QoreException>   // up to the tail
    ghost var rest: seq<QoreException>    // behind it

    ghost predicate Valid()
      reads this`head, this`tail, this`chain, this`rest, chain, rest
    {
      && Linked(chain + rest, head)
      && if chain == [] then rest == [] && tail == null else tail == chain[|chain| - 1]
    }

    /** Everything that can be reached from the head. */
    ghost function All(): seq<QoreException>
      reads this`chain, this`rest
    {
      chain + rest
    }

    ghost function Abs(): Spec.Sink<QoreException>
      reads this
    {
      Spec.Sink(chain, rest, count, externallyManaged, threadExit)
    }

    constructor ()
      ensures Valid() && Abs() == Spec.Fresh()
    {
      head, tail, count, threadExit, externallyManaged, chain, rest := null, null, 0, false, false, [], [];
    }

    /** Inserts an exception, whatever follows it. */
    method Insert(e: QoreException, td: ThreadData, ghost es: seq<QoreException>)
      requires Valid() && Linked(es, e) && es != [] && Disjoint(chain, es)
      modifies this, tail, td
      ensures Valid() && Abs() == Spec.Inserted(old(Abs()), es)
      ensures td.active == old(td.active) + count - old(count)
    {
      assert es == [e] + es[1..];
      LinkList(e, e, [e], es[1..], es);
      if !externallyManaged {
        count := count + 1;
        td.active := td.active + 1;
      }
    }

    /** Hangs a list on to the tail of this one, cutting off what was there. */
    method LinkList(first: QoreException, last: QoreException, ghost more: seq<QoreException>,
                    ghost after: seq<QoreException>, ghost all: seq<QoreException>)
      requires Valid() && more != [] && last == more[|more| - 1] && all == more + after
      requires Linked(all, first) && Disjoint(chain, more) && Disjoint(chain, after)
      modifies this`head, this`tail, this`chain, this`rest, tail
      ensures Valid() && chain == old(chain) + more && rest == after
    {
      assert forall i :: 0 <= i < |chain| ==> (chain + rest)[i] == chain[i];
      assert Disjoint(chain, all);
      if tail != null {
        tail.next := first;
      } else {
        head := first;
      }
      tail := last;
      HungLinked(chain, all);
      ghost var was := chain;
      chain, rest := chain + more, after;
      assert chain + rest == was + all;
    }

    /** Appends the other sink's list to this one and empties the other. */
    method Assimilate(xs: ExceptionSink)
      requires xs != this && Valid() && xs.Valid()
      requires Disjoint(chain, xs.chain) && Disjoint(chain, xs.rest)
      modifies this, xs, tail
      ensures Valid() && xs.Valid()
      ensures (Abs(), xs.Abs()) == Spec.Assimilated(old(Abs()), old(xs.Abs()))
    {
      hide Linked;
      if xs.threadExit {
        threadExit := xs.threadExit;
        xs.threadExit := false;
      }
      if xs.tail != null {
        TakeList(xs);
      }
    }

    /** Moves the list and its count. */
    method TakeList(xs: ExceptionSink)
      requires xs != this && Valid() && xs.Valid() && xs.tail != null
      requires Disjoint(chain, xs.chain) && Disjoint(chain, xs.rest)
      modifies this`head, this`tail, this`chain, this`rest, this`count
      modifies xs`head, xs`tail, xs`chain, xs`rest, xs`count, tail
      ensures Valid() && xs.Valid()
      ensures chain == old(chain) + old(xs.chain) && rest == old(xs.rest) && xs.chain == [] && xs.rest == []
      ensures count == old(count) + old(if xs.externallyManaged then 0 else xs.count)
      ensures xs.count == if xs.externallyManaged then old(xs.count) else 0
    {
      LinkList(xs.head, xs.tail, xs.chain, xs.rest, xs.All());
      hide Linked;
      xs.head, xs.tail, xs.chain, xs.rest := null, null, [], [];
      EmptyLinked();
      if !xs.externallyManaged {
        count := count + xs.count;
        xs.count := 0;
      }
    }

    /** Hands the list over to the caller. */
    method CatchException(td: ThreadData) returns (e: QoreException?, ghost caught: seq<QoreException>)
      requires Valid()
      modifies this, td
      ensures Valid() && Abs() == Spec.Caught(old(Abs()))
      ensures caught == old(chain + rest) && Linked(caught, e)
      ensures td.active == old(td.active) - old(count)
    {
      e, caught := head, chain + rest;
      head, tail, chain, rest := null, null, [], [];
      if count != 0 {
        td.active := td.active - count;
        count := 0;
      }
    }

    method Clear(td: ThreadData)
      requires Valid()
      modifies this, td
      ensures Valid() && Abs() == Spec.Cleared(old(Abs()))
      ensures td.active == old(td.active) - old(count)
    {
      if count != 0 {
        td.active := td.active - count;
        count := 0;
      }
      head, tail, chain, rest := null, null, [], [];
      threadExit := false;
    }

    method RaiseThreadExit()
      requires Valid()
      modifies this`threadExit
      ensures Valid() && Abs() == Spec.Exited(old(Abs()))
    {
      threadExit := true;
    }

    method MarkExternallyManaged(td: ThreadData)
      requires Valid()
      modifies this, td
      ensures Valid() && Abs() == Spec.Marked(old(Abs()))
      ensures td.active == old(td.active) + count - old(count)
    {
      if !externallyManaged {
        externallyManaged := true;
        if count != 0 {
          td.active := td.active - count;
          count := 0;
        }
      }
    }
  }

  lemma EmptyLinked()
    ensures Linked([] + [], null)
  {
  }
}

/** All the sinks of one thread: their lists never share an exception, and each operation is exactly one step
    of the specification. */
module ThreadSinks {
  import Spec = SinkSpec
  import opened ExceptionSinks

  ghost predicate Owned(owner: map<QoreException, nat>, es: seq<QoreException>, k: nat) {
    forall i :: 0 <= i < |es| ==> es[i] in owner && owner[es[i]] == k
  }

  class Thread {
    var sinks: seq<ExceptionSink>
    const td: ThreadData
    ghost var owner: map<QoreException, nat>   // the last sink of each exception raised so far

    constructor (td: ThreadData)
      requires td.active == 0
      ensures Valid() && World() == Spec.World([], 0)
    {
      this.td := td;
      sinks, owner := [], map[];
    }

    ghost predicate Owns(k: nat)
      requires k < |sinks|
      reads this, sinks[k]
    {
      Owned(owner, sinks[k].chain, k) && Owned(owner, sinks[k].rest, k)
    }

    ghost predicate Valid()
      reads this, sinks, owner.Keys
    {
      && (forall i, j :: 0 <= i < j < |sinks| ==> sinks[i] != sinks[j])
      && (forall k :: 0 <= k < |sinks| ==> Owns(k) && sinks[k].Valid())
    }

    /** No exception is on two lists. */
    lemma ChainsAreDisjoint(j: nat, k: nat)
      requires j < |sinks| && k < |sinks| && j != k && Owns(j) && Owns(k)
      ensures Disjoint(sinks[j].chain, sinks[k].chain) && Disjoint(sinks[j].chain, sinks[k].rest)
    {
    }

    ghost function World(): Spec.World<QoreException>
      reads this`sinks, sinks, td
    {
      var all := sinks;
      Spec.World(seq(|all|, i requires 0 <= i < |all| reads all => all[i].Abs()), td.active)
    }

    /** Raises a new exception. */
    method Raise(k: nat) returns (e: QoreException)
      requires Valid() && k < |sinks|
      modifies this`owner, sinks[k], sinks[k].tail, td
      ensures Valid() && World() == Spec.Step(old(World()), Spec.Raise(k, e))
    {
      e := new QoreException();
      InsertChain(k, e, [e]);
    }

    /** Rethrows a copy of an exception that was caught, and of all that follow it. */
    method Rethrow(k: nat, caught: QoreException, ghost chain: seq<QoreException>)
      returns (e: QoreException, ghost copies: seq<QoreException>)
      requires Valid() && k < |sinks| && Linked(chain, caught)
      modifies this`owner, sinks[k], sinks[k].tail, td
      ensures |copies| == |chain| && Linked(copies, e)
      ensures Valid() && World() == Spec.Step(old(World()), Spec.Rethrow(k, copies))
    {
      e, copies := CopyChain(caught, chain);
      InsertChain(k, e, copies);
    }

    method InsertChain(k: nat, e: QoreException, ghost es: seq<QoreException>)
      requires Valid() && k < |sinks| && es != [] && Linked(es, e)
      requires forall i :: 0 <= i < |es| ==> es[i] !in owner
      modifies this`owner, sinks[k], sinks[k].tail, td
      ensures Valid() && World() == Spec.InsertStep(old(World()), k, es) && Linked(es, e)
    {
      hide Linked;
      InsertInto(k, e, es);
      Adopt(k, es);
      hide Spec.InsertStep, Spec.Inserted;
      Spec.IsInsertion(old(World()), World(), k, es);
    }

    /** New exceptions belong to the sink they were inserted into. */
    ghost method Adopt(k: nat, es: seq<QoreException>)
      requires k < |sinks| && forall i :: 0 <= i < |es| ==> es[i] !in owner
      requires forall j :: 0 <= j < |sinks| && j != k ==> Owns(j)
      requires forall e :: e in sinks[k].chain || e in sinks[k].rest ==> e in es || (e in owner && owner[e] == k)
      modifies this`owner
      ensures old(owner.Keys) <= owner.Keys
      ensures forall j :: 0 <= j < |sinks| ==> Owns(j)
    {
      owner := owner + map x | x in es :: k;
      forall j | 0 <= j < |sinks|
        ensures Owns(j)
      {
        assert j != k ==> old(Owns(j));
      }
    }

    /** insert() touches no other sink. */
    method InsertInto(k: nat, e: QoreException, ghost es: seq<QoreException>)
      requires Valid() && k < |sinks| && es != [] && Linked(es, e)
      requires forall i :: 0 <= i < |es| ==> es[i] !in owner
      modifies sinks[k], sinks[k].tail, td
      ensures forall j :: 0 <= j < |sinks| ==> sinks[j].Valid()
      ensures forall j :: 0 <= j < |sinks| && j != k ==> sinks[j].Abs() == old(sinks[j].Abs())
      ensures sinks[k].Abs() == Spec.Inserted(old(sinks[k].Abs()), es)
      ensures td.active == old(td.active) + if sinks[k].externallyManaged then 0 else 1
      ensures Linked(es, e)
    {
      var s := sinks[k];
      assert Disjoint(s.chain, es) by {
        assert Owns(k);
      }
      hide Linked, Disjoint;
      s.Insert(e, td, es);
    }

    method Assimilate(k: nat, from: nat)
      requires Valid() && k < |sinks| && from < |sinks| && k != from
      modifies this`owner, sinks[k], sinks[k].tail, sinks[from]
      ensures Valid() && World() == Spec.Step(old(World()), Spec.Assimilate(k, from))
    {
      hide Linked, Spec.Step, Spec.Assimilated;
      ghost var a, b := sinks[k].All(), sinks[from].All();
      TakeOver(k, from);
      Relabel(k, from, a, b);
      Spec.IsAssimilation(old(World()), World(), k, from);
    }

    /** assimilate() touches no third sink. */
    method TakeOver(k: nat, from: nat)
      requires Valid() && k < |sinks| && from < |sinks| && k != from
      modifies sinks[k], sinks[k].tail, sinks[from]
      ensures forall j :: 0 <= j < |sinks| ==> sinks[j].Valid()
      ensures forall j :: 0 <= j < |sinks| && j != k && j != from ==> sinks[j].Abs() == old(sinks[j].Abs())
      ensures (sinks[k].Abs(), sinks[from].Abs()) ==
        Spec.Assimilated(old(sinks[k].Abs()), old(sinks[from].Abs()))
      ensures forall e :: e in sinks[k].All() ==> e in old(sinks[k].All()) || e in old(sinks[from].All())
      ensures sinks[from].All() == []
    {
      var s := sinks[k];
      assert s.tail != null ==> s.chain != [] && s.tail == s.All()[|s.chain| - 1];
      ChainsAreDisjoint(k, from);
      s.Assimilate(sinks[from]);
    }

    /** The exceptions of one sink now belong to another. */
    ghost method Relabel(k: nat, from: nat, a: seq<QoreException>, b: seq<QoreException>)
      requires forall i, j :: 0 <= i < j < |sinks| ==> sinks[i] != sinks[j]
      requires k < |sinks| && from < |sinks| && k != from
      requires forall e :: e in sinks[k].All() ==> e in a || e in b
      requires sinks[from].All() == []
      requires Owned(owner, a, k) && Owned(owner, b, from)
      requires forall j :: 0 <= j < |sinks| && j != k ==> Owns(j)
      requires forall j :: 0 <= j < |sinks| ==> sinks[j].Valid()
      modifies this`owner
      ensures Valid()
    {
      hide Linked;
      owner := map e | e in owner :: if owner[e] == from then k else owner[e];
      forall j | 0 <= j < |sinks|
        ensures Owns(j)
      {
        if j != k {
          assert old(Owns(j));
        } else {
          assert forall e :: e in sinks[k].All() ==> e in owner && owner[e] == k;
        }
      }
    }

    /** Hands over the sink's exceptions, as the chain that a rethrow copies. */
    method Catch(k: nat) returns (e: QoreException?, ghost caught: seq<QoreException>)
      requires Valid() && k < |sinks|
      modifies sinks[k], td
      ensures Valid() && World() == Spec.Step(old(World()), Spec.Catch(k))
      ensures caught == Spec.Content(old(World()).sinks[k]) && Linked(caught, e)
    {
      e, caught := sinks[k].CatchException(td);
    }

    method New()
      requires Valid()
      modifies this`sinks
      ensures Valid() && World() == Spec.Step(old(World()), Spec.New)
    {
      var s := new ExceptionSink();
      sinks := sinks + [s];
    }

    method Clear(k: nat)
      requires Valid() && k < |sinks|
      modifies sinks[k], td
      ensures Valid() && World() == Spec.Step(old(World()), Spec.Clear(k))
    {
      sinks[k].Clear(td);
    }

    method RaiseThreadExit(k: nat)
      requires Valid() && k < |sinks|
      modifies sinks[k]
      ensures Valid() && World() == Spec.Step(old(World()), Spec.Exit(k))
    {
      sinks[k].RaiseThreadExit();
    }

    method MarkExternallyManaged(k: nat)
      requires Valid() && k < |sinks|
      modifies sinks[k], td
      ensures Valid() && World() == Spec.Step(old(World()), Spec.Mark(k))
    {
      sinks[k].MarkExternallyManaged(td);
    }
  }
}
