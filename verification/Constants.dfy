/** Graphs of constants that refer to one another by name. */
module ConstantGraph {

  /** For each constant the names its value refers to, in order. */
  type Graph = map<string, seq<string>>

  predicate Edge(g: Graph, u: string, v: string) {
    u in g && v in g && v in g[u]
  }

  ghost predicate IsPath(g: Graph, p: seq<string>) {
    forall i :: 0 <= i < |p| - 1 ==> Edge(g, p[i], p[i + 1])
  }

  /** `p` leads from a constant back to itself through constants of `s` only. */
  ghost predicate IsCycle(g: Graph, s: set<string>, p: seq<string>) {
    && |p| >= 2
    && p[0] == p[|p| - 1]
    && IsPath(g, p)
    && forall i :: 0 <= i < |p| ==> p[i] in s
  }

  ghost predicate HasCycle(g: Graph, s: set<string>) {
    exists p :: IsCycle(g, s, p)
  }

  /** The order of completion puts what a constant of `s` refers to within `s` before it. */
  ghost predicate InOrder(g: Graph, s: set<string>, order: seq<string>) {
    forall i, v :: 0 <= i < |order| && v in s && Edge(g, order[i], v) ==> v in order[..i]
  }

  lemma {:induction false} OrderDescends(
      g: Graph, s: set<string>, order: seq<string>, p: seq<string>, k: nat, a: nat) returns (b: nat)
    requires InOrder(g, s, order) && IsPath(g, p) && (forall i :: 0 <= i < |p| ==> p[i] in s)
    requires k < |p| && a < |order| && order[a] == p[0]
    ensures b <= a && order[b] == p[k] && (k > 0 ==> b < a)
  {
    if k == 0 {
      b := a;
    } else {
      var c := OrderDescends(g, s, order, p, k - 1, a);
      assert Edge(g, p[k - 1], p[k - 1 + 1]);
      assert p[k] in order[..c];
      b :| 0 <= b < c && order[b] == p[k];
    }
  }

  /** Constants completed in order, each once, have no cycle among them. */
  lemma OrderedMeansAcyclic(g: Graph, s: set<string>, order: seq<string>)
    requires InOrder(g, s, order)
    requires forall v :: v in s ==> v in order
    requires forall i, j :: 0 <= i < j < |order| ==> order[i] != order[j]
    ensures !HasCycle(g, s)
  {
    if HasCycle(g, s) {
      var p :| IsCycle(g, s, p);
      assert p[0] in s;
      var a :| 0 <= a < |order| && order[a] == p[0];
      var b := OrderDescends(g, s, order, p, |p| - 1, a);
    }
  }

  lemma ReachedAgain(g: Graph, s: set<string>, stack: seq<string>, n: string)
    requires IsPath(g, stack) && (forall i :: 0 <= i < |stack| ==> stack[i] in s)
    requires n in stack && Edge(g, stack[|stack| - 1], n)
    ensures HasCycle(g, s)
  {
    var i :| 0 <= i < |stack| && stack[i] == n;
    var p := stack[i..] + [n];
    forall k | 0 <= k < |p| - 1
      ensures Edge(g, p[k], p[k + 1])
    {
      if k < |p| - 2 {
        assert p[k] == stack[i + k] && p[k + 1] == stack[i + k + 1];
        assert Edge(g, stack[i + k], stack[i + k + 1]);
      }
    }
    assert IsCycle(g, s, p);
  }

  /** Where an initialisation run stands.  `s` are the constants that were not initialised when it began,
      `stack` those being initialised, outermost first; `failed` says that an error has been reported. */
  ghost predicate Consistent(
    g: Graph, s: set<string>, stack: seq<string>, done: set<string>, active: set<string>, failed: bool,
    finished: seq<string>)
  {
    && (forall n :: n in done <==> n in g && (n !in s || n in finished))
    && (forall n :: n in finished ==> n in s)
    && (forall i, j :: 0 <= i < j < |finished| ==> finished[i] != finished[j])
    && (forall n :: n in active <==> n in stack)
    && (forall n :: n in stack ==> n in s && n !in done)
    && s <= g.Keys
    && IsPath(g, stack)
    && (forall u, v :: u in finished && v in s && Edge(g, u, v) ==> v in finished || v in stack)
    && (if failed then HasCycle(g, s) else InOrder(g, s, finished))
  }

  /** There is a path from `u` to `v` through constants of `s` only. */
  ghost predicate Reaches(g: Graph, s: set<string>, u: string, v: string) {
    exists p :: IsPathBetween(g, s, p, u, v)
  }

  ghost predicate IsPathBetween(g: Graph, s: set<string>, p: seq<string>, u: string, v: string) {
    && p != [] && p[0] == u && p[|p| - 1] == v
    && IsPath(g, p)
    && forall i :: 0 <= i < |p| ==> p[i] in s
  }

  lemma ReachesItself(g: Graph, s: set<string>, u: string)
    requires u in s
    ensures Reaches(g, s, u, u)
  {
    assert IsPathBetween(g, s, [u], u, u);
  }

  lemma ReachesFrom(g: Graph, s: set<string>, u: string, v: string)
    requires Reaches(g, s, u, v)
    ensures u in s
  {
    var p :| IsPathBetween(g, s, p, u, v);
    assert p[0] in s;
  }

  lemma ReachesThrough(g: Graph, s: set<string>, u: string, v: string, w: string)
    requires u in s && Edge(g, u, v) && Reaches(g, s, v, w)
    ensures Reaches(g, s, u, w)
  {
    var p :| IsPathBetween(g, s, p, v, w);
    var q := [u] + p;
    forall i | 0 <= i < |q| - 1
      ensures Edge(g, q[i], q[i + 1])
    {
      if i > 0 {
        assert q[i] == p[i - 1] && q[i + 1] == p[i - 1 + 1];
      }
    }
    assert IsPathBetween(g, s, q, u, w);
  }

  /** With nothing in progress, whatever a completed constant reaches is completed. */
  lemma CompletedReach(g: Graph, s: set<string>, finished: seq<string>, u: string, v: string)
    requires forall x, y :: x in finished && y in s && Edge(g, x, y) ==> y in finished
    requires u in finished && Reaches(g, s, u, v)
    ensures v in finished
  {
    var p :| IsPathBetween(g, s, p, u, v);
    CompletedPath(g, s, finished, p, |p| - 1);
  }

  lemma {:induction false} CompletedPath(g: Graph, s: set<string>, finished: seq<string>, p: seq<string>, k: nat)
    requires forall x, y :: x in finished && y in s && Edge(g, x, y) ==> y in finished
    requires k < |p| && IsPath(g, p) && (forall i :: 0 <= i < |p| ==> p[i] in s) && p[0] in finished
    ensures p[k] in finished
  {
    if k > 0 {
      CompletedPath(g, s, finished, p, k - 1);
      assert Edge(g, p[k - 1], p[k - 1 + 1]);
    }
  }

  /** Going through the names, the first from which this one is reached is this one. */
  ghost predicate ReachedFirst(g: Graph, s: set<string>, names: seq<string>, i: nat)
    requires i < |names|
  {
    names[i] in s && forall j :: 0 <= j < i && names[j] in s ==> !Reaches(g, s, names[j], names[i])
  }

  predicate ReachedFrom(g: Graph, stack: seq<string>, n: string) {
    stack != [] ==> Edge(g, stack[|stack| - 1], n)
  }

  /** Some constant of `bad` is among the first `n` names, and is reached first from itself. */
  ghost predicate Told(g: Graph, s: set<string>, names: seq<string>, bad: set<string>, n: nat)
    requires n <= |names|
  {
    exists i :: 0 <= i < n && ReachedFirst(g, s, names, i) && names[i] in bad
  }

  ghost predicate FromNames(g: Graph, s: set<string>, names: seq<string>, finished: seq<string>, n: nat)
    requires n <= |names|
  {
    forall m :: m in finished ==> exists j :: 0 <= j < n && names[j] in s && Reaches(g, s, names[j], m)
  }

  /** The loop over the names initialises a constant itself exactly if no earlier one leads to it. */
  lemma LoopReaches(g: Graph, s: set<string>, names: seq<string>, finished: seq<string>, i: nat)
    requires i < |names|
    requires forall x, y :: x in finished && y in s && Edge(g, x, y) ==> y in finished
    requires forall j :: 0 <= j < i && names[j] in s ==> names[j] in finished
    requires FromNames(g, s, names, finished, i)
    ensures ReachedFirst(g, s, names, i) <==> names[i] in s && names[i] !in finished
  {
    hide Reaches;
    if names[i] in s && names[i] !in finished {
      forall j | 0 <= j < i && names[j] in s
        ensures !Reaches(g, s, names[j], names[i])
      {
        if Reaches(g, s, names[j], names[i]) {
          CompletedReach(g, s, finished, names[j], names[i]);
        }
      }
    }
  }

  lemma ToldNext(g: Graph, s: set<string>, names: seq<string>, bad: set<string>, n: nat)
    requires n < |names|
    ensures Told(g, s, names, bad, n + 1) <==>
      Told(g, s, names, bad, n) || (ReachedFirst(g, s, names, n) && names[n] in bad)
  {
    hide Reaches, ReachedFirst;
  }

  lemma FromNamesNext(g: Graph, s: set<string>, names: seq<string>, was: seq<string>, finished: seq<string>, n: nat)
    requires n < |names| && FromNames(g, s, names, was, n)
    requires forall m :: m in finished && m !in was ==> Reaches(g, s, names[n], m)
    ensures FromNames(g, s, names, finished, n + 1)
  {
    hide Reaches;
    forall m | m in finished
      ensures exists j :: 0 <= j < n + 1 && names[j] in s && Reaches(g, s, names[j], m)
    {
      if m in was {
        var j :| 0 <= j < n && names[j] in s && Reaches(g, s, names[j], m);
      } else {
        ReachesFrom(g, s, names[n], m);
      }
    }
  }

  lemma SelfLoop(a: string)
    ensures HasCycle(map[a := [a]], {a})
  {
    assert Edge(map[a := [a]], a, a);
    assert IsCycle(map[a := [a]], {a}, [a, a]);
  }

  lemma NothingFromNames(g: Graph, s: set<string>, names: seq<string>)
    ensures FromNames(g, s, names, [], 0)
  {
  }

  lemma BeginConsistent(g: Graph, s: set<string>, done: set<string>)
    requires done <= g.Keys && s == g.Keys - done
    ensures Consistent(g, s, [], done, {}, false, [])
  {
  }

  lemma EnterConsistent(
      g: Graph, s: set<string>, stack: seq<string>, done: set<string>, active: set<string>, failed: bool,
      finished: seq<string>, n: string)
    requires Consistent(g, s, stack, done, active, failed, finished)
    requires n in g && n !in done && n !in active && ReachedFrom(g, stack, n)
    ensures Consistent(g, s, stack + [n], done, active + {n}, failed, finished)
  {
    var stack' := stack + [n];
    forall i | 0 <= i < |stack'| - 1
      ensures Edge(g, stack'[i], stack'[i + 1])
    {
      if i < |stack| - 1 {
        assert Edge(g, stack[i], stack[i + 1]);
      }
    }
  }

  lemma LeaveConsistent(
      g: Graph, s: set<string>, stack: seq<string>, done: set<string>, active: set<string>, failed: bool,
      finished: seq<string>, n: string)
    requires Consistent(g, s, stack + [n], done, active, failed, finished) && n !in stack
    requires forall v :: v in s && Edge(g, n, v) ==> v in finished || v in stack + [n]
    requires !failed ==> forall v :: v in s && Edge(g, n, v) ==> v in finished
    ensures Consistent(g, s, stack, done + {n}, active - {n}, failed, finished + [n])
  {
    var stack', finished' := stack + [n], finished + [n];
    assert n in stack';
    forall i | 0 <= i < |stack| - 1
      ensures Edge(g, stack[i], stack[i + 1])
    {
      assert Edge(g, stack'[i], stack'[i + 1]);
    }
    assert forall m :: m in stack' <==> m in stack || m == n;
    assert forall m :: m in finished' <==> m in finished || m == n;
    if !failed {
      forall i, v | 0 <= i < |finished'| && v in s && Edge(g, finished'[i], v)
        ensures v in finished'[..i]
      {
        if i < |finished| {
          assert finished'[..i] == finished[..i];
        } else {
          assert finished'[..i] == finished;
        }
      }
    }
  }

  /** A constant met again while it is being initialised closes a cycle. */
  lemma AgainConsistent(
      g: Graph, s: set<string>, stack: seq<string>, done: set<string>, active: set<string>, failed: bool,
      finished: seq<string>, n: string)
    requires Consistent(g, s, stack, done, active, failed, finished)
    requires n in active && ReachedFrom(g, stack, n)
    ensures Consistent(g, s, stack, done, active, true, finished)
  {
    ReachedAgain(g, s, stack, n);
  }
}

/** Parse-time initialisation of constants, after lib/ConstantList.cpp. */
module Constants {
  import opened ConstantGraph

  class ConstantEntry {
    const name: string
    const builtin: bool
    const hasNode: bool        // the value is a parse node, not a plain value
    const refs: seq<string>    // the constants that are looked up to resolve that node, in order
    const fails: bool          // resolving the node fails for any other reason than a reference to a constant
    var init: bool
    var inInit: bool

    constructor (name: string, builtin: bool, hasNode: bool, refs: seq<string>, fails: bool, init: bool)
      ensures this.name == name && this.builtin == builtin && this.hasNode == hasNode
      ensures this.refs == refs && this.fails == fails && this.init == init && !inInit
    {
      this.name, this.builtin, this.hasNode, this.refs := name, builtin, hasNode, refs;
      this.fails, this.init, inInit := fails, init, false;
    }

    /** Whether parse_init_value() returns an error. */
    predicate Fails() {
      hasNode && !builtin && fails
    }

    /** The references that initialising the entry resolves. */
    function Edges(): seq<string> {
      if hasNode && !builtin then refs else []
    }
  }

  class ConstantList {
    const cnemap: map<string, ConstantEntry>
    const names: seq<string>             // the keys of cnemap in the order of iteration
    var errors: seq<string>              // constants reported as recursive references
    ghost var finished: seq<string>      // constants in the order their initialisation ended

    ghost predicate Valid() {
      && (forall n :: n in cnemap ==> cnemap[n].name == n)
      && (forall n :: n in names <==> n in cnemap)
    }

    ghost function Entries(): set<ConstantEntry> {
      set n | n in cnemap :: cnemap[n]
    }

    function Graph(): Graph {
      map n | n in cnemap :: cnemap[n].Edges()
    }

    /** The constants whose own value is in error. */
    function Failing(): set<string> {
      set n | n in cnemap && cnemap[n].Fails()
    }

    ghost function Done(): set<string>
      reads Entries()
    {
      set n | n in cnemap && cnemap[n].init
    }

    ghost function Active(): set<string>
      reads Entries()
    {
      set n | n in cnemap && cnemap[n].inInit
    }

    constructor (entries: map<string, ConstantEntry>, names: seq<string>)
      ensures cnemap == entries && this.names == names && errors == [] && finished == []
    {
      cnemap, this.names, errors, finished := entries, names, [], [];
    }

    ghost predicate Standing(s: set<string>, stack: seq<string>)
      reads this, Entries()
    {
      Consistent(Graph(), s, stack, Done(), Active(), errors != [], finished)
    }

    /** ConstantEntry::parseInit() of the entry called `n`, reached from the entries on `stack`. */
    method ParseInit(n: string, ghost s: set<string>, ghost stack: seq<string>) returns (err: bool)
      requires Valid() && n in cnemap && Standing(s, stack) && ReachedFrom(Graph(), stack, n)
      modifies this`errors, this`finished, Entries()
      ensures Standing(s, stack)
      ensures old(Done()) <= Done() && Active() == old(Active())
      ensures n in Done() || n in stack
      ensures n in stack ==> errors != []
      ensures old(errors) <= errors && old(finished) <= finished
      ensures forall m :: m in finished && m !in old(finished) ==> Reaches(Graph(), s, n, m)
      ensures err <==> if n in old(Done()) then false else n in stack || cnemap[n].Fails()
      decreases cnemap.Keys - Done() - Active(), 0
    {
      hide HasCycle, InOrder, IsPath, Reaches;
      var e := cnemap[n];
      if e.init {
        return false;
      }
      if e.inInit {
        AgainConsistent(Graph(), s, stack, Done(), Active(), errors != [], finished, n);
        errors := errors + [n];
        return true;
      }
      EnterConsistent(Graph(), s, stack, Done(), Active(), errors != [], finished, n);
      BeginInit(n);
      err := ResolveReferences(n, s, stack);
      LeaveConsistent(Graph(), s, stack, Done(), Active(), errors != [], finished, n);
      EndInit(n);
      ReachesItself(Graph(), s, n);
    }

    /** ConstantEntryInitHelper's constructor. */
    method BeginInit(n: string)
      requires Valid() && n in cnemap
      modifies cnemap[n]
      ensures Done() == old(Done()) && Active() == old(Active()) + {n}
    {
      cnemap[n].inInit := true;
    }

    /** ConstantEntryInitHelper's destructor. */
    method EndInit(n: string)
      requires Valid() && n in cnemap
      modifies cnemap[n], this`finished
      ensures Done() == old(Done()) + {n} && Active() == old(Active()) - {n}
      ensures finished == old(finished) + [n]
    {
      cnemap[n].inInit := false;
      cnemap[n].init := true;
      finished := finished + [n];
    }

    /** parse_init_value() as far as constants are concerned: looks up each constant the value refers to.  An
        error of the lookup is not passed on. */
    method ResolveReferences(n: string, ghost s: set<string>, ghost stack: seq<string>) returns (err: bool)
      requires Valid() && n in cnemap && Standing(s, stack + [n])
      modifies this`errors, this`finished, Entries()
      ensures Standing(s, stack + [n])
      ensures old(Done()) <= Done() && Active() == old(Active())
      ensures old(errors) <= errors && old(finished) <= finished
      ensures forall m :: m in finished && m !in old(finished) ==> Reaches(Graph(), s, n, m)
      ensures forall v :: v in s && Edge(Graph(), n, v) ==> v in finished || v in stack + [n]
      ensures errors == [] ==> forall v :: v in s && Edge(Graph(), n, v) ==> v in finished
      ensures err == cnemap[n].Fails()
      decreases cnemap.Keys - Done() - Active(), 1
    {
      hide HasCycle, InOrder, IsPath, Reaches;
      var refs := cnemap[n].Edges();
      var k := 0;
      while k < |refs|
        invariant k <= |refs|
        invariant Standing(s, stack + [n])
        invariant old(Done()) <= Done() && Active() == old(Active())
        invariant old(errors) <= errors && old(finished) <= finished
        invariant forall m :: m in finished && m !in old(finished) ==> Reaches(Graph(), s, n, m)
        invariant forall j :: 0 <= j < k && refs[j] in s ==> refs[j] in finished || refs[j] in stack + [n]
        invariant errors == [] ==> forall j :: 0 <= j < k && refs[j] in s ==> refs[j] in finished
      {
        if refs[k] in cnemap {
          Find(n, refs[k], s, stack);
        }
        k := k + 1;
      }
      err := cnemap[n].Fails();
    }

    /** ConstantList::find() of a constant that another one refers to: drops the result of parseInit(). */
    method Find(n: string, v: string, ghost s: set<string>, ghost stack: seq<string>)
      requires Valid() && n in cnemap && Standing(s, stack + [n]) && Edge(Graph(), n, v)
      modifies this`errors, this`finished, Entries()
      ensures Standing(s, stack + [n])
      ensures old(Done()) <= Done() && Active() == old(Active())
      ensures v in Done() || v in stack + [n]
      ensures v in stack + [n] ==> errors != []
      ensures old(errors) <= errors && old(finished) <= finished
      ensures forall m :: m in finished && m !in old(finished) ==> Reaches(Graph(), s, n, m)
      decreases cnemap.Keys - Done() - Active(), 1, 0
    {
      hide HasCycle, InOrder, IsPath, Reaches;
      var dropped := ParseInit(v, s, stack + [n]);
      assert n in stack + [n];
      forall m | m in finished && m !in old(finished)
        ensures Reaches(Graph(), s, n, m)
      {
        ReachesThrough(Graph(), s, n, v, m);
      }
    }

    /** ConstantList::parseInit(): ends with every constant initialised exactly once, and reports a recursive
        reference if and only if the constants that were not initialised have a cycle among them.  Its result
        is another matter: it tells of a constant that fails if and only if the loop gets to it before any
        constant that leads to it, and never of a recursive reference. */
    method ParseInitAll() returns (err: bool)
      requires Valid() && Active() == {} && errors == [] && finished == []
      modifies this`errors, this`finished, Entries()
      ensures Done() == cnemap.Keys && Active() == {}
      ensures forall n :: n in finished <==> n in cnemap && n !in old(Done())
      ensures forall i, j :: 0 <= i < j < |finished| ==> finished[i] != finished[j]
      ensures errors != [] <==> HasCycle(Graph(), cnemap.Keys - old(Done()))
      ensures errors == [] ==> InOrder(Graph(), cnemap.Keys - old(Done()), finished)
      ensures err <==> Told(Graph(), cnemap.Keys - old(Done()), names, Failing(), |names|)
    {
      err := false;
      ghost var s := cnemap.Keys - Done();
      BeginConsistent(Graph(), s, Done());
      NothingFromNames(Graph(), s, names);
      hide HasCycle, InOrder, IsPath, Reaches, FromNames, ReachedFirst;
      var i := 0;
      assert Visited(s, i) && !Told(Graph(), s, names, Failing(), i);
      while i < |names|
        invariant i <= |names| && Visited(s, i)
        invariant err <==> Told(Graph(), s, names, Failing(), i)
      {
        err := InitNext(i, err, s);
        i := i + 1;
      }
      assert Done() == cnemap.Keys;
      if errors == [] {
        OrderedMeansAcyclic(Graph(), s, finished);
      }
    }

    /** The loop has visited the first `i` names. */
    ghost predicate Visited(s: set<string>, i: nat)
      reads this, Entries()
      requires i <= |names|
    {
      && Standing(s, []) && Active() == {}
      && (forall j :: 0 <= j < i ==> names[j] in Done())
      && FromNames(Graph(), s, names, finished, i)
    }

    /** One turn of the loop. */
    method InitNext(i: nat, err: bool, ghost s: set<string>) returns (err': bool)
      requires Valid() && i < |names| && Visited(s, i)
      requires err <==> Told(Graph(), s, names, Failing(), i)
      modifies this`errors, this`finished, Entries()
      ensures Visited(s, i + 1)
      ensures err' <==> Told(Graph(), s, names, Failing(), i + 1)
      ensures old(errors) <= errors
    {
      hide HasCycle, InOrder, IsPath, Reaches, FromNames, ReachedFirst, Told;
      LoopReaches(Graph(), s, names, finished, i);
      ToldNext(Graph(), s, names, Failing(), i);
      ghost var was := finished;
      var failed := ParseInit(names[i], s, []);
      err' := err || failed;
      FromNamesNext(Graph(), s, names, was, finished, i);
    }
  }

  /** A constant leads to another if its value, being a parse node of the program's own, refers to it. */
  lemma GraphEdges(list: ConstantList, u: string, v: string)
    ensures var m := list.cnemap;
      Edge(list.Graph(), u, v) <==> u in m && v in m && m[u].hasNode && !m[u].builtin && v in m[u].refs
    ensures var m := list.cnemap;
      u in list.Failing() <==> u in m && m[u].hasNode && !m[u].builtin && m[u].fails
  {
  }

  /** A constant that refers to itself is reported, but the result says that all is well. */
  method SelfReference() returns (err: bool, errors: seq<string>)
    ensures !err && errors != []
  {
    var e := new ConstantEntry("a", false, true, ["a"], false, false);
    var list := new ConstantList(map["a" := e], ["a"]);
    assert list.Graph() == map["a" := ["a"]] && list.Failing() == {} && list.Done() == {} && list.Active() == {};
    assert list.cnemap.Keys - {} == {"a"};
    SelfLoop("a");
    hide HasCycle;
    err := list.ParseInitAll();
    errors := list.errors;
  }
}
