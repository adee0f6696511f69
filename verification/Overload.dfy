/** Variants of a function and how well they match a call, after lib/Function.cpp.

    Types are abstract: a table gives the match score of a parameter type against a value.
  */
module Variants {
  import opened Common

  const NOT_EQUAL := 0
  const WILDCARD := 1
  const IDENT := 4

  type Score = x: int | 0 <= x <= 4

  /** NoInfo is the source's null type pointer; Any is a type that accepts everything. */
  datatype TypeInfo = NoInfo | Any | NothingType | Typed(id: nat)

  predicate HasType(t: TypeInfo) {
    t.NothingType? || t.Typed?
  }

  datatype Value = Nothing | Val(id: nat)

  datatype Param = Param(t: TypeInfo, hasDefault: bool)

  datatype Variant = Variant(
    params: seq<Param>,
    isUser: bool,
    strict: bool,       // strict_args: parse options require types or strict arguments
    noop: bool,
    runtimeNoop: bool,
    extraArgs: bool)    // accepts arguments beyond its parameters

  type RunTable = (TypeInfo, Value) -> Score

  /** QoreTypeInfo::runtimeAcceptsValue(). */
  function Accepts(tab: RunTable, t: TypeInfo, n: Value): Score {
    if HasType(t) then tab(t, n) else WILDCARD
  }

  function Arg(args: seq<Value>, i: nat): Value {
    if i < |args| then args[i] else Nothing
  }

  /** What parameter `p` at position `i` adds to the score; None if it rejects the argument. */
  function ParamScore(tab: RunTable, p: Param, args: seq<Value>, i: nat): (r: Option<nat>)
    ensures r.Some? && r.value > 0 ==> !p.t.NoInfo? && i < |args|
    ensures r.Some? ==> r.value <= if HasType(p.t) then IDENT else WILDCARD
  {
    if Arg(args, i).Nothing? && p.hasDefault then Some(0)
    else
      var rc := Accepts(tab, p.t, Arg(args, i));
      if rc == NOT_EQUAL then None
      else if i < |args| && !p.t.NoInfo? then Some(rc)
      else Some(0)
  }

  /** The score of a parameter list; None if some parameter rejects its argument. */
  function ListScore(tab: RunTable, params: seq<Param>, args: seq<Value>): Option<nat> {
    if params == [] then Some(0)
    else
      var n := |params| - 1;
      match (ListScore(tab, params[..n], args), ParamScore(tab, params[n], args, n))
      case (Some(a), Some(b)) => Some(a + b)
      case _ => None
  }

  /** getParamTypes(): the parameters that have type information. */
  function ParamTypes(params: seq<Param>): nat {
    if params == [] then 0
    else ParamTypes(params[..|params| - 1]) + if HasType(params[|params| - 1].t) then 1 else 0
  }

  predicate ExtraArgsOk(v: Variant, args: seq<Value>) {
    |v.params| >= |args| || !v.strict || v.extraArgs ||
    forall i :: |v.params| <= i < |args| ==> args[i].Nothing?
  }

  predicate Considered(v: Variant, onlyUser: bool) {
    !(onlyUser && !v.isUser) && !(v.strict && v.runtimeNoop)
  }

  /** The variant can be called with these arguments. */
  predicate Applicable(tab: RunTable, v: Variant, args: seq<Value>, onlyUser: bool) {
    Considered(v, onlyUser) && ListScore(tab, v.params, args).Some? && ExtraArgsOk(v, args)
  }

  /** Every parameter that can add to a score is one that getParamTypes() counts. */
  predicate Counted(v: Variant) {
    forall p :: p in v.params ==> !p.t.Any?
  }

  /** A call is accepted if and only if every parameter either takes its default value, the argument being missing or
      NOTHING, or has no type to reject it, or accepts its argument, NOTHING if it is missing. */
  lemma {:induction false} WhenAccepted(tab: RunTable, params: seq<Param>, args: seq<Value>)
    ensures ListScore(tab, params, args).Some? <==>
      forall i :: 0 <= i < |params| ==>
        || (params[i].hasDefault && (i >= |args| || args[i] == Nothing))
        || params[i].t == NoInfo || params[i].t == Any
        || tab(params[i].t, if i < |args| then args[i] else Nothing) != NOT_EQUAL
  {
    if params != [] {
      var n := |params| - 1;
      WhenAccepted(tab, params[..n], args);
      assert forall i :: 0 <= i < n ==> params[..n][i] == params[i];
    }
  }

  /** The score of an accepted call is made of what the table gives for each argument that is passed to a parameter
      with type information; one that is replaced by a default value adds nothing. */
  lemma ScoreGrows(tab: RunTable, params: seq<Param>, args: seq<Value>)
    requires params != [] && ListScore(tab, params, args).Some?
    ensures var i, front := |params| - 1, params[..|params| - 1];
      var p := params[i];
      && ListScore(tab, front, args).Some?
      && var more := ListScore(tab, params, args).value - ListScore(tab, front, args).value;
      && (i >= |args| || p.t == NoInfo || (args[i] == Nothing && p.hasDefault) ==> more == 0)
      && (i < |args| && p.t == Any && !(args[i] == Nothing && p.hasDefault) ==> more == WILDCARD)
      && (i < |args| && HasType(p.t) && !(args[i] == Nothing && p.hasDefault) ==> more == tab(p.t, args[i]))
  {
  }

  lemma {:induction false} CountedBound(tab: RunTable, params: seq<Param>, args: seq<Value>)
    requires forall p :: p in params ==> !p.t.Any?
    ensures ListScore(tab, params, args).Some? ==>
      ListScore(tab, params, args).value <= ParamTypes(params) * IDENT
  {
    if params != [] {
      var n := |params| - 1;
      assert params[n] in params;
      assert forall p :: p in params[..n] ==> p in params;
      CountedBound(tab, params[..n], args);
    }
  }

  lemma {:induction false} LengthBound(tab: RunTable, params: seq<Param>, args: seq<Value>)
    ensures ListScore(tab, params, args).Some? ==>
      ListScore(tab, params, args).value <= |params| * IDENT
  {
    if params != [] {
      LengthBound(tab, params[..|params| - 1], args);
    }
  }

  lemma {:induction false} NoArgsNoScore(tab: RunTable, params: seq<Param>)
    ensures ListScore(tab, params, []).Some? ==> ListScore(tab, params, []).value == 0
  {
    if params != [] {
      NoArgsNoScore(tab, params[..|params| - 1]);
    }
  }
}

/** Selection at run time: QoreFunction::runtimeFindVariant() on argument values. */
module RuntimeResolution {
  import opened Common
  import opened Variants
  import Signatures

  /** The search state: score, score_len, variant (by position) and the break of the early exit. */
  datatype Search = Search(score: int, len: int, variant: Option<nat>, done: bool)

  const START := Search(-1, -1, None, false)

  /** One turn of the loop over the variants, with or without the pruning test. */
  function Visit(tab: RunTable, s: Search, v: Variant, k: nat, args: seq<Value>, onlyUser: bool, prune: bool): Search {
    if s.done || !Considered(v, onlyUser) then s
    else if args == [] && v.params == [] then s.(variant := Some(k), done := true)
    else if prune && ParamTypes(v.params) * IDENT < s.score then s
    else if !Applicable(tab, v, args, onlyUser) then s
    else
      var pscore := ListScore(tab, v.params, args).value;
      if pscore > s.score || (pscore == s.score && (s.len == -1 || |v.params| < s.len))
      then Search(pscore, |v.params|, Some(k), false)
      else s
  }

  function Scan(tab: RunTable, vs: seq<Variant>, args: seq<Value>, onlyUser: bool, prune: bool, n: nat): Search
    requires n <= |vs|
  {
    if n == 0 then START
    else Visit(tab, Scan(tab, vs, args, onlyUser, prune, n - 1), vs[n - 1], n - 1, args, onlyUser, prune)
  }

  /** The position of the variant that runtimeFindVariant() picks. */
  function Find(tab: RunTable, vs: seq<Variant>, args: seq<Value>, onlyUser: bool): Option<nat> {
    Scan(tab, vs, args, onlyUser, true, |vs|).variant
  }

  /** Variant `k` beats variant `j`: higher score, then fewer parameters, then earlier declaration. */
  predicate Beats(tab: RunTable, vs: seq<Variant>, args: seq<Value>, k: nat, j: nat)
    requires k < |vs| && j < |vs|
    requires ListScore(tab, vs[k].params, args).Some? && ListScore(tab, vs[j].params, args).Some?
  {
    var sk, sj := ListScore(tab, vs[k].params, args).value, ListScore(tab, vs[j].params, args).value;
    var lk, lj := |vs[k].params|, |vs[j].params|;
    sk > sj || (sk == sj && (lk < lj || (lk == lj && k <= j)))
  }

  /** Among the first `n` variants, `k` is applicable and beats every applicable one. */
  ghost predicate IsBest(tab: RunTable, vs: seq<Variant>, args: seq<Value>, onlyUser: bool, n: nat, k: nat)
    requires n <= |vs|
  {
    && k < n
    && Applicable(tab, vs[k], args, onlyUser)
    && forall j :: 0 <= j < n && Applicable(tab, vs[j], args, onlyUser) ==> Beats(tab, vs, args, k, j)
  }

  ghost predicate NoneApplicable(tab: RunTable, vs: seq<Variant>, args: seq<Value>, onlyUser: bool, n: nat)
    requires n <= |vs|
  {
    forall j :: 0 <= j < n ==> !Applicable(tab, vs[j], args, onlyUser)
  }

  /** What the search state knows after `n` variants. */
  ghost predicate Knows(tab: RunTable, vs: seq<Variant>, args: seq<Value>, onlyUser: bool, n: nat, s: Search)
    requires n <= |vs|
  {
    match s.variant
    case None => !s.done && s.score == -1 && s.len == -1 && NoneApplicable(tab, vs, args, onlyUser, n)
    case Some(k) =>
      && IsBest(tab, vs, args, onlyUser, n, k)
      && (if s.done then args == [] && vs[k].params == []
          else
            && s.score == ListScore(tab, vs[k].params, args).value && s.len == |vs[k].params|
            && (args == [] ==> vs[k].params != []))
  }

  lemma VisitKnows(tab: RunTable, vs: seq<Variant>, args: seq<Value>, onlyUser: bool, n: nat, s: Search)
    requires n < |vs| && Knows(tab, vs, args, onlyUser, n, s)
    ensures Knows(tab, vs, args, onlyUser, n + 1, Visit(tab, s, vs[n], n, args, onlyUser, false))
  {
    if args == [] {
      forall j | 0 <= j <= n
        ensures Applicable(tab, vs[j], args, onlyUser) ==> ListScore(tab, vs[j].params, args).value == 0
      {
        NoArgsNoScore(tab, vs[j].params);
      }
    }
  }

  lemma {:induction false} ScanKnows(tab: RunTable, vs: seq<Variant>, args: seq<Value>, onlyUser: bool, n: nat)
    requires n <= |vs|
    ensures Knows(tab, vs, args, onlyUser, n, Scan(tab, vs, args, onlyUser, false, n))
  {
    if n != 0 {
      ScanKnows(tab, vs, args, onlyUser, n - 1);
      VisitKnows(tab, vs, args, onlyUser, n - 1, Scan(tab, vs, args, onlyUser, false, n - 1));
    }
  }

  /** The pruned scan refines the unpruned one, step by step, on variants whose parameters count. */
  lemma {:induction false} PruningIsSafe(tab: RunTable, vs: seq<Variant>, args: seq<Value>, onlyUser: bool, n: nat)
    requires n <= |vs|
    requires forall v :: v in vs ==> Counted(v)
    ensures Scan(tab, vs, args, onlyUser, true, n) == Scan(tab, vs, args, onlyUser, false, n)
  {
    if n != 0 {
      PruningIsSafe(tab, vs, args, onlyUser, n - 1);
      assert vs[n - 1] in vs;
      CountedBound(tab, vs[n - 1].params, args);
    }
  }

  /** Run-time selection is a true best match: highest score, then fewest parameters, then the earliest
      declaration; and it fails only if nothing is applicable. */
  lemma FindIsBestMatch(tab: RunTable, vs: seq<Variant>, args: seq<Value>, onlyUser: bool)
    requires forall v :: v in vs ==> Counted(v)
    ensures match Find(tab, vs, args, onlyUser)
      case None => NoneApplicable(tab, vs, args, onlyUser, |vs|)
      case Some(k) => IsBest(tab, vs, args, onlyUser, |vs|, k)
  {
    PruningIsSafe(tab, vs, args, onlyUser, |vs|);
    ScanKnows(tab, vs, args, onlyUser, |vs|);
  }

  /** Whatever is found may be called: it is the program's own if only those are asked for, no variant to be ignored,
      and takes the arguments beyond its parameters. */
  lemma {:induction false} FoundMayBeCalled(tab: RunTable, vs: seq<Variant>, args: seq<Value>, onlyUser: bool, n: nat)
    requires n <= |vs| && Scan(tab, vs, args, onlyUser, true, n).variant.Some?
    ensures var k := Scan(tab, vs, args, onlyUser, true, n).variant.value;
      && k < n && (onlyUser ==> vs[k].isUser) && !(vs[k].strict && vs[k].runtimeNoop)
      && (vs[k].strict && !vs[k].extraArgs ==> forall i :: |vs[k].params| <= i < |args| ==> args[i] == Nothing)
  {
    if Scan(tab, vs, args, onlyUser, true, n - 1).variant.Some? {
      FoundMayBeCalled(tab, vs, args, onlyUser, n - 1);
    }
  }

  /** Values that match types of their own only; every type also accepts NOTHING, and no value is passed for
      the type of NOTHING itself. */
  const MATCHING: RunTable := (t: TypeInfo, n: Value) =>
    if t.Typed? && n.Val? && n.id != t.id then NOT_EQUAL else IDENT

  function ArgFor(t: TypeInfo): Value {
    if t.Typed? then Val(t.id) else Val(0)
  }

  /** An argument for each parameter that matches it perfectly. */
  function ArgsFor(params: seq<Param>): (args: seq<Value>)
    ensures |args| == |params| && forall i :: 0 <= i < |params| ==> args[i] == ArgFor(params[i].t)
  {
    seq(|params|, i requires 0 <= i < |params| => ArgFor(params[i].t))
  }

  /** With every argument a perfect match, each parameter type of the kind Any adds one uncounted point. */
  lemma {:induction false} UncountedScore(params: seq<Param>, args: seq<Value>)
    requires |params| <= |args| && forall i :: 0 <= i < |params| ==> args[i] == ArgFor(params[i].t)
    ensures ListScore(MATCHING, params, args).Some?
    ensures ListScore(MATCHING, params, args).value >= ParamTypes(params) * IDENT
    ensures (exists p :: p in params && p.t.Any?) ==>
      ListScore(MATCHING, params, args).value > ParamTypes(params) * IDENT
  {
    if params != [] {
      var m := |params| - 1;
      UncountedScore(params[..m], args);
      if p :| p in params && p.t.Any? {
        assert params == params[..m] + [params[m]];
        assert p in params[..m] || p == params[m];
      }
    }
  }

  /** Pruning is safe in every context only for such variants: any other variant can be skipped although
      it would have won, here against a longer variant declared before it.  The function with these two
      variants can be declared, whatever types are identical. */
  lemma PruningCanMissTheBest(v: Variant) returns (tab: RunTable, vs: seq<Variant>, args: seq<Value>)
    requires !Counted(v) && Considered(v, false)
    ensures v in vs && forall ident :: Signatures.Built(ident, vs)
    ensures Scan(tab, vs, args, false, true, |vs|).variant != Scan(tab, vs, args, false, false, |vs|).variant
  {
    var n, last := |v.params|, Param(Typed(0), false);
    tab := MATCHING;
    args := ArgsFor(v.params);
    var longer := v.(params := v.params + [last]);
    vs := [longer, v];
    forall ident
      ensures Signatures.Built(ident, vs)
    {
      Signatures.LongerIsDistinct(ident, v.params, last);
    }
    UncountedScore(v.params, args);
    assert longer.params[..n] == v.params;
    assert ListScore(tab, longer.params, args) == ListScore(tab, v.params, args);
    var p :| p in v.params && p.t.Any?;
    assert args != [];
    var s := ListScore(tab, v.params, args).value;
    forall prune: bool
      ensures Scan(tab, vs, args, false, prune, 1) == Search(s, n + 1, Some(0), false)
    {
      assert Scan(tab, vs, args, false, prune, 0) == START;
      assert Scan(tab, vs, args, false, prune, 1) == Visit(tab, START, longer, 0, args, false, prune);
    }
    assert Scan(tab, vs, args, false, false, 2) ==
      Visit(tab, Scan(tab, vs, args, false, false, 1), v, 1, args, false, false);
    assert Scan(tab, vs, args, false, true, 2) ==
      Visit(tab, Scan(tab, vs, args, false, true, 1), v, 1, args, false, true);
  }

  /** The loop over one variant's parameters. */
  method ScoreParams(tab: RunTable, params: seq<Param>, args: seq<Value>) returns (ok: bool, pscore: nat)
    ensures ok <==> ListScore(tab, params, args).Some?
    ensures ok ==> pscore == ListScore(tab, params, args).value
  {
    pscore := 0;
    var pi := 0;
    while pi < |params|
      invariant pi <= |params|
      invariant ListScore(tab, params[..pi], args) == Some(pscore)
    {
      assert params[..pi + 1][..pi] == params[..pi];
      var n := Arg(args, pi);
      if !(n.Nothing? && params[pi].hasDefault) {
        var rc := Accepts(tab, params[pi].t, n);
        if rc == NOT_EQUAL {
          Rejected(tab, params, args, pi);
          return false, 0;
        }
        if pi < |args| && !params[pi].t.NoInfo? {
          pscore := pscore + rc;
        }
      }
      pi := pi + 1;
    }
    assert params[..pi] == params;
    ok := true;
  }

  /** A parameter that rejects its argument rejects the call, whatever follows it. */
  lemma {:induction false} Rejected(tab: RunTable, params: seq<Param>, args: seq<Value>, pi: nat)
    requires pi < |params| && ParamScore(tab, params[pi], args, pi) == None
    ensures ListScore(tab, params, args) == None
  {
    var n := |params| - 1;
    if pi < n {
      Rejected(tab, params[..n], args, pi);
    }
  }

  /** runtimeFindVariant() over the variants of one function. */
  method FindVariant(tab: RunTable, vs: seq<Variant>, args: seq<Value>, onlyUser: bool) returns (variant: Option<nat>)
    ensures variant == Find(tab, vs, args, onlyUser)
  {
    var score: int, len: int := -1, -1;
    variant := None;
    var i := 0;
    while i < |vs|
      invariant i <= |vs|
      invariant Scan(tab, vs, args, onlyUser, true, i) == Search(score, len, variant, false)
    {
      var v := vs[i];
      i := i + 1;
      if !Considered(v, onlyUser) {
        continue;
      }
      if args == [] && v.params == [] {
        variant := Some(i - 1);
        DoneStays(tab, vs, args, onlyUser, i, |vs|);
        return;
      }
      if ParamTypes(v.params) * IDENT < score {
        continue;
      }
      var ok, pscore := ScoreParams(tab, v.params, args);
      if !ok {
        continue;
      }
      if |v.params| < |args| && v.strict && !v.extraArgs {
        if exists pi :: |v.params| <= pi < |args| && !args[pi].Nothing? {
          continue;
        }
      }
      if pscore > score || (pscore == score && (len == -1 || |v.params| < len)) {
        score := pscore;
        variant := Some(i - 1);
        len := |v.params|;
      }
    }
  }

  /** One function of the inheritance list, with the variants that are accessible and not abstract; `stop` is
      set if the search goes no further. */
  datatype Level = Level(variants: seq<Variant>, stop: bool)

  predicate Searched(levels: seq<Level>, l: nat)
    requires l <= |levels|
  {
    forall j :: 0 <= j < l ==> !levels[j].stop
  }

  /** runtimeFindVariant() over the inheritance list: the best match of the first function that has one. */
  method FindInHierarchy(tab: RunTable, levels: seq<Level>, args: seq<Value>, onlyUser: bool)
    returns (r: Option<(nat, nat)>)
    ensures r.Some? ==> var (l, k) := r.value;
      && l < |levels| && Searched(levels, l) && Find(tab, levels[l].variants, args, onlyUser) == Some(k)
      && forall j :: 0 <= j < l ==> Find(tab, levels[j].variants, args, onlyUser) == None
    ensures r == None ==>
      forall l :: 0 <= l < |levels| && Searched(levels, l) ==> Find(tab, levels[l].variants, args, onlyUser) == None
  {
    var l := 0;
    while l < |levels|
      invariant l <= |levels| && Searched(levels, l)
      invariant forall j :: 0 <= j < l ==> Find(tab, levels[j].variants, args, onlyUser) == None
    {
      var variant := FindVariant(tab, levels[l].variants, args, onlyUser);
      if variant.Some? {
        return Some((l, variant.value));
      }
      if levels[l].stop {
        break;
      }
      l := l + 1;
    }
    r := None;
  }

  /** How well a list of argument types matches a variant with as many parameters; None if it does not. */
  function TypeScore(fits: (TypeInfo, TypeInfo) -> int, params: seq<Param>, args: seq<TypeInfo>): Option<int>
    requires |params| == |args|
  {
    if params == [] then Some(0)
    else
      var n := |params| - 1;
      var rc := fits(params[n].t, args[n]);
      match TypeScore(fits, params[..n], args[..n])
      case Some(s) => if rc < WILDCARD then None else Some(s + rc)
      case None => None
  }

  /** A variant matches if and only if every parameter matches its argument type, and the last one adds its match. */
  lemma {:induction false} WhenTypesMatch(
      fits: (TypeInfo, TypeInfo) -> int, params: seq<Param>, args: seq<TypeInfo>)
    requires |params| == |args|
    ensures TypeScore(fits, params, args).Some? <==>
      forall i :: 0 <= i < |params| ==> fits(params[i].t, args[i]) >= WILDCARD
    ensures params != [] && TypeScore(fits, params, args).Some? ==>
      var n := |params| - 1;
      && TypeScore(fits, params[..n], args[..n]).Some?
      && TypeScore(fits, params, args).value ==
           TypeScore(fits, params[..n], args[..n]).value + fits(params[n].t, args[n])
  {
    if params != [] {
      var n := |params| - 1;
      WhenTypesMatch(fits, params[..n], args[..n]);
      assert forall i :: 0 <= i < n ==> params[..n][i] == params[i] && args[..n][i] == args[i];
    }
  }

  predicate TypeMatches(fits: (TypeInfo, TypeInfo) -> int, v: Variant, args: seq<TypeInfo>) {
    Considered(v, false) && |v.params| == |args| && TypeScore(fits, v.params, args).Some?
  }

  lemma {:induction false} TypeMismatch(
      fits: (TypeInfo, TypeInfo) -> int, params: seq<Param>, args: seq<TypeInfo>, pi: nat)
    requires |params| == |args| && pi < |args| && fits(params[pi].t, args[pi]) < WILDCARD
    ensures TypeScore(fits, params, args) == None
  {
    var n := |params| - 1;
    if pi < n {
      TypeMismatch(fits, params[..n], args[..n], pi);
    }
  }

  method ScoreTypes(fits: (TypeInfo, TypeInfo) -> int, params: seq<Param>, args: seq<TypeInfo>)
    returns (ok: bool, count: int)
    requires |params| == |args|
    ensures TypeScore(fits, params, args) == if ok then Some(count) else None
    ensures ok ==> count >= 0
  {
    count := 0;
    var pi := 0;
    while pi < |params|
      invariant pi <= |params| && count >= 0
      invariant TypeScore(fits, params[..pi], args[..pi]) == Some(count)
    {
      assert params[..pi + 1][..pi] == params[..pi] && args[..pi + 1][..pi] == args[..pi];
      var rc := fits(params[pi].t, args[pi]);
      if rc < WILDCARD {
        TypeMismatch(fits, params, args, pi);
        return false, 0;
      }
      count := count + rc;
      pi := pi + 1;
    }
    assert params[..pi] == params && args[..pi] == args;
    ok := true;
  }

  /** runtimeFindVariant() on argument types: among the variants with as many parameters as arguments, the
      earliest with the highest score. */
  method FindVariantByTypes(fits: (TypeInfo, TypeInfo) -> int, vs: seq<Variant>, args: seq<TypeInfo>)
    returns (variant: Option<nat>)
    ensures variant == None ==> forall j :: 0 <= j < |vs| ==> !TypeMatches(fits, vs[j], args)
    ensures variant.Some? ==>
      && variant.value < |vs| && TypeMatches(fits, vs[variant.value], args)
      && forall j :: 0 <= j < |vs| && TypeMatches(fits, vs[j], args) ==>
           var best, other :=
             TypeScore(fits, vs[variant.value].params, args).value, TypeScore(fits, vs[j].params, args).value;
           best > other || (best == other && variant.value <= j)
  {
    var best: int := -1;
    variant := None;
    var i := 0;
    while i < |vs|
      invariant i <= |vs|
      invariant variant == None ==> best == -1 && forall j :: 0 <= j < i ==> !TypeMatches(fits, vs[j], args)
      invariant variant.Some? ==>
        && variant.value < i && TypeMatches(fits, vs[variant.value], args)
        && TypeScore(fits, vs[variant.value].params, args) == Some(best)
        && forall j :: 0 <= j < i && TypeMatches(fits, vs[j], args) ==>
             best > TypeScore(fits, vs[j].params, args).value ||
             (best == TypeScore(fits, vs[j].params, args).value && variant.value <= j)
      invariant args == [] ==> variant == None
    {
      var v := vs[i];
      i := i + 1;
      if !Considered(v, false) {
        continue;
      }
      if args == [] && v.params == [] {
        return Some(i - 1);
      }
      if |v.params| != |args| {
        continue;
      }
      var ok, count := ScoreTypes(fits, v.params, args);
      if !ok {
        continue;
      }
      if count > best {
        variant, best := Some(i - 1), count;
      }
    }
  }

  lemma {:induction false} DoneStays(tab: RunTable, vs: seq<Variant>, args: seq<Value>, onlyUser: bool, i: nat, n: nat)
    requires i <= n <= |vs| && Scan(tab, vs, args, onlyUser, true, i).done
    ensures Scan(tab, vs, args, onlyUser, true, n) == Scan(tab, vs, args, onlyUser, true, i)
  {
    if i < n {
      DoneStays(tab, vs, args, onlyUser, i, n - 1);
    }
  }
}

/** Selection at parse time: QoreFunction::parseFindVariant() on argument types. */
module ParseResolution {
  import opened Common
  import opened Variants
  import Runtime = RuntimeResolution
  import Signatures

  type MaxScore = x: int | -1 <= x <= 4

  /** What parseAccepts() reports: the score, the best score possible (-1: not given) and whether a value
      of the argument's type may turn out not to match. */
  datatype Fit = Fit(rc: Score, maxRc: MaxScore, mayNotMatch: bool)

  datatype Tables = Tables(accepts: (TypeInfo, TypeInfo) -> Fit, mayBeNothing: TypeInfo -> bool)

  function ParseAccepts(tabs: Tables, t: TypeInfo, a: TypeInfo): Fit {
    if HasType(t) then tabs.accepts(t, a) else Fit(WILDCARD, WILDCARD, false)
  }

  /** The variables of the loop over a variant's parameters; `stop` is a break. */
  datatype Match = Match(
    pmatch: nat, pscore: nat, maxPscore: nat, nperfect: nat, runtimeMatch: bool, ok: bool, stop: bool)

  const FRESH := Match(0, 0, 0, 0, false, true, false)

  function ArgType(args: seq<TypeInfo>, i: nat): TypeInfo {
    if i < |args| then args[i] else NoInfo
  }

  function Passed(m: Match, rc: Score, maxRc: MaxScore, counts: bool): Match {
    if counts then
      m.(pmatch := m.pmatch + 1, pscore := m.pscore + rc,
         maxPscore := m.maxPscore + if maxRc == -1 then rc else maxRc)
    else
      m.(pmatch := m.pmatch + 1)
  }

  /** One turn of the loop over the parameters. */
  function VisitParam(tabs: Tables, m: Match, p: Param, args: seq<TypeInfo>, pi: nat): Match {
    var a := ArgType(args, pi);
    var counts := pi < |args| && HasType(a);
    if m.stop then m
    else if HasType(p.t) && pi < |args| && !HasType(a) then m.(runtimeMatch := true, stop := true)
    else if HasType(p.t) && pi >= |args| && p.hasDefault then m.(pmatch := m.pmatch + 1)
    else if HasType(p.t) && a.NothingType? && p.hasDefault then Passed(m, IDENT, IDENT, counts)
    else
      var fit := ParseAccepts(tabs, p.t, if HasType(p.t) && pi >= |args| then NothingType else a);
      if fit.mayNotMatch then m.(runtimeMatch := true)
      else
        var m1 := if fit.rc == IDENT then m.(nperfect := m.nperfect + 1) else m;
        if fit.rc == NOT_EQUAL then m1.(ok := false, stop := true)
        else Passed(m1, fit.rc, fit.maxRc, counts)
  }

  function MatchParams(tabs: Tables, params: seq<Param>, args: seq<TypeInfo>): Match {
    if params == [] then FRESH
    else
      var n := |params| - 1;
      VisitParam(tabs, MatchParams(tabs, params[..n], args), params[n], args, n)
  }

  /** check_extra_args(): some argument beyond the parameters cannot be NOTHING. */
  predicate ExtraArgsTyped(tabs: Tables, v: Variant, args: seq<TypeInfo>) {
    exists i :: |v.params| <= i < |args| && !tabs.mayBeNothing(args[i])
  }

  /** The variables of the search; `done` is a break out of the loop over the variants. */
  datatype Search = Search(
    scoreLen: int, score: int, pmatch: int, nperfect: int, npv: nat,
    variant: Option<nat>, pvariant: Option<nat>, runtimeMatch: bool, done: bool)

  const START := Search(-1, -1, -1, -1, 0, None, None, false, false)

  /** max_score: initialised and compared, but never assigned in the source. */
  const MAX_SCORE: int := -1

  predicate Wins(s: Search, m: Match, np: nat) {
    || (m.pscore > s.score && m.maxPscore >= MAX_SCORE)
    || (m.pscore == s.score &&
        (m.nperfect > s.nperfect || (m.nperfect == s.nperfect && (s.scoreLen == -1 || np < s.scoreLen))))
  }

  /** What an applicable variant does to the search. */
  function Weigh(s: Search, m: Match, np: nat, k: nat): Search {
    var s1 := s.(pvariant := if s.npv == 0 then s.variant else None, npv := s.npv + 1);
    if Wins(s, m, np) then
      if m.pmatch < s.pmatch then s1.(variant := None, runtimeMatch := true, done := true)
      else s1.(pmatch := m.pmatch, score := m.pscore, nperfect := m.nperfect, scoreLen := np, variant := Some(k))
    else if m.pmatch != 0 && (m.pmatch >= s.pmatch || m.maxPscore >= MAX_SCORE) then
      s1.(variant := None, pmatch := m.pmatch, scoreLen := -1)
    else s1
  }

  /** One turn of the loop over the variants. */
  function Visit(tabs: Tables, s: Search, v: Variant, k: nat, args: seq<TypeInfo>): Search {
    if s.done || (v.strict && (v.noop || v.runtimeNoop)) then s
    else if args == [] && v.params == [] then s.(variant := Some(k), done := true)
    else if |v.params| * IDENT < s.score then s
    else
      var m := MatchParams(tabs, v.params, args);
      if m.runtimeMatch then s.(runtimeMatch := true, variant := None, done := true)
      else if !m.ok then s
      else if |v.params| < |args| && !v.extraArgs && v.strict && ExtraArgsTyped(tabs, v, args) then s
      else Weigh(s, m, |v.params|, k)
  }

  function Scan(tabs: Tables, vs: seq<Variant>, args: seq<TypeInfo>, n: nat): (s: Search)
    requires n <= |vs|
    ensures s.variant.Some? ==> s.variant.value < n
    ensures s.pvariant.Some? ==> s.pvariant.value < n
  {
    if n == 0 then START
    else Visit(tabs, Scan(tabs, vs, args, n - 1), vs[n - 1], n - 1, args)
  }

  /** The position of the variant parseFindVariant() settles on; None leaves the choice to run time. */
  function Find(tabs: Tables, vs: seq<Variant>, args: seq<TypeInfo>): (r: Option<nat>)
    ensures r.Some? ==> r.value < |vs|
  {
    var s := Scan(tabs, vs, args, |vs|);
    if s.variant == None && s.pvariant != None then s.pvariant else s.variant
  }

  /** pvariant, meant to hold the only possible variant, is never set on any input. */
  lemma {:induction false} PvariantIsNeverSet(tabs: Tables, vs: seq<Variant>, args: seq<TypeInfo>, n: nat)
    requires n <= |vs|
    ensures Scan(tabs, vs, args, n).pvariant == None
    ensures var s := Scan(tabs, vs, args, n); s.npv == 0 && !s.done ==> s.variant == None
  {
    if n != 0 {
      PvariantIsNeverSet(tabs, vs, args, n - 1);
    }
  }

  /** A variant to be ignored is never settled on. */
  lemma {:induction false} NoopsAreIgnored(tabs: Tables, vs: seq<Variant>, args: seq<TypeInfo>, n: nat)
    requires n <= |vs| && Scan(tabs, vs, args, n).variant.Some?
    ensures var v := vs[Scan(tabs, vs, args, n).variant.value]; !(v.strict && (v.noop || v.runtimeNoop))
  {
    if Scan(tabs, vs, args, n - 1).variant.Some? {
      NoopsAreIgnored(tabs, vs, args, n - 1);
    }
  }

  /** A variant whose parameters are all typed, without default values, and which is no noop. */
  predicate Plain(v: Variant) {
    && !v.noop && !v.runtimeNoop
    && forall p :: p in v.params ==> HasType(p.t) && !p.hasDefault
  }

  /** For these argument types parse time foresees exactly what happens at run time with these values. */
  ghost predicate Exact(tabs: Tables, tab: RunTable, types: seq<TypeInfo>, values: seq<Value>) {
    && |types| == |values|
    && (forall i :: 0 <= i < |types| ==> HasType(types[i]) && (tabs.mayBeNothing(types[i]) <==> values[i].Nothing?))
    && (forall t, i :: 0 <= i < |types| && HasType(t) ==>
          tabs.accepts(t, types[i]).rc == tab(t, values[i]) && !tabs.accepts(t, types[i]).mayNotMatch)
    && (forall t :: HasType(t) ==>
          tabs.accepts(t, NothingType).rc == tab(t, Nothing) && !tabs.accepts(t, NothingType).mayNotMatch)
  }

  /** A typed parameter adds the same at parse time and at run time, or rejects the argument at both. */
  lemma ParamIsScore(tabs: Tables, tab: RunTable, p: Param, types: seq<TypeInfo>, values: seq<Value>, pi: nat)
    requires Exact(tabs, tab, types, values) && HasType(p.t) && !p.hasDefault
    ensures forall m: Match :: !m.stop ==>
      var m', r := VisitParam(tabs, m, p, types, pi), ParamScore(tab, p, values, pi);
      && m'.runtimeMatch == m.runtimeMatch
      && (if r.Some? then m'.ok == m.ok && !m'.stop && m'.pscore == m.pscore + r.value && m'.pmatch == m.pmatch + 1
          else !m'.ok && m'.stop)
  {
  }

  lemma {:induction false} MatchIsScore(
      tabs: Tables, tab: RunTable, params: seq<Param>, types: seq<TypeInfo>, values: seq<Value>)
    requires Exact(tabs, tab, types, values)
    requires forall p :: p in params ==> HasType(p.t) && !p.hasDefault
    ensures var m := MatchParams(tabs, params, types);
      && !m.runtimeMatch
      && (m.ok <==> ListScore(tab, params, values).Some?)
      && (m.ok <==> !m.stop)
      && (m.ok ==> m.pscore == ListScore(tab, params, values).value && m.pmatch == |params|)
  {
    if params != [] {
      var n := |params| - 1;
      assert params[n] in params;
      assert forall p :: p in params[..n] ==> p in params;
      MatchIsScore(tabs, tab, params[..n], types, values);
      ParamIsScore(tabs, tab, params[n], types, values, n);
    }
  }

  lemma ExtraArgsAgree(tabs: Tables, tab: RunTable, v: Variant, types: seq<TypeInfo>, values: seq<Value>)
    requires Exact(tabs, tab, types, values)
    ensures ExtraArgsOk(v, values) <==>
      !(|v.params| < |types| && !v.extraArgs && v.strict && ExtraArgsTyped(tabs, v, types))
  {
  }

  /** `k` is applicable and no applicable variant among the first `n` scores higher. */
  ghost predicate TopScore(tab: RunTable, vs: seq<Variant>, values: seq<Value>, n: nat, k: nat)
    requires n <= |vs|
  {
    && k < n
    && Applicable(tab, vs[k], values, false)
    && AtMost(tab, vs, values, n, ListScore(tab, vs[k].params, values).value)
  }

  ghost predicate AtMost(tab: RunTable, vs: seq<Variant>, values: seq<Value>, n: nat, score: int)
    requires n <= |vs|
  {
    forall j :: 0 <= j < n && Applicable(tab, vs[j], values, false) ==>
      ListScore(tab, vs[j].params, values).value <= score
  }

  ghost predicate Knows(tab: RunTable, vs: seq<Variant>, values: seq<Value>, n: nat, s: Search)
    requires n <= |vs|
  {
    && (s.variant.Some? ==> TopScore(tab, vs, values, n, s.variant.value))
    && (s.variant.Some? && !s.done ==> s.score == ListScore(tab, vs[s.variant.value].params, values).value)
    && (s.variant.Some? && s.done ==> values == [])
    && (!s.done ==> AtMost(tab, vs, values, n, s.score))
  }

  /** A variant that is not applicable, or cannot reach the best score, may be passed over. */
  lemma SkipKnows(tab: RunTable, vs: seq<Variant>, values: seq<Value>, n: nat, s: Search)
    requires n < |vs| && Knows(tab, vs, values, n, s) && !s.done
    requires Applicable(tab, vs[n], values, false) ==> ListScore(tab, vs[n].params, values).value <= s.score
    ensures Knows(tab, vs, values, n + 1, s)
  {
  }

  lemma WeighKnows(tab: RunTable, vs: seq<Variant>, values: seq<Value>, n: nat, s: Search, m: Match)
    requires n < |vs| && Knows(tab, vs, values, n, s) && !s.done
    requires Applicable(tab, vs[n], values, false) && m.pscore == ListScore(tab, vs[n].params, values).value
    ensures Knows(tab, vs, values, n + 1, Weigh(s, m, |vs[n].params|, n))
  {
  }

  /** The early exit of a call without arguments: nothing can score more than zero. */
  lemma NoArgsKnows(tab: RunTable, vs: seq<Variant>, n: nat, s: Search)
    requires n < |vs| && vs[n].params == [] && Considered(vs[n], false)
    ensures Applicable(tab, vs[n], [], false)
    ensures AtMost(tab, vs, [], n + 1, 0)
  {
    forall j | 0 <= j <= n
      ensures Applicable(tab, vs[j], [], false) ==> ListScore(tab, vs[j].params, []).value == 0
    {
      NoArgsNoScore(tab, vs[j].params);
    }
  }

  /** After the early exit nothing changes. */
  lemma DoneKnows(tab: RunTable, vs: seq<Variant>, values: seq<Value>, n: nat, s: Search)
    requires n < |vs| && Knows(tab, vs, values, n, s) && s.done
    ensures Knows(tab, vs, values, n + 1, s)
  {
    if values == [] {
      NoArgsNoScore(tab, vs[n].params);
    }
  }

  lemma VisitKnows(
      tabs: Tables, tab: RunTable, vs: seq<Variant>, types: seq<TypeInfo>, values: seq<Value>, n: nat, s: Search)
    requires n < |vs| && Plain(vs[n]) && Exact(tabs, tab, types, values)
    requires Knows(tab, vs, values, n, s)
    ensures Knows(tab, vs, values, n + 1, Visit(tabs, s, vs[n], n, types))
  {
    var v := vs[n];
    if s.done {
      DoneKnows(tab, vs, values, n, s);
    } else if types == [] && v.params == [] {
      NoArgsKnows(tab, vs, n, s);
    } else if |v.params| * IDENT < s.score {
      LengthBound(tab, v.params, values);
      SkipKnows(tab, vs, values, n, s);
    } else {
      MatchIsScore(tabs, tab, v.params, types, values);
      ExtraArgsAgree(tabs, tab, v, types, values);
      if Applicable(tab, v, values, false) {
        WeighKnows(tab, vs, values, n, s, MatchParams(tabs, v.params, types));
      } else {
        SkipKnows(tab, vs, values, n, s);
      }
    }
  }

  lemma StartKnows(tab: RunTable, vs: seq<Variant>, values: seq<Value>)
    ensures Knows(tab, vs, values, 0, START)
  {
  }

  lemma {:induction false} ScanKnows(
      tabs: Tables, tab: RunTable, vs: seq<Variant>, types: seq<TypeInfo>, values: seq<Value>, n: nat)
    requires n <= |vs| && Exact(tabs, tab, types, values)
    requires forall v :: v in vs ==> Plain(v)
    ensures Knows(tab, vs, values, n, Scan(tabs, vs, types, n))
  {
    hide Knows, Visit, Plain, Exact;
    if n == 0 {
      StartKnows(tab, vs, values);
    } else {
      ScanKnows(tabs, tab, vs, types, values, n - 1);
      assert vs[n - 1] in vs;
      VisitKnows(tabs, tab, vs, types, values, n - 1, Scan(tabs, vs, types, n - 1));
    }
  }

  /** Variant `k` also wins every tie by the rule of run-time selection. */
  ghost predicate WinsTies(tab: RunTable, vs: seq<Variant>, values: seq<Value>, k: nat)
    requires k < |vs| && Applicable(tab, vs[k], values, false)
  {
    forall j | 0 <= j < |vs| && Applicable(tab, vs[j], values, false) &&
               ListScore(tab, vs[j].params, values) == ListScore(tab, vs[k].params, values) ::
      |vs[k].params| < |vs[j].params| || (|vs[k].params| == |vs[j].params| && k <= j)
  }

  /** Over plain variants and exact argument types: a variant chosen at parse time has the highest score
      at run time, and run time picks the same variant if and only if it wins the ties. */
  lemma ParseTimeChoice(
      tabs: Tables, tab: RunTable, vs: seq<Variant>, types: seq<TypeInfo>, values: seq<Value>)
    requires forall v :: v in vs ==> Plain(v)
    requires Exact(tabs, tab, types, values)
    requires Find(tabs, vs, types).Some?
    ensures var k := Find(tabs, vs, types).value;
      && TopScore(tab, vs, values, |vs|, k)
      && (Runtime.Find(tab, vs, values, false) == Some(k) <==> WinsTies(tab, vs, values, k))
  {
    PvariantIsNeverSet(tabs, vs, types, |vs|);
    ScanKnows(tabs, tab, vs, types, values, |vs|);
    assert forall v :: v in vs ==> Plain(v) && Counted(v);
    Runtime.FindIsBestMatch(tab, vs, values, false);
    var k := Find(tabs, vs, types).value;
    var r := Runtime.Find(tab, vs, values, false);
    assert Runtime.IsBest(tab, vs, values, false, |vs|, r.value);
    if WinsTies(tab, vs, values, k) {
      assert Runtime.Beats(tab, vs, values, r.value, k);
    }
  }

  /** No other applicable variant has the score of variant `k`. */
  ghost predicate Untied(tab: RunTable, vs: seq<Variant>, values: seq<Value>, k: nat)
    requires k < |vs|
  {
    forall j :: 0 <= j < |vs| && j != k && Applicable(tab, vs[j], values, false) ==>
      ListScore(tab, vs[j].params, values) != ListScore(tab, vs[k].params, values)
  }

  /** Without a tie, run time returns the variant that parse time settled on. */
  lemma UntiedChoiceIsFinal(
      tabs: Tables, tab: RunTable, vs: seq<Variant>, types: seq<TypeInfo>, values: seq<Value>)
    requires forall v :: v in vs ==> Plain(v)
    requires Exact(tabs, tab, types, values)
    requires Find(tabs, vs, types).Some? && Untied(tab, vs, values, Find(tabs, vs, types).value)
    ensures Runtime.Find(tab, vs, values, false) == Find(tabs, vs, types)
  {
    ParseTimeChoice(tabs, tab, vs, types, values);
  }

  /** Scores of an argument against f(T1), f(T2) and f(T3): the first and the last form tie. */
  function TieScore(t: TypeInfo): Score {
    match t
    case Typed(1) => 3
    case Typed(2) => 2
    case Typed(3) => 3
    case _ => NOT_EQUAL
  }

  const TIE_RUN: RunTable := (t: TypeInfo, n: Value) => if n.Nothing? then NOT_EQUAL else TieScore(t)

  const TIE_PARSE := Tables(
    (t: TypeInfo, a: TypeInfo) => Fit(if a.NothingType? then NOT_EQUAL else TieScore(t), -1, false),
    (a: TypeInfo) => false)

  function Unary(id: nat): Variant {
    Variant([Param(Typed(id), false)], true, true, false, false, false)
  }

  lemma UnaryMatch(id: nat)
    requires 1 <= id <= 3
    ensures MatchParams(TIE_PARSE, Unary(id).params, [Typed(9)]) ==
      Match(1, TieScore(Typed(id)), TieScore(Typed(id)), 0, false, true, false)
    ensures Applicable(TIE_RUN, Unary(id), [Val(0)], false)
    ensures ListScore(TIE_RUN, Unary(id).params, [Val(0)]) == Some(TieScore(Typed(id)))
  {
    assert Unary(id).params[..0] == [];
    assert MatchParams(TIE_PARSE, Unary(id).params[..0], [Typed(9)]) == FRESH;
    assert ListScore(TIE_RUN, Unary(id).params[..0], [Val(0)]) == Some(0);
  }

  lemma TieExact()
    ensures Exact(TIE_PARSE, TIE_RUN, [Typed(9)], [Val(0)])
  {
  }

  /** With a tie they can differ: once the weaker f(T2) has discarded f(T1), parse time settles on f(T3),
      while run time prefers f(T1) for being declared first. */
  lemma TiedChoiceCanDiffer(vs: seq<Variant>)
    requires vs == [Unary(1), Unary(2), Unary(3)]
    ensures (forall v :: v in vs ==> Plain(v)) && Exact(TIE_PARSE, TIE_RUN, [Typed(9)], [Val(0)])
    ensures Signatures.Built(Signatures.SAME, vs)
    ensures Find(TIE_PARSE, vs, [Typed(9)]) == Some(2)
    ensures Runtime.Find(TIE_RUN, vs, [Val(0)], false) == Some(0)
  {
    forall i, j | 0 <= i < j < 3
      ensures !Signatures.Clash(Signatures.SAME, vs[j].params, vs[i].params)
    {
      Signatures.UnaryDistinct(Signatures.SAME, vs[j].params[0], vs[i].params[0]);
    }
    TieExact();
    TieAtParseTime(vs);
    TieAtRunTime(vs);
  }

  lemma TieAtParseTime(vs: seq<Variant>)
    requires vs == [Unary(1), Unary(2), Unary(3)]
    ensures Find(TIE_PARSE, vs, [Typed(9)]) == Some(2)
  {
    hide MatchParams, ListScore;
    UnaryMatch(1);
    UnaryMatch(2);
    UnaryMatch(3);
    var s1 := Search(1, 3, 1, 0, 1, Some(0), None, false, false);
    var s2 := s1.(scoreLen := -1, npv := 2, variant := None);
    assert Visit(TIE_PARSE, START, vs[0], 0, [Typed(9)]) == s1;
    assert Visit(TIE_PARSE, s1, vs[1], 1, [Typed(9)]) == s2;
    assert Visit(TIE_PARSE, s2, vs[2], 2, [Typed(9)]).variant == Some(2);
    assert Scan(TIE_PARSE, vs, [Typed(9)], 0) == START;
    assert Scan(TIE_PARSE, vs, [Typed(9)], 1) == s1;
    assert Scan(TIE_PARSE, vs, [Typed(9)], 2) == s2;
  }

  lemma TieAtRunTime(vs: seq<Variant>)
    requires vs == [Unary(1), Unary(2), Unary(3)]
    ensures Runtime.Find(TIE_RUN, vs, [Val(0)], false) == Some(0)
  {
    hide MatchParams, ListScore, Applicable, Runtime.Find;
    UnaryMatch(1);
    UnaryMatch(2);
    UnaryMatch(3);
    Runtime.FindIsBestMatch(TIE_RUN, vs, [Val(0)], false);
    assert Applicable(TIE_RUN, vs[0], [Val(0)], false);
  }

  /** The loop over one variant's parameters. */
  method MatchVariant(tabs: Tables, params: seq<Param>, args: seq<TypeInfo>) returns (m: Match)
    ensures m == MatchParams(tabs, params, args)
  {
    m := FRESH;
    var pi := 0;
    while pi < |params|
      invariant pi <= |params|
      invariant m == MatchParams(tabs, params[..pi], args) && !m.stop
    {
      assert params[..pi + 1][..pi] == params[..pi];
      m := VisitParam(tabs, m, params[pi], args, pi);
      pi := pi + 1;
      if m.stop {
        StopStays(tabs, params, args, pi);
        return;
      }
    }
    assert params[..pi] == params;
  }

  lemma {:induction false} StopStays(tabs: Tables, params: seq<Param>, args: seq<TypeInfo>, pi: nat)
    requires pi <= |params| && MatchParams(tabs, params[..pi], args).stop
    ensures MatchParams(tabs, params, args) == MatchParams(tabs, params[..pi], args)
  {
    if pi == |params| {
      assert params[..pi] == params;
    } else {
      var n := |params| - 1;
      assert params[..n][..pi] == params[..pi];
      StopStays(tabs, params[..n], args, pi);
    }
  }

  lemma {:induction false} DoneStays(tabs: Tables, vs: seq<Variant>, args: seq<TypeInfo>, i: nat, n: nat)
    requires i <= n <= |vs| && Scan(tabs, vs, args, i).done
    ensures Scan(tabs, vs, args, n) == Scan(tabs, vs, args, i)
  {
    if i < n {
      DoneStays(tabs, vs, args, i, n - 1);
    }
  }

  /** parseFindVariant() over the variants of one function. */
  method FindVariant(tabs: Tables, vs: seq<Variant>, args: seq<TypeInfo>) returns (variant: Option<nat>)
    ensures variant == Find(tabs, vs, args)
  {
    var s := START;
    var i := 0;
    while i < |vs|
      invariant i <= |vs|
      invariant s == Scan(tabs, vs, args, i) && !s.done
    {
      var v, k := vs[i], i;
      i := i + 1;
      if v.strict && (v.noop || v.runtimeNoop) {
        continue;
      }
      if args == [] && v.params == [] {
        s := s.(variant := Some(k), done := true);
        break;
      }
      if |v.params| * IDENT >= s.score {
        var m := MatchVariant(tabs, v.params, args);
        if m.runtimeMatch {
          s := s.(runtimeMatch := true, variant := None, done := true);
          break;
        }
        if !m.ok {
          continue;
        }
        if |v.params| < |args| && !v.extraArgs && v.strict &&
           exists pi :: |v.params| <= pi < |args| && !tabs.mayBeNothing(args[pi]) {
          continue;
        }
        s := Weigh(s, m, |v.params|, k);
        if s.done {
          break;
        }
      }
    }
    if s.done {
      DoneStays(tabs, vs, args, i, |vs|);
    }
    variant := if s.variant == None && s.pvariant != None then s.pvariant else s.variant;
  }
}
