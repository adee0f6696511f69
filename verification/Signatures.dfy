/** Adding variants to a function and looking one up by its exact signature, after lib/Function.cpp. */
module Signatures {
  import opened Common
  import opened Variants

  /** Whether two types with type information accept the same input. */
  type IdentTable = (TypeInfo, TypeInfo) -> bool

  const SAME: IdentTable := (a: TypeInfo, b: TypeInfo) => a == b

  /** QoreTypeInfo::isInputIdentical(). */
  predicate InputIdentical(tab: IdentTable, a: TypeInfo, b: TypeInfo) {
    a == b || (if HasType(a) && HasType(b) then tab(a, b) else !HasType(a) && !HasType(b))
  }

  function ParamAt(params: seq<Param>, i: nat): Param {
    if i < |params| then params[i] else Param(NoInfo, false)
  }

  /** getMinParamTypes(): the typed parameters without a default value. */
  function MinParamTypes(params: seq<Param>): nat {
    if params == [] then 0
    else
      var n := |params| - 1;
      MinParamTypes(params[..n]) + if HasType(params[n].t) && !params[n].hasDefault then 1 else 0
  }

  /** Whether a parameter `p` of the new variant lets it pass for one with parameter `q` in that place. */
  predicate Confusable(tab: IdentTable, p: Param, q: Param) {
    if !p.t.NoInfo? then
      (!HasType(q.t) && p.hasDefault) || (!q.t.NoInfo? && InputIdentical(tab, p.t, q.t))
    else
      (HasType(q.t) && q.hasDefault) || q.t.NoInfo? || InputIdentical(tab, p.t, q.t)
  }

  function Max(a: nat, b: nat): nat {
    if a < b then b else a
  }

  /** parseCheckDuplicateSignature() for one existing variant, all types being resolved. */
  predicate Clash(tab: IdentTable, params: seq<Param>, existing: seq<Param>) {
    && MinParamTypes(params) <= ParamTypes(existing)
    && MinParamTypes(existing) <= ParamTypes(params)
    && (ParamTypes(existing) == 0 ||
        forall i :: 0 <= i < Max(|params|, |existing|) ==>
          Confusable(tab, ParamAt(params, i), ParamAt(existing, i)))
  }

  /** The variant lists that successful additions can produce, in order of declaration. */
  ghost predicate Built(tab: IdentTable, vs: seq<Variant>) {
    forall i, j :: 0 <= i < j < |vs| ==> !Clash(tab, vs[j].params, vs[i].params)
  }

  /** A variant and one with one more parameter, of a type of its own, can be told apart. */
  lemma LongerIsDistinct(tab: IdentTable, params: seq<Param>, last: Param)
    requires HasType(last.t) && !last.hasDefault
    ensures !Clash(tab, params, params + [last])
  {
    var n, longer := |params|, params + [last];
    assert longer[..n] == params;
    assert ParamTypes(longer) > 0;
    assert !Confusable(tab, ParamAt(params, n), ParamAt(longer, n));
  }

  /** A variant and one with one more typed parameter clash, in either order, if and only if that parameter has a
      default value, for then a call can leave it out. */
  lemma LongerClashes(tab: IdentTable, params: seq<Param>, last: Param)
    requires HasType(last.t)
    ensures Clash(tab, params, params + [last]) <==> last.hasDefault
    ensures Clash(tab, params + [last], params) <==> last.hasDefault
  {
    var n, longer := |params|, params + [last];
    assert longer[..n] == params;
    CountsInOrder(params);
    if last.hasDefault {
      forall i | 0 <= i <= n
        ensures Confusable(tab, ParamAt(params, i), ParamAt(longer, i))
        ensures Confusable(tab, ParamAt(longer, i), ParamAt(params, i))
      {
      }
    } else {
      LongerIsDistinct(tab, params, last);
      assert !Confusable(tab, ParamAt(longer, n), ParamAt(params, n));
    }
  }

  lemma {:induction false} CountsInOrder(params: seq<Param>)
    ensures MinParamTypes(params) <= ParamTypes(params)
  {
    if params != [] {
      CountsInOrder(params[..|params| - 1]);
    }
  }

  /** Two variants with one typed parameter each clash if and only if the types accept the same input. */
  lemma UnaryClash(tab: IdentTable, p: Param, q: Param)
    requires HasType(p.t) && HasType(q.t)
    ensures Clash(tab, [p], [q]) <==> p.t == q.t || tab(p.t, q.t)
  {
    assert [p][..0] == [] && [q][..0] == [];
    assert MinParamTypes([p]) <= 1 == ParamTypes([p]) && MinParamTypes([q]) <= 1 == ParamTypes([q]);
    assert Clash(tab, [p], [q]) <==> Confusable(tab, ParamAt([p], 0), ParamAt([q], 0));
  }

  lemma UnaryDistinct(tab: IdentTable, p: Param, q: Param)
    requires HasType(p.t) && HasType(q.t) && p.t != q.t && !tab(p.t, q.t)
    ensures !Clash(tab, [p], [q])
  {
    assert ParamTypes([q]) > 0;
    assert !Confusable(tab, ParamAt([p], 0), ParamAt([q], 0));
  }

  class QoreFunction {
    var vlist: seq<Variant>
    var parseInitDone: bool
    var parseRtDone: bool
    var checkParse: bool

    constructor ()
      ensures vlist == [] && !parseInitDone
    {
      vlist, parseInitDone, parseRtDone, checkParse := [], false, false, false;
    }

    method CheckDuplicateSignature(tab: IdentTable, v: Variant) returns (duplicate: bool)
      ensures duplicate <==> exists i :: 0 <= i < |vlist| && Clash(tab, v.params, vlist[i].params)
    {
      var i := 0;
      while i < |vlist|
        invariant i <= |vlist|
        invariant forall j :: 0 <= j < i ==> !Clash(tab, v.params, vlist[j].params)
      {
        var vs := vlist[i].params;
        i := i + 1;
        if MinParamTypes(v.params) > ParamTypes(vs) || ParamTypes(v.params) < MinParamTypes(vs) {
          continue;
        }
        if ParamTypes(vs) == 0 {
          return true;
        }
        var dup, pi := true, 0;
        var max := Max(|v.params|, |vs|);
        while pi < max && dup
          invariant pi <= max
          invariant dup ==> forall j :: 0 <= j < pi ==> Confusable(tab, ParamAt(v.params, j), ParamAt(vs, j))
          invariant !dup ==>
            exists j :: 0 <= j < max && !Confusable(tab, ParamAt(v.params, j), ParamAt(vs, j))
        {
          dup := Confusable(tab, ParamAt(v.params, pi), ParamAt(vs, pi));
          pi := pi + 1;
        }
        if dup {
          return true;
        }
      }
      duplicate := false;
    }

    method AddPendingVariant(tab: IdentTable, v: Variant) returns (ok: bool)
      requires Built(tab, vlist)
      modifies this
      ensures ok <==>
        && (old(vlist) == [] || !old(parseInitDone))
        && forall i :: 0 <= i < |old(vlist)| ==> !Clash(tab, v.params, old(vlist)[i].params)
      ensures vlist == if ok then old(vlist) + [v] else old(vlist)
      ensures if old(vlist) != [] && old(parseInitDone)
              then parseInitDone && parseRtDone == old(parseRtDone) && checkParse == old(checkParse)
              else !parseInitDone && !parseRtDone && checkParse
      ensures Built(tab, vlist)
    {
      if vlist != [] && parseInitDone {
        return false;
      }
      parseRtDone, parseInitDone, checkParse := false, false, true;
      var duplicate := CheckDuplicateSignature(tab, v);
      if duplicate {
        return false;
      }
      vlist := vlist + [v];
      ok := true;
    }
  }

  function Types(params: seq<Param>): (ts: seq<TypeInfo>)
    ensures |ts| == |params| && forall i :: 0 <= i < |ts| ==> ts[i] == params[i].t
  {
    seq(|params|, i requires 0 <= i < |params| => params[i].t)
  }

  lemma {:induction false} TypeCounts(p: seq<Param>, q: seq<Param>)
    requires Types(p) == Types(q)
    ensures ParamTypes(p) == ParamTypes(q) && MinParamTypes(p) <= ParamTypes(q)
  {
    if p != [] {
      var n := |p| - 1;
      assert |p| == |Types(p)| == |q|;
      assert Types(p)[n] == Types(q)[n];
      forall i | 0 <= i < n
        ensures Types(p[..n])[i] == Types(q[..n])[i]
      {
        assert Types(p)[i] == Types(q)[i];
      }
      assert Types(p[..n]) == Types(q[..n]);
      TypeCounts(p[..n], q[..n]);
    }
  }

  /** However variants were added, no two of them have the same list of parameter types. */
  lemma SignaturesAreDistinct(tab: IdentTable, vs: seq<Variant>, i: nat, j: nat)
    requires Built(tab, vs) && i < j < |vs|
    ensures Types(vs[i].params) != Types(vs[j].params)
  {
    var p, q := vs[j].params, vs[i].params;
    if Types(p) == Types(q) {
      TypeCounts(p, q);
      TypeCounts(q, p);
      assert |p| == |Types(p)| == |q|;
      forall k | 0 <= k < |p|
        ensures Confusable(tab, ParamAt(p, k), ParamAt(q, k))
      {
        assert Types(p)[k] == Types(q)[k];
      }
      assert Clash(tab, p, q);
    }
  }

  /** runtimeFindExactVariant(): the variant has exactly these parameter types. */
  predicate ExactMatch(v: Variant, args: seq<TypeInfo>) {
    && |v.params| == |args|
    && forall i :: 0 <= i < |args| ==> v.params[i].t == args[i] || (v.params[i].t.NoInfo? && args[i].Any?)
  }

  /** The loop over the variants from position `i`, with `found` the match so far. */
  function ScanExact(vs: seq<Variant>, args: seq<TypeInfo>, i: nat, found: Option<Variant>): Option<Variant>
    requires i <= |vs|
    decreases |vs| - i
  {
    if i == |vs| then found
    else if !Considered(vs[i], false) then ScanExact(vs, args, i + 1, found)
    else if args == [] && vs[i].params == [] then Some(vs[i])
    else if ExactMatch(vs[i], args) then ScanExact(vs, args, i + 1, Some(vs[i]))
    else ScanExact(vs, args, i + 1, found)
  }

  function FindExact(vs: seq<Variant>, args: seq<TypeInfo>): Option<Variant> {
    ScanExact(vs, args, 0, None)
  }

  method FindExactVariant(vs: seq<Variant>, args: seq<TypeInfo>) returns (variant: Option<Variant>)
    ensures variant == FindExact(vs, args)
  {
    variant := None;
    var i := 0;
    while i < |vs|
      invariant i <= |vs|
      invariant FindExact(vs, args) == ScanExact(vs, args, i, variant)
    {
      if !Considered(vs[i], false) {
        i := i + 1;
        continue;
      }
      if args == [] && vs[i].params == [] {
        return Some(vs[i]);
      }
      if |vs[i].params| == |args| {
        var ok, pi := true, 0;
        while pi < |args| && ok
          invariant pi <= |args|
          invariant ok ==> forall j :: 0 <= j < pi ==>
            vs[i].params[j].t == args[j] || (vs[i].params[j].t.NoInfo? && args[j].Any?)
          invariant !ok ==> !ExactMatch(vs[i], args)
        {
          ok := vs[i].params[pi].t == args[pi] || (vs[i].params[pi].t.NoInfo? && args[pi].Any?);
          pi := pi + 1;
        }
        if ok {
          variant := Some(vs[i]);
        }
      }
      i := i + 1;
    }
  }

  /** The only types the exact lookup does not tell apart: no information, and any. */
  function Blur(ts: seq<TypeInfo>): (r: seq<TypeInfo>)
    ensures |r| == |ts|
    ensures forall i :: 0 <= i < |ts| ==> r[i] == if ts[i].NoInfo? then Any else ts[i]
  {
    seq(|ts|, i requires 0 <= i < |ts| => if ts[i].NoInfo? then Any else ts[i])
  }

  ghost predicate TellsApart(vs: seq<Variant>) {
    forall i, j :: 0 <= i < j < |vs| ==> Blur(Types(vs[i].params)) != Blur(Types(vs[j].params))
  }

  lemma MatchesBlur(v: Variant, args: seq<TypeInfo>)
    requires ExactMatch(v, args)
    ensures Blur(Types(v.params)) == Blur(args)
  {
  }

  /** If the blurred signatures differ, at most one variant matches, so its position does not matter. */
  lemma {:induction false} ExactMatchIsUnique(
      vs: seq<Variant>, args: seq<TypeInfo>, i: nat, found: Option<Variant>, v: Variant)
    requires i <= |vs| && TellsApart(vs)
    requires found.Some? ==> exists k :: 0 <= k < i && vs[k] == found.value && ExactMatch(vs[k], args)
    ensures ScanExact(vs, args, i, found) == Some(v) <==>
      (found == Some(v) || exists k :: i <= k < |vs| && vs[k] == v && Considered(v, false) && ExactMatch(v, args))
    decreases |vs| - i
  {
    if i < |vs| {
      if Considered(vs[i], false) && ExactMatch(vs[i], args) {
        MatchesBlur(vs[i], args);
        forall k | 0 <= k < |vs| && k != i
          ensures !ExactMatch(vs[k], args)
        {
          if ExactMatch(vs[k], args) {
            MatchesBlur(vs[k], args);
          }
        }
        if !(args == [] && vs[i].params == []) {
          ExactMatchIsUnique(vs, args, i + 1, Some(vs[i]), v);
        }
      } else {
        ExactMatchIsUnique(vs, args, i + 1, found, v);
      }
    }
  }

  /** Exact lookup finds a variant if and only if it is there and matches. */
  lemma FindExactSpec(vs: seq<Variant>, args: seq<TypeInfo>, v: Variant)
    requires TellsApart(vs)
    ensures FindExact(vs, args) == Some(v) <==> v in vs && Considered(v, false) && ExactMatch(v, args)
  {
    ExactMatchIsUnique(vs, args, 0, None, v);
  }

  /** Hence the order of declaration is irrelevant to exact lookup. */
  lemma ExactLookupIgnoresOrder(vs: seq<Variant>, ws: seq<Variant>, args: seq<TypeInfo>)
    requires TellsApart(vs) && TellsApart(ws) && multiset(vs) == multiset(ws)
    ensures FindExact(vs, args) == FindExact(ws, args)
  {
    forall v
      ensures FindExact(vs, args) == Some(v) <==> FindExact(ws, args) == Some(v)
    {
      FindExactSpec(vs, args, v);
      FindExactSpec(ws, args, v);
      assert v in multiset(vs) <==> v in multiset(ws);
    }
    if FindExact(vs, args).Some? {
      var v := FindExact(vs, args).value;
    } else if FindExact(ws, args).Some? {
      var v := FindExact(ws, args).value;
    }
  }

  /** Where every parameter is declared with a type, every function that can be built is of this kind. */
  lemma TypedFunctionsTellApart(tab: IdentTable, vs: seq<Variant>)
    requires Built(tab, vs)
    requires forall v, p :: v in vs && p in v.params ==> !p.t.NoInfo?
    ensures TellsApart(vs)
  {
    forall i, j | 0 <= i < j < |vs|
      ensures Blur(Types(vs[i].params)) != Blur(Types(vs[j].params))
    {
      SignaturesAreDistinct(tab, vs, i, j);
      TypedBlur(vs[i]);
      TypedBlur(vs[j]);
    }
  }

  lemma TypedBlur(v: Variant)
    requires forall p :: p in v.params ==> !p.t.NoInfo?
    ensures Blur(Types(v.params)) == Types(v.params)
  {
    forall i | 0 <= i < |v.params|
      ensures Blur(Types(v.params))[i] == Types(v.params)[i]
    {
      assert v.params[i] in v.params;
    }
  }

  predicate Matches(v: Variant, args: seq<TypeInfo>) {
    Considered(v, false) && ExactMatch(v, args)
  }

  ghost predicate NoMatch(vs: seq<Variant>, args: seq<TypeInfo>, i: nat) {
    forall k :: i <= k < |vs| ==> !Matches(vs[k], args)
  }

  /** The variant at `k` matches, and is the last that does unless there are no arguments. */
  ghost predicate IsFound(vs: seq<Variant>, args: seq<TypeInfo>, k: nat) {
    k < |vs| && Matches(vs[k], args) && (args != [] ==> NoMatch(vs, args, k + 1))
  }

  lemma {:induction false} ScanExactFinds(vs: seq<Variant>, args: seq<TypeInfo>, i: nat, found: Option<Variant>)
    returns (k: nat)
    requires i <= |vs|
    ensures var r := ScanExact(vs, args, i, found);
      (r == found && NoMatch(vs, args, i)) || (i <= k && IsFound(vs, args, k) && r == Some(vs[k]))
    decreases |vs| - i
  {
    k := i;
    if i < |vs| && !(Matches(vs[i], args) && args == []) {
      k := ScanExactFinds(vs, args, i + 1, if Matches(vs[i], args) then Some(vs[i]) else found);
      if Matches(vs[i], args) && NoMatch(vs, args, i + 1) && ScanExact(vs, args, i, found) == Some(vs[i]) {
        k := i;
      }
    }
  }

  /** In whatever order the variants `vs` are declared, `v` comes before `w`: each variant of a chain would clash
      with the next if it came after it. */
  ghost predicate Forced(tab: IdentTable, vs: seq<Variant>, v: Variant, w: Variant) {
    exists p :: IsClashChain(tab, vs, p) && p[0] == v && p[|p| - 1] == w
  }

  ghost predicate IsClashChain(tab: IdentTable, vs: seq<Variant>, p: seq<Variant>) {
    && p != []
    && (forall i :: 0 <= i < |p| ==> p[i] in vs)
    && (forall i :: 0 <= i < |p| - 1 ==> Clash(tab, p[i].params, p[i + 1].params))
  }

  lemma {:induction false} ChainIsOrdered(
      tab: IdentTable, vs: seq<Variant>, p: seq<Variant>, a: nat, b: nat)
    requires Built(tab, vs) && IsClashChain(tab, vs, p)
    requires a < |vs| && b < |vs| && vs[a] == p[0] && vs[b] == p[|p| - 1]
    ensures a <= b
    decreases |p|
  {
    var n := |p| - 1;
    if n == 0 {
      if a > b {
        SignaturesAreDistinct(tab, vs, b, a);
      }
    } else {
      var c :| 0 <= c < |vs| && vs[c] == p[n - 1];
      assert Clash(tab, p[n - 1].params, p[n - 1 + 1].params);
      ChainIsOrdered(tab, vs, p[..n], a, c);
    }
  }

  lemma ForcedGrows(tab: IdentTable, vs: seq<Variant>, v: Variant, w: Variant, u: Variant)
    requires v in vs && u in vs && Clash(tab, w.params, u.params) && Forced(tab, vs, v, w)
    ensures Forced(tab, vs, v, u)
  {
    var p :| IsClashChain(tab, vs, p) && p[0] == v && p[|p| - 1] == w;
    var q := p + [u];
    forall i | 0 <= i < |q| - 1
      ensures Clash(tab, q[i].params, q[i + 1].params)
    {
      if i < |p| - 1 {
        assert q[i] == p[i] && q[i + 1] == p[i + 1];
      }
    }
    assert IsClashChain(tab, vs, q) && q[0] == v && q[|q| - 1] == u;
  }

  lemma ForcedItself(tab: IdentTable, vs: seq<Variant>, v: Variant)
    requires v in vs
    ensures Forced(tab, vs, v, v)
  {
    assert IsClashChain(tab, vs, [v]) && [v][0] == v;
  }

  /** The variants inside a set, or those outside, in order. */
  ghost function Part(vs: seq<Variant>, us: set<Variant>, inside: bool): seq<Variant> {
    if vs == [] then []
    else
      var n := |vs| - 1;
      Part(vs[..n], us, inside) + if (vs[n] in us) == inside then [vs[n]] else []
  }

  lemma {:induction false} PartBuilt(tab: IdentTable, vs: seq<Variant>, us: set<Variant>, inside: bool)
    requires Built(tab, vs)
    ensures Built(tab, Part(vs, us, inside))
    ensures forall v :: v in Part(vs, us, inside) <==> v in vs && (v in us) == inside
  {
    if vs != [] {
      var n := |vs| - 1;
      assert vs == vs[..n] + [vs[n]];
      PartBuilt(tab, vs[..n], us, inside);
      forall i | 0 <= i < |Part(vs[..n], us, inside)|
        ensures !Clash(tab, vs[n].params, Part(vs[..n], us, inside)[i].params)
      {
        assert Part(vs[..n], us, inside)[i] in vs[..n];
        var k :| 0 <= k < n && vs[..n][k] == Part(vs[..n], us, inside)[i];
        assert vs[k] == Part(vs[..n], us, inside)[i];
      }
    }
  }

  lemma {:induction false} PartsAreAll(vs: seq<Variant>, us: set<Variant>)
    ensures multiset(Part(vs, us, false) + Part(vs, us, true)) == multiset(vs)
  {
    if vs != [] {
      var n := |vs| - 1;
      assert vs == vs[..n] + [vs[n]];
      PartsAreAll(vs[..n], us);
    }
  }

  /** Another order in which the same variants can be declared: first those that need not come after `v`. */
  lemma Reordered(tab: IdentTable, vs: seq<Variant>, v: Variant) returns (ws: seq<Variant>, k: nat)
    requires Built(tab, vs) && v in vs
    ensures multiset(ws) == multiset(vs) && Built(tab, ws) && k <= |ws|
    ensures forall i :: 0 <= i < |ws| ==> (i >= k <==> Forced(tab, vs, v, ws[i]))
  {
    hide Forced;
    var us := set u | u in vs && Forced(tab, vs, v, u);
    var front, back := Part(vs, us, false), Part(vs, us, true);
    ws, k := front + back, |front|;
    PartsAreAll(vs, us);
    PartBuilt(tab, vs, us, false);
    PartBuilt(tab, vs, us, true);
    forall i, j | 0 <= i < j < |ws|
      ensures !Clash(tab, ws[j].params, ws[i].params)
    {
      if i < k <= j {
        assert ws[i] in front && ws[j] in back;
        if Clash(tab, ws[j].params, ws[i].params) {
          ForcedGrows(tab, vs, v, ws[j], ws[i]);
        }
      }
    }
    forall i | 0 <= i < |ws|
      ensures i >= k <==> Forced(tab, vs, v, ws[i])
    {
      assert if i < k then ws[i] in front else ws[i] in back;
    }
  }

  /** Among the variants that match, one has to be declared after all the others. */
  ghost predicate Settled(tab: IdentTable, vs: seq<Variant>, args: seq<TypeInfo>) {
    NoMatch(vs, args, 0) ||
    exists m :: m in vs && Matches(m, args) &&
      forall v :: v in vs && Matches(v, args) ==> Forced(tab, vs, v, m)
  }

  ghost predicate OrderFree(tab: IdentTable, vs: seq<Variant>, args: seq<TypeInfo>) {
    forall ws :: multiset(ws) == multiset(vs) && Built(tab, ws) ==> FindExact(ws, args) == FindExact(vs, args)
  }

  lemma SameMembers(vs: seq<Variant>, ws: seq<Variant>)
    requires multiset(vs) == multiset(ws)
    ensures forall v :: v in vs <==> v in ws
  {
    assert forall v :: v in vs <==> v in multiset(vs);
    assert forall v :: v in ws <==> v in multiset(ws);
  }

  /** Without arguments at most one variant can match. */
  lemma EmptyMatchIsUnique(tab: IdentTable, vs: seq<Variant>, i: nat, j: nat)
    requires Built(tab, vs) && i < |vs| && j < |vs| && Matches(vs[i], []) && Matches(vs[j], [])
    ensures i == j
  {
    assert Types(vs[i].params) == Types(vs[j].params);
    if i < j {
      SignaturesAreDistinct(tab, vs, i, j);
    } else if j < i {
      SignaturesAreDistinct(tab, vs, j, i);
    }
  }

  /** If all matches are forced to come before `m`, then `m` is found, in every order. */
  lemma ForcedIsFound(tab: IdentTable, vs: seq<Variant>, ws: seq<Variant>, args: seq<TypeInfo>, m: Variant)
    requires Built(tab, ws) && multiset(ws) == multiset(vs) && m in vs && Matches(m, args)
    requires forall v :: v in vs && Matches(v, args) ==> Forced(tab, vs, v, m)
    ensures FindExact(ws, args) == Some(m)
  {
    hide Matches;
    SameMembers(vs, ws);
    var k := ScanExactFinds(ws, args, 0, None);
    var b :| 0 <= b < |ws| && ws[b] == m;
    assert ws[k] in ws;
    if args == [] {
      EmptyMatchIsUnique(tab, ws, k, b);
    } else {
      var p :| IsClashChain(tab, vs, p) && p[0] == ws[k] && p[|p| - 1] == m;
      assert IsClashChain(tab, ws, p);
      ChainIsOrdered(tab, ws, p, k, b);
    }
  }

  /** If a match need not come before the one that is found, there is an order in which that one is not. */
  lemma UnforcedIsMissed(tab: IdentTable, vs: seq<Variant>, args: seq<TypeInfo>, m: Variant, v: Variant)
    requires Built(tab, vs) && FindExact(vs, args) == Some(m)
    requires v in vs && Matches(v, args) && !Forced(tab, vs, v, m)
    ensures !OrderFree(tab, vs, args)
  {
    hide Matches, Forced;
    var ws, k := Reordered(tab, vs, v);
    SameMembers(vs, ws);
    ForcedItself(tab, vs, v);
    var a :| 0 <= a < |ws| && ws[a] == v;
    var f := ScanExactFinds(ws, args, 0, None);
    if args == [] {
      EmptyMatchIsUnique(tab, ws, f, a);
    }
    assert f >= a >= k;
    assert FindExact(ws, args) == Some(ws[f]) != Some(m);
  }

  lemma NothingFound(vs: seq<Variant>, ws: seq<Variant>, args: seq<TypeInfo>)
    requires multiset(ws) == multiset(vs) && NoMatch(vs, args, 0)
    ensures FindExact(ws, args) == None
  {
    hide Matches;
    SameMembers(vs, ws);
    assert forall i :: 0 <= i < |ws| ==> ws[i] in vs;
    var k := ScanExactFinds(ws, args, 0, None);
  }

  /** Over all orders in which the variants of a function can be declared, exact lookup gives the same result if
      and only if one of the matches has to be declared last. */
  lemma WhenOrderMatters(tab: IdentTable, vs: seq<Variant>, args: seq<TypeInfo>)
    requires Built(tab, vs)
    ensures OrderFree(tab, vs, args) <==> Settled(tab, vs, args)
  {
    hide Matches, Forced, FindExact, Built;
    var k := ScanExactFinds(vs, args, 0, None);
    FindExactIsScan(vs, args);
    if NoMatch(vs, args, 0) {
      forall ws | multiset(ws) == multiset(vs) && Built(tab, ws)
        ensures FindExact(ws, args) == FindExact(vs, args)
      {
        NothingFound(vs, ws, args);
        NothingFound(vs, vs, args);
      }
    } else if Settled(tab, vs, args) {
      var m :| m in vs && Matches(m, args) && forall v :: v in vs && Matches(v, args) ==> Forced(tab, vs, v, m);
      forall ws | multiset(ws) == multiset(vs) && Built(tab, ws)
        ensures FindExact(ws, args) == FindExact(vs, args)
      {
        ForcedIsFound(tab, vs, ws, args, m);
        ForcedIsFound(tab, vs, vs, args, m);
      }
    } else {
      var m := vs[k];
      assert m in vs && Matches(m, args) && FindExact(vs, args) == Some(m);
      var v :| v in vs && Matches(v, args) && !Forced(tab, vs, v, m);
      UnforcedIsMissed(tab, vs, args, m, v);
    }
  }

  lemma FindExactIsScan(vs: seq<Variant>, args: seq<TypeInfo>)
    ensures FindExact(vs, args) == ScanExact(vs, args, 0, None)
  {
  }

  /** A function that can be declared in two orders, between which exact lookup tells the difference:
      f(untyped, any, T) and f(any, untyped, T). */
  lemma LookupDependsOnOrder(tab: IdentTable, t: TypeInfo, v: Variant, w: Variant)
    requires HasType(t) && Considered(v, false) && Considered(w, false)
    requires v.params == [Param(NoInfo, false), Param(Any, false), Param(t, false)]
    requires w.params == [Param(Any, false), Param(NoInfo, false), Param(t, false)]
    ensures Built(tab, [v, w]) && Built(tab, [w, v])
    ensures FindExact([v, w], [Any, Any, t]) == Some(w)
    ensures FindExact([w, v], [Any, Any, t]) == Some(v)
  {
    var args := [Any, Any, t];
    assert ParamTypes(v.params) > 0 && ParamTypes(w.params) > 0;
    assert !Confusable(tab, ParamAt(v.params, 1), ParamAt(w.params, 1));
    assert !Confusable(tab, ParamAt(w.params, 0), ParamAt(v.params, 0));
    assert ScanExact([v, w], args, 2, Some(w)) == Some(w);
    assert ScanExact([w, v], args, 2, Some(v)) == Some(v);
    assert ScanExact([v, w], args, 1, Some(v)) == Some(w);
    assert ScanExact([w, v], args, 1, Some(w)) == Some(v);
  }

  /** Such a pair can be declared, but only in one order: f(any, T) after f(untyped, T). */
  lemma UntypedThenAny(tab: IdentTable, t: TypeInfo)
    requires HasType(t)
    ensures var untyped, any := [Param(NoInfo, false), Param(t, false)], [Param(Any, false), Param(t, false)];
      && Blur(Types(untyped)) == Blur(Types(any))
      && !Clash(tab, any, untyped)
      && Clash(tab, untyped, any)
  {
    var untyped, any := [Param(NoInfo, false), Param(t, false)], [Param(Any, false), Param(t, false)];
    assert ParamTypes(untyped[..1]) == ParamTypes(any[..1]) == 0 by {
      assert untyped[..1][..0] == [] == any[..1][..0];
    }
    assert MinParamTypes(untyped[..1]) == MinParamTypes(any[..1]) == 0 by {
      assert untyped[..1][..0] == [] == any[..1][..0];
    }
    assert ParamTypes(untyped) == ParamTypes(any) == 1;
    assert !Confusable(tab, ParamAt(any, 0), ParamAt(untyped, 0));
    assert Blur(Types(untyped)) == [Any, t] == Blur(Types(any));
  }
}
