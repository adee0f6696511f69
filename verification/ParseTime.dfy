/** When parse-time resolution settles on a variant, and on which, for plain variants and exact argument types. */
module ParseSettling {
  import opened Common
  import opened Variants
  import opened ParseResolution
  import Signatures

  /** A call, as run time sees it. */
  datatype Call = Call(tab: RunTable, vs: seq<Variant>, values: seq<Value>)

  /** What a variant is ranked by: its score, then the number of its parameters that match perfectly. */
  datatype Rank = Rank(score: int, perfect: int)

  predicate AtLeast(a: Rank, b: Rank) {
    a.score > b.score || (a.score == b.score && a.perfect >= b.perfect)
  }

  function Perfect(tab: RunTable, params: seq<Param>, values: seq<Value>): nat {
    if params == [] then 0
    else
      var n := |params| - 1;
      Perfect(tab, params[..n], values) + if tab(params[n].t, Arg(values, n)) == IDENT then 1 else 0
  }

  function RankOf(c: Call, j: nat): Rank
    requires j < |c.vs|
  {
    var score := ListScore(c.tab, c.vs[j].params, c.values);
    Rank(if score.Some? then score.value else -1, Perfect(c.tab, c.vs[j].params, c.values))
  }

  predicate Fits(c: Call, j: nat) {
    j < |c.vs| && Applicable(c.tab, c.vs[j], c.values, false)
  }

  /** No applicable variant among the first `n` ranks higher than `r`. */
  ghost predicate Tops(c: Call, r: Rank, n: nat) {
    forall i :: 0 <= i < n && Fits(c, i) ==> AtLeast(r, RankOf(c, i))
  }

  /** The variant is not skipped: with perfect matches it could reach the score of every applicable one before it. */
  ghost predicate Weighed(c: Call, j: nat) {
    Fits(c, j) && forall i :: 0 <= i < j && Fits(c, i) ==> RankOf(c, i).score <= |c.vs[j].params| * IDENT
  }

  /** The variant changes the choice: one without parameters does only if it does not rank lower. */
  ghost predicate Effective(c: Call, j: nat) {
    Weighed(c, j) && (c.vs[j].params != [] || Tops(c, RankOf(c, j), j))
  }

  /** The last effective variant among the first `n`. */
  ghost predicate IsLast(c: Call, e: nat, n: nat) {
    e < n && Effective(c, e) && forall i :: e < i < n ==> !Effective(c, i)
  }

  /** A variant that would be chosen although it has fewer parameters than the effective one before it. */
  ghost predicate Drop(c: Call, b: nat) {
    && Effective(c, b) && Tops(c, RankOf(c, b), b)
    && exists a: nat :: IsLast(c, a, b) && |c.vs[b].params| < |c.vs[a].params|
  }

  ghost predicate Dropped(c: Call, n: nat) {
    exists b :: 0 <= b < n && Drop(c, b)
  }

  /** How many effective variants at the end of the first `n` have the rank `r`. */
  ghost function RunLength(c: Call, n: nat, r: Rank): nat {
    if n == 0 then 0
    else if !Effective(c, n - 1) then RunLength(c, n - 1, r)
    else if RankOf(c, n - 1) == r then 1 + RunLength(c, n - 1, r)
    else 0
  }

  predicate IsOdd(n: nat) {
    n % 2 == 1
  }

  /** The variant chosen among the first `n`: nothing was dropped, the last effective variant ranks highest, and an
      odd number of effective variants at the end share its rank. */
  ghost predicate Settles(c: Call, n: nat, k: nat) {
    && !Dropped(c, n)
    && IsLast(c, k, n) && Tops(c, RankOf(c, k), n) && IsOdd(RunLength(c, n, RankOf(c, k)))
  }

  /** A declared function has at most one variant without parameters. */
  predicate OneEmpty(vs: seq<Variant>) {
    forall i, j :: 0 <= i < j < |vs| ==> vs[i].params != [] || vs[j].params != []
  }

  lemma {:induction false} MatchPerfect(
      tabs: Tables, tab: RunTable, params: seq<Param>, types: seq<TypeInfo>, values: seq<Value>)
    requires Exact(tabs, tab, types, values)
    requires forall p :: p in params ==> HasType(p.t) && !p.hasDefault
    ensures MatchParams(tabs, params, types).ok ==>
      MatchParams(tabs, params, types).nperfect == Perfect(tab, params, values)
  {
    if params != [] {
      var n := |params| - 1;
      assert params[n] in params;
      assert forall p :: p in params[..n] ==> p in params;
      MatchPerfect(tabs, tab, params[..n], types, values);
      MatchIsScore(tabs, tab, params[..n], types, values);
    }
  }

  /** The search state after `n` variants, `e` being the last effective one. */
  ghost predicate Stands(c: Call, n: nat, s: Search, e: Option<nat>) {
    if Dropped(c, n) then s.done && s.variant == None
    else
      var top := Rank(s.score, s.nperfect);
      && !s.done && Tops(c, top, n)
      && match e
         case None =>
           && (forall i :: 0 <= i < n ==> !Fits(c, i))
           && top == Rank(-1, -1) && s.pmatch == -1 && s.scoreLen == -1 && s.variant == None
         case Some(e) =>
           && IsLast(c, e, n) && s.pmatch == |c.vs[e].params|
           && (exists i :: 0 <= i < n && Fits(c, i) && RankOf(c, i) == top)
           && (if RankOf(c, e) == top && IsOdd(RunLength(c, n, top))
               then s.variant == Some(e) && s.scoreLen == |c.vs[e].params|
               else s.variant == None && s.scoreLen == -1)
  }

  lemma DroppedNext(c: Call, n: nat)
    ensures Dropped(c, n + 1) <==> Dropped(c, n) || Drop(c, n)
  {
  }

  /** A variant that is not effective changes nothing. */
  lemma PassOver(c: Call, n: nat, s: Search, e: Option<nat>)
    requires Stands(c, n, s, e) && !Effective(c, n)
    requires Fits(c, n) ==> e.Some? && AtLeast(Rank(s.score, s.nperfect), RankOf(c, n))
    ensures Stands(c, n + 1, s, e)
  {
    hide Drop, Effective, Fits, AtLeast;
    DroppedNext(c, n);
    assert !Drop(c, n) by {
      DropIsEffective(c, n);
    }
  }

  lemma EffectiveFits(c: Call, j: nat)
    ensures Effective(c, j) ==> Fits(c, j)
  {
  }

  lemma DropIsEffective(c: Call, b: nat)
    ensures Drop(c, b) ==> Effective(c, b)
  {
  }

  /** With something applicable before it, a variant tops all of that if and only if it ranks at least as high as the
      highest. */
  lemma TopsTop(c: Call, n: nat, s: Search, e: Option<nat>)
    requires Stands(c, n, s, e) && !Dropped(c, n) && n < |c.vs|
    ensures Tops(c, RankOf(c, n), n) <==> e == None || AtLeast(RankOf(c, n), Rank(s.score, s.nperfect))
    ensures Drop(c, n) <==>
      && Effective(c, n) && e.Some? && AtLeast(RankOf(c, n), Rank(s.score, s.nperfect))
      && |c.vs[n].params| < |c.vs[e.value].params|
  {
    hide Effective, Fits, RankOf;
    if Drop(c, n) {
      var a: nat :| IsLast(c, a, n) && |c.vs[n].params| < |c.vs[a].params|;
      EffectiveFits(c, a);
      assert e.Some? && a == e.value;
    } else if e.Some? {
      assert IsLast(c, e.value, n);
    }
  }

  lemma IsLastNext(c: Call, n: nat)
    requires Effective(c, n)
    ensures IsLast(c, n, n + 1)
  {
  }

  /** An effective variant that ranks lower than the highest discards the choice. */
  lemma Loses(c: Call, n: nat, s: Search, e: Option<nat>, s': Search)
    requires Stands(c, n, s, e) && !Dropped(c, n) && e.Some? && Effective(c, n)
    requires !AtLeast(RankOf(c, n), Rank(s.score, s.nperfect))
    requires s'.score == s.score && s'.nperfect == s.nperfect && !s'.done
    requires s'.pmatch == |c.vs[n].params| && s'.variant == None && s'.scoreLen == -1
    ensures Stands(c, n + 1, s', Some(n))
  {
    TopsTop(c, n, s, e);
    DroppedNext(c, n);
    IsLastNext(c, n);
    hide Drop, Effective, Fits, IsLast;
  }

  /** One that ranks higher than all others is chosen. */
  lemma Leads(c: Call, n: nat, s: Search, e: Option<nat>, s': Search)
    requires Stands(c, n, s, e) && !Dropped(c, n) && Effective(c, n)
    requires e.Some? ==> |c.vs[n].params| >= |c.vs[e.value].params|
    requires RankOf(c, n) != Rank(s.score, s.nperfect) && AtLeast(RankOf(c, n), Rank(s.score, s.nperfect))
    requires Rank(s'.score, s'.nperfect) == RankOf(c, n) && !s'.done
    requires s'.pmatch == s'.scoreLen == |c.vs[n].params| && s'.variant == Some(n)
    ensures Stands(c, n + 1, s', Some(n))
  {
    TopsTop(c, n, s, e);
    DroppedNext(c, n);
    IsLastNext(c, n);
    NoRunOfHigher(c, n, RankOf(c, n), Rank(s.score, s.nperfect));
    assert RunLength(c, n + 1, RankOf(c, n)) == 1;
    assert Tops(c, RankOf(c, n), n + 1);
    EffectiveFits(c, n);
    hide Drop, Effective, Fits, IsLast, RankOf, Tops, RunLength;
  }

  lemma {:induction false} NoRunOfHigher(c: Call, n: nat, r: Rank, top: Rank)
    requires Tops(c, top, n) && r != top && AtLeast(r, top)
    ensures RunLength(c, n, r) == 0
  {
    if n > 0 {
      NoRunOfHigher(c, n - 1, r, top);
    }
  }

  /** One that ranks as high as the highest is chosen if the one before was not, and discards it if it was. */
  lemma Ties(c: Call, n: nat, s: Search, e: nat, s': Search)
    requires Stands(c, n, s, Some(e)) && !Dropped(c, n) && Effective(c, n)
    requires |c.vs[n].params| >= |c.vs[e].params| && RankOf(c, n) == Rank(s.score, s.nperfect)
    requires s'.score == s.score && s'.nperfect == s.nperfect && !s'.done && s'.pmatch == |c.vs[n].params|
    requires if s.scoreLen == -1 then s'.variant == Some(n) && s'.scoreLen == |c.vs[n].params|
             else s'.variant == None && s'.scoreLen == -1
    ensures Stands(c, n + 1, s', Some(n))
  {
    TopsTop(c, n, s, Some(e));
    DroppedNext(c, n);
    IsLastNext(c, n);
    EffectiveFits(c, n);
    RunOfLast(c, n, e, RankOf(c, n));
    hide Drop, Effective, Fits, IsLast, RankOf, RunLength, Dropped;
    RunNext(c, n);
  }

  lemma RunNext(c: Call, n: nat)
    requires Effective(c, n)
    ensures RunLength(c, n + 1, RankOf(c, n)) == 1 + RunLength(c, n, RankOf(c, n))
  {
  }

  /** The run before an effective variant continues it only if the last effective variant has its rank. */
  lemma {:induction false} RunOfLast(c: Call, n: nat, e: nat, r: Rank)
    requires IsLast(c, e, n)
    ensures RankOf(c, e) != r ==> RunLength(c, n, r) == 0
  {
    if e < n - 1 {
      RunOfLast(c, n - 1, e, r);
    }
  }

  /** What an applicable variant that is not skipped does. */
  lemma WeighStands(c: Call, n: nat, s: Search, e: Option<nat>, m: Match)
    requires Stands(c, n, s, e) && !Dropped(c, n) && Weighed(c, n) && OneEmpty(c.vs)
    requires Rank(m.pscore, m.nperfect) == RankOf(c, n) && m.pmatch == |c.vs[n].params|
    ensures Stands(c, n + 1, Weigh(s, m, |c.vs[n].params|, n), if Effective(c, n) then Some(n) else e)
  {
    var np, top, r := |c.vs[n].params|, Rank(s.score, s.nperfect), RankOf(c, n);
    var s' := Weigh(s, m, np, n);
    TopsTop(c, n, s, e);
    if !Effective(c, n) {
      PassOver(c, n, s, e);
      assert Stands(c, n + 1, s', e);
    } else if Drop(c, n) {
      DroppedNext(c, n);
    } else if e.Some? && !AtLeast(r, top) {
      Loses(c, n, s, e, s');
    } else if r != top {
      Leads(c, n, s, e, s');
    } else {
      assert np > 0;
      Ties(c, n, s, e.value, s');
    }
  }

  /** One turn of the search, early exit apart. */
  lemma VisitStands(tabs: Tables, c: Call, types: seq<TypeInfo>, n: nat, s: Search, e: Option<nat>)
    returns (e': Option<nat>)
    requires n < |c.vs| && Plain(c.vs[n]) && Exact(tabs, c.tab, types, c.values) && OneEmpty(c.vs)
    requires types != [] || c.vs[n].params != []
    requires Stands(c, n, s, e)
    ensures Stands(c, n + 1, Visit(tabs, s, c.vs[n], n, types), e')
  {
    var v := c.vs[n];
    MatchIsScore(tabs, c.tab, v.params, types, c.values);
    MatchPerfect(tabs, c.tab, v.params, types, c.values);
    ExtraArgsAgree(tabs, c.tab, v, types, c.values);
    e' := e;
    if Dropped(c, n) {
      DroppedNext(c, n);
    } else if |v.params| * IDENT < s.score {
      Skipped(c, n, s, e);
    } else if !Fits(c, n) {
      EffectiveFits(c, n);
      PassOver(c, n, s, e);
    } else {
      NotSkipped(c, n, s, e);
      WeighStands(c, n, s, e, MatchParams(tabs, v.params, types));
      if Effective(c, n) {
        e' := Some(n);
      }
    }
  }

  lemma Skipped(c: Call, n: nat, s: Search, e: Option<nat>)
    requires n < |c.vs| && Stands(c, n, s, e) && !Dropped(c, n) && |c.vs[n].params| * IDENT < s.score
    ensures Stands(c, n + 1, s, e)
  {
    assert !Weighed(c, n);
    LengthBound(c.tab, c.vs[n].params, c.values);
    PassOver(c, n, s, e);
  }

  lemma NotSkipped(c: Call, n: nat, s: Search, e: Option<nat>)
    requires Stands(c, n, s, e) && !Dropped(c, n) && Fits(c, n) && |c.vs[n].params| * IDENT >= s.score
    ensures Weighed(c, n)
  {
    hide Fits, IsLast;
  }

  lemma {:induction false} ScanStands(tabs: Tables, c: Call, types: seq<TypeInfo>, n: nat) returns (e: Option<nat>)
    requires n <= |c.vs| && Exact(tabs, c.tab, types, c.values) && OneEmpty(c.vs)
    requires forall v :: v in c.vs ==> Plain(v)
    requires types != [] || forall i :: 0 <= i < n ==> c.vs[i].params != []
    ensures Stands(c, n, Scan(tabs, c.vs, types, n), e)
  {
    if n == 0 {
      e := None;
    } else {
      e := ScanStands(tabs, c, types, n - 1);
      assert c.vs[n - 1] in c.vs;
      hide Stands, Plain, Exact, Visit;
      e := VisitStands(tabs, c, types, n - 1, Scan(tabs, c.vs, types, n - 1), e);
    }
  }

  /** For plain variants and exact argument types, parse time settles on a variant exactly as `Settles` says. */
  lemma WhenParseTimeSettles(tabs: Tables, c: Call, types: seq<TypeInfo>, k: nat)
    requires Exact(tabs, c.tab, types, c.values) && OneEmpty(c.vs) && forall v :: v in c.vs ==> Plain(v)
    requires types != [] || forall v :: v in c.vs ==> v.params != []
    ensures Find(tabs, c.vs, types) == Some(k) <==> Settles(c, |c.vs|, k)
  {
    var n := |c.vs|;
    PvariantIsNeverSet(tabs, c.vs, types, n);
    var e := ScanStands(tabs, c, types, n);
    var s := Scan(tabs, c.vs, types, n);
    hide Exact, Plain, Scan, Effective, RunLength;
    if Settles(c, n, k) {
      EffectiveFits(c, k);
      assert e.Some? && e.value == k;
      SameRank(c, n, RankOf(c, k), k, Rank(s.score, s.nperfect));
    }
  }

  /** There is one highest rank. */
  lemma SameRank(c: Call, n: nat, r: Rank, k: nat, top: Rank)
    requires k < n && Fits(c, k) && r == RankOf(c, k) && Tops(c, r, n) && Tops(c, top, n)
    requires exists i :: 0 <= i < n && Fits(c, i) && RankOf(c, i) == top
    ensures r == top
  {
  }

  /** A call without arguments settles on the variant without parameters, unless something was dropped before it. */
  lemma CallWithoutArguments(tabs: Tables, c: Call, z: nat)
    requires Exact(tabs, c.tab, [], c.values) && OneEmpty(c.vs) && forall v :: v in c.vs ==> Plain(v)
    requires z < |c.vs| && c.vs[z].params == []
    ensures Find(tabs, c.vs, []) == if Dropped(c, z) then None else Some(z)
  {
    PvariantIsNeverSet(tabs, c.vs, [], |c.vs|);
    var e := ScanStands(tabs, c, [], z);
    assert c.vs[z] in c.vs;
    DoneStays(tabs, c.vs, [], z + 1, |c.vs|);
  }

  /** A call with one applicable variant settles on it. */
  lemma OnlyVariant(tabs: Tables, c: Call, types: seq<TypeInfo>, k: nat)
    requires Exact(tabs, c.tab, types, c.values) && OneEmpty(c.vs) && forall v :: v in c.vs ==> Plain(v)
    requires types != [] && Fits(c, k) && forall i :: 0 <= i < |c.vs| && i != k ==> !Fits(c, i)
    ensures Find(tabs, c.vs, types) == Some(k)
  {
    WhenParseTimeSettles(tabs, c, types, k);
    hide Fits, RankOf, Find, Exact, Plain;
    assert Effective(c, k);
    assert forall i :: 0 <= i < |c.vs| && i != k ==> !Effective(c, i);
    assert !Dropped(c, |c.vs|);
    LowerRun(c, k, RankOf(c, k));
    SingleRun(c, |c.vs|, k);
  }

  lemma {:induction false} SingleRun(c: Call, n: nat, k: nat)
    requires IsLast(c, k, n)
    requires RunLength(c, k, RankOf(c, k)) == 0
    ensures RunLength(c, n, RankOf(c, k)) == 1
  {
    if n > k + 1 {
      SingleRun(c, n - 1, k);
    }
  }

  /** Among variants with equally many parameters, it settles on the last applicable one if that scores more than
      every applicable one before it. */
  lemma LastAndBest(tabs: Tables, c: Call, types: seq<TypeInfo>, k: nat, np: nat)
    requires Exact(tabs, c.tab, types, c.values) && OneEmpty(c.vs) && forall v :: v in c.vs ==> Plain(v)
    requires types != [] && np > 0 && forall v :: v in c.vs ==> |v.params| == np
    requires Fits(c, k) && forall i :: k < i < |c.vs| ==> !Fits(c, i)
    requires forall i :: 0 <= i < k && Fits(c, i) ==> RankOf(c, i).score < RankOf(c, k).score
    ensures Find(tabs, c.vs, types) == Some(k)
  {
    WhenParseTimeSettles(tabs, c, types, k);
    hide Find, Exact, Plain;
    forall i | 0 <= i < |c.vs|
      ensures c.vs[i].params != [] && |c.vs[i].params| == np && (Effective(c, i) <==> Fits(c, i))
    {
      assert c.vs[i] in c.vs;
      forall j | 0 <= j < i && Fits(c, j)
        ensures RankOf(c, j).score <= np * IDENT
      {
        assert c.vs[j] in c.vs;
        LengthBound(c.tab, c.vs[j].params, c.values);
      }
    }
    hide Effective, Fits, RankOf;
    assert !Dropped(c, |c.vs|);
    LowerRun(c, k, RankOf(c, k));
    SingleRun(c, |c.vs|, k);
  }

  lemma {:induction false} LowerRun(c: Call, n: nat, r: Rank)
    requires forall i :: 0 <= i < n && Effective(c, i) ==> RankOf(c, i).score < r.score
    ensures RunLength(c, n, r) == 0
  {
    if n > 0 {
      LowerRun(c, n - 1, r);
    }
  }

  /** What can be declared has at most one variant without parameters. */
  lemma DeclaredHasOneEmpty(ident: Signatures.IdentTable, vs: seq<Variant>)
    requires Signatures.Built(ident, vs)
    ensures OneEmpty(vs)
  {
    forall i, j | 0 <= i < j < |vs|
      ensures vs[i].params != [] || vs[j].params != []
    {
      Signatures.SignaturesAreDistinct(ident, vs, i, j);
    }
  }

  /** A typed parameter whose argument has no type: only run time can tell. */
  predicate Unknown(params: seq<Param>, args: seq<TypeInfo>, i: nat)
    requires i < |params|
  {
    HasType(params[i].t) && i < |args| && !HasType(args[i])
  }

  /** A typed parameter that gets its default value. */
  predicate Defaulted(params: seq<Param>, args: seq<TypeInfo>, i: nat)
    requires i < |params|
  {
    HasType(params[i].t) && params[i].hasDefault && (i >= |args| || args[i].NothingType?)
  }

  /** What parseAccepts() says of any other parameter; a missing argument is NOTHING to a typed one. */
  function FitAt(tabs: Tables, params: seq<Param>, args: seq<TypeInfo>, i: nat): Fit
    requires i < |params|
  {
    var t := params[i].t;
    ParseAccepts(tabs, t, if i < |args| then args[i] else if HasType(t) then NothingType else NoInfo)
  }

  predicate Doubtful(tabs: Tables, params: seq<Param>, args: seq<TypeInfo>, i: nat)
    requires i < |params|
  {
    !Unknown(params, args, i) && !Defaulted(params, args, i) && FitAt(tabs, params, args, i).mayNotMatch
  }

  predicate Rejects(tabs: Tables, params: seq<Param>, args: seq<TypeInfo>, i: nat)
    requires i < |params|
  {
    && !Unknown(params, args, i) && !Defaulted(params, args, i)
    && !FitAt(tabs, params, args, i).mayNotMatch && FitAt(tabs, params, args, i).rc == NOT_EQUAL
  }

  /** No parameter before `i` ends the loop. */
  ghost predicate GetsTo(tabs: Tables, params: seq<Param>, args: seq<TypeInfo>, i: nat)
    requires i <= |params|
  {
    forall j :: 0 <= j < i ==> !Unknown(params, args, j) && !Rejects(tabs, params, args, j)
  }

  /** For all parameters and arguments: a variant is rejected if and only if the loop gets to a parameter that rejects
      its argument, and left to run time if and only if it gets to one that only run time can tell. */
  lemma {:induction false} MatchOutcome(tabs: Tables, params: seq<Param>, args: seq<TypeInfo>)
    ensures var m := MatchParams(tabs, params, args);
      && (m.stop <==> !GetsTo(tabs, params, args, |params|))
      && (m.ok <==> forall i :: 0 <= i < |params| && GetsTo(tabs, params, args, i) ==> !Rejects(tabs, params, args, i))
      && (!m.runtimeMatch <==>
            forall i :: 0 <= i < |params| && GetsTo(tabs, params, args, i) ==>
              !Unknown(params, args, i) && !Doubtful(tabs, params, args, i))
  {
    if params != [] {
      var n := |params| - 1;
      var front := params[..n];
      MatchOutcome(tabs, front, args);
      SamePrefix(tabs, params, args);
      hide ParseAccepts;
      assert GetsTo(tabs, params, args, |params|) <==>
        GetsTo(tabs, params, args, n) && !Unknown(params, args, n) && !Rejects(tabs, params, args, n);
    }
  }

  /** What one more parameter that the loop gets to adds: a default value counts as a match, and scores only in place
      of NOTHING; an argument scores what parseAccepts() gives if it has a type; nothing is added for one that
      rejects its argument or is left to run time. */
  lemma MatchGrows(tabs: Tables, params: seq<Param>, args: seq<TypeInfo>)
    requires params != [] && !MatchParams(tabs, params[..|params| - 1], args).stop
    ensures var n := |params| - 1;
      var f, m := MatchParams(tabs, params[..n], args), MatchParams(tabs, params, args);
      var fit := FitAt(tabs, params, args, n);
      if Unknown(params, args, n) || Doubtful(tabs, params, args, n) || Rejects(tabs, params, args, n) then
        m.pmatch == f.pmatch && m.pscore == f.pscore && m.nperfect == f.nperfect
      else if Defaulted(params, args, n) then
        && m.pmatch == f.pmatch + 1 && m.nperfect == f.nperfect
        && m.pscore == f.pscore + if n < |args| then IDENT else 0
      else
        && m.pmatch == f.pmatch + 1
        && m.pscore == f.pscore + (if n < |args| && HasType(args[n]) then fit.rc else 0)
        && m.nperfect == f.nperfect + (if fit.rc == IDENT then 1 else 0)
  {
  }

  lemma SamePrefix(tabs: Tables, params: seq<Param>, args: seq<TypeInfo>)
    requires params != []
    ensures var n := |params| - 1;
      && (forall i :: 0 <= i < n ==>
            && Unknown(params[..n], args, i) == Unknown(params, args, i)
            && Rejects(tabs, params[..n], args, i) == Rejects(tabs, params, args, i)
            && Doubtful(tabs, params[..n], args, i) == Doubtful(tabs, params, args, i))
      && (forall i :: 0 <= i <= n ==> GetsTo(tabs, params[..n], args, i) == GetsTo(tabs, params, args, i))
  {
    hide ParseAccepts;
  }

  /** A variant that only run time can tell about leaves the whole call to run time. */
  lemma LeftToRunTime(tabs: Tables, vs: seq<Variant>, args: seq<TypeInfo>, n: nat)
    requires n < |vs| && !(vs[n].strict && (vs[n].noop || vs[n].runtimeNoop)) && (args != [] || vs[n].params != [])
    requires var s := Scan(tabs, vs, args, n); !s.done && |vs[n].params| * IDENT >= s.score
    requires MatchParams(tabs, vs[n].params, args).runtimeMatch
    ensures Find(tabs, vs, args) == None
  {
    PvariantIsNeverSet(tabs, vs, args, |vs|);
    DoneStays(tabs, vs, args, n + 1, |vs|);
  }
}
