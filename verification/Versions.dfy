/** Module version requirements, after lib/ModuleManager.cpp. */
module Versions {
  import opened Common
  import opened Text

  datatype Op = Lt | Le | Eq | Ge | Gt

  datatype Verdict = Fail | Pass | FinalPass

  /** check_component(). */
  function CheckComponent(op: Op, mod: int, req: int, last: bool): Verdict {
    var op' := if last then op else if op == Lt then Le else if op == Gt then Ge else op;
    match op'
    case Lt => if mod < req then FinalPass else Fail
    case Le => if mod < req then FinalPass else if mod == req then Pass else Fail
    case Eq => if mod == req then Pass else Fail
    case Ge => if mod > req then FinalPass else if mod == req then Pass else Fail
    case Gt => if mod > req then FinalPass else Fail
  }

  function At(v: seq<int>, i: nat): int {
    if i < |v| then v[i] else 0
  }

  function Max(a: nat, b: nat): nat {
    if a < b then b else a
  }

  /** The lexicographic order of the first `n` components, missing ones being zero. */
  function Compare(v: seq<int>, w: seq<int>, i: nat, n: nat): (c: int)
    requires i <= n
    decreases n - i
    ensures -1 <= c <= 1
  {
    if i == n then 0
    else if At(v, i) < At(w, i) then -1
    else if At(v, i) > At(w, i) then 1
    else Compare(v, w, i + 1, n)
  }

  /** The order of two versions: -1, 0 or 1. */
  function Order(v: seq<int>, w: seq<int>): int {
    Compare(v, w, 0, Max(|v|, |w|))
  }

  predicate Holds(op: Op, c: int) {
    match op
    case Lt => c < 0
    case Le => c <= 0
    case Eq => c == 0
    case Ge => c >= 0
    case Gt => c > 0
  }

  /** check_module_version(): accepts if and only if the relation holds between the versions; two empty
      lists, for which the loop does not run, always pass. */
  method CheckModuleVersion(mod: seq<int>, op: Op, req: seq<int>) returns (ok: bool)
    ensures ok <==> Holds(op, Order(mod, req)) || (mod == [] && req == [])
  {
    var max := Max(|mod|, |req|);
    var i := 0;
    while i < max
      invariant i <= max
      invariant Compare(mod, req, 0, max) == Compare(mod, req, i, max)
      invariant i == max && i > 0 ==> op != Lt && op != Gt
    {
      match CheckComponent(op, At(mod, i), At(req, i), i == max - 1)
      case Fail => return false;
      case FinalPass => return true;
      case Pass =>
      i := i + 1;
    }
    ok := true;
  }

  /** The first component that differs decides, missing ones being zero. */
  lemma {:induction false} FirstDifference(v: seq<int>, w: seq<int>, i: nat, n: nat, k: nat)
    requires i <= k < n && At(v, k) != At(w, k) && forall j :: i <= j < k ==> At(v, j) == At(w, j)
    ensures Compare(v, w, i, n) == if At(v, k) < At(w, k) then -1 else 1
    decreases k - i
  {
    if i < k {
      FirstDifference(v, w, i + 1, n, k);
    }
  }

  lemma {:induction false} NoDifference(v: seq<int>, w: seq<int>, i: nat, n: nat)
    requires i <= n && forall j :: i <= j < n ==> At(v, j) == At(w, j)
    ensures Compare(v, w, i, n) == 0
    decreases n - i
  {
    if i < n {
      NoDifference(v, w, i + 1, n);
    }
  }

  /** So one version is older than another if and only if its first differing component is smaller, and they are the
      same if and only if no component differs. */
  lemma OrderByFirstDifference(v: seq<int>, w: seq<int>)
    ensures Order(v, w) == 0 <==> forall j: nat :: At(v, j) == At(w, j)
    ensures forall k: nat :: At(v, k) != At(w, k) && (forall j :: 0 <= j < k ==> At(v, j) == At(w, j)) ==>
      (Order(v, w) < 0 <==> At(v, k) < At(w, k))
  {
    var n := Max(|v|, |w|);
    forall k: nat | At(v, k) != At(w, k) && forall j :: 0 <= j < k ==> At(v, j) == At(w, j)
      ensures k < n && Order(v, w) == if At(v, k) < At(w, k) then -1 else 1
    {
      FirstDifference(v, w, 0, n, k);
    }
    if k: nat :| At(v, k) != At(w, k) {
      var f := FirstDiffering(v, w, k);
    } else {
      NoDifference(v, w, 0, n);
    }
  }

  lemma {:induction false} FirstDiffering(v: seq<int>, w: seq<int>, k: nat) returns (f: nat)
    requires At(v, k) != At(w, k)
    ensures f <= k && At(v, f) != At(w, f) && forall j :: 0 <= j < f ==> At(v, j) == At(w, j)
    decreases k
  {
    f := k;
    if j: nat :| j < k && At(v, j) != At(w, j) {
      f := FirstDiffering(v, w, j);
    }
  }

  /** The order does not depend on how far beyond the longer list it looks. */
  lemma {:induction false} BeyondTheEnd(v: seq<int>, w: seq<int>, i: nat, n: nat, m: nat)
    requires Max(|v|, |w|) <= n <= m && i <= n
    ensures Compare(v, w, i, n) == Compare(v, w, i, m)
    decreases n - i, m - n
  {
    if i < n {
      BeyondTheEnd(v, w, i + 1, n, m);
    } else if n < m {
      BeyondTheEnd(v, w, i + 1, n + 1, m);
    }
  }

  lemma {:induction false} SameComponents(v: seq<int>, v': seq<int>, w: seq<int>, i: nat, n: nat)
    requires i <= n && forall k :: At(v, k) == At(v', k)
    ensures Compare(v, w, i, n) == Compare(v', w, i, n)
    decreases n - i
  {
    if i < n {
      assert At(v, i) == At(v', i);
      SameComponents(v, v', w, i + 1, n);
    }
  }

  /** Trailing zeros never matter. */
  lemma TrailingZeros(v: seq<int>, w: seq<int>, zeros: nat)
    ensures Order(v + seq(zeros, _ => 0), w) == Order(v, w)
  {
    var v' := v + seq(zeros, _ => 0);
    var n := Max(|v'|, |w|);
    BeyondTheEnd(v, w, 0, Max(|v|, |w|), n);
    SameComponents(v', v, w, 0, n);
  }

  lemma {:induction false} CompareFlips(v: seq<int>, w: seq<int>, i: nat, n: nat)
    requires i <= n
    ensures Compare(w, v, i, n) == -Compare(v, w, i, n)
    decreases n - i
  {
    if i < n {
      CompareFlips(v, w, i + 1, n);
    }
  }

  lemma {:induction false} CompareTransitive(u: seq<int>, v: seq<int>, w: seq<int>, i: nat, n: nat)
    requires i <= n && Compare(u, v, i, n) <= 0 && Compare(v, w, i, n) <= 0
    ensures Compare(u, w, i, n) <= 0
    ensures Compare(u, w, i, n) == 0 ==> Compare(u, v, i, n) == 0 && Compare(v, w, i, n) == 0
    decreases n - i
  {
    if i < n && At(u, i) == At(v, i) == At(w, i) {
      CompareTransitive(u, v, w, i + 1, n);
    }
  }

  /** The versions are totally ordered, up to trailing zeros. */
  lemma OrderIsTotal(u: seq<int>, v: seq<int>, w: seq<int>)
    ensures Order(v, u) == -Order(u, v)
    ensures Order(u, v) <= 0 && Order(v, w) <= 0 ==> Order(u, w) <= 0
    ensures Order(u, v) < 0 && Order(v, w) <= 0 ==> Order(u, w) < 0
  {
    var n := Max(|u|, Max(|v|, |w|));
    BeyondTheEnd(u, v, 0, Max(|u|, |v|), n);
    BeyondTheEnd(v, w, 0, Max(|v|, |w|), n);
    BeyondTheEnd(u, w, 0, Max(|u|, |w|), n);
    CompareFlips(u, v, 0, Max(|u|, |v|));
    if Order(u, v) <= 0 && Order(v, w) <= 0 {
      CompareTransitive(u, v, w, 0, n);
    }
  }

  /** A module satisfies a requirement or its opposite, never both (given that some version is written). */
  method CheckComplement(mod: seq<int>, req: seq<int>) returns (lt: bool, ge: bool, gt: bool, le: bool, eq: bool)
    requires mod != [] || req != []
    ensures lt == !ge && gt == !le && eq == (le && ge)
  {
    lt := CheckModuleVersion(mod, Lt, req);
    ge := CheckModuleVersion(mod, Ge, req);
    gt := CheckModuleVersion(mod, Gt, req);
    le := CheckModuleVersion(mod, Le, req);
    eq := CheckModuleVersion(mod, Eq, req);
  }

  /** What version_list_t::set() reads: the list so far and the first character it objects to. */
  datatype Parsed = Parsed(list: seq<int>, bad: Option<char>)

  /** The text from the component being read (`a`) and the character looked at (`p`) on. */
  function ParseFrom(s: string, a: nat, p: nat, list: seq<int>): Parsed
    requires a <= p <= |s|
    decreases |s| - p
  {
    if p == |s| then Parsed(list + [Atoi(s[a..])], None)
    else if s[p] == '.' then ParseFrom(s, p + 1, p + 1, list + [Atoi(s[a..p])])
    else if !IsDigit(s[p]) then Parsed(list, Some(s[p]))
    else ParseFrom(s, a, p + 1, list)
  }

  method SetVersion(v: string) returns (r: Parsed)
    ensures r == ParseFrom(Trim(v), 0, 0, [])
  {
    var ver := Trim(v);
    var list: seq<int> := [];
    var a, p := 0, 0;
    while p < |ver|
      invariant a <= p <= |ver|
      invariant ParseFrom(ver, 0, 0, []) == ParseFrom(ver, a, p, list)
    {
      if ver[p] == '.' {
        list := list + [Atoi(ver[a..p])];
        a := p + 1;
      } else if !IsDigit(ver[p]) {
        return Parsed(list, Some(ver[p]));
      }
      p := p + 1;
    }
    r := Parsed(list + [Atoi(ver[a..])], None);
  }

  function Dotted(v: seq<nat>): string {
    if v == [] then ""
    else if |v| == 1 then Render(v[0])
    else Render(v[0]) + "." + Dotted(v[1..])
  }

  lemma {:induction false} SkipDigits(s: string, a: nat, p: nat, q: nat, list: seq<int>)
    requires a <= p <= q <= |s| && forall i :: p <= i < q ==> IsDigit(s[i])
    ensures ParseFrom(s, a, p, list) == ParseFrom(s, a, q, list)
    decreases q - p
  {
    if p < q {
      SkipDigits(s, a, p + 1, q, list);
    }
  }

  lemma NextComponent(s: string, a: nat, q: nat, list: seq<int>)
    requires a <= q < |s| && s[q] == '.'
    ensures ParseFrom(s, a, q, list) == ParseFrom(s, q + 1, q + 1, list + [Atoi(s[a..q])])
  {
  }

  lemma LastComponent(s: string, a: nat, list: seq<int>)
    requires a <= |s|
    ensures ParseFrom(s, a, |s|, list) == Parsed(list + [Atoi(s[a..])], None)
  {
  }

  /** A number followed by a full stop is read as the next component, one at the end as the last. */
  lemma ComponentRead(front: string, n: nat, rest: string, list: seq<int>)
    requires n <= INT_MAX && (rest == "" || rest[0] == '.')
    ensures var s, q := front + Render(n) + rest, |front| + |Render(n)|;
      ParseFrom(s, |front|, |front|, list) ==
      if rest == "" then Parsed(list + [n], None) else ParseFrom(s, q + 1, q + 1, list + [n])
  {
    hide Atoi, Render, ParseFrom;
    AtoiOfRender(n);
    var r := Render(n);
    var s, a, q := front + r + rest, |front|, |front| + |r|;
    assert s[a..q] == r;
    assert forall i :: a <= i < q ==> s[i] == r[i - a];
    SkipDigits(s, a, a, q, list);
    if rest == "" {
      assert s[a..] == r;
      LastComponent(s, a, list);
    } else {
      NextComponent(s, a, q, list);
    }
  }

  lemma {:induction false} DottedRoundTripFrom(front: string, v: seq<nat>, list: seq<int>)
    requires v != [] && forall i :: 0 <= i < |v| ==> v[i] <= INT_MAX
    ensures ParseFrom(front + Dotted(v), |front|, |front|, list) == Parsed(list + v, None)
    decreases |v|
  {
    hide Atoi, Render, ParseFrom;
    var r := Render(v[0]);
    if |v| == 1 {
      assert v == [v[0]] && front + r + "" == front + r;
      ComponentRead(front, v[0], "", list);
    } else {
      var rest := "." + Dotted(v[1..]);
      assert front + Dotted(v) == front + r + rest == front + r + "." + Dotted(v[1..]);
      ComponentRead(front, v[0], rest, list);
      DottedRoundTripFrom(front + r + ".", v[1..], list + [v[0]]);
      assert list + [v[0]] + v[1..] == list + v;
    }
  }

  lemma {:induction false} DottedEnds(v: seq<nat>)
    requires v != []
    ensures Dotted(v) != "" && IsDigit(Dotted(v)[0]) && IsDigit(Dotted(v)[|Dotted(v)| - 1])
  {
    if |v| > 1 {
      DottedEnds(v[1..]);
    }
  }

  /** Printing a version with dots and reading it back gives the version. */
  lemma VersionRoundTrip(v: seq<nat>)
    requires v != [] && forall i :: 0 <= i < |v| ==> v[i] <= INT_MAX
    ensures ParseFrom(Trim(Dotted(v)), 0, 0, []) == Parsed(v, None)
  {
    hide Dotted, ParseFrom, Trim;
    DottedEnds(v);
    TrimOfTrimmed(Dotted(v));
    DottedRoundTripFrom("", v, []);
    assert "" + Dotted(v) == Dotted(v);
    assert [] + v == v;
  }

  predicate Numeric(s: string, p: nat, q: nat)
    requires q <= |s|
  {
    forall i :: p <= i < q ==> s[i] == '.' || IsDigit(s[i])
  }

  /** Reading accepts exactly the texts made of digits and dots, and otherwise reports the first other character. */
  lemma {:induction false} AcceptedTexts(s: string, a: nat, p: nat, list: seq<int>)
    requires a <= p <= |s|
    ensures ParseFrom(s, a, p, list).bad == None <==> Numeric(s, p, |s|)
    ensures ParseFrom(s, a, p, list).bad == None ==> |ParseFrom(s, a, p, list).list| > |list|
    ensures forall k :: p <= k < |s| && s[k] != '.' && !IsDigit(s[k]) && Numeric(s, p, k) ==>
      ParseFrom(s, a, p, list).bad == Some(s[k])
    decreases |s| - p
  {
    if p < |s| {
      if s[p] == '.' {
        AcceptedTexts(s, p + 1, p + 1, list + [Atoi(s[a..p])]);
      } else if IsDigit(s[p]) {
        AcceptedTexts(s, a, p + 1, list);
      }
    }
  }
}
