/** The row lists of context statements, after lib/Context.cpp: filtering, sorting and summarising. */
module ContextSpec {

  /** The rows that satisfy the where-clause, in order. */
  function Filtered(rows: seq<int>, keep: int -> bool): seq<int> {
    if rows == [] then []
    else
      var n := |rows| - 1;
      Filtered(rows[..n], keep) + if keep(rows[n]) then [rows[n]] else []
  }

  predicate DistinctRows(rows: seq<int>) {
    forall i, j :: 0 <= i < j < |rows| ==> rows[i] != rows[j]
  }

  lemma FilterNext(rows: seq<int>, kept: seq<int>, row: int, keep: int -> bool)
    requires forall r :: r in kept <==> r in rows && keep(r)
    requires DistinctRows(rows) ==> DistinctRows(kept)
    ensures var kept' := if keep(row) then kept + [row] else kept;
      && (forall r :: r in kept' <==> r in rows + [row] && keep(r))
      && (DistinctRows(rows + [row]) ==> DistinctRows(kept'))
  {
    var all := rows + [row];
    if DistinctRows(all) {
      assert forall i, j :: 0 <= i < j < |rows| ==> all[i] == rows[i] && all[j] == rows[j];
      assert all[|rows|] == row;
      assert forall i :: 0 <= i < |rows| ==> rows[i] == all[i] != all[|rows|];
      assert row !in rows;
    }
  }

  /** Filtering keeps exactly the rows asked for, each once. */
  lemma {:induction false} FilterSelects(rows: seq<int>, keep: int -> bool)
    ensures forall r :: r in Filtered(rows, keep) <==> r in rows && keep(r)
    ensures DistinctRows(rows) ==> DistinctRows(Filtered(rows, keep))
    ensures |Filtered(rows, keep)| <= |rows|
  {
    if rows != [] {
      var n := |rows| - 1;
      hide DistinctRows;
      FilterSelects(rows[..n], keep);
      assert rows == rows[..n] + [rows[n]];
      FilterNext(rows[..n], Filtered(rows[..n], keep), rows[n], keep);
    }
  }

  /** Filtering is stable: splitting the rows anywhere splits the result. */
  lemma {:induction false} FilterIsStable(a: seq<int>, b: seq<int>, keep: int -> bool)
    ensures Filtered(a + b, keep) == Filtered(a, keep) + Filtered(b, keep)
  {
    if b == [] {
      assert a + b == a;
    } else {
      var n := |b| - 1;
      assert (a + b)[..|a| + n] == a + b[..n];
      FilterIsStable(a, b[..n], keep);
    }
  }

  /** A value of the language other than NOTHING, known by a number. */
  type Value = nat

  /** The value a row is sorted by. */
  datatype Key = Nothing | Some(v: Value)

  datatype Templist = Templist(val: Key, pos: int)

  /** compare_templist(). */
  predicate Less(lt: (Value, Value) -> bool, a: Templist, b: Templist) {
    if a.val.Nothing? then false
    else if b.val.Nothing? then true
    else lt(a.val.v, b.val.v)
  }

  /** What std::sort() promises: a permutation in which nothing comes before something less. */
  ghost predicate IsSortOf(lt: (Value, Value) -> bool, list: seq<Templist>, sorted: seq<Templist>) {
    multiset(sorted) == multiset(list) && InOrder(lt, sorted)
  }

  /** Nothing comes before something less. */
  ghost predicate InOrder(lt: (Value, Value) -> bool, list: seq<Templist>) {
    forall i, j :: 0 <= i < j < |list| ==> !Less(lt, list[j], list[i])
  }

  function Positions(list: seq<Templist>): (rows: seq<int>)
    ensures |rows| == |list| && forall i :: 0 <= i < |rows| ==> rows[i] == list[i].pos
  {
    seq(|list|, i requires 0 <= i < |list| => list[i].pos)
  }

  function Drop<T>(s: seq<T>, k: nat): seq<T>
    requires k < |s|
  {
    s[..k] + s[k + 1..]
  }

  lemma DropOne<T>(s: seq<T>, k: nat)
    requires k < |s|
    ensures multiset(s) == multiset(Drop(s, k)) + multiset{s[k]}
  {
    assert s == s[..k] + [s[k]] + s[k + 1..];
  }

  lemma DropSame<T>(a: seq<T>, b: seq<T>, n: nat, k: nat)
    requires multiset(a) == multiset(b) && n < |a| && k < |b| && a[n] == b[k]
    ensures multiset(Drop(a, n)) == multiset(Drop(b, k))
  {
    DropOne(a, n);
    DropOne(b, k);
    var m := multiset{a[n]};
    assert multiset(Drop(a, n)) == multiset(a) - m && multiset(Drop(b, k)) == multiset(b) - m;
  }

  lemma {:induction false} PositionsOfMultiset(a: seq<Templist>, b: seq<Templist>)
    requires multiset(a) == multiset(b)
    ensures multiset(Positions(a)) == multiset(Positions(b))
  {
    if a == [] {
      assert |multiset(b)| == 0;
    } else {
      assert a[0] in multiset(b);
      var k :| 0 <= k < |b| && b[k] == a[0];
      DropSame(a, b, 0, k);
      PositionsOfMultiset(Drop(a, 0), Drop(b, k));
      DropPositions(a, 0);
      DropPositions(b, k);
      DropOne(Positions(a), 0);
      DropOne(Positions(b), k);
    }
  }

  lemma DropPositions(a: seq<Templist>, k: nat)
    requires k < |a|
    ensures Positions(Drop(a, k)) == Drop(Positions(a), k)
  {
    hide Positions;
    forall i | 0 <= i < |a| - 1
      ensures Positions(Drop(a, k))[i] == Drop(Positions(a), k)[i]
    {
      assert Drop(a, k)[i] == a[if i < k then i else i + 1];
    }
  }

  /** After sorting, rows without a sort value come last, and no row comes before one with a smaller value. */
  lemma SortPutsNothingLast(lt: (Value, Value) -> bool, list: seq<Templist>, sorted: seq<Templist>, i: nat, j: nat)
    requires IsSortOf(lt, list, sorted) && i < j < |sorted|
    ensures sorted[i].val.Nothing? ==> sorted[j].val.Nothing?
    ensures sorted[i].val.Some? && sorted[j].val.Some? ==> !lt(sorted[j].val.v, sorted[i].val.v)
  {
    assert !Less(lt, sorted[j], sorted[i]);
  }

  function Reversed<T>(s: seq<T>): (r: seq<T>)
    ensures |r| == |s| && forall i :: 0 <= i < |s| ==> r[i] == s[|s| - 1 - i]
  {
    seq(|s|, i requires 0 <= i < |s| => s[|s| - 1 - i])
  }

  lemma {:induction false} ReversedMultiset<T>(s: seq<T>)
    ensures multiset(Reversed(s)) == multiset(s)
  {
    if s != [] {
      var n := |s| - 1;
      assert s == s[..n] + [s[n]];
      assert Reversed(s) == [s[n]] + Reversed(s[..n]);
      ReversedMultiset(s[..n]);
    }
  }

  lemma {:induction false} DistinctMeansOnce(rows: seq<int>)
    ensures DistinctRows(rows) <==> forall r :: multiset(rows)[r] <= 1
  {
    if rows != [] {
      var n := |rows| - 1;
      DistinctMeansOnce(rows[..n]);
      assert rows == rows[..n] + [rows[n]];
      if DistinctRows(rows) {
        assert rows[n] !in rows[..n];
      } else if DistinctRows(rows[..n]) {
        var i :| 0 <= i < n && rows[i] == rows[n];
        assert rows[n] in rows[..n];
        assert multiset(rows)[rows[n]] > 1;
      } else {
        var r :| multiset(rows[..n])[r] > 1;
        assert multiset(rows)[r] > 1;
      }
    }
  }

  /** The where-clause and the sort of a context statement. */
  datatype Clause = NoClause | Where(keep: int -> bool)

  datatype SortBy = Unsorted | By(key: int -> Key, descending: bool)

  predicate Satisfies(clause: Clause, row: int) {
    clause.NoClause? || clause.keep(row)
  }

  /** The rows of a query result. */
  function AllRows(total: nat): (rows: seq<int>)
    ensures |rows| == total && forall i :: 0 <= i < total ==> rows[i] == i
    ensures forall r :: r in rows <==> 0 <= r < total
  {
    if total == 0 then [] else AllRows(total - 1) + [total - 1]
  }

  function Selected(clause: Clause, rows: seq<int>): seq<int> {
    match clause
    case NoClause => rows
    case Where(keep) => Filtered(rows, keep)
  }

  function Keyed(rows: seq<int>, key: int -> Key): (list: seq<Templist>)
    ensures |list| == |rows| && forall i :: 0 <= i < |rows| ==> list[i] == Templist(key(rows[i]), rows[i])
  {
    seq(|rows|, i requires 0 <= i < |rows| => Templist(key(rows[i]), rows[i]))
  }

  /** No row comes before one with a smaller key, nor one without a key before one with; the other way round
      if descending. */
  ghost predicate Ordered(lt: (Value, Value) -> bool, order: SortBy, rows: seq<int>) {
    order.By? ==> forall i, j :: 0 <= i < j < |rows| ==>
      var (a, b) := if order.descending then (rows[j], rows[i]) else (rows[i], rows[j]);
      !Less(lt, Templist(order.key(b), b), Templist(order.key(a), a))
  }

  /** What std::sort() with compare_templist() promises for every list. */
  ghost predicate Sorts(sorter: seq<Templist> -> seq<Templist>, lt: (Value, Value) -> bool) {
    forall list :: IsSortOf(lt, list, sorter(list))
  }

  /** What std::sort() asks of a comparison. */
  ghost predicate StrictWeakOrder<T(!new)>(less: (T, T) -> bool) {
    && (forall a :: !less(a, a))
    && (forall a, b :: less(a, b) ==> !less(b, a))
    && (forall a, b, c :: less(a, b) ==> less(a, c) || less(c, b))
  }

  /** compare_templist() is such a comparison if the less-than operator is. */
  lemma LessIsStrictWeakOrder(lt: (Value, Value) -> bool)
    requires StrictWeakOrder(lt)
    ensures StrictWeakOrder((a: Templist, b: Templist) => Less(lt, a, b))
  {
  }

  /** A sort: puts each element before the first that it is less than. */
  function InsertionSort(lt: (Value, Value) -> bool, list: seq<Templist>): seq<Templist> {
    if list == [] then []
    else InsertedBy(lt, InsertionSort(lt, list[1..]), list[0])
  }

  function InsertedBy(lt: (Value, Value) -> bool, sorted: seq<Templist>, x: Templist): seq<Templist> {
    if sorted == [] || !Less(lt, sorted[0], x) then [x] + sorted
    else [sorted[0]] + InsertedBy(lt, sorted[1..], x)
  }

  lemma NotLessChain(lt: (Value, Value) -> bool, a: Templist, b: Templist, c: Templist)
    requires StrictWeakOrder(lt)
    ensures !Less(lt, a, b) && !Less(lt, b, c) ==> !Less(lt, a, c)
    ensures Less(lt, a, b) ==> !Less(lt, b, a)
  {
  }

  lemma FirstInOrder(lt: (Value, Value) -> bool, x: Templist, rest: seq<Templist>)
    requires InOrder(lt, rest) && forall y :: y in rest ==> !Less(lt, y, x)
    ensures InOrder(lt, [x] + rest)
  {
    hide Less;
    var list := [x] + rest;
    forall i, j | 0 <= i < j < |list|
      ensures !Less(lt, list[j], list[i])
    {
      assert list[j] == rest[j - 1] && list[j] in rest;
      assert i > 0 ==> list[i] == rest[i - 1];
    }
  }

  lemma {:induction false} InsertedMembers(lt: (Value, Value) -> bool, sorted: seq<Templist>, x: Templist)
    ensures multiset(InsertedBy(lt, sorted, x)) == multiset(sorted) + multiset{x}
    ensures forall y :: y in InsertedBy(lt, sorted, x) <==> y == x || y in sorted
  {
    if sorted != [] {
      assert sorted == [sorted[0]] + sorted[1..];
      if Less(lt, sorted[0], x) {
        InsertedMembers(lt, sorted[1..], x);
      }
    }
  }

  lemma {:induction false} InsertedInOrder(lt: (Value, Value) -> bool, sorted: seq<Templist>, x: Templist)
    requires StrictWeakOrder(lt) && InOrder(lt, sorted)
    ensures InOrder(lt, InsertedBy(lt, sorted, x))
  {
    hide Less, StrictWeakOrder;
    if sorted == [] {
      return;
    }
    var first, rest := sorted[0], sorted[1..];
    assert sorted == [first] + rest;
    assert forall y :: y in rest ==> !Less(lt, y, first);
    if !Less(lt, first, x) {
      forall y | y in sorted
        ensures !Less(lt, y, x)
      {
        NotLessChain(lt, y, first, x);
      }
      FirstInOrder(lt, x, sorted);
    } else {
      NotLessChain(lt, first, x, first);
      InsertedInOrder(lt, rest, x);
      InsertedMembers(lt, rest, x);
      FirstInOrder(lt, first, InsertedBy(lt, rest, x));
    }
  }

  lemma {:induction false} InsertionSorts(lt: (Value, Value) -> bool, list: seq<Templist>)
    requires StrictWeakOrder(lt)
    ensures IsSortOf(lt, list, InsertionSort(lt, list))
  {
    hide Less, StrictWeakOrder;
    if list != [] {
      assert list == [list[0]] + list[1..];
      InsertionSorts(lt, list[1..]);
      InsertedInOrder(lt, InsertionSort(lt, list[1..]), list[0]);
      InsertedMembers(lt, InsertionSort(lt, list[1..]), list[0]);
    }
  }

  /** So what is taken for granted of std::sort() can be met. */
  lemma SortExists(lt: (Value, Value) -> bool) returns (sorter: seq<Templist> -> seq<Templist>)
    requires StrictWeakOrder(lt)
    ensures Sorts(sorter, lt)
  {
    sorter := list => InsertionSort(lt, list);
    forall list
      ensures IsSortOf(lt, list, sorter(list))
    {
      InsertionSorts(lt, list);
    }
  }

  lemma SelectedRows(clause: Clause, rows: seq<int>)
    requires DistinctRows(rows)
    ensures DistinctRows(Selected(clause, rows))
    ensures forall r :: r in Selected(clause, rows) <==> r in rows && Satisfies(clause, r)
  {
    if clause.Where? {
      FilterSelects(rows, clause.keep);
    }
  }

  /** A permutation of the rows is as good as the rows. */
  lemma SameRows(a: seq<int>, b: seq<int>)
    requires multiset(a) == multiset(b) && DistinctRows(a)
    ensures DistinctRows(b) && forall r :: r in b <==> r in a
  {
    hide DistinctRows;
    DistinctMeansOnce(a);
    DistinctMeansOnce(b);
    assert forall r :: r in a <==> r in multiset(a);
    assert forall r :: r in b <==> r in multiset(b);
  }

  lemma KeysStay(rows: seq<int>, key: int -> Key, sorted: seq<Templist>, i: nat)
    requires multiset(sorted) == multiset(Keyed(rows, key)) && i < |sorted|
    ensures sorted[i] == Templist(key(sorted[i].pos), sorted[i].pos)
  {
    assert sorted[i] in multiset(sorted);
    assert sorted[i] in Keyed(rows, key);
  }

  /** The sorted list still holds each row with its own key, so the rows are in order. */
  lemma SortedRowsAreOrdered(lt: (Value, Value) -> bool, rows: seq<int>, key: int -> Key, sorted: seq<Templist>,
                             descending: bool)
    requires IsSortOf(lt, Keyed(rows, key), sorted)
    ensures Ordered(lt, By(key, descending), if descending then Reversed(Positions(sorted)) else Positions(sorted))
  {
    hide Less, Keyed, Reversed, Positions;
    var n, result := |sorted|, if descending then Reversed(Positions(sorted)) else Positions(sorted);
    forall i, j | 0 <= i < j < n
      ensures var (a, b) := if descending then (result[j], result[i]) else (result[i], result[j]);
        !Less(lt, Templist(key(b), b), Templist(key(a), a))
    {
      var x, y := if descending then n - 1 - j else i, if descending then n - 1 - i else j;
      KeysStay(rows, key, sorted, x);
      KeysStay(rows, key, sorted, y);
      assert !Less(lt, sorted[y], sorted[x]);
    }
  }

  lemma SortPermutes(lt: (Value, Value) -> bool, list: seq<Templist>, sorted: seq<Templist>)
    requires IsSortOf(lt, list, sorted)
    ensures |sorted| == |list|
    ensures multiset(Positions(sorted)) == multiset(Positions(list))
    ensures multiset(Reversed(Positions(sorted))) == multiset(Positions(list))
  {
    PositionsOfMultiset(sorted, list);
    assert |sorted| == |multiset(sorted)| == |multiset(list)|;
    ReversedMultiset(Positions(sorted));
  }

  /** A summary group: the value it was created with, and its rows. */
  datatype Group = Group(val: Value, rows: seq<int>)

  /** in_list(): the first group that takes a row with value `v`, or the number of groups.  The source adds
      the row to the first group whose value is NOT equal. */
  function Taker(eq: (Value, Value) -> bool, groups: seq<Group>, v: Value): (k: nat)
    ensures k <= |groups|
    ensures k < |groups| ==> !eq(v, groups[k].val)
    ensures forall i :: 0 <= i < k ==> eq(v, groups[i].val)
  {
    if groups == [] then 0
    else
      var n := |groups| - 1;
      var k := Taker(eq, groups[..n], v);
      if k < n || !eq(v, groups[n].val) then k else n + 1
  }

  function Placed(groups: seq<Group>, k: nat, v: Value, row: int): seq<Group>
    requires k <= |groups|
  {
    if k < |groups| then groups[k := Group(groups[k].val, groups[k].rows + [row])]
    else groups + [Group(v, [row])]
  }

  function Summary(eq: (Value, Value) -> bool, rows: seq<int>, key: int -> Value): seq<Group> {
    if rows == [] then []
    else
      var n := |rows| - 1;
      var groups := Summary(eq, rows[..n], key);
      Placed(groups, Taker(eq, groups, key(rows[n])), key(rows[n]), rows[n])
  }

  /** For each row the group it went to. */
  function Assignment(eq: (Value, Value) -> bool, rows: seq<int>, key: int -> Value): (a: seq<nat>)
    ensures |a| == |rows|
  {
    if rows == [] then []
    else
      var n := |rows| - 1;
      Assignment(eq, rows[..n], key) + [Taker(eq, Summary(eq, rows[..n], key), key(rows[n]))]
  }

  /** The rows that an assignment sends to group `k`, in order. */
  function Share(rows: seq<int>, a: seq<nat>, k: nat): seq<int>
    requires |a| == |rows|
  {
    if rows == [] then []
    else
      var n := |rows| - 1;
      Share(rows[..n], a[..n], k) + if a[n] == k then [rows[n]] else []
  }

  lemma {:induction false} ShareBeyond(rows: seq<int>, a: seq<nat>, k: nat)
    requires |a| == |rows| && forall i :: 0 <= i < |a| ==> a[i] < k
    ensures Share(rows, a, k) == []
  {
    if rows != [] {
      ShareBeyond(rows[..|rows| - 1], a[..|a| - 1], k);
    }
  }

  /** Each row goes to exactly one group, and each group has its share of the rows, in their order, and at
      least one. */
  ghost predicate Partitioned(groups: seq<Group>, rows: seq<int>, a: seq<nat>) {
    && |a| == |rows|
    && (forall i :: 0 <= i < |a| ==> a[i] < |groups|)
    && (forall k :: 0 <= k < |groups| ==> groups[k].rows == Share(rows, a, k) && groups[k].rows != [])
  }

  lemma PlacedPartitions(groups: seq<Group>, rows: seq<int>, a: seq<nat>, k: nat, v: Value, row: int)
    requires Partitioned(groups, rows, a) && k <= |groups|
    ensures Partitioned(Placed(groups, k, v, row), rows + [row], a + [k])
  {
    var rows', a' := rows + [row], a + [k];
    assert rows'[..|rows|] == rows && a'[..|a|] == a;
    ShareBeyond(rows, a, |groups|);
    forall l: nat
      ensures Share(rows', a', l) == Share(rows, a, l) + if k == l then [row] else []
    {
    }
  }

  /** Whatever the test is, the groups partition the rows in order. */
  lemma {:induction false} SummaryPartitions(eq: (Value, Value) -> bool, rows: seq<int>, key: int -> Value)
    ensures Partitioned(Summary(eq, rows, key), rows, Assignment(eq, rows, key))
  {
    if rows != [] {
      var n := |rows| - 1;
      SummaryPartitions(eq, rows[..n], key);
      var groups := Summary(eq, rows[..n], key);
      var k := Taker(eq, groups, key(rows[n]));
      PlacedPartitions(groups, rows[..n], Assignment(eq, rows[..n], key), k, key(rows[n]), rows[n]);
      assert rows == rows[..n] + [rows[n]];
    }
  }

  /** What the documentation promises: one group for each discrete value. */
  ghost predicate ByValue(groups: seq<Group>, key: int -> Value) {
    && (forall k, r :: 0 <= k < |groups| && r in groups[k].rows ==> key(r) == groups[k].val)
    && (forall k, l :: 0 <= k < l < |groups| ==> groups[k].val != groups[l].val)
  }

  /** One group for each row, all with the same value. */
  function Singles(rows: seq<int>, v: Value): (groups: seq<Group>)
    ensures |groups| == |rows|
    ensures forall i :: 0 <= i < |rows| ==> groups[i] == Group(v, [rows[i]])
  {
    seq(|rows|, i requires 0 <= i < |rows| => Group(v, [rows[i]]))
  }

  ghost predicate IsEquality(eq: (Value, Value) -> bool) {
    forall v, w :: eq(v, w) <==> v == w
  }

  function OtherValue(key: int -> Value, v: Value): int -> bool {
    (r: int) => key(r) != v
  }

  function ThisValue(key: int -> Value, v: Value): int -> bool {
    (r: int) => key(r) == v
  }

  /** What the inverted test makes of a first row and the rows after it: the first group gets the first row
      and all rows with another value, every other row becomes a group of its own. */
  function Inverted(first: int, rest: seq<int>, key: int -> Value): seq<Group> {
    var v := key(first);
    [Group(v, [first] + Filtered(rest, OtherValue(key, v)))] + Singles(Filtered(rest, ThisValue(key, v)), v)
  }

  /** If all groups have value `v`, rows with that value get a new group, all others go to the first. */
  lemma TakerAmongEquals(eq: (Value, Value) -> bool, groups: seq<Group>, v: Value, w: Value)
    requires IsEquality(eq) && groups != []
    requires forall k :: 0 <= k < |groups| ==> groups[k].val == v
    ensures Taker(eq, groups, w) == if w != v then 0 else |groups|
  {
    hide Taker;
    assert groups[0].val == v;
  }

  lemma FilteredSnoc(rest: seq<int>, row: int, keep: int -> bool)
    ensures Filtered(rest + [row], keep) == Filtered(rest, keep) + if keep(row) then [row] else []
  {
    assert (rest + [row])[..|rest|] == rest;
  }

  lemma InvertedSnoc(eq: (Value, Value) -> bool, first: int, rest: seq<int>, key: int -> Value, row: int)
    requires IsEquality(eq)
    ensures var groups := Inverted(first, rest, key);
      Inverted(first, rest + [row], key) == Placed(groups, Taker(eq, groups, key(row)), key(row), row)
  {
    hide Filtered, Taker, IsEquality, Placed;
    var v, groups := key(first), Inverted(first, rest, key);
    var f, t := Filtered(rest, OtherValue(key, v)), Filtered(rest, ThisValue(key, v));
    FilteredSnoc(rest, row, OtherValue(key, v));
    FilteredSnoc(rest, row, ThisValue(key, v));
    TakerAmongEquals(eq, groups, v, key(row));
    if key(row) != v {
      FirstGroupGrows(v, [first], f, t, row);
    } else {
      NewGroupAdded(Group(v, [first] + f), t, v, row);
      assert [first] + f + [] == [first] + (f + []);
    }
  }

  lemma FirstGroupGrows(v: Value, a: seq<int>, f: seq<int>, t: seq<int>, row: int)
    ensures forall w ::
      Placed([Group(v, a + f)] + Singles(t, v), 0, w, row) == [Group(v, a + (f + [row]))] + Singles(t + [], v)
  {
    assert a + f + [row] == a + (f + [row]);
    assert t + [] == t;
  }

  lemma NewGroupAdded(g: Group, t: seq<int>, v: Value, row: int)
    ensures var groups := [g] + Singles(t, v);
      Placed(groups, |groups|, v, row) == [Group(g.val, g.rows + [])] + Singles(t + [row], v)
  {
    assert g.rows + [] == g.rows;
    assert Singles(t + [row], v) == Singles(t, v) + [Group(v, [row])];
  }

  lemma {:induction false} SummaryForm(eq: (Value, Value) -> bool, first: int, rest: seq<int>, key: int -> Value)
    requires IsEquality(eq)
    ensures Summary(eq, [first] + rest, key) == Inverted(first, rest, key)
  {
    hide Inverted, Placed, Taker, IsEquality;
    var rows := [first] + rest;
    var n := |rest|;
    if n == 0 {
      assert rows == [first];
      FirstGroup(eq, first, key);
    } else {
      SummaryForm(eq, first, rest[..n - 1], key);
      InvertedSnoc(eq, first, rest[..n - 1], key, rest[n - 1]);
      assert rows[..n] == [first] + rest[..n - 1];
      assert rest == rest[..n - 1] + [rest[n - 1]];
    }
  }

  lemma FirstGroup(eq: (Value, Value) -> bool, first: int, key: int -> Value)
    ensures Summary(eq, [first], key) == Inverted(first, [], key)
  {
    assert [first][..0] == [];
    assert Summary(eq, [first][..0], key) == [];
    assert [first] + [] == [first] && Singles([], key(first)) == [];
  }

  /** So, the test being equality, the groups are by value if and only if there is at most one row. */
  lemma SummaryIsByValue(eq: (Value, Value) -> bool, rows: seq<int>, key: int -> Value)
    requires IsEquality(eq)
    ensures ByValue(Summary(eq, rows, key), key) <==> |rows| <= 1
  {
    if rows != [] {
      hide Inverted, ByValue, Summary;
      assert rows == [rows[0]] + rows[1..];
      SummaryForm(eq, rows[0], rows[1..], key);
      InvertedIsByValue(rows[0], rows[1..], key);
    }
  }

  lemma InvertedIsByValue(first: int, rest: seq<int>, key: int -> Value)
    ensures ByValue(Inverted(first, rest, key), key) <==> rest == []
  {
    var v, groups := key(first), Inverted(first, rest, key);
    if rest != [] {
      FilterSelects(rest, OtherValue(key, v));
      FilterSelects(rest, ThisValue(key, v));
      var r := rest[0];
      if key(r) == v {
        assert r in Filtered(rest, ThisValue(key, v));
        assert groups[0].val == groups[1].val;
      } else {
        assert r in Filtered(rest, OtherValue(key, v));
        assert r in groups[0].rows;
      }
    }
  }
}

module Contexts {
  import opened ContextSpec

  const ROW_BLOCK := 40

  /** A summary group being filled: `rowList.Length` is the allocated size. */
  class GroupRows {
    const val: Value
    var rowList: array<int>
    var numRows: nat

    ghost predicate Valid()
      reads this
    {
      numRows <= rowList.Length && rowList.Length >= ROW_BLOCK
    }

    ghost function Rows(): seq<int>
      requires Valid()
      reads this, rowList
    {
      rowList[..numRows]
    }

    constructor (val: Value, row: int)
      ensures Valid() && this.val == val && Rows() == [row] && fresh(rowList)
    {
      this.val := val;
      var list := new int[ROW_BLOCK];
      list[0] := row;
      rowList, numRows := list, 1;
    }

    /** Adds a row, with a larger array if the allocated size is used up. */
    method Add(row: int)
      requires Valid()
      modifies this, rowList
      ensures Valid() && Rows() == old(Rows()) + [row]
      ensures rowList == old(rowList) || fresh(rowList)
    {
      if numRows == rowList.Length {
        var d := rowList.Length / 4;
        var list := new int[rowList.Length + if d > ROW_BLOCK then d else ROW_BLOCK];
        forall i | 0 <= i < numRows {
          list[i] := rowList[i];
        }
        rowList := list;
      }
      rowList[numRows] := row;
      numRows := numRows + 1;
    }
  }

  lemma NothingFiltered(keep: int -> bool)
    ensures Filtered([], keep) == []
  {
  }

  /** The where-clause, first pass: marks the rows that satisfy it. */
  method MarkRows(rowList: array<int>, maxPos: nat, keep: int -> bool) returns (mark: array<bool>)
    requires maxPos <= rowList.Length
    ensures fresh(mark) && mark.Length == maxPos
    ensures forall i :: 0 <= i < maxPos ==> mark[i] == keep(rowList[i])
  {
    mark := new bool[maxPos];
    var pos := 0;
    while pos < maxPos
      invariant pos <= maxPos
      invariant forall i :: 0 <= i < pos ==> mark[i] == keep(rowList[i])
    {
      mark[pos] := keep(rowList[pos]);
      pos := pos + 1;
    }
  }

  /** The where-clause: the rows that satisfy it are moved to the front of the list, in place.  The result is
      the number of rows kept. */
  method FilterRows(rowList: array<int>, maxPos: nat, keep: int -> bool) returns (pos: nat)
    requires maxPos <= rowList.Length
    modifies rowList
    ensures pos <= maxPos && rowList[..pos] == Filtered(old(rowList[..maxPos]), keep)
    ensures rowList[maxPos..] == old(rowList[maxPos..])
  {
    hide Filtered;
    ghost var rows := rowList[..maxPos];
    NothingFiltered(keep);
    var mark := MarkRows(rowList, maxPos, keep);
    assert forall i :: 0 <= i < maxPos ==> mark[i] == keep(rows[i]);
    pos := 0;
    var i := 0;
    while i < maxPos
      invariant pos <= i <= maxPos
      invariant forall j :: 0 <= j < maxPos ==> mark[j] == keep(rows[j])
      invariant rowList[..pos] == Filtered(rows[..i], keep)
      invariant forall j :: i <= j < maxPos ==> rowList[j] == rows[j]
      invariant forall j :: maxPos <= j < rowList.Length ==> rowList[j] == old(rowList[j])
    {
      ghost var kept := rowList[..pos];
      assert rows[..i + 1] == rows[..i] + [rows[i]];
      FilteredSnoc(rows[..i], rows[i], keep);
      if mark[i] {
        if i != pos {
          rowList[pos] := rowList[i];
        }
        pos := pos + 1;
        assert rowList[..pos] == kept + [rows[i]];
      } else {
        assert kept + [] == kept;
      }
      i := i + 1;
    }
    assert rows[..i] == rows;
  }

  /** Sort(): `sorted` is what std::sort() made of the rows and their sort values. */
  method SortRows(rowList: array<int>, maxPos: nat, ghost list: seq<Templist>, sorted: seq<Templist>,
                  ghost lt: (Value, Value) -> bool, descending: bool)
    requires maxPos <= rowList.Length && Positions(list) == rowList[..maxPos]
    requires IsSortOf(lt, list, sorted)
    modifies rowList
    ensures rowList[..maxPos] == if descending then Reversed(Positions(sorted)) else Positions(sorted)
    ensures multiset(rowList[..maxPos]) == multiset(old(rowList[..maxPos]))
    ensures rowList[maxPos..] == old(rowList[maxPos..])
  {
    hide IsSortOf;
    SortPermutes(lt, list, sorted);
    assert |list| == |Positions(list)| == maxPos;
    var pos := 0;
    var i := if descending then maxPos - 1 else 0;
    ghost var result := if descending then Reversed(Positions(sorted)) else Positions(sorted);
    while pos < maxPos
      invariant pos <= maxPos
      invariant i == if descending then maxPos - 1 - pos else pos
      invariant forall j :: 0 <= j < pos ==> rowList[j] == result[j]
      invariant forall j :: maxPos <= j < rowList.Length ==> rowList[j] == old(rowList[j])
    {
      rowList[pos] := sorted[i].pos;
      i := if descending then i - 1 else i + 1;
      pos := pos + 1;
    }
    assert rowList[..maxPos] == result;
  }

  /** A context up to its summary; `rowList` may be longer than `maxPos`, as the source cuts it afterwards. */
  class Context {
    var rowList: array<int>
    var maxPos: nat

    ghost predicate Valid()
      reads this, rowList
    {
      maxPos <= rowList.Length && DistinctRows(Rows())
    }

    ghost function Rows(): seq<int>
      reads this, rowList
    {
      if maxPos <= rowList.Length then rowList[..maxPos] else []
    }

    /** A context over all `total` rows of a query, or a subcontext of `parent`: its rows are distinct, exactly
        those of the query or of the parent that satisfy the clause, and in order. */
    constructor (parent: Context?, total: nat, clause: Clause, order: SortBy,
                 sorter: seq<Templist> -> seq<Templist>, ghost lt: (Value, Value) -> bool)
      requires parent != null ==> parent.Valid()
      requires Sorts(sorter, lt)
      ensures Valid() && fresh(rowList)
      ensures parent != null ==> forall r :: r in Rows() <==> r in parent.Rows() && Satisfies(clause, r)
      ensures parent == null ==> forall r :: r in Rows() <==> 0 <= r < total && Satisfies(clause, r)
      ensures order.Unsorted? ==>
        Rows() == Selected(clause, if parent != null then parent.Rows() else AllRows(total))
      ensures Ordered(lt, order, Rows())
    {
      var rows := StartRows(parent, total);
      var n := SelectAndSort(rows, clause, order, sorter, lt);
      hide Selected, Sorts, DistinctRows, Ordered, Satisfies;
      rowList, maxPos := rows, n;
    }
  }

  /** The where-clause and the sort, in place. */
  method SelectAndSort(rows: array<int>, clause: Clause, order: SortBy, sorter: seq<Templist> -> seq<Templist>,
                       ghost lt: (Value, Value) -> bool)
    returns (n: nat)
    requires DistinctRows(rows[..]) && Sorts(sorter, lt)
    modifies rows
    ensures n <= rows.Length && DistinctRows(rows[..n])
    ensures forall r :: r in rows[..n] <==> r in old(rows[..]) && Satisfies(clause, r)
    ensures order.Unsorted? ==> rows[..n] == Selected(clause, old(rows[..]))
    ensures Ordered(lt, order, rows[..n])
  {
    ghost var start := rows[..];
    n := rows.Length;
    assert rows[..n] == start;
    if clause.Where? {
      n := FilterRows(rows, n, clause.keep);
    }
    ghost var selected := rows[..n];
    assert selected == Selected(clause, start);
    SelectedRows(clause, start);
    hide Selected, Sorts, DistinctRows, Ordered, Satisfies;
    SortStage(rows, n, order, sorter, lt);
    SameRows(selected, rows[..n]);
  }

  method StartRows(parent: Context?, total: nat) returns (rows: array<int>)
    requires parent != null ==> parent.Valid()
    ensures fresh(rows) && DistinctRows(rows[..])
    ensures rows[..] == if parent != null then parent.Rows() else AllRows(total)
  {
    if parent != null {
      rows := new int[parent.maxPos];
      forall i | 0 <= i < parent.maxPos {
        rows[i] := parent.rowList[i];
      }
      assert rows[..] == parent.Rows();
    } else {
      rows := new int[total];
      var i := 0;
      while i < total
        invariant i <= total
        invariant forall j :: 0 <= j < i ==> rows[j] == j
      {
        rows[i] := i;
        i := i + 1;
      }
      assert rows[..] == AllRows(total);
    }
  }

  /** Sort(), if the statement has a sort: evaluates the key of each row, sorts, and writes the rows back. */
  method SortStage(rowList: array<int>, maxPos: nat, order: SortBy, sorter: seq<Templist> -> seq<Templist>,
                   ghost lt: (Value, Value) -> bool)
    requires maxPos <= rowList.Length && Sorts(sorter, lt)
    modifies rowList
    ensures multiset(rowList[..maxPos]) == multiset(old(rowList[..maxPos]))
    ensures order.Unsorted? ==> rowList[..maxPos] == old(rowList[..maxPos])
    ensures Ordered(lt, order, rowList[..maxPos])
  {
    if order.By? {
      var list: seq<Templist> := [];
      var pos := 0;
      while pos < maxPos
        invariant pos <= maxPos && list == Keyed(rowList[..pos], order.key)
      {
        list := list + [Templist(order.key(rowList[pos]), rowList[pos])];
        pos := pos + 1;
        assert list == Keyed(rowList[..pos], order.key);
      }
      ghost var rows := rowList[..maxPos];
      assert IsSortOf(lt, list, sorter(list));
      hide IsSortOf, Ordered;
      SortedRowsAreOrdered(lt, rows, order.key, sorter(list), order.descending);
      assert Positions(list) == rows;
      SortRows(rowList, maxPos, list, sorter(list), lt, order.descending);
    }
  }

  /** The groups and their arrays are all different objects. */
  ghost predicate Separate(groups: seq<GroupRows>)
    reads groups
  {
    && (forall i :: 0 <= i < |groups| ==> groups[i].Valid())
    && (forall i, j :: 0 <= i < j < |groups| ==> groups[i] != groups[j] && groups[i].rowList != groups[j].rowList)
  }

  ghost predicate Stands(groups: seq<GroupRows>, spec: seq<Group>)
    reads groups, set i | 0 <= i < |groups| :: groups[i].rowList
  {
    && Separate(groups)
    && |groups| == |spec|
    && forall i :: 0 <= i < |groups| ==> Group(groups[i].val, groups[i].Rows()) == spec[i]
  }

  /** in_list(): adds the row to the first group whose value is not equal, if there is one. */
  method InList(groups: seq<GroupRows>, ghost spec: seq<Group>, eq: (Value, Value) -> bool, v: Value, row: int)
    returns (found: bool)
    requires Stands(groups, spec)
    modifies groups, set i | 0 <= i < |groups| :: groups[i].rowList
    ensures found <==> Taker(eq, spec, v) < |spec|
    ensures Stands(groups, if found then Placed(spec, Taker(eq, spec, v), v, row) else spec)
    ensures forall i :: 0 <= i < |groups| ==> groups[i].rowList == old(groups[i].rowList) || fresh(groups[i].rowList)
  {
    var i := 0;
    while i < |groups|
      invariant i <= |groups| && Stands(groups, spec)
      invariant forall j :: 0 <= j < i ==> eq(v, spec[j].val)
      invariant forall j :: 0 <= j < |groups| ==> groups[j].rowList == old(groups[j].rowList)
    {
      assert Group(groups[i].val, groups[i].Rows()) == spec[i];
      if !eq(v, groups[i].val) {
        assert Taker(eq, spec, v) == i;
        groups[i].Add(row);
        return true;
      }
      i := i + 1;
    }
    assert Taker(eq, spec, v) == |spec|;
    found := false;
  }

  /** Adds the row to the group that in_list() finds, or to a new one.  `size` is the allocated size of the
      group array. */
  method PlaceRow(groups: seq<GroupRows>, ghost spec: seq<Group>, eq: (Value, Value) -> bool, v: Value, row: int,
                  size: nat)
    returns (groups': seq<GroupRows>, size': nat)
    requires Stands(groups, spec) && |groups| <= size
    modifies groups, set i | 0 <= i < |groups| :: groups[i].rowList
    ensures Stands(groups', Placed(spec, Taker(eq, spec, v), v, row)) && |groups'| <= size'
    ensures forall i :: 0 <= i < |groups'| ==>
      if i < |groups| then groups'[i] == groups[i] &&
        (groups'[i].rowList == old(groups[i].rowList) || fresh(groups'[i].rowList))
      else fresh(groups'[i]) && fresh(groups'[i].rowList)
  {
    hide Taker;
    groups', size' := groups, size;
    var found := InList(groups, spec, eq, v, row);
    if found {
      return;
    }
    if |groups| == size {
      size' := size + ROW_BLOCK;
    }
    groups' := AddGroup(groups, spec, v, row);
    assert |groups| < size';
  }

  method AddGroup(groups: seq<GroupRows>, ghost spec: seq<Group>, v: Value, row: int) returns (groups': seq<GroupRows>)
    requires Stands(groups, spec)
    ensures Stands(groups', spec + [Group(v, [row])])
    ensures |groups'| == |groups| + 1 && groups'[..|groups|] == groups
    ensures fresh(groups'[|groups|]) && fresh(groups'[|groups|].rowList)
  {
    var g := new GroupRows(v, row);
    groups' := groups + [g];
  }

  lemma SummarySnoc(eq: (Value, Value) -> bool, rows: seq<int>, key: int -> Value, n: nat)
    requires n < |rows|
    ensures var spec := Summary(eq, rows[..n], key);
      Summary(eq, rows[..n + 1], key) == Placed(spec, Taker(eq, spec, key(rows[n])), key(rows[n]), rows[n])
  {
    assert rows[..n + 1][..n] == rows[..n];
  }

  /** The summary part of the constructor. */
  method Summarize(rows: seq<int>, eq: (Value, Value) -> bool, key: int -> Value) returns (groups: seq<GroupRows>)
    ensures Stands(groups, Summary(eq, rows, key))
  {
    hide Stands, Summary, Placed, Taker;
    groups := [];
    var size := 0;
    EmptyStands(groups, eq, key);
    assert rows[..0] == [];
    var pos := 0;
    while pos < |rows|
      invariant pos <= |rows|
      invariant |groups| <= size
      invariant Stands(groups, Summary(eq, rows[..pos], key))
      invariant forall i :: 0 <= i < |groups| ==> fresh(groups[i]) && fresh(groups[i].rowList)
    {
      SummarySnoc(eq, rows, key, pos);
      groups, size := PlaceRow(groups, Summary(eq, rows[..pos], key), eq, key(rows[pos]), rows[pos], size);
      pos := pos + 1;
    }
    assert rows[..pos] == rows;
  }

  lemma EmptyStands(groups: seq<GroupRows>, eq: (Value, Value) -> bool, key: int -> Value)
    requires groups == []
    ensures Stands(groups, Summary(eq, [], key))
  {
  }
}
