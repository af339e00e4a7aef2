/** The rows of a table that a query still wants, kept in one of three forms. */
module RowIndex {
  import opened Ordering

  // ---- Lists of rows --------------------------------------------------------------------------------------

  predicate Distinct(s: seq<nat>) {
    forall i, j :: 0 <= i < j < |s| ==> s[i] != s[j]
  }

  /** In order, with or without repetitions. */
  predicate Ordered(s: seq<nat>) {
    forall i, j :: 0 <= i < j < |s| ==> s[i] <= s[j]
  }

  /** No row in a range is in the list twice. */
  predicate DistinctWithin(s: seq<nat>, low: nat, high: nat) {
    forall i, j :: 0 <= i < j < |s| && low <= s[i] < high ==> s[i] != s[j]
  }

  lemma {:induction false} OrderedCons(s: seq<nat>)
    requires s != []
    ensures Ordered(s) <==> Ordered(s[1..]) && forall x :: x in s[1..] ==> s[0] <= x
  {
    if Ordered(s) {
      assert forall i :: 0 <= i < |s[1..]| ==> s[1..][i] == s[i + 1];
    } else {
      var i, j :| 0 <= i < j < |s| && s[i] > s[j];
      assert s[1..][j - 1] == s[j] && s[j] in s[1..];
      if i > 0 {
        assert s[1..][i - 1] == s[i];
      }
    }
  }

  // ---- Sorting and searching, as the standard library does -------------------------------------------------

  function Inserted(s: seq<nat>, x: nat): (r: seq<nat>)
    ensures multiset(r) == multiset(s) + multiset{x}
  {
    if s == [] || x < s[0] then [x] + s
    else
      assert s == [s[0]] + s[1..];
      [s[0]] + Inserted(s[1..], x)
  }

  lemma {:induction false} InsertedOrdered(s: seq<nat>, x: nat)
    requires Ordered(s)
    ensures Ordered(Inserted(s, x))
  {
    hide Ordered;
    if s != [] {
      OrderedCons(s);
    }
    if s == [] || x < s[0] {
      assert s == [] || s == [s[0]] + s[1..];
      OrderedFront(x, s);
    } else {
      InsertedOrdered(s[1..], x);
      InsertedMembers(s[1..], x);
      OrderedFront(s[0], Inserted(s[1..], x));
    }
  }

  lemma {:induction false} OrderedFront(x: nat, s: seq<nat>)
    requires Ordered(s) && forall y :: y in s ==> x <= y
    ensures Ordered([x] + s)
  {
    hide Ordered;
    assert ([x] + s)[1..] == s;
    OrderedCons([x] + s);
  }

  lemma {:induction false} InsertedMembers(s: seq<nat>, x: nat)
    ensures forall y :: y in Inserted(s, x) ==> y in s || y == x
  {
    forall y | y in Inserted(s, x)
      ensures y in s || y == x
    {
      assert y in multiset(s) + multiset{x};
    }
  }

  function Sort(s: seq<nat>): (r: seq<nat>)
    ensures multiset(r) == multiset(s)
  {
    if s == [] then []
    else
      assert s == s[..|s| - 1] + [s[|s| - 1]];
      Inserted(Sort(s[..|s| - 1]), s[|s| - 1])
  }

  lemma {:induction false} SortOrdered(s: seq<nat>)
    ensures Ordered(Sort(s)) && forall x :: x in Sort(s) <==> x in s
  {
    forall x
      ensures x in Sort(s) <==> x in s
    {
      assert x in multiset(Sort(s)) <==> x in multiset(s);
    }
    if s != [] {
      SortOrdered(s[..|s| - 1]);
      InsertedOrdered(Sort(s[..|s| - 1]), s[|s| - 1]);
    }
  }

  /** Sorting changes how often no row is there. */
  lemma {:induction false} SortDistinct(s: seq<nat>, low: nat, high: nat)
    requires DistinctWithin(s, low, high)
    ensures DistinctWithin(Sort(s), low, high)
  {
    var r := Sort(s);
    forall i, j | 0 <= i < j < |r| && low <= r[i] < high
      ensures r[i] != r[j]
    {
      if r[i] == r[j] {
        Twice(r, i, j);
        Once(s, low, high, r[i]);
      }
    }
  }

  lemma {:induction false} Twice(s: seq<nat>, i: nat, j: nat)
    requires i < j < |s| && s[i] == s[j]
    ensures multiset(s)[s[i]] >= 2
  {
    assert s == s[..j] + s[j..] && s[..j][i] == s[i] && s[j..][0] == s[j];
    assert s[i] in s[..j] && s[i] in s[j..];
  }

  lemma {:induction false} Once(s: seq<nat>, low: nat, high: nat, x: nat)
    requires DistinctWithin(s, low, high) && low <= x < high
    ensures multiset(s)[x] <= 1
  {
    if s != [] {
      var front, last := s[..|s| - 1], s[|s| - 1];
      assert s == front + [last];
      Once(front, low, high, x);
      if last == x {
        assert forall i :: 0 <= i < |front| ==> front[i] == s[i];
        assert x !in front;
      }
    }
  }

  lemma {:induction false} SortSorted(s: seq<nat>)
    requires Ordered(s)
    ensures Sort(s) == s
  {
    hide Inserted;
    if s != [] {
      var front, last := s[..|s| - 1], s[|s| - 1];
      assert forall i :: 0 <= i < |front| ==> front[i] == s[i] && front[i] <= last;
      SortSorted(front);
      InsertedLast(front, last);
      assert s == front + [last];
    }
  }

  lemma {:induction false} InsertedLast(s: seq<nat>, x: nat)
    requires forall y :: y in s ==> y <= x
    ensures Inserted(s, x) == s + [x]
  {
    if s != [] {
      assert s == [s[0]] + s[1..] && s[0] in s;
      assert forall y :: y in s[1..] ==> y in s;
      InsertedLast(s[1..], x);
      assert s + [x] == [s[0]] + (s[1..] + [x]);
    }
  }

  /** How many rows at the front come before a row. */
  function LowerBound(s: seq<nat>, x: nat): (n: nat)
    ensures n <= |s|
    ensures forall i :: 0 <= i < n ==> s[i] < x
    ensures n < |s| ==> x <= s[n]
  {
    if s == [] || x <= s[0] then 0 else 1 + LowerBound(s[1..], x)
  }

  /** The rows of a list in order that are in a range. */
  function Within(s: seq<nat>, startRow: nat, endRow: nat): seq<nat> {
    var tail := s[LowerBound(s, startRow)..];
    tail[..LowerBound(tail, endRow)]
  }

  lemma {:induction false} WithinOk(s: seq<nat>, startRow: nat, endRow: nat)
    requires Ordered(s)
    ensures var r := Within(s, startRow, endRow);
            Ordered(r) && forall x :: x in r <==> x in s && startRow <= x < endRow
    ensures DistinctWithin(s, startRow, endRow) ==> Distinct(Within(s, startRow, endRow))
  {
    hide LowerBound, Ordered, DistinctWithin, Distinct;
    var begin := LowerBound(s, startRow);
    var tail := s[begin..];
    var n := LowerBound(tail, endRow);
    forall i | begin <= i < begin + n
      ensures s[i] < endRow
    {
      assert tail[i - begin] == s[i];
    }
    assert tail[..n] == s[begin..begin + n];
    Slice(s, startRow, endRow, begin, begin + n);
    SliceDistinct(s, startRow, endRow, begin, begin + n);
  }

  lemma {:induction false} Slice(s: seq<nat>, startRow: nat, endRow: nat, begin: nat, end: nat)
    requires Ordered(s) && begin <= end <= |s|
    requires forall i :: 0 <= i < begin ==> s[i] < startRow
    requires begin < |s| ==> startRow <= s[begin]
    requires forall i :: begin <= i < end ==> s[i] < endRow
    requires end < |s| ==> endRow <= s[end]
    ensures Ordered(s[begin..end])
    ensures forall x :: x in s[begin..end] <==> x in s && startRow <= x < endRow
  {
  }

  lemma {:induction false} SliceDistinct(s: seq<nat>, startRow: nat, endRow: nat, begin: nat, end: nat)
    requires begin <= end <= |s| && forall x :: x in s[begin..end] ==> startRow <= x < endRow
    ensures DistinctWithin(s, startRow, endRow) ==> Distinct(s[begin..end])
  {
    assert forall i :: 0 <= i < end - begin ==> s[begin..end][i] == s[begin + i] && s[begin..end][i] in s[begin..end];
  }

  /** The rows that two lists share, found by walking both at once. */
  function Merge(a: seq<nat>, b: seq<nat>): seq<nat>
    decreases |a| + |b|
  {
    if a == [] || b == [] then []
    else if a[0] < b[0] then Merge(a[1..], b)
    else if b[0] < a[0] then Merge(a, b[1..])
    else [a[0]] + Merge(a[1..], b[1..])
  }

  lemma {:induction false} MergeWithin(a: seq<nat>, b: seq<nat>)
    ensures forall x :: x in Merge(a, b) ==> x in a && x in b
    ensures Distinct(a) ==> Distinct(Merge(a, b))
    decreases |a| + |b|
  {
    if a != [] && b != [] {
      assert a == [a[0]] + a[1..] && b == [b[0]] + b[1..];
      assert forall i :: 0 <= i < |a[1..]| ==> a[1..][i] == a[i + 1];
      if a[0] < b[0] {
        MergeWithin(a[1..], b);
      } else if b[0] < a[0] {
        MergeWithin(a, b[1..]);
      } else {
        MergeWithin(a[1..], b[1..]);
        assert Distinct(a) ==> a[0] !in Merge(a[1..], b[1..]);
      }
    }
  }

  lemma {:induction false} MergeOrdered(a: seq<nat>, b: seq<nat>)
    requires Ordered(a)
    ensures Ordered(Merge(a, b))
    decreases |a| + |b|
  {
    if a != [] && b != [] {
      OrderedCons(a);
      if a[0] < b[0] {
        MergeOrdered(a[1..], b);
      } else if b[0] < a[0] {
        MergeOrdered(a, b[1..]);
      } else {
        MergeOrdered(a[1..], b[1..]);
        MergeWithin(a[1..], b[1..]);
        var m := Merge(a, b);
        assert m[1..] == Merge(a[1..], b[1..]);
        OrderedCons(m);
      }
    }
  }

  /** No row comes after a larger one, unless it was there before that. */
  predicate NoneHidden(a: seq<nat>) {
    forall i, j :: 0 <= i < j < |a| && a[j] < a[i] ==> a[j] in a[..i]
  }

  /** The walk finds a shared row if all rows before it in the first list are smaller. */
  lemma {:induction false} MergeFinds(a: seq<nat>, b: seq<nat>, k: nat)
    requires Ordered(b) && k < |a| && a[k] in b && forall i :: 0 <= i < k ==> a[i] < a[k]
    ensures a[k] in Merge(a, b)
    decreases |a| + |b|
  {
    OrderedCons(b);
    assert b == [b[0]] + b[1..];
    if a[0] < b[0] {
      assert a[1..][k - 1] == a[k];
      MergeFinds(a[1..], b, k - 1);
    } else if b[0] < a[0] {
      MergeFinds(a, b[1..], k);
    } else if k > 0 {
      assert a[1..][k - 1] == a[k];
      MergeFinds(a[1..], b[1..], k - 1);
    }
  }

  /** Walking a list for one row misses it, if a larger one comes first. */
  lemma {:induction false} MergeMisses(a: seq<nat>, x: nat, i: nat)
    requires i < |a| && x < a[i] && x !in a[..i]
    ensures Merge(a, [x]) == []
    decreases |a|
  {
    if a[0] < x {
      assert a[1..][i - 1] == a[i];
      assert forall y :: y in a[1..][..i - 1] ==> y in a[..i];
      MergeMisses(a[1..], x, i - 1);
    } else {
      if i > 0 {
        assert a[..i][0] == a[0] && a[0] in a[..i];
      }
      assert [x][1..] == [];
      assert Merge(a, [x][1..]) == [];
    }
  }

  lemma {:induction false} FirstOf(a: seq<nat>, x: nat) returns (k: nat)
    requires x in a
    ensures k < |a| && a[k] == x && x !in a[..k]
  {
    if a[0] == x {
      k := 0;
    } else {
      k := FirstOf(a[1..], x);
      k := k + 1;
      assert a[..k] == [a[0]] + a[1..][..k - 1];
    }
  }

  lemma {:induction false} MergeShared(a: seq<nat>, b: seq<nat>)
    requires NoneHidden(a) && Ordered(b)
    ensures forall x :: x in Merge(a, b) <==> x in a && x in b
  {
    MergeWithin(a, b);
    forall x | x in a && x in b
      ensures x in Merge(a, b)
    {
      var k := FirstOf(a, x);
      forall i | 0 <= i < k
        ensures a[i] < x
      {
        assert a[..k][i] == a[i];
        assert x !in a[..i] by {
          assert forall y :: y in a[..i] ==> y in a[..k];
        }
      }
      MergeFinds(a, b, k);
    }
  }

  ghost predicate SharesAll(a: seq<nat>) {
    forall b: seq<nat> :: forall x :: x in Merge(a, Sort(b)) <==> x in a && x in b
  }

  /** The walk finds what two lists share, whatever the other one, exactly when the list hides no row; for a
      list without repetitions, exactly when it is in order. */
  lemma {:induction false} SharesAllIff(a: seq<nat>)
    ensures SharesAll(a) <==> NoneHidden(a)
    ensures Distinct(a) ==> (NoneHidden(a) <==> Sorted(a))
    ensures Ordered(a) ==> NoneHidden(a)
  {
    hide Sort, Merge;
    if NoneHidden(a) {
      forall b: seq<nat>
        ensures forall x :: x in Merge(a, Sort(b)) <==> x in a && x in b
      {
        SortOrdered(b);
        MergeShared(a, Sort(b));
      }
    } else {
      var i, j :| 0 <= i < j < |a| && a[j] < a[i] && a[j] !in a[..i];
      var x := a[j];
      MergeMisses(a, x, i);
      SortSorted([x]);
      assert x in [x] && x in a && x !in Merge(a, Sort([x]));
    }
    HiddenOrder(a);
  }

  lemma {:induction false} HiddenOrder(a: seq<nat>)
    ensures Distinct(a) ==> (NoneHidden(a) <==> Sorted(a))
    ensures Ordered(a) ==> NoneHidden(a)
  {
    if Distinct(a) && NoneHidden(a) {
      forall i, j | 0 <= i < j < |a|
        ensures a[i] < a[j]
      {
        assert forall k :: 0 <= k < i ==> a[..i][k] == a[k];
      }
    }
  }

  // ---- What a restriction does to the rows ----------------------------------------------------------------

  datatype Restriction = Filter(fn: nat -> bool) | Intersect(list: seq<nat>) {
    predicate Accepts(r: nat) {
      match this
      case Filter(fn) => fn(r)
      case Intersect(list) => r in list
    }
  }

  /** All rows of a range, those that are marked, or those in a list. */
  datatype Form = All | Marked(marks: seq<bool>) | Listed(rows: seq<nat>)

  /** Marks of rows from a start on, each kept if the row is accepted. */
  function Accepted(marks: seq<bool>, startRow: nat, op: Restriction): (r: seq<bool>)
    ensures |r| == |marks|
  {
    seq(|marks|, k requires 0 <= k < |marks| => marks[k] && op.Accepts(startRow + k))
  }

  function AllSet(n: nat): (r: seq<bool>)
    ensures |r| == n
  {
    seq(n, _ => true)
  }

  /** What is left of the first rows of a list when those that fail a condition, from a position on, make
      place for the last one. */
  function SwapFilter(rows: seq<nat>, i: nat, fn: nat -> bool): seq<nat>
    requires i <= |rows|
    decreases |rows| - i
  {
    var last := |rows| - 1;
    if i == |rows| then rows
    else if fn(rows[i]) then SwapFilter(rows, i + 1, fn)
    else SwapFilter(rows[i := rows[last]][..last], i, fn)
  }

  function Restricted(startRow: nat, endRow: nat, form: Form, op: Restriction): Form
    requires startRow <= endRow
  {
    match form
    case All =>
      if op.Filter? then Marked(Accepted(AllSet(endRow - startRow), startRow, op))
      else Listed(Within(Sort(op.list), startRow, endRow))
    case Marked(marks) => Marked(Accepted(marks, startRow, op))
    case Listed(rows) => Listed(if op.Filter? then SwapFilter(rows, 0, op.fn) else Merge(rows, Sort(op.list)))
  }

  function After(startRow: nat, endRow: nat, ops: seq<Restriction>): Form
    requires startRow <= endRow
  {
    if ops == [] then All
    else Restricted(startRow, endRow, After(startRow, endRow, ops[..|ops| - 1]), ops[|ops| - 1])
  }

  function RowsMarked(marks: seq<bool>, startRow: nat): seq<nat> {
    if marks == [] then []
    else
      var last := |marks| - 1;
      RowsMarked(marks[..last], startRow) + (if marks[last] then [startRow + last] else [])
  }

  function RowsOf(startRow: nat, endRow: nat, form: Form): seq<nat>
    requires startRow <= endRow
  {
    match form
    case All => seq(endRow - startRow, i requires 0 <= i => startRow + i)
    case Marked(marks) => RowsMarked(marks, startRow)
    case Listed(rows) => rows
  }

  /** The rows left are those that satisfy the condition; in the same order if and only if all do. */
  lemma {:induction false} SwapFilterKeeps(rows: seq<nat>, i: nat, fn: nat -> bool)
    requires i <= |rows| && forall k :: 0 <= k < i ==> fn(rows[k])
    ensures var r := SwapFilter(rows, i, fn);
            && (forall x :: x in r <==> x in rows && fn(x)) && (Distinct(rows) ==> Distinct(r))
            && (r == rows <==> forall x :: x in rows ==> fn(x))
    decreases |rows| - i
  {
    if i == |rows| {
    } else if fn(rows[i]) {
      SwapFilterKeeps(rows, i + 1, fn);
    } else {
      var last := |rows| - 1;
      var shorter := rows[i := rows[last]][..last];
      MovedLast(rows, i);
      SwapFilterKeeps(shorter, i, fn);
      assert rows[i] in rows;
    }
  }

  lemma {:induction false} MovedLast(s: seq<nat>, i: nat)
    requires i < |s|
    ensures var t := s[i := s[|s| - 1]][..|s| - 1];
            (Distinct(s) ==> Distinct(t)) && forall r :: r != s[i] ==> (r in t <==> r in s)
  {
    var last := |s| - 1;
    var t := s[i := s[last]][..last];
    forall r | r in s && r != s[i]
      ensures r in t
    {
      var k :| 0 <= k < |s| && s[k] == r;
      assert t[if k == last then i else k] == r;
    }
  }

  /** Marks for every row of the range, or a list of rows in it. */
  predicate FormOk(startRow: nat, endRow: nat, form: Form) {
    && startRow <= endRow
    && (form.Marked? ==> |form.marks| == endRow - startRow)
    && (form.Listed? ==> forall r :: r in form.rows ==> startRow <= r < endRow)
  }

  /** Whether a row is still wanted. */
  predicate Has(startRow: nat, endRow: nat, form: Form, r: nat)
    requires FormOk(startRow, endRow, form)
  {
    && startRow <= r < endRow
    && (form.Marked? ==> form.marks[r - startRow])
    && (form.Listed? ==> r in form.rows)
  }

  /** A restriction keeps exactly the rows it accepts, unless it is a list and the rows hide one. */
  lemma {:induction false} RestrictedHas(startRow: nat, endRow: nat, form: Form, op: Restriction)
    requires FormOk(startRow, endRow, form)
    ensures FormOk(startRow, endRow, Restricted(startRow, endRow, form, op))
    ensures form.Listed? && op.Intersect? ==> NoneHidden(form.rows) ==>
              forall r: nat :: Has(startRow, endRow, Restricted(startRow, endRow, form, op), r)
                          <==> Has(startRow, endRow, form, r) && op.Accepts(r)
    ensures !form.Listed? || op.Filter? ==>
              forall r: nat :: Has(startRow, endRow, Restricted(startRow, endRow, form, op), r)
                          <==> Has(startRow, endRow, form, r) && op.Accepts(r)
  {
    hide Sort, Within, Merge, SwapFilter, NoneHidden;
    match form
    case All =>
      if op.Intersect? {
        WithinList(op.list, startRow, endRow);
      }
    case Marked(_) =>
    case Listed(rows) =>
      if op.Filter? {
        SwapFilterKeeps(rows, 0, op.fn);
      } else {
        SortOrdered(op.list);
        MergeWithin(rows, Sort(op.list));
        if NoneHidden(rows) {
          MergeShared(rows, Sort(op.list));
        }
      }
  }

  function RowsIn(form: Form): seq<nat> {
    if form.Listed? then form.rows else []
  }

  /** Lists leave the rows in order, and neither lists nor conditions make a row come twice. */
  lemma {:induction false} RestrictedOrder(startRow: nat, endRow: nat, form: Form, op: Restriction)
    requires startRow <= endRow
    ensures var rows, rows' := RowsIn(form), RowsIn(Restricted(startRow, endRow, form, op));
            && (Ordered(rows) && op.Intersect? ==> Ordered(rows'))
            && (Distinct(rows) && (op.Intersect? ==> Distinct(op.list)) ==> Distinct(rows'))
  {
    hide Sort, Within, Merge, SwapFilter, Ordered;
    NoRows();
    match form
    case All =>
      if op.Intersect? {
        WithinList(op.list, startRow, endRow);
      }
    case Marked(_) =>
    case Listed(rows) =>
      if op.Filter? {
        SwapFilterKeeps(rows, 0, op.fn);
      } else {
        MergeWithin(rows, Sort(op.list));
        if Ordered(rows) {
          MergeOrdered(rows, Sort(op.list));
        }
      }
  }

  // ---- The index ------------------------------------------------------------------------------------------

  datatype Mode = AllRows | BitVector | RowVector

  class FilteredRowIndex {
    var mode: Mode
    const startRow: nat
    const endRow: nat
    var rowFilter: seq<bool>
    var rows: seq<nat>

    ghost predicate Valid()
      reads this
    {
      && FormOk(startRow, endRow, View())
      && (!mode.BitVector? ==> rowFilter == []) && (!mode.RowVector? ==> rows == [])
    }

    function View(): Form
      reads this
    {
      match mode
      case AllRows => All
      case BitVector => Marked(rowFilter)
      case RowVector => Listed(rows)
    }

    /** Whether a row is wanted. */
    ghost predicate Wants(r: nat)
      requires Valid()
      reads this
    {
      Has(startRow, endRow, View(), r)
    }

    constructor (startRow: nat, endRow: nat)
      requires startRow <= endRow
      ensures Valid() && mode == AllRows && this.startRow == startRow && this.endRow == endRow
      ensures forall r: nat :: Wants(r) <==> startRow <= r < endRow
    {
      this.startRow, this.endRow := startRow, endRow;
      mode, rowFilter, rows := AllRows, [], [];
    }

    /** Keeps the rows that are in the list as well. In the third form this relies on the order of the rows; the
        second is for lists that have no row twice. */
    method IntersectRows(list: seq<nat>)
      requires Valid() && (mode.BitVector? ==> DistinctWithin(list, startRow, endRow))
      modifies this
      ensures View() == Restricted(startRow, endRow, old(View()), Intersect(list)) && Valid()
      ensures NoneHidden(old(rows)) ==> forall r: nat :: Wants(r) <==> old(Wants(r)) && r in list
    {
      hide Sort, Within, Merge, Ordered, NoneHidden, DistinctWithin, Has, FormOk, Accepted, LowerBound;
      RestrictedHas(startRow, endRow, View(), Intersect(list));
      var sorted := Sort(list);
      match mode {
        case AllRows =>
          mode := RowVector;
          var begin := LowerBound(sorted, startRow);
          var end := begin + LowerBound(sorted[begin..], endRow);
          WithinSlice(sorted, startRow, endRow);
          assert [] + sorted[begin..end] == sorted[begin..end];
          rows := rows + sorted[begin..end];
        case RowVector => rows := SetIntersection(rows, sorted);
        case BitVector =>
          MarksOf(startRow, endRow, rowFilter);
          SortedOnce(rowFilter, list, startRow, endRow);
          rowFilter := FillAround(rowFilter, sorted, startRow, endRow);
      }
    }

    /** Keeps the rows that satisfy a condition. */
    method FilterRows(fn: nat -> bool)
      requires Valid()
      modifies this
      ensures View() == Restricted(startRow, endRow, old(View()), Filter(fn)) && Valid()
      ensures forall r: nat :: Wants(r) <==> old(Wants(r)) && fn(r)
    {
      hide SwapFilter, Has, FormOk, Accepted;
      RestrictedHas(startRow, endRow, View(), Filter(fn));
      match mode {
        case AllRows => FilterAllRows(fn);
        case BitVector => FilterBitVector(fn);
        case RowVector => rows := FilterRowVector(rows, fn);
      }
    }

    method FilterAllRows(fn: nat -> bool)
      requires Valid() && mode == AllRows
      modifies this`mode, this`rowFilter
      ensures startRow <= endRow
      ensures mode == BitVector && rowFilter == Accepted(AllSet(endRow - startRow), startRow, Filter(fn))
    {
      mode := BitVector;
      rowFilter := seq(endRow - startRow, _ => false);
      for i := startRow to endRow
        invariant mode == BitVector && |rowFilter| == endRow - startRow
        invariant forall k :: 0 <= k < |rowFilter| ==> rowFilter[k] == (startRow + k < i && fn(startRow + k))
      {
        if fn(i) {
          rowFilter := rowFilter[i - startRow := true];
        }
      }
      ghost var all := AllSet(endRow - startRow);
      assert forall k :: 0 <= k < |all| ==> all[k] && rowFilter[k] == fn(startRow + k);
    }

    method FilterBitVector(fn: nat -> bool)
      requires Valid() && mode == BitVector
      modifies this`rowFilter
      ensures rowFilter == Accepted(old(rowFilter), startRow, Filter(fn))
    {
      var it := FindTrue(rowFilter, 0);
      while it < |rowFilter|
        invariant it <= |rowFilter| == |old(rowFilter)|
        invariant it < |rowFilter| ==> rowFilter[it]
        invariant forall k :: 0 <= k < it ==> rowFilter[k] == (old(rowFilter)[k] && fn(startRow + k))
        invariant forall k :: it <= k < |rowFilter| ==> rowFilter[k] == old(rowFilter)[k]
      {
        rowFilter := rowFilter[it := fn(startRow + it)];
        it := FindTrue(rowFilter, it + 1);
      }
    }

    /** The rows wanted; the index is as new afterwards. */
    method ToRowVector() returns (vector: seq<nat>)
      requires Valid()
      modifies this
      ensures Valid() && View() == All && vector == RowsOf(startRow, endRow, old(View()))
      ensures forall r: nat :: r in vector <==> old(Wants(r))
      ensures old(mode) != RowVector ==> Sorted(vector)
      ensures (Distinct(old(rows)) ==> Distinct(vector)) && (Ordered(old(rows)) ==> Ordered(vector))
    {
      match mode {
        case AllRows =>
          mode := RowVector;
          rows := seq(endRow - startRow, i requires 0 <= i => startRow + i);
          forall r: nat | startRow <= r < endRow
            ensures r in rows
          {
            assert rows[r - startRow] == r;
          }
        case BitVector => ConvertBitVectorToRowVector();
        case RowVector =>
      }
      vector := rows;
      rows := [];
      mode := AllRows;
    }

    method ConvertBitVectorToRowVector()
      requires Valid() && mode == BitVector
      modifies this
      ensures Valid() && mode == RowVector && Sorted(rows)
      ensures rows == RowsMarked(old(rowFilter), startRow)
      ensures forall r: nat :: r in rows <==> old(Wants(r))
    {
      mode := RowVector;
      rows := CollectMarked(rowFilter, startRow);
      MarkedOk(rowFilter, startRow);
      rowFilter := [];
    }
  }

  method CollectMarked(filter: seq<bool>, startRow: nat) returns (rows: seq<nat>)
    ensures rows == RowsMarked(filter, startRow)
  {
    rows := [];
    var it := FindTrue(filter, 0);
    NoneMarked(filter, 0, it, startRow);
    while it < |filter|
      invariant it <= |filter| && (it < |filter| ==> filter[it])
      invariant rows == RowsMarked(filter[..it], startRow)
    {
      assert filter[..it + 1][..it] == filter[..it];
      rows := rows + [startRow + it];
      ghost var next := it + 1;
      it := FindTrue(filter, it + 1);
      NoneMarked(filter, next, it, startRow);
    }
    assert filter[..|filter|] == filter;
  }

  /** The first position from here on that is set, or the end. */
  function FindTrue(filter: seq<bool>, from: nat): (i: nat)
    requires from <= |filter|
    ensures from <= i <= |filter| && (i < |filter| ==> filter[i])
    ensures forall k :: from <= k < i ==> !filter[k]
    decreases |filter| - from
  {
    if from == |filter| || filter[from] then from else FindTrue(filter, from + 1)
  }

  lemma {:induction false} NoneMarked(marks: seq<bool>, from: nat, end: nat, startRow: nat)
    requires from <= end <= |marks| && forall k :: from <= k < end ==> !marks[k]
    ensures RowsMarked(marks[..end], startRow) == RowsMarked(marks[..from], startRow)
    decreases end
  {
    if from < end {
      NoneMarked(marks, from, end - 1, startRow);
      assert marks[..end][..end - 1] == marks[..end - 1];
    }
  }

  lemma {:induction false} MarkedOk(marks: seq<bool>, startRow: nat)
    ensures var r := RowsMarked(marks, startRow);
            Sorted(r) && forall x :: x in r <==> startRow <= x < startRow + |marks| && marks[x - startRow]
  {
    hide Sorted;
    if marks == [] {
      NoneSorted();
    } else {
      var last := |marks| - 1;
      MarkedOk(marks[..last], startRow);
      SortedSnoc(RowsMarked(marks[..last], startRow), startRow + last);
      assert RowsMarked(marks[..last], startRow) + [] == RowsMarked(marks[..last], startRow);
    }
  }

  lemma {:induction false} NoneSorted()
    ensures Sorted([])
  {
  }

  lemma {:induction false} SortedSnoc(s: seq<nat>, x: nat)
    requires Sorted(s) && forall y :: y in s ==> y < x
    ensures Sorted(s + [x])
  {
    assert forall i :: 0 <= i < |s| ==> s[i] in s;
  }

  lemma {:induction false} MarksOf(startRow: nat, endRow: nat, marks: seq<bool>)
    requires FormOk(startRow, endRow, Marked(marks))
    ensures startRow <= endRow && |marks| == endRow - startRow
  {
  }

  lemma {:induction false} SortedOnce(marks: seq<bool>, list: seq<nat>, startRow: nat, endRow: nat)
    requires DistinctWithin(list, startRow, endRow)
    ensures Ordered(Sort(list)) && DistinctWithin(Sort(list), startRow, endRow)
    ensures Accepted(marks, startRow, Intersect(Sort(list))) == Accepted(marks, startRow, Intersect(list))
  {
    hide Sort;
    SortOrdered(list);
    SortDistinct(list, startRow, endRow);
  }

  lemma {:induction false} AllDistinct(s: seq<nat>, low: nat, high: nat)
    requires Distinct(s)
    ensures DistinctWithin(s, low, high)
  {
  }

  lemma {:induction false} WithinList(list: seq<nat>, startRow: nat, endRow: nat)
    ensures var r := Within(Sort(list), startRow, endRow);
            && Ordered(r) && (forall x :: x in r <==> x in list && startRow <= x < endRow)
            && (Distinct(list) ==> Distinct(r))
  {
    hide Sort, Within, Ordered, DistinctWithin, Distinct;
    SortOrdered(list);
    WithinOk(Sort(list), startRow, endRow);
    if Distinct(list) {
      AllDistinct(list, startRow, endRow);
      SortDistinct(list, startRow, endRow);
    }
  }

  lemma {:induction false} WithinSlice(s: seq<nat>, startRow: nat, endRow: nat)
    ensures var begin := LowerBound(s, startRow);
            Within(s, startRow, endRow) == s[begin..begin + LowerBound(s[begin..], endRow)]
  {
  }

  /** The intersection as the standard library computes it. */
  method SetIntersection(a: seq<nat>, b: seq<nat>) returns (r: seq<nat>)
    ensures r == Merge(a, b)
  {
    r := [];
    var i, j := 0, 0;
    assert a[0..] == a && b[0..] == b;
    while i < |a| && j < |b|
      invariant i <= |a| && j <= |b|
      invariant Merge(a, b) == r + Merge(a[i..], b[j..])
      decreases |a| - i + |b| - j
    {
      assert a[i..][1..] == a[i + 1..] && b[j..][1..] == b[j + 1..];
      if a[i] < b[j] {
        i := i + 1;
      } else if b[j] < a[i] {
        j := j + 1;
      } else {
        assert r + ([a[i]] + Merge(a[i + 1..], b[j + 1..])) == r + [a[i]] + Merge(a[i + 1..], b[j + 1..]);
        r := r + [a[i]];
        i, j := i + 1, j + 1;
      }
    }
  }

  /** Clears the bits of all rows but those in a list in order. */
  method FillAround(filter: seq<bool>, list: seq<nat>, startRow: nat, endRow: nat) returns (filter': seq<bool>)
    requires startRow <= endRow && |filter| == endRow - startRow
    requires Ordered(list) && DistinctWithin(list, startRow, endRow)
    ensures filter' == Accepted(filter, startRow, Intersect(list))
  {
    filter' := filter;
    var start, i := 0, 0;
    while i < |list| && list[i] < startRow
      invariant i <= |list| && forall j :: 0 <= j < i ==> list[j] < startRow
    {
      i := i + 1;
    }
    while i < |list| && list[i] < endRow
      invariant i <= |list| && 0 <= start <= |filter| && |filter'| == |filter|
      invariant i < |list| ==> startRow + start <= list[i]
      invariant forall j :: 0 <= j < i ==> list[j] < startRow + start
      invariant forall k :: 0 <= k < start ==> filter'[k] == (filter[k] && startRow + k in list)
      invariant forall k :: start <= k < |filter| ==> filter'[k] == filter[k]
    {
      var end := list[i] - startRow;
      NoneBetween(list, i, startRow + start, startRow + end);
      filter' := Filled(filter', start, end);
      start := end + 1;
      i := i + 1;
    }
    NoneBetween(list, i, startRow + start, endRow);
    filter' := Filled(filter', start, |filter'|);
  }

  function Filled(filter: seq<bool>, from: nat, to: nat): (r: seq<bool>)
    requires from <= to <= |filter|
    ensures |r| == |filter| && forall k :: 0 <= k < |r| ==> r[k] == (filter[k] && !(from <= k < to))
  {
    filter[..from] + seq(to - from, _ => false) + filter[to..]
  }

  lemma {:induction false} NoneBetween(list: seq<nat>, i: nat, low: nat, high: nat)
    requires Ordered(list) && i <= |list| && (i < |list| ==> high <= list[i])
    requires forall j :: 0 <= j < i ==> list[j] < low
    ensures forall r :: low <= r < high ==> r !in list
  {
  }

  /** Drops the rows that fail a condition by moving the last row into their place. */
  method FilterRowVector(rows: seq<nat>, fn: nat -> bool) returns (rows': seq<nat>)
    ensures rows' == SwapFilter(rows, 0, fn)
  {
    rows' := rows;
    var rowsSize, i := |rows|, 0;
    assert rows'[..rowsSize] == rows;
    while i < rowsSize
      invariant i <= rowsSize <= |rows'| == |rows|
      invariant SwapFilter(rows'[..rowsSize], i, fn) == SwapFilter(rows, 0, fn)
      decreases rowsSize - i
    {
      ghost var before := rows'[..rowsSize];
      if fn(rows'[i]) {
        i := i + 1;
      } else {
        rows' := rows'[i := rows'[rowsSize - 1]][rowsSize - 1 := rows'[i]];
        rowsSize := rowsSize - 1;
        assert rows'[..rowsSize] == before[i := before[rowsSize]][..rowsSize];
      }
    }
    rows' := rows'[..rowsSize];
  }

  // ---- Whole queries --------------------------------------------------------------------------------------

  /** The rows that satisfy all restrictions. */
  predicate Wanted(startRow: nat, endRow: nat, ops: seq<Restriction>, r: nat) {
    startRow <= r < endRow && forall i :: 0 <= i < |ops| ==> ops[i].Accepts(r)
  }

  predicate FiltersFirst(ops: seq<Restriction>) {
    ops != [] && ops[0].Filter?
  }

  /** Lists come before conditions. */
  predicate ListsFirst(ops: seq<Restriction>) {
    forall i, j :: 0 <= i < j < |ops| && ops[i].Filter? ==> ops[j].Filter?
  }

  predicate ListsDistinct(ops: seq<Restriction>) {
    forall i :: 0 <= i < |ops| && ops[i].Intersect? ==> Distinct(ops[i].list)
  }

  /** A query that starts with a condition, or has its lists before its conditions, gets exactly the rows that
      satisfy all of them. They are in order and each is there once if it starts with a condition. */
  method Query(startRow: nat, endRow: nat, ops: seq<Restriction>) returns (vector: seq<nat>)
    requires startRow <= endRow && (FiltersFirst(ops) ==> ListsDistinct(ops))
    ensures vector == RowsOf(startRow, endRow, After(startRow, endRow, ops))
    ensures FiltersFirst(ops) || ListsFirst(ops) ==> forall r: nat :: r in vector <==> Wanted(startRow, endRow, ops, r)
    ensures FiltersFirst(ops) ==> Sorted(vector)
    ensures ListsDistinct(ops) ==> Distinct(vector)
    ensures (forall i :: 0 <= i < |ops| ==> ops[i].Intersect?) ==> Ordered(vector)
  {
    hide Restricted, Ordered, NoneHidden, Sorted, Distinct;
    NoRows();
    var index := new FilteredRowIndex(startRow, endRow);
    for k := 0 to |ops|
      invariant fresh(index) && index.Valid() && index.startRow == startRow && index.endRow == endRow
      invariant index.View() == After(startRow, endRow, ops[..k])
      invariant index.mode == if k == 0 then AllRows else if FiltersFirst(ops) then BitVector else RowVector
      invariant (forall i :: 0 <= i < k ==> ops[i].Intersect?) ==> Ordered(index.rows)
      invariant ListsDistinct(ops) ==> Distinct(index.rows)
      invariant FiltersFirst(ops) || ListsFirst(ops) ==>
                  forall r: nat :: index.Wants(r) <==> Wanted(startRow, endRow, ops[..k], r)
    {
      assert ops[..k + 1][..k] == ops[..k];
      HiddenOrder(index.rows);
      RestrictedMode(startRow, endRow, index.View(), ops[k]);
      RestrictedOrder(startRow, endRow, index.View(), ops[k]);
      match ops[k] {
        case Filter(fn) => index.FilterRows(fn);
        case Intersect(list) =>
          if ListsDistinct(ops) {
            AllDistinct(list, startRow, endRow);
          }
          index.IntersectRows(list);
      }
      WantedNext(startRow, endRow, ops, k);
    }
    assert ops[..|ops|] == ops;
    vector := index.ToRowVector();
  }

  lemma {:induction false} NoRows()
    ensures Ordered([]) && Distinct([])
  {
  }

  lemma {:induction false} RestrictedMode(startRow: nat, endRow: nat, form: Form, op: Restriction)
    requires startRow <= endRow
    ensures var form' := Restricted(startRow, endRow, form, op);
            !form'.All? && (form'.Marked? <==> form.Marked? || (form.All? && op.Filter?))
  {
  }

  lemma {:induction false} WantedNext(startRow: nat, endRow: nat, ops: seq<Restriction>, k: nat)
    requires k < |ops|
    ensures forall r :: Wanted(startRow, endRow, ops[..k + 1], r)
                   <==> Wanted(startRow, endRow, ops[..k], r) && ops[k].Accepts(r)
  {
  }

  // ---- Where the order of the restrictions matters ---------------------------------------------------------

  const THREE: seq<nat> := [0, 1, 2]

  /** The first position with a condition, and the first list after it. */
  function FirstFilter(kinds: seq<bool>): (i: nat)
    ensures i <= |kinds| && (i < |kinds| ==> kinds[i]) && forall k :: 0 <= k < i ==> !kinds[k]
  {
    if kinds == [] || kinds[0] then 0 else 1 + FirstFilter(kinds[1..])
  }

  function NextList(kinds: seq<bool>, from: nat): (j: nat)
    requires from <= |kinds|
    ensures from <= j <= |kinds| && (j < |kinds| ==> !kinds[j]) && forall k :: from <= k < j ==> kinds[k]
    decreases |kinds| - from
  {
    if from == |kinds| || !kinds[from] then from else NextList(kinds, from + 1)
  }

  /** Three rows; the condition at `i` drops the first of them, and the list at `j` has the second. */
  function Losing(kinds: seq<bool>, i: nat, j: nat): (ops: seq<Restriction>)
    ensures |ops| == |kinds| && forall n :: 0 <= n < |ops| ==> ops[n].Filter? == kinds[n]
  {
    seq(|kinds|, n requires 0 <= n < |kinds| =>
      if kinds[n] then Filter(if n == i then (r: nat) => r != 0 else (r: nat) => true)
      else Intersect(if n == j then [1] else THREE))
  }

  /** What is left: first the three rows, then the last before the second, then nothing. */
  function Left(i: nat, j: nat, k: nat): Form {
    if k == 0 then All
    else if k <= i then Listed(THREE)
    else if k <= j then Listed([2, 1])
    else Listed([])
  }

  lemma {:induction false} LosingRun(kinds: seq<bool>, i: nat, j: nat, k: nat)
    requires 0 < i < j < |kinds| && k <= |kinds| && i == FirstFilter(kinds) && j == NextList(kinds, i)
    ensures After(0, 3, Losing(kinds, i, j)[..k]) == Left(i, j, k)
    decreases k
  {
    hide Restricted, Losing;
    if k > 0 {
      var ops := Losing(kinds, i, j);
      LosingRun(kinds, i, j, k - 1);
      assert ops[..k][..k - 1] == ops[..k - 1] && ops[..k][k - 1] == ops[k - 1];
      LosingStep(kinds, i, j, k - 1);
    }
  }

  lemma {:induction false} LosingStep(kinds: seq<bool>, i: nat, j: nat, k: nat)
    requires 0 < i < j < |kinds| && k < |kinds| && i == FirstFilter(kinds) && j == NextList(kinds, i)
    ensures Restricted(0, 3, Left(i, j, k), Losing(kinds, i, j)[k]) == Left(i, j, k + 1)
  {
    hide Sort, Within, Merge, SwapFilter, FirstFilter, NextList;
    SortSorted(THREE);
    SortSorted([1]);
    var op := Losing(kinds, i, j)[k];
    if k == 0 {
      ThreeWithin();
    } else if k < i {
      MergeAll(THREE);
    } else if k == i {
      DropFirst();
    } else if k < j {
      SwapFilterKeeps([2, 1], 0, op.fn);
    } else if k == j {
      MergeMisses([2, 1], 1, 0);
    } else {
      NothingLeft(op);
    }
  }

  lemma {:induction false} ThreeWithin()
    ensures Within(THREE, 0, 3) == THREE
  {
    assert LowerBound(THREE, 0) == 0;
    assert THREE[0..] == THREE;
    assert forall k :: 0 <= k < 3 ==> THREE[k] < 3;
    assert LowerBound(THREE, 3) == 3;
  }

  lemma {:induction false} DropFirst()
    ensures SwapFilter(THREE, 0, (r: nat) => r != 0) == [2, 1]
  {
    var fn := (r: nat) => r != 0;
    assert THREE[0 := THREE[2]][..2] == [2, 1];
    SwapFilterKeeps([2, 1], 0, fn);
  }

  lemma {:induction false} NothingLeft(op: Restriction)
    ensures Restricted(0, 3, Listed([]), op) == Listed([])
  {
  }

  lemma {:induction false} MergeAll(a: seq<nat>)
    ensures Merge(a, a) == a
  {
    if a != [] {
      MergeAll(a[1..]);
    }
  }

  /** In every other order, with a list first and a list somewhere after a condition, there are lists and
      conditions for which a row that satisfies all of them is lost. */
  lemma {:induction false} OrderLoses(kinds: seq<bool>) returns (ops: seq<Restriction>)
    requires kinds != [] && !kinds[0] && exists i, j :: 0 <= i < j < |kinds| && kinds[i] && !kinds[j]
    ensures |ops| == |kinds| && (forall n :: 0 <= n < |ops| ==> ops[n].Filter? == kinds[n]) && ListsDistinct(ops)
    ensures Wanted(0, 3, ops, 1) && 1 !in RowsOf(0, 3, After(0, 3, ops))
  {
    hide After, Losing, FirstFilter, NextList;
    var i := FirstFilter(kinds);
    var j := NextList(kinds, i);
    ops := Losing(kinds, i, j);
    assert ops[..|ops|] == ops;
    LosingRun(kinds, i, j, |ops|);
    LosingWanted(kinds, i, j);
  }

  lemma {:induction false} LosingWanted(kinds: seq<bool>, i: nat, j: nat)
    ensures Wanted(0, 3, Losing(kinds, i, j), 1) && ListsDistinct(Losing(kinds, i, j))
  {
    assert 1 in THREE by {
      assert THREE[1] == 1;
    }
  }

  /** A row that is wanted and missed: dropping the first of three rows puts the last in front of the second,
      which the next intersection then walks past. */
  method LostRow() returns (ops: seq<Restriction>, vector: seq<nat>)
    ensures Wanted(0, 3, ops, 1) && ListsDistinct(ops) && vector == []
  {
    var kinds := [false, true, false];
    assert FirstFilter(kinds) == 1 && NextList(kinds, 1) == 2;
    ops := Losing(kinds, 1, 2);
    LosingRun(kinds, 1, 2, 3);
    LosingWanted(kinds, 1, 2);
    assert ops[..3] == ops;
    vector := Query(0, 3, ops);
  }
}
