/** The stable sort by a numeric key that the program's `sorted` and `sort` calls perform. */
module Sorting {
  function Insert<T>(key: T -> real, x: T, ordered: seq<T>): (more: seq<T>)
    ensures |more| == |ordered| + 1
  {
    if ordered == [] || key(x) <= key(ordered[0]) then [x] + ordered
    else [ordered[0]] + Insert(key, x, ordered[1..])
  }

  function Sorted<T>(key: T -> real, values: seq<T>): (ordered: seq<T>)
    ensures |ordered| == |values|
  {
    if values == [] then [] else Insert(key, values[0], Sorted(key, values[1..]))
  }

  predicate Ascending<T>(key: T -> real, values: seq<T>) {
    forall i, j | 0 <= i < j < |values| :: key(values[i]) <= key(values[j])
  }

  lemma {:induction false} InsertPermutes<T>(key: T -> real, x: T, ordered: seq<T>)
    ensures multiset(Insert(key, x, ordered)) == multiset([x] + ordered)
  {
    if ordered != [] && key(x) > key(ordered[0]) {
      InsertPermutes(key, x, ordered[1..]);
      assert ordered == [ordered[0]] + ordered[1..];
    }
  }

  lemma {:induction false} InsertStaysAbove<T>(key: T -> real, x: T, ordered: seq<T>, low: real)
    requires low <= key(x) && forall j | 0 <= j < |ordered| :: low <= key(ordered[j])
    ensures forall j | 0 <= j < |Insert(key, x, ordered)| :: low <= key(Insert(key, x, ordered)[j])
  {
    if ordered != [] && key(x) > key(ordered[0]) {
      InsertStaysAbove(key, x, ordered[1..], low);
    }
  }

  lemma {:induction false} InsertKeepsOrder<T>(key: T -> real, x: T, ordered: seq<T>)
    requires Ascending(key, ordered)
    ensures Ascending(key, Insert(key, x, ordered))
  {
    if ordered != [] && key(x) > key(ordered[0]) {
      InsertKeepsOrder(key, x, ordered[1..]);
      InsertStaysAbove(key, x, ordered[1..], key(ordered[0]));
    }
  }

  /** Ordered by the key, and the same values with the same multiplicity. */
  lemma {:induction false} SortSorts<T>(key: T -> real, values: seq<T>)
    ensures Ascending(key, Sorted(key, values))
    ensures multiset(Sorted(key, values)) == multiset(values)
  {
    if values != [] {
      SortSorts(key, values[1..]);
      InsertKeepsOrder(key, values[0], Sorted(key, values[1..]));
      InsertPermutes(key, values[0], Sorted(key, values[1..]));
      assert values == [values[0]] + values[1..];
    }
  }
}
