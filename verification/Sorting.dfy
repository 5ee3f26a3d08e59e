/** Sorting by an abstract total preorder, standing for orderBy clauses and Array.sort. */
module Sorting {

  ghost predicate TotalPreorder<T(!new)>(le: (T, T) -> bool) {
    && (forall a, b :: le(a, b) || le(b, a))
    && (forall a, b, c :: le(a, b) && le(b, c) ==> le(a, c))
  }

  ghost predicate Sorted<T>(le: (T, T) -> bool, xs: seq<T>) {
    forall i, j | 0 <= i < j < |xs| :: le(xs[i], xs[j])
  }

  /** Insert x before the first element that is strictly greater. */
  function Insert<T>(le: (T, T) -> bool, x: T, xs: seq<T>): (r: seq<T>)
    ensures |r| == |xs| + 1
  {
    if xs == [] || !le(xs[0], x) then [x] + xs else [xs[0]] + Insert(le, x, xs[1..])
  }

  function Sort<T>(le: (T, T) -> bool, xs: seq<T>): (r: seq<T>)
    ensures |r| == |xs|
  {
    if xs == [] then [] else Insert(le, xs[|xs| - 1], Sort(le, xs[..|xs| - 1]))
  }

  lemma {:induction false} InsertElements<T>(le: (T, T) -> bool, x: T, xs: seq<T>)
    ensures multiset(Insert(le, x, xs)) == multiset(xs) + multiset{x}
    ensures forall i | 0 <= i < |xs| + 1 :: Insert(le, x, xs)[i] == x || Insert(le, x, xs)[i] in xs
  {
    if xs != [] && le(xs[0], x) {
      InsertElements(le, x, xs[1..]);
      assert xs == [xs[0]] + xs[1..];
    }
  }

  lemma {:induction false} InsertSorts<T(!new)>(le: (T, T) -> bool, x: T, xs: seq<T>)
    requires TotalPreorder(le) && Sorted(le, xs)
    ensures Sorted(le, Insert(le, x, xs))
  {
    if xs != [] {
      if !le(xs[0], x) {
        forall i | 0 <= i < |xs| ensures le(x, xs[i]) {
          assert le(x, xs[0]);
          if i > 0 { assert le(xs[0], xs[i]); }
        }
      } else {
        InsertSorts(le, x, xs[1..]);
        InsertElements(le, x, xs[1..]);
        var rest := Insert(le, x, xs[1..]);
        forall i | 0 <= i < |rest| ensures le(xs[0], rest[i]) {
          if rest[i] != x {
            var j :| 0 <= j < |xs[1..]| && xs[1..][j] == rest[i];
            assert le(xs[0], xs[j + 1]);
          }
        }
      }
    }
  }

  /** The result is an ordered rearrangement of the input. */
  lemma {:induction false} SortSorts<T(!new)>(le: (T, T) -> bool, xs: seq<T>)
    requires TotalPreorder(le)
    ensures Sorted(le, Sort(le, xs))
    ensures multiset(Sort(le, xs)) == multiset(xs)
  {
    if xs != [] {
      SortSorts(le, xs[..|xs| - 1]);
      InsertSorts(le, xs[|xs| - 1], Sort(le, xs[..|xs| - 1]));
      InsertElements(le, xs[|xs| - 1], Sort(le, xs[..|xs| - 1]));
      assert xs == xs[..|xs| - 1] + [xs[|xs| - 1]];
    }
  }

  ghost predicate Distinct<T>(xs: seq<T>) {
    forall a, b | 0 <= a < b < |xs| :: xs[a] != xs[b]
  }

  lemma {:induction false} DistinctOnce<T>(xs: seq<T>, x: T)
    requires Distinct(xs)
    ensures multiset(xs)[x] <= 1
  {
    if xs != [] {
      var before := xs[..|xs| - 1];
      DistinctOnce(before, x);
      assert xs == before + [xs[|xs| - 1]];
      if xs[|xs| - 1] == x { assert x !in before; }
    }
  }

  lemma TwiceIsTwo<T>(xs: seq<T>, a: nat, b: nat)
    requires a < b < |xs| && xs[a] == xs[b]
    ensures multiset(xs)[xs[b]] >= 2
  {
    assert xs == xs[..b] + [xs[b]] + xs[b + 1..];
    assert xs[..b][a] in xs[..b];
  }

  lemma SortElements<T(!new)>(le: (T, T) -> bool, given: seq<T>)
    requires TotalPreorder(le)
    ensures forall x :: x in Sort(le, given) <==> x in given
  {
    SortSorts(le, given);
    forall x ensures x in Sort(le, given) <==> x in given {
      assert x in Sort(le, given) <==> x in multiset(Sort(le, given));
      assert x in given <==> x in multiset(given);
    }
  }

  /** Sorting neither adds, drops nor repeats elements. */
  lemma SortKeepsElements<T(!new)>(le: (T, T) -> bool, given: seq<T>)
    requires TotalPreorder(le) && Distinct(given)
    ensures Distinct(Sort(le, given))
    ensures forall x :: x in Sort(le, given) <==> x in given
  {
    var xs := Sort(le, given);
    SortSorts(le, given);
    SortElements(le, given);
    forall a, b | 0 <= a < b < |xs| ensures xs[a] != xs[b] {
      if xs[a] == xs[b] {
        TwiceIsTwo(xs, a, b);
        DistinctOnce(given, xs[b]);
      }
    }
  }
}
