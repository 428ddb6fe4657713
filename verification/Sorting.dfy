/**
 The stable, keyed sort the code relies on (`sort_by_key`, `sort`), and exactly when two orders of
 the same collection sort to the same sequence. `le(x, y)` says x's key is at most y's.
 */
module Sorting {

  ghost predicate Ordering<T(!new)>(le: (T, T) -> bool) {
    && (forall x, y :: le(x, y) || le(y, x))
    && (forall x, y, z :: le(x, y) && le(y, z) ==> le(x, z))
  }

  ghost predicate Sorted<T>(xs: seq<T>, le: (T, T) -> bool) {
    forall i, j :: 0 <= i <= j < |xs| ==> le(xs[i], xs[j]) || i == j
  }

  predicate Tied<T>(x: T, y: T, le: (T, T) -> bool) {
    le(x, y) && le(y, x)
  }

  /** The elements whose key is k's, in order. */
  function Ties<T>(xs: seq<T>, k: T, le: (T, T) -> bool): seq<T> {
    if xs == [] then []
    else if Tied(xs[0], k, le) then [xs[0]] + Ties(xs[1..], k, le)
    else Ties(xs[1..], k, le)
  }

  /** Both collections hold the same elements, and list every group of ties in the same order. */
  ghost predicate TiesAgree<T(!new)>(xs: seq<T>, ys: seq<T>, le: (T, T) -> bool) {
    forall k :: Ties(xs, k, le) == Ties(ys, k, le)
  }

  function Insert<T>(x: T, xs: seq<T>, le: (T, T) -> bool): seq<T> {
    if xs == [] || le(x, xs[0]) then [x] + xs else [xs[0]] + Insert(x, xs[1..], le)
  }

  function Sort<T>(xs: seq<T>, le: (T, T) -> bool): seq<T> {
    if xs == [] then [] else Insert(xs[0], Sort(xs[1..], le), le)
  }

  lemma {:induction false} InsertKeeps<T>(x: T, xs: seq<T>, le: (T, T) -> bool)
    ensures multiset(Insert(x, xs, le)) == multiset([x] + xs)
  {
    if xs != [] && !le(x, xs[0]) {
      InsertKeeps(x, xs[1..], le);
      assert xs == [xs[0]] + xs[1..];
    }
  }

  lemma {:induction false} SortKeeps<T>(xs: seq<T>, le: (T, T) -> bool)
    ensures multiset(Sort(xs, le)) == multiset(xs)
  {
    if xs != [] {
      SortKeeps(xs[1..], le);
      InsertKeeps(xs[0], Sort(xs[1..], le), le);
      assert xs == [xs[0]] + xs[1..];
    }
  }

  lemma SameElements<T>(xs: seq<T>, ys: seq<T>)
    requires multiset(xs) == multiset(ys)
    ensures |xs| == |ys| && forall x :: x in xs <==> x in ys
  {
    assert |multiset(xs)| == |xs| && |multiset(ys)| == |ys|;
    forall x ensures x in xs <==> x in ys {
      assert x in xs <==> x in multiset(xs);
    }
  }

  lemma Without<T>(xs: seq<T>, i: nat)
    requires i < |xs|
    ensures multiset(xs[..i] + xs[i + 1..]) == multiset(xs) - multiset{xs[i]}
  {
    assert xs == xs[..i] + ([xs[i]] + xs[i + 1..]);
    assert multiset(xs) == multiset(xs[..i]) + multiset{xs[i]} + multiset(xs[i + 1..]);
  }

  /** The first element of one arrangement can be taken out of any other. */
  lemma TakeOut<T>(xs: seq<T>, ys: seq<T>) returns (i: nat)
    requires xs != [] && multiset(xs) == multiset(ys)
    ensures i < |ys| && ys[i] == xs[0] && multiset(xs[1..]) == multiset(ys[..i] + ys[i + 1..])
  {
    SameElements(xs, ys);
    assert xs[0] in xs;
    i :| 0 <= i < |ys| && ys[i] == xs[0];
    Without(ys, i);
    Without(xs, 0);
    assert xs[..0] + xs[1..] == xs[1..];
  }

  lemma PutBack<T>(x: T, rest: seq<T>, before: seq<T>, after: seq<T>)
    requires multiset(rest) == multiset(before + after)
    ensures multiset([x] + rest) == multiset(before + ([x] + after))
  {
    assert multiset(before + ([x] + after)) == multiset(before) + multiset{x} + multiset(after);
  }

  lemma {:induction false} InsertSorted<T(!new)>(x: T, xs: seq<T>, le: (T, T) -> bool)
    requires Ordering(le) && Sorted(xs, le)
    ensures Sorted(Insert(x, xs, le), le)
  {
    if xs != [] && !le(x, xs[0]) {
      var rest := Insert(x, xs[1..], le);
      InsertSorted(x, xs[1..], le);
      InsertKeeps(x, xs[1..], le);
      SameElements(rest, [x] + xs[1..]);
      forall y | y in rest ensures le(xs[0], y) {
        assert y == x || y in xs[1..];
      }
    }
  }

  lemma {:induction false} SortSorts<T(!new)>(xs: seq<T>, le: (T, T) -> bool)
    requires Ordering(le)
    ensures Sorted(Sort(xs, le), le)
  {
    if xs != [] {
      SortSorts(xs[1..], le);
      InsertSorted(xs[0], Sort(xs[1..], le), le);
    }
  }

  lemma {:induction false} InsertStable<T(!new)>(x: T, xs: seq<T>, k: T, le: (T, T) -> bool)
    requires Ordering(le)
    ensures Ties(Insert(x, xs, le), k, le) == Ties([x] + xs, k, le)
  {
    assert ([x] + xs)[1..] == xs;
    if xs != [] && !le(x, xs[0]) {
      InsertStable(x, xs[1..], k, le);
      assert ([x] + xs[1..])[1..] == xs[1..];
      assert Insert(x, xs, le)[1..] == Insert(x, xs[1..], le);
    }
  }

  /** The sort is stable: it never reorders elements with equal keys. */
  lemma {:induction false} SortStable<T(!new)>(xs: seq<T>, k: T, le: (T, T) -> bool)
    requires Ordering(le)
    ensures Ties(Sort(xs, le), k, le) == Ties(xs, k, le)
  {
    if xs != [] {
      SortStable(xs[1..], k, le);
      InsertStable(xs[0], Sort(xs[1..], le), k, le);
      assert ([xs[0]] + Sort(xs[1..], le))[1..] == Sort(xs[1..], le);
    }
  }

  lemma {:induction false} TiesIn<T>(xs: seq<T>, k: T, le: (T, T) -> bool)
    ensures forall x :: x in Ties(xs, k, le) <==> x in xs && Tied(x, k, le)
  {
    if xs != [] {
      TiesIn(xs[1..], k, le);
      assert xs == [xs[0]] + xs[1..];
    }
  }

  lemma HeadsAgree<T(!new)>(xs: seq<T>, ys: seq<T>, le: (T, T) -> bool)
    requires Ordering(le) && Sorted(xs, le) && Sorted(ys, le) && xs != [] && ys != []
    requires TiesAgree(xs, ys, le)
    ensures xs[0] == ys[0]
  {
    TiesIn(xs, ys[0], le);
    TiesIn(ys, ys[0], le);
    TiesIn(xs, xs[0], le);
    TiesIn(ys, xs[0], le);
    assert xs[0] in Ties(ys, xs[0], le) && ys[0] in Ties(xs, ys[0], le);
    assert le(ys[0], xs[0]) && le(xs[0], ys[0]);
    assert Ties(xs, xs[0], le)[0] == xs[0] && Ties(ys, xs[0], le)[0] == ys[0];
  }

  lemma BothEmpty<T(!new)>(xs: seq<T>, ys: seq<T>, le: (T, T) -> bool)
    requires Ordering(le) && TiesAgree(xs, ys, le)
    ensures xs == [] <==> ys == []
  {
    if xs != [] {
      TiesIn(xs, xs[0], le);
      TiesIn(ys, xs[0], le);
      assert xs[0] in xs;
    }
    if ys != [] {
      TiesIn(xs, ys[0], le);
      TiesIn(ys, ys[0], le);
      assert ys[0] in ys;
    }
  }

  lemma {:induction false} SortedUnique<T(!new)>(xs: seq<T>, ys: seq<T>, le: (T, T) -> bool)
    requires Ordering(le) && Sorted(xs, le) && Sorted(ys, le)
    requires TiesAgree(xs, ys, le)
    ensures xs == ys
  {
    BothEmpty(xs, ys, le);
    if xs != [] {
      HeadsAgree(xs, ys, le);
      forall k ensures Ties(xs[1..], k, le) == Ties(ys[1..], k, le) {
        assert Ties(xs, k, le) == Ties(ys, k, le);
        if Tied(xs[0], k, le) {
          assert Ties(xs, k, le)[1..] == Ties(xs[1..], k, le);
          assert Ties(ys, k, le)[1..] == Ties(ys[1..], k, le);
        }
      }
      SortedUnique(xs[1..], ys[1..], le);
      assert xs == [xs[0]] + xs[1..] && ys == [ys[0]] + ys[1..];
    }
  }

  /** Two supplied orders sort alike exactly when they agree on the order of every group of ties. */
  lemma SortsAlikeExactlyWhen<T(!new)>(xs: seq<T>, ys: seq<T>, le: (T, T) -> bool)
    requires Ordering(le)
    ensures Sort(xs, le) == Sort(ys, le) <==> TiesAgree(xs, ys, le)
  {
    forall k
      ensures Ties(Sort(xs, le), k, le) == Ties(xs, k, le)
      ensures Ties(Sort(ys, le), k, le) == Ties(ys, k, le)
    {
      SortStable(xs, k, le);
      SortStable(ys, k, le);
    }
    if Sort(xs, le) == Sort(ys, le) {
      forall k ensures Ties(xs, k, le) == Ties(ys, k, le) {
        SortStable(xs, k, le);
        SortStable(ys, k, le);
      }
    }
    if TiesAgree(xs, ys, le) {
      SortSorts(xs, le);
      SortSorts(ys, le);
      SortedUnique(Sort(xs, le), Sort(ys, le), le);
    }
  }

  ghost predicate DistinctKeys<T(!new)>(xs: seq<T>, le: (T, T) -> bool) {
    forall i, j :: 0 <= i < j < |xs| ==> !Tied(xs[i], xs[j], le)
  }

  /** Two places of one arrangement correspond to two places of any other. */
  lemma PairIn<T>(xs: seq<T>, ys: seq<T>, i: nat, j: nat) returns (k: nat, l: nat)
    requires multiset(xs) == multiset(ys) && i < j < |ys|
    ensures k < |xs| && l < |xs| && k != l && xs[k] == ys[i] && xs[l] == ys[j]
  {
    SameElements(xs, ys);
    assert ys[i] in ys;
    k :| 0 <= k < |xs| && xs[k] == ys[i];
    Without(xs, k);
    Without(ys, i);
    var rest, others := xs[..k] + xs[k + 1..], ys[..i] + ys[i + 1..];
    SameElements(rest, others);
    assert others[j - 1] == ys[j];
    assert ys[j] in others && ys[j] in rest;
    var m :| 0 <= m < |rest| && rest[m] == ys[j];
    l := if m < k then m else m + 1;
  }

  /** Distinct keys stay distinct in any other arrangement. */
  lemma DistinctPermutes<T(!new)>(xs: seq<T>, ys: seq<T>, le: (T, T) -> bool)
    requires DistinctKeys(xs, le) && multiset(xs) == multiset(ys)
    ensures DistinctKeys(ys, le)
  {
    forall i, j | 0 <= i < j < |ys| ensures !Tied(ys[i], ys[j], le) {
      var k, l := PairIn(xs, ys, i, j);
      assert k < l ==> !Tied(xs[k], xs[l], le);
      assert l < k ==> !Tied(xs[l], xs[k], le);
    }
  }

  lemma {:induction false} NoTies<T>(xs: seq<T>, k: T, le: (T, T) -> bool)
    requires forall i :: 0 <= i < |xs| ==> !Tied(xs[i], k, le)
    ensures Ties(xs, k, le) == []
  {
    if xs != [] {
      NoTies(xs[1..], k, le);
    }
  }

  lemma {:induction false} DistinctTies<T(!new)>(xs: seq<T>, k: T, le: (T, T) -> bool)
    requires Ordering(le) && DistinctKeys(xs, le)
    ensures |Ties(xs, k, le)| <= 1
  {
    if xs != [] {
      if Tied(xs[0], k, le) {
        forall j | 0 < j < |xs| ensures !Tied(xs[j], k, le) {
          assert !Tied(xs[0], xs[j], le);
        }
        NoTies(xs[1..], k, le);
      } else {
        DistinctTies(xs[1..], k, le);
      }
    }
  }

  lemma SingletonsAgree<T>(xs: seq<T>, ys: seq<T>)
    requires |xs| <= 1 && |ys| <= 1 && forall x :: x in xs <==> x in ys
    ensures xs == ys
  {
    if xs != [] {
      assert xs[0] in xs;
    }
    if ys != [] {
      assert ys[0] in ys;
    }
  }

  /** With distinct keys the order supplied does not matter at all. */
  lemma DistinctSortAlike<T(!new)>(xs: seq<T>, ys: seq<T>, le: (T, T) -> bool)
    requires Ordering(le) && DistinctKeys(xs, le) && DistinctKeys(ys, le) && multiset(xs) == multiset(ys)
    ensures Sort(xs, le) == Sort(ys, le)
  {
    SameElements(xs, ys);
    forall k ensures Ties(xs, k, le) == Ties(ys, k, le) {
      DistinctTies(xs, k, le);
      DistinctTies(ys, k, le);
      TiesIn(xs, k, le);
      TiesIn(ys, k, le);
      SingletonsAgree(Ties(xs, k, le), Ties(ys, k, le));
    }
    SortsAlikeExactlyWhen(xs, ys, le);
  }

  ghost predicate Antisymmetric<T(!new)>(le: (T, T) -> bool) {
    forall x, y :: le(x, y) && le(y, x) ==> x == y
  }

  lemma {:induction false} TiesAreCopies<T(!new)>(xs: seq<T>, k: T, le: (T, T) -> bool)
    requires Ordering(le) && Antisymmetric(le)
    ensures |Ties(xs, k, le)| == multiset(xs)[k] && forall x :: x in Ties(xs, k, le) ==> x == k
  {
    if xs != [] {
      TiesAreCopies(xs[1..], k, le);
      assert xs == [xs[0]] + xs[1..];
      assert le(k, k);
    }
  }

  /** When only equal elements tie, any order of supply sorts alike, repetitions included. */
  lemma AntisymmetricSortAlike<T(!new)>(xs: seq<T>, ys: seq<T>, le: (T, T) -> bool)
    requires Ordering(le) && Antisymmetric(le) && multiset(xs) == multiset(ys)
    ensures Sort(xs, le) == Sort(ys, le)
  {
    forall k ensures Ties(xs, k, le) == Ties(ys, k, le) {
      TiesAreCopies(xs, k, le);
      TiesAreCopies(ys, k, le);
      hide Ties;
      var t, u := Ties(xs, k, le), Ties(ys, k, le);
      assert forall i :: 0 <= i < |t| ==> t[i] in t && u[i] in u;
    }
    SortsAlikeExactlyWhen(xs, ys, le);
  }
}
