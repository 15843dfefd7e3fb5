// Vocabulary shared by every component: optional values, counting, stable sorting
// and the ordering of text keys.

module Options {
  datatype Option<+T> = None | Some(value: T)
}

/** Counting the elements of a sequence that satisfy a test. */
module Counting {

  function CountIf<T>(xs: seq<T>, p: T -> bool): nat {
    if xs == [] then 0 else CountIf(xs[..|xs| - 1], p) + (if p(xs[|xs| - 1]) then 1 else 0)
  }

  lemma {:induction false} CountIfConcat<T>(xs: seq<T>, ys: seq<T>, p: T -> bool)
    ensures CountIf(xs + ys, p) == CountIf(xs, p) + CountIf(ys, p)
  {
    if ys == [] {
      assert xs + ys == xs;
    } else {
      var front := ys[..|ys| - 1];
      CountIfConcat(xs, front, p);
      assert (xs + ys)[..|xs + ys| - 1] == xs + front;
    }
  }

  lemma {:induction false} CountIfAll<T>(xs: seq<T>, p: T -> bool)
    requires forall x :: x in xs ==> p(x)
    ensures CountIf(xs, p) == |xs|
  {
    if xs != [] {
      CountIfAll(xs[..|xs| - 1], p);
    }
  }

  lemma CountIfOne<T>(x: T, p: T -> bool)
    ensures CountIf([x], p) == if p(x) then 1 else 0
  {
    assert [x][..0] == [];
  }

  lemma SplitLast<T>(xs: seq<T>) returns (front: seq<T>, last: T)
    requires xs != []
    ensures xs == front + [last]
  {
    front, last := xs[..|xs| - 1], xs[|xs| - 1];
  }

  lemma CountIfPush<T>(xs: seq<T>, x: T, p: T -> bool)
    ensures CountIf(xs + [x], p) == CountIf(xs, p) + if p(x) then 1 else 0
  {
    assert (xs + [x])[..|xs|] == xs;
  }

  lemma WithoutOne<T>(xs: seq<T>, j: nat)
    requires j < |xs|
    ensures multiset(xs[..j] + xs[j + 1..]) == multiset(xs) - multiset{xs[j]}
  {
    JoinedAround(xs, j);
  }

  lemma CountIfWithout<T>(xs: seq<T>, j: nat, p: T -> bool)
    requires j < |xs|
    ensures CountIf(xs, p) == CountIf(xs[..j] + xs[j + 1..], p) + if p(xs[j]) then 1 else 0
  {
    CountIfAround(xs[..j], xs[j], xs[j + 1..], p);
    JoinedAround(xs, j);
  }

  lemma JoinedAround<T>(xs: seq<T>, j: nat)
    requires j < |xs|
    ensures (xs[..j] + [xs[j]]) + xs[j + 1..] == xs
  {
  }

  lemma CountIfAround<T>(before: seq<T>, x: T, after: seq<T>, p: T -> bool)
    ensures CountIf((before + [x]) + after, p) == CountIf(before + after, p) + if p(x) then 1 else 0
  {
    CountIfConcat(before + [x], after, p);
    CountIfPush(before, x, p);
    CountIfConcat(before, after, p);
  }

  lemma MatchLast<T>(xs: seq<T>, ys: seq<T>) returns (j: nat)
    requires multiset(xs) == multiset(ys) && xs != []
    ensures j < |ys| && ys[j] == xs[|xs| - 1]
    ensures multiset(ys[..j] + ys[j + 1..]) == multiset(xs[..|xs| - 1])
  {
    assert xs[|xs| - 1] in multiset(ys);
    j :| 0 <= j < |ys| && ys[j] == xs[|xs| - 1];
    WithoutOne(ys, j);
    assert xs == xs[..|xs| - 1] + [xs[|xs| - 1]];
  }

  lemma {:induction false} CountIfPermuted<T>(xs: seq<T>, ys: seq<T>, p: T -> bool)
    requires multiset(xs) == multiset(ys)
    ensures CountIf(xs, p) == CountIf(ys, p)
  {
    if xs == [] {
      assert |multiset(ys)| == 0;
    } else {
      var j := MatchLast(xs, ys);
      CountIfWithout(ys, j, p);
      CountIfPermuted(xs[..|xs| - 1], ys[..j] + ys[j + 1..], p);
    }
  }

  lemma {:induction false} CountIfNone<T>(xs: seq<T>, p: T -> bool)
    requires forall x :: x in xs ==> !p(x)
    ensures CountIf(xs, p) == 0
  {
    if xs != [] {
      CountIfNone(xs[..|xs| - 1], p);
    }
  }

  lemma {:induction false} CountIfImplies<T>(xs: seq<T>, p: T -> bool, q: T -> bool)
    requires forall x :: x in xs && p(x) ==> q(x)
    ensures CountIf(xs, p) <= CountIf(xs, q)
  {
    if xs != [] {
      CountIfImplies(xs[..|xs| - 1], p, q);
      assert xs[|xs| - 1] in xs;
    }
  }

  lemma CountIfSame<T>(xs: seq<T>, p: T -> bool, q: T -> bool)
    requires forall x :: x in xs ==> p(x) == q(x)
    ensures CountIf(xs, p) == CountIf(xs, q)
  {
    CountIfImplies(xs, p, q);
    CountIfImplies(xs, q, p);
  }

  lemma CountIfStrictlyFewer<T>(xs: seq<T>, p: T -> bool, q: T -> bool, y: T)
    requires forall x :: x in xs && p(x) ==> q(x)
    requires y in xs && q(y) && !p(y)
    ensures CountIf(xs, p) < CountIf(xs, q)
  {
    var j :| 0 <= j < |xs| && xs[j] == y;
    CountIfWithout(xs, j, p);
    CountIfWithout(xs, j, q);
    CountIfImplies(xs[..j] + xs[j + 1..], p, q);
  }
}

/** Removing the elements that satisfy a test, as a DELETE does. */
module Rejecting {
  import opened Counting

  function Reject<T>(xs: seq<T>, p: T -> bool): seq<T> {
    if xs == [] then []
    else Reject(xs[..|xs| - 1], p) + (if p(xs[|xs| - 1]) then [] else [xs[|xs| - 1]])
  }

  lemma {:induction false} RejectKeepsRest<T>(xs: seq<T>, p: T -> bool)
    ensures forall x :: x in Reject(xs, p) <==> x in xs && !p(x)
    ensures |Reject(xs, p)| + CountIf(xs, p) == |xs|
  {
    if xs != [] {
      RejectKeepsRest(xs[..|xs| - 1], p);
      assert xs == xs[..|xs| - 1] + [xs[|xs| - 1]];
    }
  }

  lemma {:induction false} RejectTwice<T>(xs: seq<T>, p: T -> bool, q: T -> bool, both: T -> bool)
    requires forall x :: x in xs ==> both(x) == (p(x) || q(x))
    ensures Reject(Reject(xs, p), q) == Reject(xs, both)
  {
    if xs != [] {
      var front, last := xs[..|xs| - 1], xs[|xs| - 1];
      RejectTwice(front, p, q, both);
      var once := Reject(front, p);
      assert (once + [last])[..|once|] == once && once + [] == once;
      assert last in xs;
    }
  }

  lemma {:induction false} RejectNone<T>(xs: seq<T>, p: T -> bool)
    requires forall x :: x in xs ==> !p(x)
    ensures Reject(xs, p) == xs
  {
    if xs != [] {
      var front, last := xs[..|xs| - 1], xs[|xs| - 1];
      assert last in xs && xs == front + [last];
      RejectNone(front, p);
    }
  }

  lemma {:induction false} RejectSame<T>(xs: seq<T>, p: T -> bool, q: T -> bool)
    requires forall x :: x in xs ==> p(x) == q(x)
    ensures Reject(xs, p) == Reject(xs, q)
  {
    if xs != [] {
      RejectSame(xs[..|xs| - 1], p, q);
      assert xs[|xs| - 1] in xs;
    }
  }

  lemma {:induction false} CountAfterReject<T>(xs: seq<T>, p: T -> bool, q: T -> bool)
    ensures CountIf(Reject(xs, p), q) <= CountIf(xs, q)
    ensures (forall x :: x in xs && q(x) ==> !p(x)) ==> CountIf(Reject(xs, p), q) == CountIf(xs, q)
  {
    if xs != [] {
      var front, last := xs[..|xs| - 1], xs[|xs| - 1];
      CountAfterReject(front, p, q);
      CountIfConcat(Reject(front, p), if p(last) then [] else [last], q);
      CountIfOne(last, q);
      assert last in xs;
    }
  }
}

/** Stable insertion sort by an arbitrary total preorder; stands for the sorts of the source. */
module Sorting {

  ghost predicate TotalPreorder<T(!new)>(le: (T, T) -> bool) {
    && (forall x, y :: le(x, y) || le(y, x))
    && (forall x, y, z :: le(x, y) && le(y, z) ==> le(x, z))
  }

  ghost predicate Sorted<T>(le: (T, T) -> bool, xs: seq<T>) {
    forall i, j :: 0 <= i < j < |xs| ==> le(xs[i], xs[j])
  }

  function Insert<T>(le: (T, T) -> bool, xs: seq<T>, x: T): seq<T> {
    if xs == [] || le(xs[|xs| - 1], x) then xs + [x]
    else Insert(le, xs[..|xs| - 1], x) + [xs[|xs| - 1]]
  }

  function SortBy<T>(le: (T, T) -> bool, xs: seq<T>): seq<T> {
    if xs == [] then [] else Insert(le, SortBy(le, xs[..|xs| - 1]), xs[|xs| - 1])
  }

  lemma {:induction false} InsertPermutes<T>(le: (T, T) -> bool, xs: seq<T>, x: T)
    ensures multiset(Insert(le, xs, x)) == multiset(xs) + multiset{x}
  {
    if !(xs == [] || le(xs[|xs| - 1], x)) {
      InsertPermutes(le, xs[..|xs| - 1], x);
      assert xs == xs[..|xs| - 1] + [xs[|xs| - 1]];
    }
  }

  lemma {:induction false} InsertSorts<T(!new)>(le: (T, T) -> bool, xs: seq<T>, x: T)
    requires TotalPreorder(le) && Sorted(le, xs)
    ensures Sorted(le, Insert(le, xs, x))
  {
    if xs == [] {
    } else if le(xs[|xs| - 1], x) {
      forall i | 0 <= i < |xs| ensures le(xs[i], x) {
        assert i < |xs| - 1 ==> le(xs[i], xs[|xs| - 1]);
      }
    } else {
      var front, last := xs[..|xs| - 1], xs[|xs| - 1];
      InsertSorts(le, front, x);
      InsertPermutes(le, front, x);
      var ys := Insert(le, front, x);
      forall i | 0 <= i < |ys| ensures le(ys[i], last) {
        assert ys[i] in multiset(ys);
        assert ys[i] in front || ys[i] == x;
      }
    }
  }

  lemma {:induction false} SortByPermutes<T>(le: (T, T) -> bool, xs: seq<T>)
    ensures multiset(SortBy(le, xs)) == multiset(xs)
  {
    if xs != [] {
      SortByPermutes(le, xs[..|xs| - 1]);
      InsertPermutes(le, SortBy(le, xs[..|xs| - 1]), xs[|xs| - 1]);
      assert xs == xs[..|xs| - 1] + [xs[|xs| - 1]];
    }
  }

  lemma {:induction false} SortBySorts<T(!new)>(le: (T, T) -> bool, xs: seq<T>)
    requires TotalPreorder(le)
    ensures Sorted(le, SortBy(le, xs))
  {
    if xs != [] {
      SortBySorts(le, xs[..|xs| - 1]);
      InsertSorts(le, SortBy(le, xs[..|xs| - 1]), xs[|xs| - 1]);
    }
  }

  ghost predicate AntisymmetricOn<T>(le: (T, T) -> bool, xs: seq<T>) {
    forall i, j :: 0 <= i < |xs| && 0 <= j < |xs| && le(xs[i], xs[j]) && le(xs[j], xs[i]) ==> xs[i] == xs[j]
  }

  lemma HeadIsLeast<T(!new)>(le: (T, T) -> bool, xs: seq<T>, x: T)
    requires TotalPreorder(le) && Sorted(le, xs) && x in xs
    ensures le(xs[0], x)
  {
    assert le(x, x) || le(x, x);
  }

  lemma HeadsAgree<T(!new)>(le: (T, T) -> bool, xs: seq<T>, ys: seq<T>)
    requires TotalPreorder(le) && Sorted(le, xs) && Sorted(le, ys) && AntisymmetricOn(le, xs)
    requires xs != [] && ys != [] && xs[0] in ys && ys[0] in xs
    ensures xs[0] == ys[0]
  {
    HeadIsLeast(le, xs, ys[0]);
    HeadIsLeast(le, ys, xs[0]);
    var i :| 0 <= i < |xs| && xs[i] == ys[0];
    assert le(xs[0], xs[i]) && le(xs[i], xs[0]);
  }

  lemma TailsPermute<T>(xs: seq<T>, ys: seq<T>)
    requires multiset(xs) == multiset(ys) && xs != [] && ys != [] && xs[0] == ys[0]
    ensures multiset(xs[1..]) == multiset(ys[1..])
  {
    assert xs == [xs[0]] + xs[1..] && ys == [ys[0]] + ys[1..];
    assert multiset(xs[1..]) == multiset(xs) - multiset{xs[0]};
  }

  lemma SameElements<T>(xs: seq<T>, ys: seq<T>)
    requires multiset(xs) == multiset(ys)
    ensures |xs| == |ys| && forall x :: x in xs <==> x in ys
  {
    assert |xs| == |multiset(xs)| == |multiset(ys)| == |ys|;
    forall x ensures x in xs <==> x in ys {
      assert x in multiset(xs) <==> x in multiset(ys);
    }
  }

  /** A permutation sorted by an antisymmetric order is unique. */
  lemma {:induction false} SortedIsUnique<T(!new)>(le: (T, T) -> bool, xs: seq<T>, ys: seq<T>)
    requires TotalPreorder(le) && Sorted(le, xs) && Sorted(le, ys)
    requires multiset(xs) == multiset(ys) && AntisymmetricOn(le, xs)
    ensures xs == ys
  {
    SameElements(xs, ys);
    if xs != [] {
      HeadsAgree(le, xs, ys);
      TailsPermute(xs, ys);
      SortedIsUnique(le, xs[1..], ys[1..]);
      assert xs == [xs[0]] + xs[1..] && ys == [ys[0]] + ys[1..];
    }
  }

  lemma SortIsTheSorted<T(!new)>(le: (T, T) -> bool, xs: seq<T>, sorted: seq<T>)
    requires TotalPreorder(le) && Sorted(le, sorted) && AntisymmetricOn(le, sorted) && multiset(xs) == multiset(sorted)
    ensures SortBy(le, xs) == sorted
  {
    SortByPermutes(le, xs);
    SortBySorts(le, xs);
    SortedIsUnique(le, sorted, SortBy(le, xs));
  }
}

/** Code-point order on text, the order Python and a binary collation give to strings. */
module TextOrder {

  predicate TextLe(a: string, b: string) {
    if a == "" then true
    else if b == "" then false
    else if a[0] == b[0] then TextLe(a[1..], b[1..])
    else a[0] < b[0]
  }

  /** One text comes before another when it is a prefix of it, or smaller at the first difference. */
  lemma {:induction false} TextLeIsByFirstDifference(a: string, b: string)
    ensures TextLe(a, b) <==> a <= b || exists k :: DifferAt(a, b, k) && a[k] < b[k]
  {
    if a != "" && b != "" && a[0] == b[0] {
      TextLeIsByFirstDifference(a[1..], b[1..]);
      assert a == [a[0]] + a[1..] && b == [b[0]] + b[1..];
      forall k | 0 <= k ensures DifferAt(a, b, k + 1) <==> DifferAt(a[1..], b[1..], k) {
        DifferLater(a, b, k);
      }
      if k :| DifferAt(a, b, k) && a[k] < b[k] {
        assert k > 0;
        DifferLater(a, b, k - 1);
        assert DifferAt(a[1..], b[1..], k - 1) && a[1..][k - 1] < b[1..][k - 1];
      }
      if k :| DifferAt(a[1..], b[1..], k) && a[1..][k] < b[1..][k] {
        assert DifferAt(a, b, k + 1) && a[k + 1] < b[k + 1];
      }
    } else if a != "" && b != "" {
      assert DifferAt(a, b, 0);
    }
  }

  predicate DifferAt(a: string, b: string, k: int) {
    0 <= k < |a| && k < |b| && a[..k] == b[..k] && a[k] != b[k]
  }

  lemma DifferLater(a: string, b: string, k: int)
    requires a != "" && b != "" && a[0] == b[0] && 0 <= k
    ensures DifferAt(a, b, k + 1) <==> DifferAt(a[1..], b[1..], k)
  {
    if k < |a| - 1 && k < |b| - 1 {
      assert a[..k + 1] == [a[0]] + a[1..][..k] && b[..k + 1] == [b[0]] + b[1..][..k];
      assert a[..k + 1] == b[..k + 1] ==> a[..k + 1][1..] == b[..k + 1][1..];
    }
  }

  lemma {:induction false} TextLeTotal(a: string, b: string)
    ensures TextLe(a, b) || TextLe(b, a)
  {
    if a != "" && b != "" && a[0] == b[0] {
      TextLeTotal(a[1..], b[1..]);
    }
  }

  lemma {:induction false} TextLeAntisymmetric(a: string, b: string)
    requires TextLe(a, b) && TextLe(b, a)
    ensures a == b
  {
    if a != "" && b != "" {
      TextLeAntisymmetric(a[1..], b[1..]);
      assert a == [a[0]] + a[1..] && b == [b[0]] + b[1..];
    }
  }

  lemma {:induction false} TextLeTransitive(a: string, b: string, c: string)
    requires TextLe(a, b) && TextLe(b, c)
    ensures TextLe(a, c)
  {
    if a != "" && b != "" && c != "" && a[0] == b[0] == c[0] {
      TextLeTransitive(a[1..], b[1..], c[1..]);
    }
  }
}

/** Taking some element of a set, for loops over dictionaries whose order does not matter. */
module Picking {

  lemma SomeElement<T>(s: set<T>) returns (x: T)
    requires s != {}
    ensures x in s
  {
    x :| x in s;
  }

  method PickAny<T>(s: set<T>) returns (x: T)
    requires s != {}
    ensures x in s
  {
    x :| x in s;
  }
}
