/**
 Stable sorting, as promised by Go's sort.SliceStable: what it returns is pinned
 down by being sorted and keeping every class of equivalent elements in order.
 */
module StableSort {

  ghost predicate TotalPreorder<T(!new)>(le: (T, T) -> bool) {
    && (forall x, y :: le(x, y) || le(y, x))
    && (forall x, y, z :: le(x, y) && le(y, z) ==> le(x, z))
  }

  ghost predicate Sorted<T>(s: seq<T>, le: (T, T) -> bool) {
    forall i, j | 0 <= i < j < |s| :: le(s[i], s[j])
  }

  function Insert<T>(x: T, s: seq<T>, le: (T, T) -> bool): seq<T> {
    if s == [] || le(x, s[0]) then [x] + s else [s[0]] + Insert(x, s[1..], le)
  }

  function Sort<T>(s: seq<T>, le: (T, T) -> bool): seq<T> {
    if s == [] then [] else Insert(s[0], Sort(s[1..], le), le)
  }

  function Filter<T>(s: seq<T>, keep: T -> bool): seq<T> {
    if s == [] then []
    else if keep(s[0]) then [s[0]] + Filter(s[1..], keep)
    else Filter(s[1..], keep)
  }

  /** A predicate that tells no two elements of the same rank apart from each other's order. */
  ghost predicate Tied<T(!new)>(keep: T -> bool, le: (T, T) -> bool) {
    forall x, y :: keep(x) && keep(y) ==> le(x, y)
  }

  lemma {:induction false} InsertFacts<T(!new)>(x: T, s: seq<T>, le: (T, T) -> bool)
    requires TotalPreorder(le) && Sorted(s, le)
    ensures multiset(Insert(x, s, le)) == multiset{x} + multiset(s)
    ensures Sorted(Insert(x, s, le), le)
  {
    if s == [] || le(x, s[0]) {
      assert multiset([x] + s) == multiset{x} + multiset(s);
    } else {
      InsertFacts(x, s[1..], le);
      var rest := Insert(x, s[1..], le);
      assert s == [s[0]] + s[1..];
      HeadBelow(s[0], x, s[1..], rest, le);
    }
  }

  /** Before the rest of a sorted sequence with one more element that is not before it. */
  lemma HeadBelow<T(!new)>(h: T, x: T, tail: seq<T>, rest: seq<T>, le: (T, T) -> bool)
    requires multiset(rest) == multiset{x} + multiset(tail) && le(h, x) && forall y | y in tail :: le(h, y)
    ensures forall j | 0 <= j < |rest| :: le(h, rest[j])
  {
    forall j | 0 <= j < |rest|
      ensures le(h, rest[j])
    {
      assert rest[j] in multiset(rest);
    }
  }

  lemma {:induction false} FilterConcat<T>(a: seq<T>, b: seq<T>, keep: T -> bool)
    ensures Filter(a + b, keep) == Filter(a, keep) + Filter(b, keep)
  {
    if a == [] {
      assert a + b == b;
    } else {
      FilterConcat(a[1..], b, keep);
      assert (a + b)[1..] == a[1..] + b;
    }
  }

  lemma {:induction false} FilterMembers<T>(s: seq<T>, keep: T -> bool)
    ensures forall x :: x in Filter(s, keep) <==> x in s && keep(x)
  {
    if s == [] {
    } else {
      FilterMembers(s[1..], keep);
      assert s == [s[0]] + s[1..];
    }
  }

  /** Two elements that are kept stay in their order. */
  lemma FilterKeepsOrder<T>(s: seq<T>, keep: T -> bool, i: nat, j: nat) returns (a: nat, b: nat)
    requires i < j < |s| && keep(s[i]) && keep(s[j])
    ensures a < b < |Filter(s, keep)| && Filter(s, keep)[a] == s[i] && Filter(s, keep)[b] == s[j]
  {
    FilterConcat(s[..j], s[j..], keep);
    assert s[..j] + s[j..] == s && s[..i] + s[i..j] == s[..j];
    FilterConcat(s[..i], s[i..j], keep);
    a, b := |Filter(s[..i], keep)|, |Filter(s[..j], keep)|;
    assert s[i..j][0] == s[i] && s[j..][0] == s[j];
  }

  lemma {:induction false} ComesFrom<T>(s: seq<T>, keep: T -> bool, b: nat) returns (j: nat)
    requires b < |Filter(s, keep)|
    ensures j < |s| && s[j] == Filter(s, keep)[b]
  {
    if keep(s[0]) && b == 0 {
      j := 0;
    } else {
      j := ComesFrom(s[1..], keep, if keep(s[0]) then b - 1 else b);
      j := j + 1;
    }
  }

  /** Elements of a filtered list come from the list, in the same order. */
  lemma {:induction false} FilterComesFrom<T>(s: seq<T>, keep: T -> bool, a: nat, b: nat) returns (i: nat, j: nat)
    requires a < b < |Filter(s, keep)|
    ensures i < j < |s| && s[i] == Filter(s, keep)[a] && s[j] == Filter(s, keep)[b]
  {
    if keep(s[0]) {
      if a == 0 {
        j := ComesFrom(s[1..], keep, b - 1);
        i, j := 0, j + 1;
      } else {
        i, j := FilterComesFrom(s[1..], keep, a - 1, b - 1);
        i, j := i + 1, j + 1;
      }
    } else {
      i, j := FilterComesFrom(s[1..], keep, a, b);
      i, j := i + 1, j + 1;
    }
  }

  lemma {:induction false} InsertStable<T(!new)>(x: T, s: seq<T>, le: (T, T) -> bool, keep: T -> bool)
    requires Tied(keep, le)
    ensures Filter(Insert(x, s, le), keep) == Filter([x] + s, keep)
  {
    if s == [] || le(x, s[0]) {
    } else {
      InsertStable(x, s[1..], le, keep);
      assert ([x] + s)[1..] == s && ([x] + s[1..])[1..] == s[1..];
      assert ([s[0]] + Insert(x, s[1..], le))[1..] == Insert(x, s[1..], le);
    }
  }

  /** Sorting rearranges, sorts, and keeps tied elements in their original order. */
  lemma {:induction false} SortCorrect<T(!new)>(s: seq<T>, le: (T, T) -> bool)
    requires TotalPreorder(le)
    ensures multiset(Sort(s, le)) == multiset(s)
    ensures Sorted(Sort(s, le), le)
    ensures forall keep: T -> bool | Tied(keep, le) :: Filter(Sort(s, le), keep) == Filter(s, keep)
  {
    if s == [] {
    } else {
      SortCorrect(s[1..], le);
      InsertFacts(s[0], Sort(s[1..], le), le);
      assert s == [s[0]] + s[1..];
      forall keep: T -> bool | Tied(keep, le)
        ensures Filter(Sort(s, le), keep) == Filter(s, keep)
      {
        InsertStable(s[0], Sort(s[1..], le), le, keep);
        FilterConcat([s[0]], Sort(s[1..], le), keep);
        FilterConcat([s[0]], s[1..], keep);
      }
    }
  }

  lemma {:induction false} SortOfSorted<T(!new)>(s: seq<T>, le: (T, T) -> bool)
    requires Sorted(s, le)
    ensures Sort(s, le) == s
  {
    if s == [] {
    } else {
      SortOfSorted(s[1..], le);
      assert s == [s[0]] + s[1..];
      assert |s| > 1 ==> le(s[0], s[1]);
    }
  }

  /** There is only one sorted, stable arrangement, so every correct stable sort agrees with Sort. */
  lemma {:induction false} StableUnique<T(!new)>(s: seq<T>, t: seq<T>, le: (T, T) -> bool)
    requires TotalPreorder(le) && Sorted(s, le) && Sorted(t, le)
    requires forall keep: T -> bool | Tied(keep, le) :: Filter(s, keep) == Filter(t, keep)
    ensures s == t
  {
    BothEmpty(s, t, le);
    if s != [] {
      HeadsAgree(s, t, le);
      forall keep: T -> bool | Tied(keep, le)
        ensures Filter(s[1..], keep) == Filter(t[1..], keep)
      {
        if keep(s[0]) {
          assert Filter(s[1..], keep) == Filter(s, keep)[1..];
          assert Filter(t[1..], keep) == Filter(t, keep)[1..];
        }
      }
      StableUnique(s[1..], t[1..], le);
      assert s == [s[0]] + s[1..] && t == [t[0]] + t[1..];
    }
  }

  /** Whatever algorithm arranged t: sorted, and stable with respect to s, it is Sort of s. */
  lemma AnyStableSort<T(!new)>(s: seq<T>, t: seq<T>, le: (T, T) -> bool)
    requires TotalPreorder(le) && Sorted(t, le)
    requires forall keep: T -> bool | Tied(keep, le) :: Filter(t, keep) == Filter(s, keep)
    ensures t == Sort(s, le)
  {
    SortCorrect(s, le);
    StableUnique(Sort(s, le), t, le);
  }

  lemma BothEmpty<T(!new)>(s: seq<T>, t: seq<T>, le: (T, T) -> bool)
    requires TotalPreorder(le)
    requires forall keep: T -> bool | Tied(keep, le) :: Filter(s, keep) == Filter(t, keep)
    ensures s == [] <==> t == []
  {
    if s + t != [] {
      var u := (s + t)[0];
      var keep := (x: T) => le(x, u) && le(u, x);
      assert Tied(keep, le) && keep(u);
      FilterMembers(s, keep);
      FilterMembers(t, keep);
    }
  }

  lemma HeadsAgree<T(!new)>(s: seq<T>, t: seq<T>, le: (T, T) -> bool)
    requires TotalPreorder(le) && Sorted(s, le) && Sorted(t, le) && s != [] && t != []
    requires forall keep: T -> bool | Tied(keep, le) :: Filter(s, keep) == Filter(t, keep)
    ensures s[0] == t[0]
  {
    HeadIsIn(s, t, le);
    HeadIsIn(t, s, le);
    HeadComesFirst(s, t[0], le);
    HeadComesFirst(t, s[0], le);
    var ks := (x: T) => le(x, s[0]) && le(s[0], x);
    assert Tied(ks, le);
    assert Filter(s, ks)[0] == s[0] && Filter(t, ks)[0] == t[0];
  }

  lemma HeadIsIn<T(!new)>(s: seq<T>, t: seq<T>, le: (T, T) -> bool)
    requires TotalPreorder(le) && s != []
    requires forall keep: T -> bool | Tied(keep, le) :: Filter(s, keep) == Filter(t, keep)
    ensures s[0] in t
  {
    var ks := (x: T) => le(x, s[0]) && le(s[0], x);
    assert Tied(ks, le) && ks(s[0]);
    FilterMembers(s, ks);
    FilterMembers(t, ks);
  }

  lemma HeadComesFirst<T>(s: seq<T>, x: T, le: (T, T) -> bool)
    requires Sorted(s, le) && s != [] && x in s && le(x, x)
    ensures le(s[0], x)
  {
    var i :| 0 <= i < |s| && s[i] == x;
  }
}
