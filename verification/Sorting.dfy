/** Stable sorting by a total preorder, and why every stable sort gives the same result. */
module Sorting {

  ghost predicate TotalPreorder<T(!new)>(le: (T, T) -> bool) {
    && (forall a, b :: le(a, b) || le(b, a))
    && (forall a, b, c :: le(a, b) && le(b, c) ==> le(a, c))
  }

  predicate Sorted<T>(s: seq<T>, le: (T, T) -> bool) {
    forall i, j :: 0 <= i < j < |s| ==> le(s[i], s[j])
  }

  /** In front of the first element that is not smaller. */
  function Insert<T>(x: T, s: seq<T>, le: (T, T) -> bool): seq<T> {
    if s == [] || le(x, s[0]) then [x] + s else [s[0]] + Insert(x, s[1..], le)
  }

  function Sort<T>(s: seq<T>, le: (T, T) -> bool): seq<T> {
    if s == [] then [] else Insert(s[0], Sort(s[1..], le), le)
  }

  /** The elements that rank the same as `k`, in their order. */
  function Ranked<T>(s: seq<T>, k: T, le: (T, T) -> bool): seq<T> {
    if s == [] then []
    else (if le(s[0], k) && le(k, s[0]) then [s[0]] else []) + Ranked(s[1..], k, le)
  }

  lemma {:induction false} InsertPermutes<T>(x: T, s: seq<T>, le: (T, T) -> bool)
    ensures multiset(Insert(x, s, le)) == multiset(s) + multiset{x}
  {
    if s == [] || le(x, s[0]) {
    } else {
      InsertPermutes(x, s[1..], le);
      assert s == [s[0]] + s[1..];
    }
  }

  lemma {:induction false} InsertSorts<T(!new)>(x: T, s: seq<T>, le: (T, T) -> bool)
    requires TotalPreorder(le) && Sorted(s, le)
    ensures Sorted(Insert(x, s, le), le)
  {
    if s == [] {
    } else if le(x, s[0]) {
      assert forall i :: 0 < i < |s| ==> le(s[0], s[i]) && le(x, s[i]);
    } else {
      var t := Insert(x, s[1..], le);
      InsertSorts(x, s[1..], le);
      InsertPermutes(x, s[1..], le);
      forall j | 0 <= j < |t|
        ensures le(s[0], t[j])
      {
        assert t[j] in multiset(t);
        if t[j] != x {
          assert t[j] in s[1..];
        }
      }
    }
  }

  lemma {:induction false} InsertStable<T(!new)>(x: T, s: seq<T>, k: T, le: (T, T) -> bool)
    requires TotalPreorder(le)
    ensures Ranked(Insert(x, s, le), k, le) == Ranked([x] + s, k, le)
  {
    assert ([x] + s)[1..] == s;
    if s == [] || le(x, s[0]) {
    } else {
      var t := Insert(x, s[1..], le);
      InsertStable(x, s[1..], k, le);
      assert ([s[0]] + t)[1..] == t && ([x] + s[1..])[1..] == s[1..];
    }
  }

  /** Sorting gives a sorted permutation that keeps equally ranked elements in their order. */
  lemma {:induction false} SortIsStable<T(!new)>(s: seq<T>, le: (T, T) -> bool)
    requires TotalPreorder(le)
    ensures multiset(Sort(s, le)) == multiset(s)
    ensures Sorted(Sort(s, le), le)
    ensures forall k :: Ranked(Sort(s, le), k, le) == Ranked(s, k, le)
  {
    if s != [] {
      var t := Sort(s[1..], le);
      SortIsStable(s[1..], le);
      InsertPermutes(s[0], t, le);
      InsertSorts(s[0], t, le);
      assert s == [s[0]] + s[1..];
      forall k
        ensures Ranked(Sort(s, le), k, le) == Ranked(s, k, le)
      {
        InsertStable(s[0], t, k, le);
        assert ([s[0]] + t)[1..] == t;
      }
    }
  }

  lemma {:induction false} RankedMember<T(!new)>(s: seq<T>, k: T, le: (T, T) -> bool)
    ensures Ranked(s, k, le) != [] ==> exists i :: 0 <= i < |s| && le(s[i], k) && le(k, s[i])
    ensures forall x :: x in Ranked(s, k, le) ==> x in s
  {
    if s != [] {
      RankedMember(s[1..], k, le);
      if Ranked(s[1..], k, le) != [] {
        var i :| 0 <= i < |s[1..]| && le(s[1..][i], k) && le(k, s[1..][i]);
        assert s[i + 1] == s[1..][i];
      }
    }
  }

  lemma FirstIsRanked<T(!new)>(s: seq<T>, le: (T, T) -> bool)
    requires TotalPreorder(le)
    ensures s != [] ==> Ranked(s, s[0], le) != [] && Ranked(s, s[0], le)[0] == s[0]
  {
  }

  /** A sorted sequence is determined by the order of its equally ranked elements: any two
      stable sorts of the same input agree. */
  lemma {:induction false} StableSortIsUnique<T(!new)>(a: seq<T>, b: seq<T>, le: (T, T) -> bool)
    requires TotalPreorder(le) && Sorted(a, le) && Sorted(b, le)
    requires forall k :: Ranked(a, k, le) == Ranked(b, k, le)
    ensures a == b
    decreases |a|
  {
    if a == [] {
      FirstIsRanked(b, le);
      assert forall k :: Ranked(b, k, le) == Ranked(a, k, le) == [];
    } else {
      FirstsAgree(a, b, le);
      forall k
        ensures Ranked(a[1..], k, le) == Ranked(b[1..], k, le)
      {
        RestsAgree(a, b, k, le);
      }
      StableSortIsUnique(a[1..], b[1..], le);
      assert a == [a[0]] + a[1..] && b == [b[0]] + b[1..];
    }
  }

  lemma FirstIsLeast<T(!new)>(s: seq<T>, k: T, le: (T, T) -> bool)
    requires TotalPreorder(le) && Sorted(s, le) && Ranked(s, k, le) != []
    ensures s != [] && le(s[0], k)
  {
    RankedMember(s, k, le);
    var i :| 0 <= i < |s| && le(s[i], k) && le(k, s[i]);
    assert le(s[0], s[i]);
  }

  lemma FirstsAgree<T(!new)>(a: seq<T>, b: seq<T>, le: (T, T) -> bool)
    requires TotalPreorder(le) && Sorted(a, le) && Sorted(b, le) && a != []
    requires forall k :: Ranked(a, k, le) == Ranked(b, k, le)
    ensures b != [] && a[0] == b[0]
  {
    FirstIsRanked(a, le);
    assert Ranked(a, a[0], le) == Ranked(b, a[0], le);
    FirstIsLeast(b, a[0], le);
    FirstIsRanked(b, le);
    assert Ranked(a, b[0], le) == Ranked(b, b[0], le);
    FirstIsLeast(a, b[0], le);
    FirstOfRank(b, a[0], le);
  }

  lemma FirstOfRank<T(!new)>(s: seq<T>, k: T, le: (T, T) -> bool)
    requires s != [] && le(s[0], k) && le(k, s[0])
    ensures Ranked(s, k, le) != [] && Ranked(s, k, le)[0] == s[0]
  {
  }

  lemma RestsAgree<T(!new)>(a: seq<T>, b: seq<T>, k: T, le: (T, T) -> bool)
    requires a != [] && b != [] && a[0] == b[0] && Ranked(a, k, le) == Ranked(b, k, le)
    ensures Ranked(a[1..], k, le) == Ranked(b[1..], k, le)
  {
    var first := if le(a[0], k) && le(k, a[0]) then [a[0]] else [];
    assert Ranked(a, k, le) == first + Ranked(a[1..], k, le);
    assert Ranked(b, k, le) == first + Ranked(b[1..], k, le);
    assert Ranked(a, k, le)[|first|..] == Ranked(a[1..], k, le);
    assert Ranked(b, k, le)[|first|..] == Ranked(b[1..], k, le);
  }

  // ------------------------------------------------------- order of strings

  predicate StringLe(a: string, b: string) {
    a == "" || (b != "" && (a[0] < b[0] || (a[0] == b[0] && StringLe(a[1..], b[1..]))))
  }

  /** Character by character, and a text before its continuations. */
  predicate IsBefore(a: string, b: string, n: int) {
    && 0 <= n <= |a| && n <= |b| && a[..n] == b[..n]
    && (n == |a| || (n < |b| && a[n] < b[n]))
  }

  lemma FirstCharactersAgree(a: string, b: string, n: int)
    requires IsBefore(a, b, n) && n > 0
    ensures a[0] == b[0]
  {
    assert a[..n][0] == a[0] && b[..n][0] == b[0];
  }

  lemma {:induction false} StringLeIff(a: string, b: string)
    ensures StringLe(a, b) <==> exists n :: IsBefore(a, b, n)
    decreases |a|
  {
    if a == "" {
      assert IsBefore(a, b, 0);
    } else if b == "" {
      assert forall n :: !IsBefore(a, b, n);
    } else if a[0] != b[0] {
      if a[0] < b[0] {
        assert IsBefore(a, b, 0);
      }
      forall n | IsBefore(a, b, n)
        ensures n == 0
      {
        if n > 0 {
          FirstCharactersAgree(a, b, n);
        }
      }
    } else {
      StringLeIff(a[1..], b[1..]);
      if n :| IsBefore(a[1..], b[1..], n) {
        assert a[..n + 1] == [a[0]] + a[1..][..n] && b[..n + 1] == [b[0]] + b[1..][..n];
        assert IsBefore(a, b, n + 1);
      }
      if n :| IsBefore(a, b, n) {
        assert n > 0;
        assert a[1..][..n - 1] == a[..n][1..] && b[1..][..n - 1] == b[..n][1..];
        assert IsBefore(a[1..], b[1..], n - 1);
      }
    }
  }

  lemma {:induction false} StringLeTotal(a: string, b: string)
    ensures StringLe(a, b) || StringLe(b, a)
    ensures StringLe(a, b) && StringLe(b, a) ==> a == b
  {
    if a != "" && b != "" && a[0] == b[0] {
      StringLeTotal(a[1..], b[1..]);
      assert a == [a[0]] + a[1..] && b == [b[0]] + b[1..];
    }
  }

  lemma {:induction false} StringLeTrans(a: string, b: string, c: string)
    requires StringLe(a, b) && StringLe(b, c)
    ensures StringLe(a, c)
  {
    if a != "" && a[0] == b[0] && b[0] == c[0] {
      StringLeTrans(a[1..], b[1..], c[1..]);
    }
  }
}
