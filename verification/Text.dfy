/** Byte order on strings, and the sorting the services leave to the library. */
module Text {

  /** Lexicographic order by character. */
  predicate Less(a: string, b: string) {
    if b == "" then false
    else if a == "" then true
    else if a[0] == b[0] then Less(a[1..], b[1..])
    else a[0] < b[0]
  }

  predicate LessEq(a: string, b: string) {
    a == b || Less(a, b)
  }

  ghost predicate Distinct<T>(s: seq<T>) {
    forall i, j :: 0 <= i < j < |s| ==> s[i] != s[j]
  }

  ghost predicate Ascending(s: seq<string>) {
    forall i, j :: 0 <= i < j < |s| ==> Less(s[i], s[j])
  }

  /** The texts part after `n` characters, where the first is at its end or has the smaller character. */
  predicate PartsAt(a: string, b: string, n: nat) {
    && n <= |a| && n < |b|
    && (forall i :: 0 <= i < n ==> a[i] == b[i])
    && (n == |a| || a[n] < b[n])
  }

  lemma {:induction false} LessParts(a: string, b: string) returns (n: nat)
    requires Less(a, b)
    ensures PartsAt(a, b, n)
  {
    if a == "" || a[0] != b[0] {
      n := 0;
    } else {
      var m := LessParts(a[1..], b[1..]);
      n := m + 1;
      assert forall i :: 0 < i <= m ==> a[i] == a[1..][i - 1] && b[i] == b[1..][i - 1];
    }
  }

  lemma {:induction false} PartedIsLess(a: string, b: string, n: nat)
    requires PartsAt(a, b, n)
    ensures Less(a, b)
  {
    if n > 0 {
      PartedIsLess(a[1..], b[1..], n - 1);
    }
  }

  /** Proper prefixes come first; otherwise the first difference decides. */
  lemma LessIsLexicographic(a: string, b: string)
    ensures Less(a, b) <==> exists n: nat :: PartsAt(a, b, n)
  {
    if Less(a, b) {
      var n := LessParts(a, b);
    }
    forall n: nat | PartsAt(a, b, n)
      ensures Less(a, b)
    {
      PartedIsLess(a, b, n);
    }
  }

  lemma {:induction false} LessIsTransitive(a: string, b: string, c: string)
    requires Less(a, b) && Less(b, c)
    ensures Less(a, c)
  {
    if a != "" && a[0] == b[0] == c[0] {
      LessIsTransitive(a[1..], b[1..], c[1..]);
    }
  }

  lemma {:induction false} LessIsTotal(a: string, b: string)
    ensures a == b || Less(a, b) || Less(b, a)
    ensures !(Less(a, b) && Less(b, a)) && !Less(a, a)
  {
    if a != "" && b != "" {
      LessIsTotal(a[1..], b[1..]);
      LessIsTotal(a[1..], a[1..]);
      if a[0] == b[0] && a[1..] == b[1..] {
        assert a == [a[0]] + a[1..] == b;
      }
    } else if a != "" {
      LessIsTotal(a[1..], a[1..]);
    }
  }

  lemma {:induction false} LessUnderPrefix(p: string, a: string, b: string)
    ensures Less(p + a, p + b) <==> Less(a, b)
  {
    if p == "" {
      assert p + a == a && p + b == b;
    } else {
      assert (p + a)[1..] == p[1..] + a && (p + b)[1..] == p[1..] + b;
      LessUnderPrefix(p[1..], a, b);
    }
  }

  /** Two ascending lists of the same strings are the same list. */
  lemma {:induction false} AscendingIsUnique(a: seq<string>, b: seq<string>)
    requires Ascending(a) && Ascending(b)
    requires forall x :: x in a <==> x in b
    ensures a == b
    decreases |a|
  {
    assert |b| > 0 ==> b[0] in b;
    if a != [] {
      assert a[0] in a && a[0] in b;
      var j :| 0 <= j < |b| && b[j] == a[0];
      assert b[0] in b && b[0] in a;
      var i :| 0 <= i < |a| && a[i] == b[0];
      LessIsTotal(a[0], b[0]);
      assert a[0] == b[0];
      forall x
        ensures x in a[1..] <==> x in b[1..]
      {
        LessIsTotal(a[0], a[0]);
        assert x in a <==> x == a[0] || x in a[1..];
        assert x in b <==> x == b[0] || x in b[1..];
      }
      AscendingIsUnique(a[1..], b[1..]);
      assert a == [a[0]] + a[1..] && b == [b[0]] + b[1..];
    }
  }

  // -------------------------------------------------- sorting by a comparison

  ghost predicate WeakOrder<T(!new)>(before: (T, T) -> bool) {
    && (forall x, y :: before(x, y) ==> !before(y, x))
    && (forall x, y, z :: !before(y, x) && !before(z, y) ==> !before(z, x))
  }

  ghost predicate Sorted<T>(s: seq<T>, before: (T, T) -> bool) {
    forall i, j :: 0 <= i < j < |s| ==> !before(s[j], s[i])
  }

  function InsertBy<T>(x: T, s: seq<T>, before: (T, T) -> bool): seq<T> {
    if s == [] || !before(s[0], x) then [x] + s else [s[0]] + InsertBy(x, s[1..], before)
  }

  /** The effect of the library's sort on any list; it does not promise an order of equals. */
  function SortBy<T>(s: seq<T>, before: (T, T) -> bool): seq<T> {
    if s == [] then [] else InsertBy(s[0], SortBy(s[1..], before), before)
  }

  lemma {:induction false} InsertByAddsOne<T>(x: T, s: seq<T>, before: (T, T) -> bool)
    ensures multiset(InsertBy(x, s, before)) == multiset{x} + multiset(s)
    ensures forall y :: y in InsertBy(x, s, before) <==> y == x || y in s
  {
    if s != [] && before(s[0], x) {
      assert s == [s[0]] + s[1..];
      InsertByAddsOne(x, s[1..], before);
    }
  }

  lemma {:induction false} InsertByIsSorted<T(!new)>(x: T, s: seq<T>, before: (T, T) -> bool)
    requires WeakOrder(before) && Sorted(s, before)
    ensures Sorted(InsertBy(x, s, before), before)
  {
    if s != [] {
      if before(s[0], x) {
        InsertByAddsOne(x, s[1..], before);
        InsertByIsSorted(x, s[1..], before);
        SortedFromHead(s[0], InsertBy(x, s[1..], before), before);
      } else {
        forall y | y in s
          ensures !before(y, x)
        {
          assert y == s[0] || !before(y, s[0]);
        }
        SortedFromHead(x, s, before);
      }
    }
  }

  lemma SortedFromHead<T>(x: T, s: seq<T>, before: (T, T) -> bool)
    requires Sorted(s, before) && forall y :: y in s ==> !before(y, x)
    ensures Sorted([x] + s, before)
  {
  }

  lemma {:induction false} SortByIsSorted<T(!new)>(s: seq<T>, before: (T, T) -> bool)
    requires WeakOrder(before)
    ensures Sorted(SortBy(s, before), before) && multiset(SortBy(s, before)) == multiset(s)
  {
    if s != [] {
      assert s == [s[0]] + s[1..];
      SortByIsSorted(s[1..], before);
      InsertByAddsOne(s[0], SortBy(s[1..], before), before);
      InsertByIsSorted(s[0], SortBy(s[1..], before), before);
    }
  }

  lemma {:induction false} SortByOfSorted<T>(s: seq<T>, before: (T, T) -> bool)
    requires Sorted(s, before)
    ensures SortBy(s, before) == s
  {
    if s != [] {
      assert s == [s[0]] + s[1..];
      SortByOfSorted(s[1..], before);
      assert |s| > 1 ==> !before(s[1], s[0]);
    }
  }

  // ------------------------------------------------------------ sorting strings

  lemma LessIsWeakOrder()
    ensures WeakOrder(Less)
  {
    forall x, y
      ensures Less(x, y) ==> !Less(y, x)
    {
      LessIsTotal(x, y);
    }
    forall x, y, z | !Less(y, x) && !Less(z, y)
      ensures !Less(z, x)
    {
      LessIsTotal(x, y);
      LessIsTotal(y, z);
      LessIsTotal(x, z);
      if Less(x, y) && Less(y, z) {
        LessIsTransitive(x, y, z);
      }
    }
  }

  lemma {:induction false} DistinctCounts<T>(s: seq<T>)
    ensures Distinct(s) <==> forall x :: x in s ==> multiset(s)[x] == 1
  {
    if s != [] {
      var rest := s[1..];
      DistinctCounts(rest);
      assert s == [s[0]] + rest;
      assert forall x :: x in s <==> x == s[0] || x in rest;
      assert forall x :: multiset(s)[x] == (if x == s[0] then 1 else 0) + multiset(rest)[x];
      assert s[0] in rest <==> multiset(rest)[s[0]] > 0;
      if Distinct(s) {
        assert Distinct(rest) && s[0] !in rest;
      }
      if forall x :: x in s ==> multiset(s)[x] == 1 {
        assert s[0] in s;
        assert forall x :: x in rest ==> x in s && x != s[0] && multiset(rest)[x] == 1;
      }
    }
  }

  /** Sorting distinct strings gives the one strictly ascending list of them. */
  lemma SortedStringsAscend(s: seq<string>)
    requires Distinct(s)
    ensures Ascending(SortBy(s, Less))
    ensures forall x :: x in SortBy(s, Less) <==> x in s
  {
    hide Less;
    var r := SortBy(s, Less);
    LessIsWeakOrder();
    SortByIsSorted(s, Less);
    assert forall x :: x in r <==> x in multiset(r);
    DistinctCounts(s);
    DistinctCounts(r);
    forall i, j | 0 <= i < j < |r|
      ensures Less(r[i], r[j])
    {
      LessIsTotal(r[i], r[j]);
    }
  }
}
