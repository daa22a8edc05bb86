// shelfcore's in-place string sort, and why sorted outputs do not depend on
// the order in which maps and directories are enumerated.
module Sorting {
  import opened Text
  import opened Names

  ghost predicate SortedStrings(s: seq<string>)
  {
    forall i, j :: 0 <= i < j < |s| ==> AtMost(s[i], s[j])
  }

  // Everything up to and including index `i` is in order, except that the
  // element at `j` may be smaller than those before it.
  ghost predicate SortedBut(s: seq<string>, i: int, j: int)
  {
    forall p, q :: 0 <= p < q <= i < |s| && q != j ==> AtMost(s[p], s[q])
  }

  function Swapped(s: seq<string>, j: nat): seq<string>
    requires 1 <= j < |s|
  {
    s[j := s[j - 1]][j - 1 := s[j]]
  }

  lemma SwapStep(s: seq<string>, i: nat, j: nat)
    requires 1 <= j <= i < |s| && SortedBut(s, i, j) && Less(s[j], s[j - 1])
    ensures SortedBut(Swapped(s, j), i, j - 1)
    ensures multiset(Swapped(s, j)) == multiset(s)
  {
    var t := Swapped(s, j);
    forall p, q | 0 <= p < q <= i < |t| && q != j - 1
      ensures AtMost(t[p], t[q])
    {
      LessTotal(s[j], s[j - 1]);
      if q == j && p < j - 1 {
        assert AtMost(s[p], s[j - 1]);
      }
    }
  }

  lemma StopStep(s: seq<string>, i: nat, j: nat)
    requires j <= i < |s| && SortedBut(s, i, j) && (j == 0 || !Less(s[j], s[j - 1]))
    ensures forall p, q :: 0 <= p < q <= i ==> AtMost(s[p], s[q])
  {
    forall p | 0 <= p < j
      ensures AtMost(s[p], s[j])
    {
      if p < j - 1 {
        AtMostTransitive(s[p], s[j - 1], s[j]);
      }
    }
  }

  method SortStrings(a: array<string>)
    modifies a
    ensures SortedStrings(a[..])
    ensures multiset(a[..]) == multiset(old(a[..]))
  {
    var i := 1;
    while i < a.Length
      invariant 1 <= i
      invariant forall p, q :: 0 <= p < q < i && q < a.Length ==> AtMost(a[..][p], a[..][q])
      invariant multiset(a[..]) == multiset(old(a[..]))
    {
      var j := i;
      while j > 0 && Less(a[j], a[j - 1])
        invariant 0 <= j <= i
        invariant SortedBut(a[..], i, j)
        invariant multiset(a[..]) == multiset(old(a[..]))
      {
        SwapStep(a[..], i, j);
        ghost var t := Swapped(a[..], j);
        a[j - 1], a[j] := a[j], a[j - 1];
        assert a[..] == t;
        j := j - 1;
      }
      StopStep(a[..], i, j);
      i := i + 1;
    }
  }

  // sort.Strings, as callers may rely on it.
  method LibrarySort(s: seq<string>) returns (r: seq<string>)
    ensures SortedStrings(r) && multiset(r) == multiset(s)
  {
    var a := new string[|s|](i requires 0 <= i < |s| => s[i]);
    assert a[..] == s;
    SortStrings(a);
    r := a[..];
  }

  lemma FirstIsLeast(s: seq<string>, x: string)
    requires SortedStrings(s) && x in s
    ensures AtMost(s[0], x)
  {
    LessTotal(x, x);
  }

  lemma SameFirst(s: seq<string>, t: seq<string>)
    requires SortedStrings(s) && SortedStrings(t) && multiset(s) == multiset(t) && s != [] && t != []
    ensures s[0] == t[0]
  {
    assert s[0] in multiset(t) && t[0] in multiset(s);
    FirstIsLeast(s, t[0]);
    FirstIsLeast(t, s[0]);
    LessTotal(s[0], t[0]);
  }

  // A sorted arrangement is determined by what it arranges.
  lemma {:induction false} SortedIsUnique(s: seq<string>, t: seq<string>)
    requires SortedStrings(s) && SortedStrings(t) && multiset(s) == multiset(t)
    ensures s == t
  {
    assert |multiset(s)| == |s| && |multiset(t)| == |t|;
    if s != [] {
      SplitMultiset(s);
      SplitMultiset(t);
      SameFirst(s, t);
      SortedIsUnique(s[1..], t[1..]);
      assert s == [s[0]] + s[1..] && t == [t[0]] + t[1..];
    }
  }

  lemma SplitMultiset(s: seq<string>)
    requires s != []
    ensures multiset(s[1..]) == multiset(s) - multiset{s[0]}
  {
    assert s == [s[0]] + s[1..];
    assert multiset(s) == multiset{s[0]} + multiset(s[1..]);
  }

  lemma EmptyHasNoMembers(t: seq<string>)
    ensures t == [] <==> forall x :: x !in t
  {
    if t != [] {
      assert t[0] in t;
    }
  }

  // Two sorted lists of distinct names over one set are the same list, so no
  // order of enumerating that set can show in the output.
  lemma {:induction false} SortedEnumerationIsUnique(s: seq<string>, t: seq<string>)
    requires SortedStrings(s) && SortedStrings(t) && Distinct(s) && Distinct(t)
    requires forall x :: x in s <==> x in t
    ensures s == t
  {
    EmptyHasNoMembers(s);
    EmptyHasNoMembers(t);
    if s != [] {
      assert s[0] in s && t[0] in t;
      FirstIsLeast(s, t[0]);
      FirstIsLeast(t, s[0]);
      LessTotal(s[0], t[0]);
      assert s[0] == t[0];
      forall x
        ensures x in s[1..] <==> x in t[1..]
      {
        TailMembers(s, x);
        TailMembers(t, x);
      }
      SortedEnumerationIsUnique(s[1..], t[1..]);
    }
  }

  lemma TailMembers(s: seq<string>, x: string)
    requires s != [] && Distinct(s)
    ensures x in s[1..] <==> x in s && x != s[0]
  {
  }

  // The names of a set in order; by the lemma above there is only one such list.
  ghost predicate NameOrder(order: seq<string>, names: set<string>)
  {
    && SortedStrings(order)
    && Distinct(order)
    && (forall n :: n in order <==> n in names)
    && (forall i :: 0 <= i < |order| ==> order[i] in names)
  }

  // Enumerate a set in any order, then sort.
  method SortedNames(names: set<string>) returns (r: seq<string>)
    ensures NameOrder(r, names)
  {
    var order: seq<string> := [];
    var left := names;
    while left != {}
      invariant left <= names && Distinct(order)
      invariant forall n :: n in order <==> n in names && n !in left
      decreases |left|
    {
      var n :| n in left;
      left := left - {n};
      order := order + [n];
    }
    r := LibrarySort(order);
    SameMembers(order, r);
    assert forall i :: 0 <= i < |r| ==> r[i] in r;
  }

  lemma SameMembers(s: seq<string>, r: seq<string>)
    requires multiset(s) == multiset(r) && Distinct(s)
    ensures Distinct(r) && forall n :: n in r <==> n in s
  {
    forall n
      ensures n in r <==> n in s
    {
      assert n in multiset(r) <==> n in multiset(s);
    }
    DistinctCounts(s);
    forall i, j | 0 <= i < j < |r|
      ensures r[i] != r[j]
    {
      CountBoth(r, i, j);
    }
  }

  lemma CountBoth(r: seq<string>, i: nat, j: nat)
    requires i < j < |r|
    ensures multiset(r)[r[i]] >= if r[i] == r[j] then 2 else 1
  {
    assert r == r[..j] + [r[j]] + r[j + 1..];
    assert multiset(r) == multiset(r[..j]) + multiset{r[j]} + multiset(r[j + 1..]);
    assert r[..j][i] == r[i];
  }

  lemma {:induction false} DistinctCounts(s: seq<string>)
    requires Distinct(s)
    ensures forall n :: multiset(s)[n] <= 1
  {
    if s != [] {
      var front, last := s[..|s| - 1], s[|s| - 1];
      assert s == front + [last];
      DistinctCounts(front);
      assert last !in front;
      assert multiset(s) == multiset(front) + multiset{last};
      assert last !in multiset(front);
    }
  }
}
