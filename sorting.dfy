/** Python's `sorted` on lists of integer tags, and the order predicates the
    rest of the model states its results with. */
module Sorting {

  predicate Ascending(s: seq<int>) {
    forall i, j :: 0 <= i < j < |s| ==> s[i] <= s[j]
  }

  predicate StrictlyAscending(s: seq<int>) {
    forall i, j :: 0 <= i < j < |s| ==> s[i] < s[j]
  }

  predicate Distinct(s: seq<int>) {
    forall i, j :: 0 <= i < j < |s| ==> s[i] != s[j]
  }

  /** Inserts `x` in front of the first entry of `s` that is not smaller. */
  function Insert(x: int, s: seq<int>): (r: seq<int>)
    ensures |r| == |s| + 1
  {
    if s == [] then [x]
    else if x <= s[0] then [x] + s
    else [s[0]] + Insert(x, s[1..])
  }

  /** An entry no larger than the head of an ascending list extends it. */
  lemma AscendingCons(a: int, r: seq<int>)
    requires Ascending(r)
    requires r != [] ==> a <= r[0]
    ensures Ascending([a] + r)
  {
    forall i, j | 0 <= i < j < |[a] + r|
      ensures ([a] + r)[i] <= ([a] + r)[j]
    {
      if i > 0 {
        assert ([a] + r)[i] == r[i - 1];
      } else {
        assert r[0] <= r[j - 1];
      }
    }
  }

  /** Inserting into an ascending list keeps it ascending, adds exactly `x`,
      and starts the result with the smaller of `x` and the old head. */
  lemma {:induction false} InsertSpec(x: int, s: seq<int>)
    requires Ascending(s)
    ensures Ascending(Insert(x, s))
    ensures multiset(Insert(x, s)) == multiset(s) + multiset{x}
    ensures Insert(x, s)[0] == if s == [] || x <= s[0] then x else s[0]
  {
    if s == [] {
    } else if x <= s[0] {
      AscendingCons(x, s);
    } else {
      var t := s[1..];
      assert s == [s[0]] + t;
      assert Ascending(t) by {
        forall i, j | 0 <= i < j < |t| ensures t[i] <= t[j] {
          assert t[i] == s[i + 1] && t[j] == s[j + 1];
        }
      }
      InsertSpec(x, t);
      assert t != [] ==> s[0] <= t[0];
      AscendingCons(s[0], Insert(x, t));
    }
  }

  /** `sorted(s)`, by insertion. */
  function Sort(s: seq<int>): (r: seq<int>)
    ensures |r| == |s|
  {
    if s == [] then [] else Insert(s[0], Sort(s[1..]))
  }

  /** `sorted(s)` is the ascending permutation of `s`. */
  lemma {:induction false} SortSpec(s: seq<int>)
    ensures Ascending(Sort(s))
    ensures multiset(Sort(s)) == multiset(s)
  {
    if s != [] {
      assert s == [s[0]] + s[1..];
      SortSpec(s[1..]);
      InsertSpec(s[0], Sort(s[1..]));
    }
  }

  /** Two equal entries at distinct positions make a count of at least two. */
  lemma RepeatedEntryCount(s: seq<int>, i: int, j: int)
    requires 0 <= i < j < |s|
    ensures s[i] == s[j] ==> multiset(s)[s[i]] >= 2
  {
    assert s == s[..j] + s[j..];
    assert s[i] == s[..j][i];
    assert s[j] == s[j..][0];
    assert multiset(s) == multiset(s[..j]) + multiset(s[j..]);
  }

  /** An ascending list in which no value occurs twice is strictly ascending. */
  lemma AscendingOnceIsStrict(s: seq<int>)
    requires Ascending(s)
    requires forall x :: multiset(s)[x] <= 1
    ensures StrictlyAscending(s)
  {
    forall i, j | 0 <= i < j < |s|
      ensures s[i] != s[j]
    {
      RepeatedEntryCount(s, i, j);
    }
  }

  /** Distinct entries occur once each. */
  lemma {:induction false} DistinctCounts(s: seq<int>)
    requires Distinct(s)
    ensures forall x :: multiset(s)[x] <= 1
  {
    if s != [] {
      var init := s[..|s| - 1];
      var last := s[|s| - 1];
      assert Distinct(init) by {
        forall i, j | 0 <= i < j < |init| ensures init[i] != init[j] {
          assert init[i] == s[i] && init[j] == s[j];
        }
      }
      DistinctCounts(init);
      assert s == init + [last];
      assert last !in init by {
        forall i | 0 <= i < |init| ensures init[i] != last {
          assert init[i] == s[i];
        }
      }
    }
  }

  /** A list extended by one entry is duplicate-free exactly when the list
      is and the entry is new. */
  lemma DistinctSnoc(s: seq<int>, x: int)
    ensures Distinct(s + [x]) <==> Distinct(s) && x !in s
  {
    var t := s + [x];
    if Distinct(t) {
      forall i, j | 0 <= i < j < |s| ensures s[i] != s[j] {
        assert t[i] == s[i] && t[j] == s[j];
      }
      forall i | 0 <= i < |s| ensures s[i] != x {
        assert t[i] == s[i] && t[|s|] == x;
      }
    }
    if Distinct(s) && x !in s {
      forall i, j | 0 <= i < j < |t| ensures t[i] != t[j] {
        assert t[i] == s[i];
        if j < |s| {
          assert t[j] == s[j];
        }
      }
    }
  }

  /** Sorting neither adds nor drops a value. */
  lemma SortMembers(s: seq<int>)
    ensures forall k :: k in Sort(s) <==> k in s
  {
    SortSpec(s);
    forall k ensures k in Sort(s) <==> k in s {
      assert k in Sort(s) <==> k in multiset(Sort(s));
      assert k in s <==> k in multiset(s);
    }
  }

  /** The position of the last `e` in `s`, or -1. */
  function LastIndex(s: seq<int>, e: int): (r: int)
    ensures -1 <= r < |s|
    ensures r >= 0 ==> s[r] == e
    ensures forall j :: r < j < |s| ==> s[j] != e
  {
    if s == [] then -1
    else if s[|s| - 1] == e then |s| - 1
    else LastIndex(s[..|s| - 1], e)
  }

  /** The position of the first `e` in `s`, or `|s|`. */
  function FirstIndex(s: seq<int>, e: int): (r: nat)
    ensures r <= |s|
    ensures r < |s| ==> s[r] == e
    ensures forall j :: 0 <= j < r ==> s[j] != e
  {
    if s == [] then 0
    else if s[0] == e then 0
    else 1 + FirstIndex(s[1..], e)
  }
}
