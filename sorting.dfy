/**
 * A stable sort in non-increasing order of an integer key, as JavaScript's
 * `Array.prototype.sort` with a comparator `(a, b) => key(b) - key(a)` behaves
 * (the language has required a stable sort since ECMAScript 2019).
 */
module Sorting {

  /** Keys never increase from left to right. */
  predicate SortedDesc<T>(s: seq<T>, key: T -> int)
  {
    forall i, j :: 0 <= i < j < |s| ==> key(s[i]) >= key(s[j])
  }

  /**
   * Places `x` in front of the first element whose key is not larger, so
   * that `x`, which came first, stays ahead of later elements with an equal key.
   */
  function Insert<T>(x: T, s: seq<T>, key: T -> int): (r: seq<T>)
    ensures |r| == |s| + 1
    ensures multiset(r) == multiset(s) + multiset{x}
    ensures SortedDesc(s, key) ==> SortedDesc(r, key)
    ensures SortedDesc(s, key) ==>
      forall k :: 0 <= k < |r| ==> key(r[k]) <= Top(x, s, key)
  {
    if s == [] || key(x) >= key(s[0]) then
      InsertFront(x, s, key);
      [x] + s
    else
      var t := Insert(x, s[1..], key);
      InsertBehind(x, s, key, t);
      [s[0]] + t
  }

  /** `x` ranking no lower than the head of a sorted list may go in front of it. */
  lemma InsertFront<T>(x: T, s: seq<T>, key: T -> int)
    requires s == [] || key(x) >= key(s[0])
    ensures multiset([x] + s) == multiset(s) + multiset{x}
    ensures SortedDesc(s, key) ==> SortedDesc([x] + s, key)
    ensures SortedDesc(s, key) ==> forall k :: 0 <= k < |s| + 1 ==> key(([x] + s)[k]) <= key(x)
  {
    var r := [x] + s;
    if SortedDesc(s, key) {
      forall k | 0 <= k < |r| ensures key(r[k]) <= key(x)
      {
        if k > 0 {
          assert r[k] == s[k - 1];
        }
      }
      forall i, j | 0 <= i < j < |r| ensures key(r[i]) >= key(r[j])
      {
        if i > 0 {
          assert r[i] == s[i - 1] && r[j] == s[j - 1];
        }
      }
    }
  }

  /**
   * When `x` ranks below the head, the head stays first and `t`, the
   * insertion into the tail, follows it.
   */
  lemma InsertBehind<T>(x: T, s: seq<T>, key: T -> int, t: seq<T>)
    requires s != [] && key(x) < key(s[0])
    requires multiset(t) == multiset(s[1..]) + multiset{x}
    requires SortedDesc(s[1..], key) ==> SortedDesc(t, key)
    requires SortedDesc(s[1..], key) ==> forall k :: 0 <= k < |t| ==> key(t[k]) <= Top(x, s[1..], key)
    ensures multiset([s[0]] + t) == multiset(s) + multiset{x}
    ensures SortedDesc(s, key) ==> SortedDesc([s[0]] + t, key)
    ensures SortedDesc(s, key) ==> forall k :: 0 <= k < |t| + 1 ==> key(([s[0]] + t)[k]) <= key(s[0])
  {
    assert s == [s[0]] + s[1..];
    var r := [s[0]] + t;
    if SortedDesc(s, key) {
      assert SortedDesc(s[1..], key) by {
        forall i, j | 0 <= i < j < |s[1..]| ensures key(s[1..][i]) >= key(s[1..][j])
        {
          assert s[1..][i] == s[i + 1] && s[1..][j] == s[j + 1];
        }
      }
      assert Top(x, s[1..], key) <= key(s[0]) by {
        if |s| > 1 {
          assert s[1..][0] == s[1];
        }
      }
      forall k | 0 <= k < |r| ensures key(r[k]) <= key(s[0])
      {
        if k > 0 {
          assert r[k] == t[k - 1];
        }
      }
      forall i, j | 0 <= i < j < |r| ensures key(r[i]) >= key(r[j])
      {
        if i > 0 {
          assert r[i] == t[i - 1] && r[j] == t[j - 1];
        }
      }
    }
  }

  /** The largest key among `x` and a sorted `s`: the key of `x` or of `s[0]`. */
  function Top<T>(x: T, s: seq<T>, key: T -> int): int
  {
    if s == [] || key(x) >= key(s[0]) then key(x) else key(s[0])
  }

  /** Insertion sort: the head is inserted into the sorted tail. */
  function SortDesc<T>(s: seq<T>, key: T -> int): (r: seq<T>)
    ensures |r| == |s|
    ensures multiset(r) == multiset(s)
    ensures SortedDesc(r, key)
  {
    if s == [] then []
    else
      assert s == [s[0]] + s[1..];
      Insert(s[0], SortDesc(s[1..], key), key)
  }

  /**
   * Cutting a sorted list at `k` splits its elements into a front part that
   * ranks no lower than anything behind it; both parts stay sorted.
   */
  lemma SplitRanks<T>(s: seq<T>, key: T -> int, k: nat)
    requires k <= |s| && SortedDesc(s, key)
    ensures multiset(s) == multiset(s[..k]) + multiset(s[k..])
    ensures SortedDesc(s[..k], key) && SortedDesc(s[k..], key)
    ensures forall x, i :: x in multiset(s[k..]) && 0 <= i < k ==> key(x) <= key(s[i])
    ensures forall x, i :: x in multiset(s[..k]) && k <= i < |s| ==> key(s[i]) <= key(x)
  {
    assert s == s[..k] + s[k..];
    SortedParts(s, key, k);
    BackRanksLower(s, key, k);
    FrontRanksHigher(s, key, k);
  }

  lemma SortedParts<T>(s: seq<T>, key: T -> int, k: nat)
    requires k <= |s| && SortedDesc(s, key)
    ensures SortedDesc(s[..k], key) && SortedDesc(s[k..], key)
  {
    forall i, j | 0 <= i < j < |s[k..]| ensures key(s[k..][i]) >= key(s[k..][j])
    {
      assert s[k..][i] == s[k + i] && s[k..][j] == s[k + j];
    }
  }

  lemma BackRanksLower<T>(s: seq<T>, key: T -> int, k: nat)
    requires k <= |s| && SortedDesc(s, key)
    ensures forall x, i :: x in multiset(s[k..]) && 0 <= i < k ==> key(x) <= key(s[i])
  {
    forall x, i | x in multiset(s[k..]) && 0 <= i < k
      ensures key(x) <= key(s[i])
    {
      assert x in s[k..];
      var j :| 0 <= j < |s[k..]| && s[k..][j] == x;
      assert s[k + j] == x;
    }
  }

  lemma FrontRanksHigher<T>(s: seq<T>, key: T -> int, k: nat)
    requires k <= |s| && SortedDesc(s, key)
    ensures forall x, i :: x in multiset(s[..k]) && k <= i < |s| ==> key(s[i]) <= key(x)
  {
    forall x, i | x in multiset(s[..k]) && k <= i < |s|
      ensures key(s[i]) <= key(x)
    {
      assert x in s[..k];
      var j :| 0 <= j < k && s[..k][j] == x;
      assert s[j] == x;
    }
  }

  /** Sorting keeps the elements as a set too: nothing appears or vanishes. */
  lemma SortKeepsMembers<T>(s: seq<T>, key: T -> int, x: T)
    ensures x in SortDesc(s, key) <==> x in s
  {
    var r := SortDesc(s, key);
    assert x in r <==> x in multiset(r);
    assert x in s <==> x in multiset(s);
  }
}
