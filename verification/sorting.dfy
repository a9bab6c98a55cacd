/** Python's `sorted` on a list of path strings: code-point lexicographic order. */
module Sorting {

  /** a <= b in Python's string order: compare code points from the left; a proper prefix comes first. */
  predicate StrLeq(a: string, b: string)
    decreases |a|
  {
    |a| == 0 || (|b| > 0 && (a[0] < b[0] || (a[0] == b[0] && StrLeq(a[1..], b[1..]))))
  }

  lemma {:induction false} StrLeqTotal(a: string, b: string)
    ensures StrLeq(a, b) || StrLeq(b, a)
    decreases |a|
  {
    if |a| > 0 && |b| > 0 && a[0] == b[0] {
      StrLeqTotal(a[1..], b[1..]);
    }
  }

  lemma {:induction false} StrLeqTransitive(a: string, b: string, c: string)
    requires StrLeq(a, b) && StrLeq(b, c)
    ensures StrLeq(a, c)
    decreases |a|
  {
    if |a| > 0 && a[0] == b[0] && b[0] == c[0] {
      StrLeqTransitive(a[1..], b[1..], c[1..]);
    }
  }

  lemma {:induction false} StrLeqAntisymmetric(a: string, b: string)
    requires StrLeq(a, b) && StrLeq(b, a)
    ensures a == b
    decreases |a|
  {
    if |a| > 0 {
      StrLeqAntisymmetric(a[1..], b[1..]);
      assert a == [a[0]] + a[1..] && b == [b[0]] + b[1..];
    }
  }

  predicate Sorted(s: seq<string>) {
    forall i, j :: 0 <= i < j < |s| ==> StrLeq(s[i], s[j])
  }

  /** x placed into the sorted list s before the first element it does not exceed. */
  function Insert(x: string, s: seq<string>): (r: seq<string>)
    requires Sorted(s)
    ensures Sorted(r)
    ensures multiset(r) == multiset(s) + multiset{x}
  {
    if s == [] then [x]
    else if StrLeq(x, s[0]) then
      assert forall j :: 0 <= j < |s| ==> StrLeq(x, s[j]) by {
        forall j | 0 <= j < |s| ensures StrLeq(x, s[j]) {
          if j > 0 { StrLeqTransitive(x, s[0], s[j]); }
        }
      }
      [x] + s
    else
      var t := Insert(x, s[1..]);
      assert s == [s[0]] + s[1..];
      assert forall k :: 0 <= k < |t| ==> StrLeq(s[0], t[k]) by {
        forall k | 0 <= k < |t| ensures StrLeq(s[0], t[k]) {
          assert t[k] in multiset(t);
          if t[k] == x {
            StrLeqTotal(x, s[0]);
          } else {
            assert t[k] in multiset(s[1..]);
            var j :| 0 <= j < |s[1..]| && s[1..][j] == t[k];
            assert s[j + 1] == t[k];
          }
        }
      }
      [s[0]] + t
  }

  /** Python's `sorted(listing)`: the ascending arrangement of the same strings. */
  function Sort(listing: seq<string>): (r: seq<string>)
    ensures Sorted(r)
    ensures multiset(r) == multiset(listing)
  {
    if listing == [] then []
    else
      assert listing == [listing[0]] + listing[1..];
      Insert(listing[0], Sort(listing[1..]))
  }

  lemma MultisetTail(s: seq<string>)
    requires s != []
    ensures multiset(s[1..]) == multiset(s) - multiset{s[0]}
  {
    assert s == [s[0]] + s[1..];
  }

  /** Two non-empty sorted lists holding the same strings start with the same (least) string. */
  lemma SortedSameHead(s: seq<string>, t: seq<string>)
    requires Sorted(s) && Sorted(t) && s != []
    requires multiset(s) == multiset(t)
    ensures t != [] && s[0] == t[0]
  {
    assert s[0] in multiset(t);
    var j :| 0 <= j < |t| && t[j] == s[0];
    assert t[0] in multiset(s);
    var i :| 0 <= i < |s| && s[i] == t[0];
    if i > 0 && j > 0 {
      assert StrLeq(t[0], s[0]) && StrLeq(s[0], t[0]);
      StrLeqAntisymmetric(s[0], t[0]);
    }
  }

  /** Two sorted lists holding the same strings are equal: the sorted order of a listing does not depend on the
      order in which the directory listing produced it. */
  lemma {:induction false} SortedUnique(s: seq<string>, t: seq<string>)
    requires Sorted(s) && Sorted(t)
    requires multiset(s) == multiset(t)
    ensures s == t
    decreases |s|
  {
    if s == [] {
      assert |t| == |multiset(t)| == 0;
    } else {
      SortedSameHead(s, t);
      MultisetTail(s);
      MultisetTail(t);
      SortedUnique(s[1..], t[1..]);
      assert s == [s[0]] + s[1..] && t == [t[0]] + t[1..];
    }
  }

  /** A listing already in ascending order comes back from `sorted` unchanged. */
  lemma SortKeepsSorted(listing: seq<string>)
    requires Sorted(listing)
    ensures Sort(listing) == listing
  {
    SortedUnique(Sort(listing), listing);
  }

  /** `sorted` gives the same list for any two arrangements of the same strings. */
  lemma SortIgnoresListingOrder(a: seq<string>, b: seq<string>)
    requires multiset(a) == multiset(b)
    ensures Sort(a) == Sort(b)
  {
    SortedUnique(Sort(a), Sort(b));
  }
}
