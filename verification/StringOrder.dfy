/** Byte-wise string order and the sorted listing of strings, as `sort.Strings` gives it. */
module StringOrder {

  predicate Less(a: string, b: string) {
    if a == [] then b != []
    else if b == [] then false
    else a[0] < b[0] || (a[0] == b[0] && Less(a[1..], b[1..]))
  }

  lemma {:induction false} LessTotal(a: string, b: string)
    ensures Less(a, b) || Less(b, a) || a == b
    ensures !(Less(a, b) && (Less(b, a) || a == b))
  {
    if a != [] && b != [] && a[0] == b[0] {
      LessTotal(a[1..], b[1..]);
      assert a == [a[0]] + a[1..] && b == [b[0]] + b[1..];
    }
  }

  lemma {:induction false} LessTransitive(a: string, b: string, c: string)
    requires Less(a, b) && Less(b, c)
    ensures Less(a, c)
  {
    if a != [] && a[0] == b[0] && b[0] == c[0] {
      LessTransitive(a[1..], b[1..], c[1..]);
    }
  }

  /** Strictly increasing: sorted, and no string listed twice. */
  predicate Ascending(s: seq<string>) {
    forall i, j :: 0 <= i < j < |s| ==> Less(s[i], s[j])
  }

  /** Where a string belongs in a sorted list. */
  function InsertSorted(x: string, s: seq<string>): (r: seq<string>)
    ensures |r| == |s| + 1
    ensures multiset(r) == multiset(s) + multiset{x}
    ensures forall y :: y in r <==> y == x || y in s
  {
    if s == [] then [x]
    else if Less(x, s[0]) then [x] + s
    else
      assert s == [s[0]] + s[1..];
      [s[0]] + InsertSorted(x, s[1..])
  }

  /** The sorted arrangement of a list of strings. */
  function Sorted(s: seq<string>): (r: seq<string>)
    ensures |r| == |s|
    ensures multiset(r) == multiset(s)
    ensures forall y :: y in r <==> y in s
  {
    if s == [] then []
    else
      assert s == [s[0]] + s[1..];
      InsertSorted(s[0], Sorted(s[1..]))
  }

  lemma {:induction false} InsertKeepsAscending(x: string, s: seq<string>)
    requires Ascending(s) && x !in s
    ensures Ascending(InsertSorted(x, s))
  {
    if s != [] {
      LessTotal(x, s[0]);
      if Less(x, s[0]) {
        forall j | 0 < j < |s| ensures Less(x, s[j]) {
          LessTransitive(x, s[0], s[j]);
        }
      } else {
        InsertKeepsAscending(x, s[1..]);
        var t := InsertSorted(x, s[1..]);
        forall j | 0 <= j < |t| ensures Less(s[0], t[j]) {
          assert t[j] in t;
          if t[j] != x {
            var k :| 0 <= k < |s[1..]| && s[1..][k] == t[j];
          }
        }
      }
    }
  }

  /** Sorting a duplicate-free list makes it strictly increasing. */
  lemma {:induction false} SortedAscends(s: seq<string>)
    requires forall i, j :: 0 <= i < j < |s| ==> s[i] != s[j]
    ensures Ascending(Sorted(s))
  {
    if s != [] {
      SortedAscends(s[1..]);
      InsertKeepsAscending(s[0], Sorted(s[1..]));
    }
  }

  /** A strictly increasing list is determined by its elements. */
  lemma {:induction false} AscendingIsUnique(s: seq<string>, t: seq<string>)
    requires Ascending(s) && Ascending(t) && forall x :: x in s <==> x in t
    ensures s == t
  {
    assert s != [] ==> s[0] in t;
    assert t != [] ==> t[0] in s;
    if s != [] && t != [] {
      SameFirst(s, t);
      LessTotal(s[0], s[0]);
      forall x ensures x in s[1..] <==> x in t[1..] {
        assert x in s[1..] ==> x in s && x != s[0];
        assert x in t[1..] ==> x in t && x != t[0];
        assert s == [s[0]] + s[1..] && t == [t[0]] + t[1..];
      }
      AscendingIsUnique(s[1..], t[1..]);
    }
  }

  lemma SameFirst(s: seq<string>, t: seq<string>)
    requires s != [] && t != [] && Ascending(s) && Ascending(t) && forall x :: x in s <==> x in t
    ensures s[0] == t[0]
  {
    assert s[0] in t && t[0] in s;
    LessTotal(s[0], t[0]);
  }

  /** Ranging over a map in no particular order, then `sort.Strings`. */
  method SortedKeys(keys: set<string>) returns (ids: seq<string>)
    ensures Ascending(ids) && forall id :: id in ids <==> id in keys
  {
    var rest := keys;
    ids := [];
    while rest != {}
      invariant rest <= keys
      invariant forall id :: id in ids <==> id in keys && id !in rest
      invariant forall i, j :: 0 <= i < j < |ids| ==> ids[i] != ids[j]
      decreases |rest|
    {
      var id :| id in rest;
      rest := rest - {id};
      ids := ids + [id];
    }
    SortedAscends(ids);
    ids := Sorted(ids);
  }

  /** Sorted, repetitions allowed. */
  predicate NonDescending(s: seq<string>) {
    forall i, j :: 0 <= i < j < |s| ==> !Less(s[j], s[i])
  }

  lemma NotLessTransitive(a: string, b: string, c: string)
    requires !Less(b, a) && !Less(c, b)
    ensures !Less(c, a)
  {
  }

  lemma {:induction false} InsertKeepsNonDescending(x: string, s: seq<string>)
    requires NonDescending(s)
    ensures NonDescending(InsertSorted(x, s))
  {
    if s != [] {
      LessTotal(x, s[0]);
      if Less(x, s[0]) {
        forall j | 0 < j < |s| ensures !Less(s[j], x) {
          NotLessTransitive(x, s[0], s[j]);
        }
      } else {
        InsertKeepsNonDescending(x, s[1..]);
        var t := InsertSorted(x, s[1..]);
        forall j | 0 <= j < |t| ensures !Less(t[j], s[0]) {
          assert t[j] in t;
          if t[j] != x {
            var k :| 0 <= k < |s[1..]| && s[1..][k] == t[j];
            assert s[k + 1] == t[j];
          }
        }
      }
    }
  }

  lemma {:induction false} SortedIsNonDescending(s: seq<string>)
    ensures NonDescending(Sorted(s))
  {
    if s != [] {
      SortedIsNonDescending(s[1..]);
      InsertKeepsNonDescending(s[0], Sorted(s[1..]));
    }
  }

  /** Sorting undoes every reordering. */
  lemma {:induction false} NonDescendingIsUnique(s: seq<string>, t: seq<string>)
    requires NonDescending(s) && NonDescending(t) && multiset(s) == multiset(t)
    ensures s == t
  {
    if s == [] || t == [] {
      assert |multiset(s)| == |s| && |multiset(t)| == |t|;
    } else {
      assert t[0] in multiset(t) && s[0] in multiset(s);
      LeastIsFirst(s, t[0]);
      LeastIsFirst(t, s[0]);
      LessTotal(s[0], t[0]);
      OneFewer(s);
      OneFewer(t);
      NonDescendingIsUnique(s[1..], t[1..]);
    }
  }

  lemma OneFewer(s: seq<string>)
    requires s != []
    ensures multiset(s[1..]) == multiset(s) - multiset{s[0]}
  {
    assert s == [s[0]] + s[1..];
  }

  lemma LeastIsFirst(s: seq<string>, x: string)
    requires NonDescending(s) && s != []
    ensures x in multiset(s) ==> !Less(x, s[0])
  {
    LessTotal(s[0], s[0]);
  }

  lemma {:induction false} InsertLeast(x: string, s: seq<string>)
    requires forall i :: 0 <= i < |s| ==> !Less(s[i], x)
    ensures InsertSorted(x, s) == [x] + s
  {
    if s != [] && !Less(x, s[0]) {
      LessTotal(x, s[0]);
      InsertLeast(x, s[1..]);
      assert s == [s[0]] + s[1..];
    }
  }

  /** Sorting what is sorted changes nothing. */
  lemma {:induction false} SortedIsFixed(s: seq<string>)
    requires NonDescending(s)
    ensures Sorted(s) == s
  {
    if s != [] {
      SortedIsFixed(s[1..]);
      InsertLeast(s[0], s[1..]);
    }
  }

  /** `slices.Compact`: drops an item equal to the one before it. */
  function Compact(s: seq<string>): (r: seq<string>)
    ensures forall x :: x in r <==> x in s
    ensures s != [] ==> r != [] && r[|r| - 1] == s[|s| - 1]
  {
    if s == [] then []
    else
      var n := |s| - 1;
      assert s == s[..n] + [s[n]];
      if n > 0 && s[n] == s[n - 1] then
        assert s[..n][n - 1] == s[n];
        Compact(s[..n])
      else Compact(s[..n]) + [s[n]]
  }

  lemma {:induction false} CompactAscends(s: seq<string>)
    requires NonDescending(s)
    ensures Ascending(Compact(s))
  {
    if |s| > 0 {
      var n := |s| - 1;
      CompactAscends(s[..n]);
      if n > 0 && s[n] != s[n - 1] {
        var r := Compact(s[..n]);
        assert r[|r| - 1] == s[n - 1];
        LessTotal(s[n - 1], s[n]);
        forall i | 0 <= i < |r| ensures Less(r[i], s[n]) {
          if i < |r| - 1 {
            LessTransitive(r[i], s[n - 1], s[n]);
          }
        }
      }
    }
  }
}
