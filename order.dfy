/** Python's ordering of strings (code point by code point) and `sorted` over it. */
module Order {

  /** `a < b` on Python strings: lexicographic by code point, a proper prefix first. */
  predicate Less(a: string, b: string)
    decreases |a|
  {
    if |a| == 0 then |b| > 0
    else if |b| == 0 then false
    else a[0] < b[0] || (a[0] == b[0] && Less(a[1..], b[1..]))
  }

  predicate LessEq(a: string, b: string)
  {
    a == b || Less(a, b)
  }

  lemma {:induction false} LessIrreflexive(a: string)
    ensures !Less(a, a)
    decreases |a|
  {
    if |a| > 0 {
      LessIrreflexive(a[1..]);
    }
  }

  lemma {:induction false} LessTransitive(a: string, b: string, c: string)
    requires Less(a, b) && Less(b, c)
    ensures Less(a, c)
    decreases |a|
  {
    if |a| > 0 && a[0] == b[0] && b[0] == c[0] {
      LessTransitive(a[1..], b[1..], c[1..]);
    }
  }

  lemma {:induction false} LessTotal(a: string, b: string)
    ensures a == b || Less(a, b) || Less(b, a)
    decreases |a|
  {
    if |a| > 0 && |b| > 0 && a[0] == b[0] {
      LessTotal(a[1..], b[1..]);
      assert a == [a[0]] + a[1..] && b == [b[0]] + b[1..];
    }
  }

  lemma LessAsymmetric(a: string, b: string)
    requires Less(a, b)
    ensures !Less(b, a) && a != b
  {
    LessIrreflexive(a);
    if Less(b, a) {
      LessTransitive(a, b, a);
    }
  }

  lemma LessEqTransitive(a: string, b: string, c: string)
    requires LessEq(a, b) && LessEq(b, c)
    ensures LessEq(a, c)
  {
    if a != b && b != c {
      LessTransitive(a, b, c);
    }
  }

  /** Ascending order, duplicates allowed (the result of `sorted` on a list). */
  predicate Sorted(s: seq<string>)
  {
    forall i, j :: 0 <= i < j < |s| ==> LessEq(s[i], s[j])
  }

  /** Ascending order without duplicates (the result of `sorted` on a set). */
  predicate StrictlySorted(s: seq<string>)
  {
    forall i, j :: 0 <= i < j < |s| ==> Less(s[i], s[j])
  }

  lemma SortedCons(h: string, t: seq<string>)
    requires Sorted(t)
    requires forall y :: y in t ==> LessEq(h, y)
    ensures Sorted([h] + t)
  {
    var s := [h] + t;
    forall i, j | 0 <= i < j < |s| ensures LessEq(s[i], s[j]) {
      if i > 0 {
        assert s[i] == t[i - 1] && s[j] == t[j - 1];
      } else {
        assert s[j] == t[j - 1];
      }
    }
  }

  lemma StrictlySortedCons(h: string, t: seq<string>)
    requires StrictlySorted(t)
    requires forall y :: y in t ==> Less(h, y)
    ensures StrictlySorted([h] + t)
  {
    var s := [h] + t;
    forall i, j | 0 <= i < j < |s| ensures Less(s[i], s[j]) {
      if i > 0 {
        assert s[i] == t[i - 1] && s[j] == t[j - 1];
      } else {
        assert s[j] == t[j - 1];
      }
    }
  }

  /** One insertion step of an insertion sort. */
  function Insert(x: string, s: seq<string>): (r: seq<string>)
    requires Sorted(s)
    ensures Sorted(r)
    ensures multiset(r) == multiset(s) + multiset{x}
    decreases |s|
  {
    if |s| == 0 then [x]
    else if LessEq(x, s[0]) then
      assert forall y :: y in s ==> LessEq(x, y) by {
        forall y | y in s ensures LessEq(x, y) {
          var k :| 0 <= k < |s| && s[k] == y;
          if k > 0 { LessEqTransitive(x, s[0], y); }
        }
      }
      SortedCons(x, s);
      [x] + s
    else
      assert s == [s[0]] + s[1..];
      assert Sorted(s[1..]) by {
        forall i, j | 0 <= i < j < |s| - 1 ensures LessEq(s[1..][i], s[1..][j]) {
          assert s[1..][i] == s[i + 1] && s[1..][j] == s[j + 1];
        }
      }
      var t := Insert(x, s[1..]);
      LessTotal(x, s[0]);
      assert forall y :: y in t ==> LessEq(s[0], y) by {
        forall y | y in t ensures LessEq(s[0], y) {
          assert y in multiset(t);
          if y != x {
            assert y in multiset(s[1..]);
            var k :| 0 <= k < |s| - 1 && s[1..][k] == y;
            assert s[k + 1] == y;
          }
        }
      }
      SortedCons(s[0], t);
      [s[0]] + t
  }

  /** Python's `sorted(list)` on strings. */
  function Sort(s: seq<string>): (r: seq<string>)
    ensures Sorted(r)
    ensures multiset(r) == multiset(s)
  {
    if |s| == 0 then []
    else
      assert s == [s[0]] + s[1..];
      Insert(s[0], Sort(s[1..]))
  }

  /** Adds `x` to a strictly sorted sequence, unless it is already there. */
  function InsertUnique(x: string, s: seq<string>): (r: seq<string>)
    requires StrictlySorted(s)
    ensures StrictlySorted(r)
    ensures forall y :: y in r <==> y == x || y in s
    decreases |s|
  {
    if |s| == 0 then [x]
    else if x == s[0] then s
    else if Less(x, s[0]) then
      assert forall y :: y in s ==> Less(x, y) by {
        forall y | y in s ensures Less(x, y) {
          var k :| 0 <= k < |s| && s[k] == y;
          if k > 0 { LessTransitive(x, s[0], y); }
        }
      }
      StrictlySortedCons(x, s);
      [x] + s
    else
      assert s == [s[0]] + s[1..];
      assert StrictlySorted(s[1..]) by {
        forall i, j | 0 <= i < j < |s| - 1 ensures Less(s[1..][i], s[1..][j]) {
          assert s[1..][i] == s[i + 1] && s[1..][j] == s[j + 1];
        }
      }
      var t := InsertUnique(x, s[1..]);
      LessTotal(x, s[0]);
      assert forall y :: y in t ==> Less(s[0], y) by {
        forall y | y in t ensures Less(s[0], y) {
          if y != x {
            var k :| 0 <= k < |s| - 1 && s[1..][k] == y;
            assert s[k + 1] == y;
          }
        }
      }
      StrictlySortedCons(s[0], t);
      [s[0]] + t
  }

  /** Python's `sorted(set(s))`: the distinct elements of `s` in ascending order. */
  function SortUnique(s: seq<string>): (r: seq<string>)
    ensures StrictlySorted(r)
    ensures forall y :: y in r <==> y in s
  {
    if |s| == 0 then []
    else
      assert s == [s[0]] + s[1..];
      InsertUnique(s[0], SortUnique(s[1..]))
  }

  lemma HeadIsElement(s: seq<string>)
    ensures |s| > 0 ==> s[0] in s
  {
  }

  /** A strictly sorted sequence is determined by its elements. */
  lemma {:induction false} StrictlySortedUnique(a: seq<string>, b: seq<string>)
    requires StrictlySorted(a) && StrictlySorted(b)
    requires forall y :: y in a <==> y in b
    ensures a == b
    decreases |a|
  {
    if |a| == 0 {
      HeadIsElement(b);
    } else {
      assert a[0] in a;
      assert a[0] in b;
      assert b[0] in a;
      var i :| 0 <= i < |a| && a[i] == b[0];
      var j :| 0 <= j < |b| && b[j] == a[0];
      if i > 0 && j > 0 {
        LessAsymmetric(a[0], a[i]);
      }
      assert a[0] == b[0];
      forall y ensures y in a[1..] <==> y in b[1..] {
        if y in a[1..] {
          var k :| 0 <= k < |a| - 1 && a[1..][k] == y;
          assert a[k + 1] == y;
          LessAsymmetric(a[0], y);
          assert y in b[1..] by {
            assert y in a && y in b;
            var m :| 0 <= m < |b| && b[m] == y;
            assert m > 0;
            assert b[1..][m - 1] == y;
          }
        }
        if y in b[1..] {
          var k :| 0 <= k < |b| - 1 && b[1..][k] == y;
          assert b[k + 1] == y;
          LessAsymmetric(b[0], y);
          assert y in a[1..] by {
            assert y in b && y in a;
            var m :| 0 <= m < |a| && a[m] == y;
            assert m > 0;
            assert a[1..][m - 1] == y;
          }
        }
      }
      assert StrictlySorted(a[1..]) by {
        forall p, q | 0 <= p < q < |a| - 1 ensures Less(a[1..][p], a[1..][q]) {
          assert a[1..][p] == a[p + 1] && a[1..][q] == a[q + 1];
        }
      }
      assert StrictlySorted(b[1..]) by {
        forall p, q | 0 <= p < q < |b| - 1 ensures Less(b[1..][p], b[1..][q]) {
          assert b[1..][p] == b[p + 1] && b[1..][q] == b[q + 1];
        }
      }
      StrictlySortedUnique(a[1..], b[1..]);
      assert a == [a[0]] + a[1..] && b == [b[0]] + b[1..];
    }
  }

  /** A sorted sequence is determined by its multiset of elements: `sorted` ignores the input order. */
  lemma {:induction false} SortedUnique(a: seq<string>, b: seq<string>)
    requires Sorted(a) && Sorted(b)
    requires multiset(a) == multiset(b)
    ensures a == b
    decreases |a|
  {
    if |a| == 0 {
      assert |multiset(b)| == 0;
    } else {
      assert |b| > 0 by { assert |multiset(b)| == |multiset(a)|; }
      assert a[0] in multiset(b) && b[0] in multiset(a);
      var i :| 0 <= i < |a| && a[i] == b[0];
      var j :| 0 <= j < |b| && b[j] == a[0];
      assert LessEq(a[0], b[0]) by { if i > 0 { assert LessEq(a[0], a[i]); } }
      assert LessEq(b[0], a[0]) by { if j > 0 { assert LessEq(b[0], b[j]); } }
      if a[0] != b[0] {
        LessAsymmetric(a[0], b[0]);
      }
      assert a == [a[0]] + a[1..] && b == [b[0]] + b[1..];
      assert multiset(a) == multiset{a[0]} + multiset(a[1..]);
      assert multiset(b) == multiset{a[0]} + multiset(b[1..]);
      forall x ensures multiset(a[1..])[x] == multiset(b[1..])[x] {
        assert multiset(a)[x] == multiset{a[0]}[x] + multiset(a[1..])[x];
        assert multiset(b)[x] == multiset{a[0]}[x] + multiset(b[1..])[x];
      }
      assert multiset(a[1..]) == multiset(b[1..]);
      assert Sorted(a[1..]) by {
        forall p, q | 0 <= p < q < |a| - 1 ensures LessEq(a[1..][p], a[1..][q]) {
          assert a[1..][p] == a[p + 1] && a[1..][q] == a[q + 1];
        }
      }
      assert Sorted(b[1..]) by {
        forall p, q | 0 <= p < q < |b| - 1 ensures LessEq(b[1..][p], b[1..][q]) {
          assert b[1..][p] == b[p + 1] && b[1..][q] == b[q + 1];
        }
      }
      SortedUnique(a[1..], b[1..]);
    }
  }
}
