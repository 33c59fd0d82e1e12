/**
 * Ordered sequences of integers: strict increase, the ascending enumeration of
 * a finite set, and its uniqueness.  Bucket keys are integers, so every
 * ordering fact about keys is stated here once.
 */
module Sorting {

  /** Every element is below every later one: sorted without duplicates. */
  predicate StrictlyIncreasing(s: seq<int>) {
    forall i, j :: 0 <= i < j < |s| ==> s[i] < s[j]
  }

  /** In a sequence whose neighbours increase, every earlier element is
      below every later one. */
  lemma {:induction false} ChainLess(s: seq<int>, i: int, j: int)
    requires forall k :: 0 <= k < |s| - 1 ==> s[k] < s[k + 1]
    requires 0 <= i < j < |s|
    ensures s[i] < s[j]
    decreases j - i
  {
    if i + 1 < j {
      ChainLess(s, i + 1, j);
    }
  }

  /** `m` is the least element of `s`. */
  predicate IsLeast(m: int, s: set<int>) {
    m in s && forall y :: y in s ==> m <= y
  }

  /** A set has at most one least element. */
  lemma LeastUnique(s: set<int>)
    ensures forall m, n :: IsLeast(m, s) && IsLeast(n, s) ==> m == n
  {
  }

  /** A set that is not empty has a member. */
  lemma NonEmptyHasMember(s: set<int>)
    requires s != {}
    ensures exists m :: m in s
  {
    if forall y :: y !in s {
      NoMembersEmpty(s);
    }
  }

  lemma NoMembersEmpty(s: set<int>)
    requires forall y :: y !in s
    ensures s == {}
  {
    assert forall y :: y in s <==> y in {};
  }

  /** Sets with the same members are equal. */
  lemma SameMembers(a: set<int>, b: set<int>)
    requires forall x :: x in a <==> x in b
    ensures a == b
  {
    assert forall x :: x in a <==> x in b;
  }

  /** Every non-empty finite set of integers has a least element. */
  lemma {:induction false} LeastExists(s: set<int>)
    requires s != {}
    ensures exists m :: IsLeast(m, s)
    decreases |s|
  {
    NonEmptyHasMember(s);
    var x :| x in s;
    var others := s - {x};
    if others != {} {
      LeastExists(others);
      var m :| IsLeast(m, others);
      var least := if x < m then x else m;
      forall y | y in s
        ensures least <= y
      {
        if y != x {
          assert y in others;
        }
      }
      assert IsLeast(least, s);
    } else {
      forall y | y in s
        ensures x <= y
      {
        assert y !in others;
      }
      assert IsLeast(x, s);
    }
  }

  /** `s` in ascending order. */
  function SortedKeys(s: set<int>): (r: seq<int>)
    ensures StrictlyIncreasing(r)
    ensures forall x :: x in r <==> x in s
    ensures |r| == |s|
    decreases |s|
  {
    if s == {} then []
    else
      LeastExists(s);
      LeastUnique(s);
      var m :| IsLeast(m, s);
      var rest := SortedKeys(s - {m});
      PrependLeast(m, s, rest);
      [m] + rest
  }

  /** Putting the least element in front of the ascending rest of a set gives
      the ascending set. */
  lemma PrependLeast(m: int, s: set<int>, rest: seq<int>)
    requires IsLeast(m, s)
    requires StrictlyIncreasing(rest) && (forall x :: x in rest <==> x in s - {m}) && |rest| == |s - {m}|
    ensures StrictlyIncreasing([m] + rest) && (forall x :: x in [m] + rest <==> x in s) && |[m] + rest| == |s|
  {
    var r := [m] + rest;
    forall i, j | 0 <= i < j < |r|
      ensures r[i] < r[j]
    {
      assert r[j] == rest[j - 1];
      assert rest[j - 1] in s - {m};
      if i > 0 {
        assert r[i] == rest[i - 1];
      }
    }
  }

  /** The tail of an ascending sequence holds all of its elements but the
      first. */
  lemma TailMembers(a: seq<int>, x: int)
    requires StrictlyIncreasing(a) && a != []
    ensures x in a[1..] <==> x in a && x != a[0]
  {
    if x in a[1..] {
      var k :| 0 <= k < |a| - 1 && a[1..][k] == x;
      assert a[k + 1] == x;
    }
    if x in a && x != a[0] {
      var k :| 0 <= k < |a| && a[k] == x;
      assert a[1..][k - 1] == x;
    }
  }

  /** The first element of an ascending sequence is its least. */
  lemma HeadLeast(a: seq<int>, x: int)
    requires StrictlyIncreasing(a) && x in a
    ensures a[0] <= x
  {
    var k :| 0 <= k < |a| && a[k] == x;
    if k > 0 {
      assert a[0] < a[k];
    }
  }

  /** A strictly increasing sequence is determined by its elements. */
  lemma {:induction false} SortedUnique(a: seq<int>, b: seq<int>)
    requires StrictlyIncreasing(a) && StrictlyIncreasing(b)
    requires forall x :: x in a <==> x in b
    ensures a == b
    decreases |a|
  {
    if a != [] {
      assert a[0] in a;
    }
    if b != [] {
      assert b[0] in b;
    }
    if a != [] && b != [] {
      assert a[0] in b && b[0] in a;
      HeadLeast(a, b[0]);
      HeadLeast(b, a[0]);
      forall x
        ensures x in a[1..] <==> x in b[1..]
      {
        TailMembers(a, x);
        TailMembers(b, x);
      }
      SortedUnique(a[1..], b[1..]);
      assert a == [a[0]] + a[1..];
      assert b == [b[0]] + b[1..];
    }
  }

  /** In an ascending sequence, an element lies in the prefix ending at
      position j exactly when it is at most the element there. */
  lemma PrefixMembers(s: seq<int>, j: int, x: int)
    requires StrictlyIncreasing(s) && 0 <= j < |s| && x in s
    ensures x in s[..j + 1] <==> x <= s[j]
  {
    var k :| 0 <= k < |s| && s[k] == x;
    if k <= j {
      assert s[..j + 1][k] == x;
      if k < j {
        assert s[k] < s[j];
      }
    } else {
      assert s[j] < s[k];
      forall i | 0 <= i <= j
        ensures s[i] != x
      {
        if i < j {
          assert s[i] < s[j];
        }
      }
    }
  }

  /** Sets with the same members have the same ascending listing. */
  lemma SameKeys(a: set<int>, b: set<int>)
    requires forall x :: x in a <==> x in b
    ensures SortedKeys(a) == SortedKeys(b)
  {
    SameMembers(a, b);
  }

  /** The last element of an ascending sequence is new: it is not among the
      earlier ones, and the members are the earlier ones and it. */
  lemma LastIsNew(s: seq<int>)
    requires StrictlyIncreasing(s) && s != []
    ensures s[|s| - 1] !in s[..|s| - 1] && StrictlyIncreasing(s[..|s| - 1])
    ensures forall x :: x in s <==> x in s[..|s| - 1] || x == s[|s| - 1]
  {
    var n := |s| - 1;
    assert s == s[..n] + [s[n]];
  }

  /** Every member of an ascending sequence is at most its last element. */
  lemma LastIsGreatest(s: seq<int>, x: int)
    requires StrictlyIncreasing(s) && x in s
    ensures x <= s[|s| - 1]
  {
    var k :| 0 <= k < |s| && s[k] == x;
    if k < |s| - 1 {
      assert s[k] < s[|s| - 1];
    }
  }

  /** An ascending sequence whose members all occur in another ascending
      sequence is no longer than it. */
  lemma {:induction false} IncreasingWithin(a: seq<int>, b: seq<int>)
    requires StrictlyIncreasing(a) && StrictlyIncreasing(b)
    requires forall x :: x in a ==> x in b
    ensures |a| <= |b|
    decreases |b|
  {
    if a != [] {
      assert a[0] in a;
      var m, n := |a| - 1, |b| - 1;
      assert a[m] in a;
      LastIsNew(a);
      LastIsNew(b);
      LastIsGreatest(b, a[m]);
      if a[m] == b[n] {
        forall x | x in a[..m]
          ensures x in b[..n]
        {
          assert x in a && x != a[m];
        }
        IncreasingWithin(a[..m], b[..n]);
      } else {
        forall x | x in a
          ensures x in b[..n]
        {
          LastIsGreatest(a, x);
        }
        IncreasingWithin(a, b[..n]);
      }
    }
  }
}
