/**
 Weighted sums over sequences and finite sets, the arithmetic behind every
 counting and potential argument about the queue.
 */
module Sums {

  function Without<T>(s: seq<T>, i: nat): seq<T>
    requires i < |s|
  {
    s[..i] + s[i + 1..]
  }

  ghost function Sum<T>(s: seq<T>, w: T -> int): int {
    if s == [] then 0 else w(s[0]) + Sum(s[1..], w)
  }

  lemma {:induction false} SumConcat<T>(a: seq<T>, b: seq<T>, w: T -> int)
    ensures Sum(a + b, w) == Sum(a, w) + Sum(b, w)
  {
    if a == [] {
      assert a + b == b;
    } else {
      SumConcat(a[1..], b, w);
      assert (a + b)[1..] == a[1..] + b;
    }
  }

  lemma SumSingle<T>(x: T, w: T -> int)
    ensures Sum([x], w) == w(x)
  {
    assert [x][1..] == [];
  }

  lemma SumAppend<T>(s: seq<T>, x: T, w: T -> int)
    ensures Sum(s + [x], w) == Sum(s, w) + w(x)
  {
    SumConcat(s, [x], w);
    SumSingle(x, w);
  }

  lemma SumPrepend<T>(x: T, s: seq<T>, w: T -> int)
    ensures Sum([x] + s, w) == w(x) + Sum(s, w)
  {
    SumConcat([x], s, w);
    SumSingle(x, w);
  }

  lemma SumFirst<T>(s: seq<T>, w: T -> int)
    requires s != []
    ensures Sum(s, w) == w(s[0]) + Sum(s[1..], w)
  {
  }

  lemma SumWithout<T>(s: seq<T>, i: nat, w: T -> int)
    requires i < |s|
    ensures Sum(Without(s, i), w) == Sum(s, w) - w(s[i])
  {
    SumConcat(s[..i], s[i + 1..], w);
    assert s == s[..i] + ([s[i]] + s[i + 1..]);
    SumConcat(s[..i], [s[i]] + s[i + 1..], w);
    SumPrepend(s[i], s[i + 1..], w);
  }

  lemma {:induction false} SumUpdate<T>(s: seq<T>, i: nat, x: T, w: T -> int)
    requires i < |s|
    ensures Sum(s[i := x], w) == Sum(s, w) - w(s[i]) + w(x)
  {
    if i == 0 {
      assert s[i := x][1..] == s[1..];
    } else {
      assert s[i := x][1..] == s[1..][i - 1 := x];
      SumUpdate(s[1..], i - 1, x, w);
    }
  }

  lemma {:induction false} SumPointwise<T>(a: seq<T>, b: seq<T>, w: T -> int)
    requires |a| == |b| && forall i :: 0 <= i < |a| ==> w(a[i]) <= w(b[i])
    ensures Sum(a, w) <= Sum(b, w)
  {
    if a == [] {
    } else {
      SumPointwise(a[1..], b[1..], w);
    }
  }

  lemma {:induction false} SumDominated<T>(a: seq<T>, b: seq<T>, w: T -> int, v: T -> int)
    requires |a| == |b| && forall i :: 0 <= i < |a| ==> w(a[i]) <= v(b[i])
    ensures Sum(a, w) <= Sum(b, v)
  {
    if a == [] {
    } else {
      SumDominated(a[1..], b[1..], w, v);
    }
  }

  /** A sum of non-negative weights is at least the weight of any member. */
  lemma {:induction false} SumAtLeast<T>(s: seq<T>, w: T -> int)
    requires forall x :: x in s ==> w(x) >= 0
    ensures Sum(s, w) >= 0
    ensures forall x :: x in s ==> Sum(s, w) >= w(x)
  {
    if s == [] {
    } else {
      SumAtLeast(s[1..], w);
    }
  }

  ghost function SumSet<T>(s: set<T>, w: T -> int): int {
    if s == {} then 0 else var x :| x in s; w(x) + SumSet(s - {x}, w)
  }

  lemma {:induction false} SumSetRemove<T>(s: set<T>, x: T, w: T -> int)
    requires x in s
    ensures SumSet(s, w) == w(x) + SumSet(s - {x}, w)
    decreases s
  {
    var y :| y in s && SumSet(s, w) == w(y) + SumSet(s - {y}, w);
    if y == x {
    } else {
      SumSetRemove(s - {y}, x, w);
      SumSetRemove(s - {x}, y, w);
      assert s - {y} - {x} == s - {x} - {y};
    }
  }

  lemma SumSetInsert<T>(s: set<T>, x: T, w: T -> int)
    ensures SumSet(s + {x}, w) == if x in s then SumSet(s, w) else SumSet(s, w) + w(x)
  {
    if x in s {
      assert s + {x} == s;
    } else {
      SumSetRemove(s + {x}, x, w);
      assert s + {x} - {x} == s;
    }
  }

  lemma {:induction false} SumSetAtLeast<T>(s: set<T>, w: T -> int)
    requires forall x :: x in s ==> w(x) >= 0
    ensures SumSet(s, w) >= 0
    ensures forall x :: x in s ==> SumSet(s, w) >= w(x)
    decreases s
  {
    if s == {} {
    } else {
      var y :| y in s && SumSet(s, w) == w(y) + SumSet(s - {y}, w);
      SumSetAtLeast(s - {y}, w);
      forall x | x in s
        ensures SumSet(s, w) >= w(x)
      {
        if x != y {
          assert x in s - {y};
        }
      }
    }
  }
}
