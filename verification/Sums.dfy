/** Sums of a real-valued function over a finite set: the sum over any
    enumeration of the set. */
module Sums {

  ghost function SeqSum<T(!new)>(xs: seq<T>, f: T -> real): real {
    if xs == [] then 0.0 else f(xs[0]) + SeqSum(xs[1..], f)
  }

  ghost function Enumerate<T(!new)>(s: set<T>): (xs: seq<T>)
    ensures forall x :: x in xs <==> x in s
    decreases |s|
  {
    if s == {} then []
    else
      var x :| x in s;
      [x] + Enumerate(s - {x})
  }

  ghost function SetSum<T(!new)>(s: set<T>, f: T -> real): real {
    SeqSum(Enumerate(s), f)
  }

  lemma AnyElement<T(!new)>(s: set<T>) returns (x: T)
    requires s != {}
    ensures x in s
  {
    x :| x in s;
  }

  lemma SetSumUnfold<T(!new)>(s: set<T>, f: T -> real) returns (x: T)
    requires s != {}
    ensures x in s && SetSum(s, f) == f(x) + SetSum(s - {x}, f)
  {
    var xs := Enumerate(s);
    x :| x in s && xs == [x] + Enumerate(s - {x});
    assert xs[1..] == Enumerate(s - {x});
  }

  /** Any element may be taken out first, so the sum does not depend on an order. */
  lemma {:induction false} SetSumPick<T(!new)>(s: set<T>, f: T -> real, x: T)
    requires x in s
    ensures SetSum(s, f) == f(x) + SetSum(s - {x}, f)
    decreases |s|
  {
    var y := SetSumUnfold(s, f);
    if y != x {
      SetSumPick(s - {y}, f, x);
      SetSumPick(s - {x}, f, y);
      assert s - {y} - {x} == s - {x} - {y};
    }
  }

  lemma SetSumInsert<T(!new)>(s: set<T>, f: T -> real, x: T)
    requires x !in s
    ensures SetSum(s + {x}, f) == f(x) + SetSum(s, f)
  {
    SetSumPick(s + {x}, f, x);
    assert s + {x} - {x} == s;
  }

  lemma {:induction false} SeqSumMonotone<T(!new)>(xs: seq<T>, f: T -> real, g: T -> real)
    requires forall x :: x in xs ==> f(x) <= g(x)
    ensures SeqSum(xs, f) <= SeqSum(xs, g)
  {
    if xs != [] {
      SeqSumMonotone(xs[1..], f, g);
    }
  }

  lemma SetSumMonotone<T(!new)>(s: set<T>, f: T -> real, g: T -> real)
    requires forall x :: x in s ==> f(x) <= g(x)
    ensures SetSum(s, f) <= SetSum(s, g)
  {
    SeqSumMonotone(Enumerate(s), f, g);
  }

  lemma SetSumEqual<T(!new)>(s: set<T>, f: T -> real, g: T -> real)
    requires forall x :: x in s ==> f(x) == g(x)
    ensures SetSum(s, f) == SetSum(s, g)
  {
    SetSumMonotone(s, f, g);
    SetSumMonotone(s, g, f);
  }

  lemma {:induction false} SeqSumPlus<T(!new)>(xs: seq<T>, f: T -> real, g: T -> real, h: T -> real)
    requires forall x :: x in xs ==> h(x) == f(x) + g(x)
    ensures SeqSum(xs, h) == SeqSum(xs, f) + SeqSum(xs, g)
  {
    if xs != [] {
      SeqSumPlus(xs[1..], f, g, h);
    }
  }

  lemma SetSumPlus<T(!new)>(s: set<T>, f: T -> real, g: T -> real, h: T -> real)
    requires forall x :: x in s ==> h(x) == f(x) + g(x)
    ensures SetSum(s, h) == SetSum(s, f) + SetSum(s, g)
  {
    SeqSumPlus(Enumerate(s), f, g, h);
  }

  lemma {:induction false} SeqSumZero<T(!new)>(xs: seq<T>, f: T -> real)
    requires forall x :: x in xs ==> f(x) == 0.0
    ensures SeqSum(xs, f) == 0.0
  {
    if xs != [] {
      SeqSumZero(xs[1..], f);
    }
  }

  lemma SetSumZero<T(!new)>(s: set<T>, f: T -> real)
    requires forall x :: x in s ==> f(x) == 0.0
    ensures SetSum(s, f) == 0.0
  {
    SeqSumZero(Enumerate(s), f);
  }

  lemma {:induction false} SetSumUnion<T(!new)>(s: set<T>, t: set<T>, f: T -> real)
    requires s !! t
    ensures SetSum(s + t, f) == SetSum(s, f) + SetSum(t, f)
    decreases |t|
  {
    if t == {} {
      assert s + t == s;
    } else {
      var x :| x in t;
      SetSumPick(t, f, x);
      SetSumPick(s + t, f, x);
      assert s + t - {x} == s + (t - {x});
      SetSumUnion(s, t - {x}, f);
    }
  }

  /** Non-negative terms: a larger set has a larger sum. */
  lemma SetSumSubset<T(!new)>(s: set<T>, t: set<T>, f: T -> real)
    requires s <= t
    requires forall x :: x in t ==> f(x) >= 0.0
    ensures 0.0 <= SetSum(s, f) <= SetSum(t, f)
  {
    var zero := (x: T) => 0.0;
    SetSumZero(t - s, zero);
    SetSumMonotone(t - s, zero, f);
    SetSumZero(s, zero);
    SetSumMonotone(s, zero, f);
    SetSumUnion(s, t - s, f);
    assert s + (t - s) == t;
  }

  /** A double sum may be taken in either order. */
  lemma {:induction false} SetSumSwap<S(!new), T(!new)>(s: set<S>, t: set<T>, f: S -> T -> real, g: T -> S -> real,
                                                        rows: S -> real, columns: T -> real)
    requires forall x, y :: x in s && y in t ==> f(x)(y) == g(y)(x)
    requires forall x :: x in s ==> rows(x) == SetSum(t, f(x))
    requires forall y :: y in t ==> columns(y) == SetSum(s, g(y))
    ensures SetSum(s, rows) == SetSum(t, columns)
    decreases |s|
  {
    if s == {} {
      SetSumZero(t, columns);
    } else {
      var z :| z in s;
      SetSumPick(s, rows, z);
      var others := y => SetSum(s - {z}, g(y));
      SetSumSwap(s - {z}, t, f, g, rows, others);
      forall y | y in t
        ensures columns(y) == f(z)(y) + others(y)
      {
        SetSumPick(s, g(y), z);
      }
      SetSumPlus(t, f(z), others, columns);
    }
  }
}
