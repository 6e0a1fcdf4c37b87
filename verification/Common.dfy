/** Counting over sequences, shared by all the step machines. */
module Common {
  datatype Option<+T> = None | Some(value: T)

  /** The sum of the weights of the elements of `s`. */
  ghost function Sum<T>(s: seq<T>, w: T -> nat): nat {
    if s == [] then 0 else Sum(s[..|s| - 1], w) + w(s[|s| - 1])
  }

  lemma {:induction false} SumAppend<T>(s: seq<T>, x: T, w: T -> nat)
    ensures Sum(s + [x], w) == Sum(s, w) + w(x)
  {
    assert (s + [x])[..|s|] == s;
  }

  /** Changing one element changes the sum by the difference of the two weights. */
  lemma {:induction false} SumUpdate<T>(s: seq<T>, i: nat, x: T, w: T -> nat)
    requires i < |s|
    ensures Sum(s[i := x], w) + w(s[i]) == Sum(s, w) + w(x)
  {
    var n := |s| - 1;
    if i == n {
      assert s[i := x][..n] == s[..n];
    } else {
      SumUpdate(s[..n], i, x, w);
      assert s[i := x][..n] == s[..n][i := x];
    }
  }

  lemma {:induction false} SumHead<T>(s: seq<T>, w: T -> nat)
    requires s != []
    ensures Sum(s, w) == w(s[0]) + Sum(s[1..], w)
  {
    var n := |s| - 1;
    if n == 0 {
    } else {
      SumHead(s[..n], w);
      assert s[..n][1..] == s[1..][..n - 1];
    }
  }

  lemma {:induction false} SumAtLeast<T>(s: seq<T>, i: nat, w: T -> nat)
    requires i < |s|
    ensures w(s[i]) <= Sum(s, w)
  {
    if i == |s| - 1 {
    } else {
      SumAtLeast(s[..|s| - 1], i, w);
    }
  }

  /** Two different positions both contribute. */
  lemma {:induction false} SumAtLeastTwo<T>(s: seq<T>, i: nat, j: nat, w: T -> nat)
    requires i < j < |s|
    ensures w(s[i]) + w(s[j]) <= Sum(s, w)
  {
    var n := |s| - 1;
    if j < n {
      SumAtLeastTwo(s[..n], i, j, w);
    } else {
      SumAtLeast(s[..n], i, w);
    }
  }

  /** A positive sum has a positive contributor. */
  lemma {:induction false} SumWitness<T>(s: seq<T>, w: T -> nat) returns (i: nat)
    requires Sum(s, w) > 0
    ensures i < |s| && w(s[i]) > 0
  {
    i := |s| - 1;
    if w(s[i]) == 0 {
      i := SumWitness(s[..|s| - 1], w);
    }
  }

  lemma {:induction false} SumZero<T>(s: seq<T>, w: T -> nat)
    requires forall i :: 0 <= i < |s| ==> w(s[i]) == 0
    ensures Sum(s, w) == 0
  {
    if s == [] {
    } else {
      SumZero(s[..|s| - 1], w);
    }
  }

  /** A sum of weights 0 and 1 is at most the number of elements. */
  lemma {:induction false} SumAtMostLength<T>(s: seq<T>, w: T -> nat)
    requires forall i :: 0 <= i < |s| ==> w(s[i]) <= 1
    ensures Sum(s, w) <= |s|
  {
    if s == [] {
    } else {
      SumAtMostLength(s[..|s| - 1], w);
    }
  }

  lemma {:induction false} SumPointwise<T>(s: seq<T>, t: seq<T>, w: T -> nat)
    requires |s| == |t| && forall i :: 0 <= i < |s| ==> w(s[i]) == w(t[i])
    ensures Sum(s, w) == Sum(t, w)
  {
    if s == [] {
    } else {
      SumPointwise(s[..|s| - 1], t[..|t| - 1], w);
    }
  }

  lemma {:induction false} SumSameWeights<T>(s: seq<T>, v: T -> nat, w: T -> nat)
    requires forall i :: 0 <= i < |s| ==> v(s[i]) == w(s[i])
    ensures Sum(s, v) == Sum(s, w)
  {
    if s == [] {
    } else {
      SumSameWeights(s[..|s| - 1], v, w);
    }
  }

  /** A sum that splits position by position over two sequences. */
  lemma {:induction false} SumSplits<S, T>(s: seq<S>, t: seq<T>, u: S -> nat, v: S -> nat, w: T -> nat)
    requires |s| == |t| && forall i: nat :: i < |s| ==> u(s[i]) == v(s[i]) + w(t[i])
    ensures Sum(s, u) == Sum(s, v) + Sum(t, w)
  {
    if s == [] {
    } else {
      SumSplits(s[..|s| - 1], t[..|t| - 1], u, v, w);
    }
  }

  lemma {:induction false} SumBound<T>(s: seq<T>, w: T -> nat, b: nat)
    requires forall i :: 0 <= i < |s| ==> w(s[i]) <= b
    ensures Sum(s, w) <= b * |s|
  {
    if s == [] {
    } else {
      SumBound(s[..|s| - 1], w, b);
      assert b * |s| == b * (|s| - 1) + b;
    }
  }

  // ----- measures -----

  /** Four numbers, compared lexicographically. */
  datatype Rank = Rank(a: nat, b: nat, c: nat, d: nat)

  predicate Below(x: Rank, y: Rank) {
    || x.a < y.a
    || (x.a == y.a && x.b < y.b)
    || (x.a == y.a && x.b == y.b && x.c < y.c)
    || (x.a == y.a && x.b == y.b && x.c == y.c && x.d < y.d)
  }

  predicate AtMost(x: Rank, y: Rank) {
    x == y || Below(x, y)
  }

  /** As long as a property of numbers holds, the rank falls: it fails somewhere. */
  lemma Descent(e: nat -> Rank, works: nat -> bool, m: nat) returns (n: nat)
    requires forall j: nat :: works(j) ==> Below(e(j + 1), e(j))
    ensures n >= m && !works(n) && forall j :: m <= j < n ==> works(j)
    decreases e(m).a, e(m).b, e(m).c, e(m).d
  {
    n := m;
    if works(m) {
      n := Descent(e, works, m + 1);
    }
  }

  /** A rank that never rises and falls at every useful moment: when from every moment j on there
      is a moment `next(j)` that is useful or the end, the end comes. */
  lemma FairDescent(e: nat -> Rank, useful: nat -> bool, done: nat -> bool, next: nat -> nat, n: nat)
    returns (k: nat)
    requires forall j: nat :: AtMost(e(j + 1), e(j)) && (useful(j) ==> Below(e(j + 1), e(j)))
    requires forall j: nat :: next(j) >= j && (useful(next(j)) || done(next(j)))
    ensures done(k)
    decreases e(n).a, e(n).b, e(n).c, e(n).d
  {
    k := next(n);
    NeverRises(e, n, k);
    if !done(k) {
      assert Below(e(k + 1), e(k));
      k := FairDescent(e, useful, done, next, k + 1);
    }
  }

  lemma {:induction false} NeverRises(e: nat -> Rank, n: nat, m: nat)
    requires n <= m && forall j: nat :: AtMost(e(j + 1), e(j))
    ensures AtMost(e(m), e(n))
  {
    if m == n {
    } else {
      NeverRises(e, n, m - 1);
      assert AtMost(e(m - 1 + 1), e(m - 1));
    }
  }

  /** Quotient and remainder are determined by what they have to be. */
  lemma DivModUnique(x: nat, n: nat, q: nat, r: nat)
    requires n > 0 && x == n * q + r && r < n
    ensures x / n == q && x % n == r
  {
    var d := x / n - q;
    assert n * d == r - x % n;
    assert d >= 1 ==> n * d >= n;
    assert d <= -1 ==> n * d + n <= 0;
  }
}
