/** Finite sums of reals and the little matrix algebra built on them. */
module Sums {

  type Vector = seq<real>
  type Matrix = seq<seq<real>>

  function Sum(n: nat, f: int -> real): real {
    if n == 0 then 0.0 else Sum(n - 1, f) + f(n - 1)
  }

  function At(v: Vector, i: int): real {
    if 0 <= i < |v| then v[i] else 0.0
  }

  function Entry(m: Matrix, i: int, j: int): real {
    if 0 <= i < |m| then At(m[i], j) else 0.0
  }

  function Delta(i: int, j: int): real {
    if i == j then 1.0 else 0.0
  }

  ghost predicate Rectangular(m: Matrix, rows: nat, cols: nat) {
    |m| == rows && forall i :: 0 <= i < rows ==> |m[i]| == cols
  }

  /** A vector and a matrix as functions of their indices. */
  function Vec(v: Vector): int -> real {
    i => At(v, i)
  }

  function Mat(m: Matrix): (int, int) -> real {
    (i, j) => Entry(m, i, j)
  }

  function Total(v: Vector): real {
    Sum(|v|, Vec(v))
  }

  lemma {:induction false} SumEqual(n: nat, f: int -> real, g: int -> real)
    requires forall i :: 0 <= i < n ==> f(i) == g(i)
    ensures Sum(n, f) == Sum(n, g)
  {
    if n > 0 { SumEqual(n - 1, f, g); }
  }

  /** Sums are linear. */
  lemma {:induction false} SumAxpy(n: nat, h: int -> real, f: int -> real, c: real, g: int -> real)
    requires forall i :: 0 <= i < n ==> h(i) == f(i) + c * g(i)
    ensures Sum(n, h) == Sum(n, f) + c * Sum(n, g)
  {
    if n > 0 { SumAxpy(n - 1, h, f, c, g); }
  }

  lemma {:induction false} SumZero(n: nat, f: int -> real)
    requires forall i :: 0 <= i < n ==> f(i) == 0.0
    ensures Sum(n, f) == 0.0
  {
    if n > 0 { SumZero(n - 1, f); }
  }

  lemma SumScaled(n: nat, h: int -> real, c: real, g: int -> real)
    requires forall i :: 0 <= i < n ==> h(i) == c * g(i)
    ensures Sum(n, h) == c * Sum(n, g)
  {
  }

  /** Only one term is nonzero. */
  lemma {:induction false} SumSingle(n: nat, f: int -> real, p: int)
    requires forall i :: 0 <= i < n && i != p ==> f(i) == 0.0
    ensures Sum(n, f) == if 0 <= p < n then f(p) else 0.0
  {
    if n > 0 { SumSingle(n - 1, f, p); }
  }

  function Slice(f: (int, int) -> real, i: int): int -> real {
    j => f(i, j)
  }

  function Flip(f: (int, int) -> real): (int, int) -> real {
    (i, j) => f(j, i)
  }

  /** i |-> sum over j < n of f(i, j) */
  function RowSums(n: nat, f: (int, int) -> real): int -> real {
    i => Sum(n, Slice(f, i))
  }

  /** Summing a table by rows or by columns is the same. */
  lemma {:induction false} SumSwap(m: nat, n: nat, f: (int, int) -> real)
    ensures Sum(m, RowSums(n, f)) == Sum(n, RowSums(m, Flip(f)))
  {
    if m == 0 {
      SumZero(n, RowSums(0, Flip(f)));
    } else {
      SumSwap(m - 1, n, f);
      forall j | 0 <= j < n ensures RowSums(m, Flip(f))(j) == RowSums(m - 1, Flip(f))(j) + 1.0 * Slice(f, m - 1)(j) {
        assert Slice(Flip(f), j)(m - 1) == f(m - 1, j);
      }
      SumAxpy(n, RowSums(m, Flip(f)), RowSums(m - 1, Flip(f)), 1.0, Slice(f, m - 1));
    }
  }

  lemma {:induction false} SumNonnegative(n: nat, f: int -> real)
    requires forall i :: 0 <= i < n ==> f(i) >= 0.0
    ensures Sum(n, f) >= 0.0
    ensures forall i :: 0 <= i < n ==> f(i) <= Sum(n, f)
  {
    if n > 0 {
      SumNonnegative(n - 1, f);
      assert Sum(n, f) == Sum(n - 1, f) + f(n - 1);
      forall i | 0 <= i < n ensures f(i) <= Sum(n, f) {
        if i < n - 1 {
          assert f(i) <= Sum(n - 1, f) && f(n - 1) >= 0.0;
        } else {
          assert i == n - 1 && Sum(n - 1, f) >= 0.0;
        }
      }
    }
  }

  lemma {:induction false} SumConstant(n: nat, f: int -> real, c: real)
    requires forall i :: 0 <= i < n ==> f(i) == c
    ensures Sum(n, f) == n as real * c
  {
    if n > 0 {
      SumConstant(n - 1, f, c);
      assert n as real * c == (n - 1) as real * c + c;
    }
  }

  /** j |-> sum over k of b(k) * a(k, j) */
  function RowTimes(n: nat, b: int -> real, a: (int, int) -> real): int -> real {
    j => Sum(n, Times(b, Slice(Flip(a), j)))
  }

  /** k |-> sum over j of a(k, j) * x(j) */
  function TimesColumn(n: nat, a: (int, int) -> real, x: int -> real): int -> real {
    k => Sum(n, Times(Slice(a, k), x))
  }

  function Times(f: int -> real, g: int -> real): int -> real {
    i => f(i) * g(i)
  }

  function Table(b: int -> real, a: (int, int) -> real, x: int -> real): (int, int) -> real {
    (j, k) => b(k) * a(k, j) * x(j)
  }

  /** (b a) x == b (a x) for a row b, a matrix a and a column x. */
  lemma RowAssociates(n: nat, b: int -> real, a: (int, int) -> real, x: int -> real)
    ensures Sum(n, Times(RowTimes(n, b, a), x)) == Sum(n, Times(b, TimesColumn(n, a, x)))
  {
    var t := Table(b, a, x);
    forall j | 0 <= j < n ensures Times(RowTimes(n, b, a), x)(j) == RowSums(n, t)(j) {
      SumScaled(n, Slice(t, j), x(j), Times(b, Slice(Flip(a), j)));
    }
    SumEqual(n, Times(RowTimes(n, b, a), x), RowSums(n, t));
    SumSwap(n, n, t);
    forall k | 0 <= k < n ensures Times(b, TimesColumn(n, a, x))(k) == RowSums(n, Flip(t))(k) {
      SumScaled(n, Slice(Flip(t), k), b(k), Times(Slice(a, k), x));
    }
    SumEqual(n, Times(b, TimesColumn(n, a, x)), RowSums(n, Flip(t)));
  }

  /** Weighted sums are linear in the weights. */
  lemma LinearTimes(n: nat, h: int -> real, f: int -> real, c: real, g: int -> real, w: int -> real)
    requires forall i :: 0 <= i < n ==> h(i) == f(i) + c * g(i)
    ensures Sum(n, Times(h, w)) == Sum(n, Times(f, w)) + c * Sum(n, Times(g, w))
  {
  }

  /** A unit weight picks one term. */
  lemma UnitSum(n: nat, unit: int -> real, r: nat, f: int -> real)
    requires r < n && forall k :: 0 <= k < n ==> unit(k) == Delta(r, k)
    ensures Sum(n, Times(unit, f)) == f(r)
  {
    SumSingle(n, Times(unit, f), r);
  }

  lemma SameWeights(n: nat, f: int -> real, g: int -> real, w: int -> real)
    requires forall k :: 0 <= k < n ==> f(k) == g(k)
    ensures Sum(n, Times(f, w)) == Sum(n, Times(g, w))
  {
  }

  lemma SameValues(n: nat, w: int -> real, f: int -> real, g: int -> real)
    requires forall k :: 0 <= k < n ==> f(k) == g(k)
    ensures Sum(n, Times(w, f)) == Sum(n, Times(w, g))
  {
  }

  lemma ScaledValues(n: nat, w: int -> real, f: int -> real, c: real, g: int -> real)
    requires forall k :: 0 <= k < n ==> f(k) == c * g(k)
    ensures Sum(n, Times(w, f)) == c * Sum(n, Times(w, g))
  {
  }

  lemma TimesCommutes(n: nat, f: int -> real, g: int -> real)
    ensures Sum(n, Times(f, g)) == Sum(n, Times(g, f))
  {
  }

  ghost predicate IsInverse(n: nat, b: (int, int) -> real, a: (int, int) -> real) {
    forall i, j :: 0 <= i < n && 0 <= j < n ==> RowTimes(n, Slice(b, i), a)(j) == Delta(i, j)
  }

  ghost predicate Symmetric(n: nat, a: (int, int) -> real) {
    forall i, j :: 0 <= i < n && 0 <= j < n ==> a(i, j) == a(j, i)
  }

  /** b a == I gives b (a x) == x. */
  lemma InverseUndoes(n: nat, b: (int, int) -> real, a: (int, int) -> real, x: int -> real, i: nat)
    requires IsInverse(n, b, a) && i < n
    ensures Sum(n, Times(Slice(b, i), TimesColumn(n, a, x))) == x(i)
  {
    RowAssociates(n, Slice(b, i), a, x);
    forall j | 0 <= j < n && j != i ensures Times(RowTimes(n, Slice(b, i), a), x)(j) == 0.0 {
      assert RowTimes(n, Slice(b, i), a)(j) == Delta(i, j);
    }
    assert RowTimes(n, Slice(b, i), a)(i) == Delta(i, i);
    SumSingle(n, Times(RowTimes(n, Slice(b, i), a), x), i);
  }

  /** A matrix with a left inverse sends no nonzero vector to zero. */
  lemma InvertibleHasNoKernel(n: nat, b: (int, int) -> real, a: (int, int) -> real, x: int -> real)
    requires IsInverse(n, b, a)
    requires forall k :: 0 <= k < n ==> TimesColumn(n, a, x)(k) == 0.0
    ensures forall i :: 0 <= i < n ==> x(i) == 0.0
  {
    forall i | 0 <= i < n ensures x(i) == 0.0 {
      InverseUndoes(n, b, a, x, i);
      SumZero(n, Times(Slice(b, i), TimesColumn(n, a, x)));
    }
  }

  /** For symmetric a, b a == I makes b symmetric, and a right inverse as well. */
  lemma SymmetricInverse(n: nat, b: (int, int) -> real, a: (int, int) -> real)
    requires IsInverse(n, b, a) && Symmetric(n, a)
    ensures Symmetric(n, b) && IsInverse(n, a, b)
  {
    forall i, j | 0 <= i < n && 0 <= j < n ensures b(i, j) == b(j, i) {
      forall k | 0 <= k < n ensures TimesColumn(n, a, Slice(b, j))(k) == Delta(j, k) {
        assert RowTimes(n, Slice(b, j), a)(k) == Delta(j, k);
        SumEqual(n, Times(Slice(a, k), Slice(b, j)), Times(Slice(b, j), Slice(Flip(a), k)));
      }
      InverseUndoes(n, b, a, Slice(b, j), i);
      SumSingle(n, Times(Slice(b, i), TimesColumn(n, a, Slice(b, j))), j);
    }
    forall i, j | 0 <= i < n && 0 <= j < n ensures RowTimes(n, Slice(a, i), b)(j) == Delta(i, j) {
      assert RowTimes(n, Slice(b, j), a)(i) == Delta(j, i);
      SumEqual(n, Times(Slice(a, i), Slice(Flip(b), j)), Times(Slice(b, j), Slice(Flip(a), i)));
    }
  }
}
