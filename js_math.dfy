// Numeric building blocks shared by every part of the model: the JavaScript
// number operations the calculator relies on, stated over Dafny's `real`.

module JsMath {

  datatype Option<T> = None | Some(value: T)

  /** A JavaScript number as the input widgets and formatters see it:
      a finite value, NaN (also standing for `undefined`), or an infinity. */
  datatype Num = Finite(value: real) | NaN | Infinity(positive: bool)

  /** JavaScript truthiness of a number: everything except 0 and NaN. */
  predicate Truthy(n: Num)
  {
    match n
    case Finite(v) => v != 0.0
    case NaN => false
    case Infinity(_) => true
  }

  /** `Math.pow`, injected: the model never relies on a closed form for it. */
  type Pow = (real, real) -> real

  /** The one fact about `Math.pow` the model needs: a positive base gives a
      positive power, so the inflation deflator is never zero. */
  ghost predicate PowPositive(pow: Pow)
  {
    forall x, y :: 0.0 < x ==> 0.0 < pow(x, y)
  }

  /** `Math.round`: the nearest integer, halves rounded towards +infinity. */
  function Round(x: real): (r: int)
    ensures x - 0.5 < r as real <= x + 0.5
  {
    (x + 0.5).Floor
  }

  function Min(a: real, b: real): (r: real)
    ensures r <= a && r <= b && (r == a || r == b)
  {
    if a <= b then a else b
  }

  function Max(a: real, b: real): (r: real)
    ensures a <= r && b <= r && (r == a || r == b)
  {
    if a >= b then a else b
  }

  function Abs(a: real): (r: real)
    ensures 0.0 <= r && (r == a || r == -a)
  {
    if a < 0.0 then -a else a
  }

  /** How many times `for (let m = 1; m <= bound; m++)` runs its body: the
      last month run satisfies the bound and the next one does not. */
  function LoopCount(bound: real): (n: nat)
    ensures n == 0 || n as real <= bound
    ensures bound < (n + 1) as real
  {
    if bound < 1.0 then 0 else bound.Floor
  }

  /** `Array.prototype.reduce((a, b) => a + b, 0)`: a left-to-right sum. */
  function Sum(s: seq<real>): real
  {
    if s == [] then 0.0 else Sum(s[..|s| - 1]) + s[|s| - 1]
  }

  lemma {:induction false} SumAppend(s: seq<real>, t: seq<real>)
    ensures Sum(s + t) == Sum(s) + Sum(t)
  {
    if t == [] {
      assert s + t == s;
    } else {
      assert (s + t)[..|s + t| - 1] == s + t[..|t| - 1];
      SumAppend(s, t[..|t| - 1]);
    }
  }

  // ---------------------------------------------------------------- filter

  /** `xs.filter(keep)`. */
  function Filter<T(!new)>(xs: seq<T>, keep: T -> bool): (r: seq<T>)
    ensures |r| <= |xs|
  {
    if xs == [] then []
    else Filter(xs[..|xs| - 1], keep) + (if keep(xs[|xs| - 1]) then [xs[|xs| - 1]] else [])
  }

  /** The filtered list holds exactly the elements that pass. */
  lemma {:induction false} FilterMembers<T(!new)>(xs: seq<T>, keep: T -> bool)
    ensures forall x :: x in Filter(xs, keep) <==> x in xs && keep(x)
  {
    if xs != [] {
      var init, last := xs[..|xs| - 1], xs[|xs| - 1];
      assert xs == init + [last];
      FilterMembers(init, keep);
    }
  }

  /** A filter that keeps every element is the identity. */
  lemma {:induction false} FilterKeepsAll<T(!new)>(xs: seq<T>, keep: T -> bool)
    requires forall x :: x in xs ==> keep(x)
    ensures Filter(xs, keep) == xs
  {
    if xs != [] {
      var init, last := xs[..|xs| - 1], xs[|xs| - 1];
      assert xs == init + [last];
      FilterKeepsAll(init, keep);
      assert Filter(xs, keep) == Filter(init, keep) + [last];
    }
  }

  /** Filtering a list with one more element at the end. */
  lemma FilterSnoc<T(!new)>(xs: seq<T>, x: T, keep: T -> bool)
    ensures Filter(xs + [x], keep) == Filter(xs, keep) + (if keep(x) then [x] else [])
  {
    assert (xs + [x])[..|xs|] == xs;
  }

  /** Filtering keeps the order: filtering a concatenation concatenates the
      filtered parts. */
  lemma {:induction false} FilterAppend<T(!new)>(xs: seq<T>, ys: seq<T>, keep: T -> bool)
    ensures Filter(xs + ys, keep) == Filter(xs, keep) + Filter(ys, keep)
  {
    if ys == [] {
      assert xs + ys == xs;
    } else {
      var init, last := ys[..|ys| - 1], ys[|ys| - 1];
      assert ys == init + [last];
      assert xs + ys == (xs + init) + [last];
      FilterAppend(xs, init, keep);
      FilterAppendSnoc(xs, init, last, keep);
    }
  }

  /** The inductive step of FilterAppend: one more element at the end of
      the second part. */
  lemma FilterAppendSnoc<T(!new)>(xs: seq<T>, init: seq<T>, last: T, keep: T -> bool)
    requires Filter(xs + init, keep) == Filter(xs, keep) + Filter(init, keep)
    ensures Filter((xs + init) + [last], keep) == Filter(xs, keep) + Filter(init + [last], keep)
  {
    FilterSnoc(xs + init, last, keep);
    FilterSnoc(init, last, keep);
    AppendAssoc(Filter(xs, keep), Filter(init, keep), if keep(last) then [last] else []);
  }

  lemma AppendAssoc<T>(a: seq<T>, b: seq<T>, c: seq<T>)
    ensures (a + b) + c == a + (b + c)
  {
  }

  /** Each element occurs in the filtered list as often as in the input
      when it passes, and not at all otherwise. */
  lemma {:induction false} FilterCounts<T(!new)>(xs: seq<T>, keep: T -> bool)
    ensures forall x :: multiset(Filter(xs, keep))[x] == if keep(x) then multiset(xs)[x] else 0
  {
    if xs != [] {
      var init, last := xs[..|xs| - 1], xs[|xs| - 1];
      assert xs == init + [last];
      FilterCounts(init, keep);
    }
  }
}
