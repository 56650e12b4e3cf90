/** Sums of real-valued functions over sequences, and rounding to decimal places. */
module RealSums {

  function Total<T>(f: T -> real, s: seq<T>): real {
    if s == [] then 0.0 else f(s[0]) + Total(f, s[1..])
  }

  lemma {:induction false} TotalConcat<T>(f: T -> real, a: seq<T>, b: seq<T>)
    ensures Total(f, a + b) == Total(f, a) + Total(f, b)
  {
    if a == [] {
      assert a + b == b;
    } else {
      TotalConcat(f, a[1..], b);
      assert a + b == [a[0]] + (a[1..] + b);
    }
  }

  lemma TotalSnoc<T>(f: T -> real, s: seq<T>, x: T)
    ensures Total(f, s + [x]) == Total(f, s) + f(x)
  {
    TotalConcat(f, s, [x]);
  }

  lemma {:induction false} TotalMonotone<T>(f: T -> real, g: T -> real, s: seq<T>)
    requires forall x :: x in s ==> f(x) <= g(x)
    ensures Total(f, s) <= Total(g, s)
  {
    if s != [] {
      assert s[0] in s;
      TotalMonotone(f, g, s[1..]);
    }
  }

  lemma {:induction false} TotalNonNegative<T>(f: T -> real, s: seq<T>)
    requires forall x :: x in s ==> f(x) >= 0.0
    ensures Total(f, s) >= 0.0
  {
    if s != [] {
      assert s[0] in s;
      TotalNonNegative(f, s[1..]);
    }
  }

  /** A common factor. */
  lemma {:induction false} TotalScaled<T>(k: real, f: T -> real, g: T -> real, s: seq<T>)
    requires forall x :: x in s ==> g(x) == k * f(x)
    ensures Total(g, s) == k * Total(f, s)
  {
    if s != [] {
      assert s[0] in s;
      TotalScaled(k, f, g, s[1..]);
      Distribute(k, f(s[0]), Total(f, s[1..]));
    }
  }

  lemma Distribute(k: real, x: real, y: real)
    ensures k * (x + y) == k * x + k * y
  {
  }

  lemma MulMonotone(k: real, x: real, y: real)
    requires k >= 0.0 && x <= y
    ensures k * x <= k * y
  {
  }

  function Min(x: real, y: real): real {
    if x <= y then x else y
  }

  function Max(x: real, y: real): real {
    if x <= y then y else x
  }

  // ----- rounding

  /** Math.ceil */
  function Ceiling(x: real): int {
    -((-x).Floor)
  }

  /** Math.round: halves go up. */
  function Round(x: real): int {
    (x + 0.5).Floor
  }

  function Round4(x: real): real {
    Round(x * 10_000.0) as real / 10_000.0
  }

  function Round5(x: real): real {
    Round(x * 100_000.0) as real / 100_000.0
  }

  lemma CeilingMonotone(x: real, y: real)
    requires x <= y
    ensures Ceiling(x) <= Ceiling(y)
  {
  }
}
