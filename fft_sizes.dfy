/** FFT-size number shaping: `primes`, `try_smaller_primes`, `higher_primes` and
    `smaller_primes` of bcdi/preprocessing/preprocessing_utils.py.

    A size is FFT friendly for (maxprime, dividers) when its largest prime factor
    is at most maxprime and every required divider divides it. `Friendly` states
    this with prime divisors; `TrySmallerPrimes` decides it from the trial-division
    factorisation, and Euclid's lemma is what connects the two. */
module FftSizes {
  import opened Common

  // ---------------------------------------------------------------------------
  // Divisibility and primes

  predicate Divides(d: int, n: int) { d >= 1 && n % d == 0 }

  ghost predicate IsPrime(p: int) {
    p >= 2 && forall d :: 2 <= d < p ==> !Divides(d, p)
  }

  /** Every prime dividing n is at most maxprime. */
  ghost predicate Smooth(n: int, maxprime: int) {
    forall q :: IsPrime(q) && Divides(q, n) ==> q <= maxprime
  }

  /** What `try_smaller_primes(n, maxprime, dividers)` answers for n >= 1. The
      factor list of `primes` starts with 1, so maxprime < 1 rejects even n == 1. */
  ghost predicate Friendly(n: int, maxprime: int, dividers: seq<int>) {
    && n >= 1
    && maxprime >= 1
    && Smooth(n, maxprime)
    && AllDivide(dividers, n)
  }

  /** Every required divider divides n. */
  predicate AllDivide(dividers: seq<int>, n: int) {
    forall j :: 0 <= j < |dividers| ==> Divides(dividers[j], n)
  }

  predicate PositiveDividers(dividers: seq<int>) {
    forall j :: 0 <= j < |dividers| ==> dividers[j] >= 1
  }

  lemma MulPositive(a: int, b: int)
    requires a >= 1 && b >= 1
    ensures a * b >= a && a * b >= b
  {
  }

  /** Quotient and remainder are determined by x == d * q + r with 0 <= r < d. */
  lemma ModUnique(x: int, d: int, q: int, r: int)
    requires d >= 1 && 0 <= r < d && x == d * q + r
    ensures x / d == q && x % d == r
  {
    var m := q - x / d;
    assert d * q + r == d * (x / d) + x % d;
    assert d * m == d * q - d * (x / d);
    if m >= 1 {
      MulPositive(d, m);
    } else if m <= -1 {
      assert d * (-m) == -(d * m);
      MulPositive(d, -m);
    }
  }

  /** The remainder is unchanged by adding multiples of the divisor. */
  lemma ModAddMultiple(x: int, d: int, k: int)
    requires d >= 1
    ensures (x + d * k) % d == x % d
  {
    assert x + d * k == d * (x / d + k) + x % d;
    ModUnique(x + d * k, d, x / d + k, x % d);
  }

  lemma DividesMultiple(d: int, k: int)
    requires d >= 1
    ensures Divides(d, d * k)
  {
    ModUnique(d * k, d, k, 0);
  }

  lemma DividesQuotient(d: int, n: int)
    requires Divides(d, n)
    ensures n == d * (n / d)
  {
  }

  lemma DividesMulRight(d: int, a: int, b: int)
    requires Divides(d, a)
    ensures Divides(d, a * b)
  {
    var m := a / d;
    DividesQuotient(d, a);
    assert a * b == d * (m * b);
    DividesMultiple(d, m * b);
  }

  lemma DividesTransitive(d: int, e: int, n: int)
    requires Divides(d, e) && Divides(e, n)
    ensures Divides(d, n)
  {
    DividesQuotient(e, n);
    DividesMulRight(d, e, n / e);
  }

  lemma DividesSelf(n: int)
    requires n >= 1
    ensures Divides(n, n)
  {
    DividesMultiple(n, 1);
  }

  lemma DividesShiftDown(p: int, a: int, b: int)
    requires Divides(p, a * b)
    ensures Divides(p, (a - p) * b)
  {
    assert (a - p) * b == a * b + p * (-b);
    ModAddMultiple(a * b, p, -b);
  }

  lemma DividesShiftUp(p: int, a: int)
    requires Divides(p, a - p)
    ensures Divides(p, a)
  {
    ModAddMultiple(a - p, p, 1);
  }

  /** If p divides a * b, it divides (p % a) * b: with p == a * q + r,
      r * b == p * b - q * (a * b). */
  lemma DividesRemainder(p: int, a: int, b: int)
    requires a >= 1 && Divides(p, a * b)
    ensures Divides(p, (p % a) * b)
  {
    var q, r := p / a, p % a;
    var t := (a * b) / p;
    DividesQuotient(p, a * b);
    assert r == p - a * q;
    assert r * b == p * b - (a * q) * b;
    assert (a * q) * b == q * (a * b);
    assert q * (a * b) == p * (q * t);
    assert r * b == p * (b - q * t);
    DividesMultiple(p, b - q * t);
  }

  /** Euclid's lemma: a prime dividing a product divides one of its factors.
      Proved by descent on `a`, replacing it by `a - p` or by `p % a`. */
  lemma {:induction false} Euclid(p: int, a: int, b: int)
    requires IsPrime(p) && a >= 1
    requires Divides(p, a * b)
    ensures Divides(p, a) || Divides(p, b)
    decreases a
  {
    if a == p {
      DividesSelf(p);
    } else if a == 1 {
      assert a * b == b;
    } else if a > p {
      DividesShiftDown(p, a, b);
      Euclid(p, a - p, b);
      if Divides(p, a - p) {
        DividesShiftUp(p, a);
      }
    } else {
      // 2 <= a < p, so a does not divide p and the remainder is in [1, a)
      assert !Divides(a, p);
      var r := p % a;
      assert 1 <= r < a;
      DividesRemainder(p, a, b);
      assert Divides(p, r * b);
      Euclid(p, r, b);
    }
  }

  lemma PrimeDividesPrime(q: int, r: int)
    requires IsPrime(q) && IsPrime(r) && Divides(q, r)
    ensures q == r
  {
  }

  // ---------------------------------------------------------------------------
  // Products of factor lists

  function Product(s: seq<int>): (r: int)
    ensures (forall j :: 0 <= j < |s| ==> s[j] >= 1) ==> r >= 1
  {
    if |s| == 0 then 1
    else
      var front := Product(s[..|s| - 1]);
      if front >= 1 && s[|s| - 1] >= 1 then MulPositive(front, s[|s| - 1]); front * s[|s| - 1]
      else front * s[|s| - 1]
  }

  lemma ProductAppend(s: seq<int>, x: int)
    ensures Product(s + [x]) == Product(s) * x
  {
    assert (s + [x])[..|s|] == s;
  }

  /** Each entry of a list of positive numbers divides its product. */
  lemma {:induction false} FactorDivides(s: seq<int>, j: int)
    requires 0 <= j < |s|
    requires forall i :: 0 <= i < |s| ==> s[i] >= 1
    ensures Divides(s[j], Product(s))
  {
    var front := s[..|s| - 1];
    if j == |s| - 1 {
      assert Product(s) == s[j] * Product(front);
      DividesMultiple(s[j], Product(front));
    } else {
      FactorDivides(front, j);
      DividesMulRight(s[j], Product(front), s[|s| - 1]);
    }
  }

  /** A prime dividing a product of primes is one of them. */
  lemma {:induction false} PrimeAmongFactors(q: int, s: seq<int>)
    requires IsPrime(q)
    requires forall i :: 0 <= i < |s| ==> IsPrime(s[i])
    requires Divides(q, Product(s))
    ensures q in s
  {
    // an empty list has product 1, which no prime divides
    if |s| > 0 {
      var front := s[..|s| - 1];
      var last := s[|s| - 1];
      assert Product(s) == Product(front) * last;
      Euclid(q, Product(front), last);
      if Divides(q, Product(front)) {
        PrimeAmongFactors(q, front);
        assert q in front;
      } else {
        PrimeDividesPrime(q, last);
      }
    }
  }

  // ---------------------------------------------------------------------------
  // Smooth numbers

  lemma SmoothMul(a: int, b: int, maxprime: int)
    requires a >= 1 && b >= 1
    requires Smooth(a, maxprime) && Smooth(b, maxprime)
    ensures Smooth(a * b, maxprime)
  {
    forall q | IsPrime(q) && Divides(q, a * b)
      ensures q <= maxprime
    {
      Euclid(q, a, b);
    }
  }

  lemma NotDividesSmaller(q: int, n: int)
    requires q > n >= 1
    ensures !Divides(q, n)
  {
    ModUnique(n, q, 0, n);
  }

  lemma SmoothOne(maxprime: int)
    ensures Smooth(1, maxprime)
  {
    forall q | IsPrime(q) ensures !Divides(q, 1) {
      NotDividesSmaller(q, 1);
    }
  }

  lemma SmoothTwo(maxprime: int)
    requires maxprime >= 2
    ensures Smooth(2, maxprime)
  {
    forall q | IsPrime(q) && q > 2 ensures !Divides(q, 2) {
      NotDividesSmaller(q, 2);
    }
  }

  function Pow2(e: nat): (r: int)
    ensures r >= e + 1
  {
    if e == 0 then 1 else 2 * Pow2(e - 1)
  }

  lemma {:induction false} SmoothPow2(e: nat, maxprime: int)
    requires maxprime >= 2
    ensures Smooth(Pow2(e), maxprime)
  {
    if e == 0 {
      SmoothOne(maxprime);
    } else {
      SmoothPow2(e - 1, maxprime);
      SmoothTwo(maxprime);
      SmoothMul(2, Pow2(e - 1), maxprime);
    }
  }

  lemma {:induction false} SmoothProduct(s: seq<int>, maxprime: int)
    requires forall i :: 0 <= i < |s| ==> s[i] >= 1 && Smooth(s[i], maxprime)
    ensures Smooth(Product(s), maxprime)
  {
    if |s| == 0 {
      SmoothOne(maxprime);
    } else {
      var front := s[..|s| - 1];
      SmoothProduct(front, maxprime);
      SmoothMul(Product(front), s[|s| - 1], maxprime);
    }
  }

  /** The dividers and maxprime for which `higher_primes` terminates. */
  ghost predicate SearchTerminates(maxprime: int, dividers: seq<int>) {
    maxprime >= 2 && forall j :: 0 <= j < |dividers| ==> dividers[j] >= 1 && Smooth(dividers[j], maxprime)
  }

  /** The search of `higher_primes` ends: when maxprime >= 2 and the dividers are
      positive and maxprime-smooth, product(dividers) * 2^n is friendly and >= n. */
  lemma FriendlyAbove(n: nat, maxprime: int, dividers: seq<int>)
    requires SearchTerminates(maxprime, dividers)
    ensures var w := Product(dividers) * Pow2(n); w >= n && Friendly(w, maxprime, dividers)
  {
    var d := Product(dividers);
    var w := d * Pow2(n);
    MulPositive(d, Pow2(n));
    SmoothProduct(dividers, maxprime);
    SmoothPow2(n, maxprime);
    SmoothMul(d, Pow2(n), maxprime);
    forall j | 0 <= j < |dividers| ensures Divides(dividers[j], w) {
      FactorDivides(dividers, j);
      DividesMulRight(dividers[j], d, Pow2(n));
    }
  }

  // ---------------------------------------------------------------------------
  // primes

  /** The shape of the list `primes(n)` returns: 1, then prime factors in
      non-decreasing order, whose product is n. */
  ghost predicate IsFactorList(n: int, s: seq<int>) {
    && |s| >= 1
    && s[0] == 1
    && (forall j :: 1 <= j < |s| ==> IsPrime(s[j]))
    && (forall j, k :: 1 <= j <= k < |s| ==> s[j] <= s[k])
    && Product(s) == n
  }

  /** No d in [2, bound) divides n. */
  ghost predicate NoFactorBelow(n: int, bound: int) {
    forall d :: 2 <= d < bound ==> !Divides(d, n)
  }

  lemma NoFactorBelowPrime(i: int, rest: int)
    requires i >= 2 && Divides(i, rest) && NoFactorBelow(rest, i)
    ensures IsPrime(i)
  {
    forall d | 2 <= d < i ensures !Divides(d, i) {
      if Divides(d, i) { DividesTransitive(d, i, rest); }
    }
  }

  lemma NoFactorBelowQuotient(rest: int, i: int, bound: int)
    requires i >= 1 && Divides(i, rest) && NoFactorBelow(rest, bound)
    ensures NoFactorBelow(rest / i, bound)
  {
    DividesQuotient(i, rest);
    assert rest / i * i == rest;
    forall d | 2 <= d < bound ensures !Divides(d, rest / i) {
      if Divides(d, rest / i) { DividesMulRight(d, rest / i, i); }
    }
  }

  lemma MulMono(a: int, b: int, c: int)
    requires a >= b && c >= 0
    ensures a * c >= b * c
  {
    assert a * c - b * c == (a - b) * c;
  }

  lemma MulAssoc(a: int, b: int, c: int)
    ensures (a * b) * c == a * (b * c)
  {
  }

  lemma MulMonoLeft(c: int, a: int, b: int)
    requires a >= b && c >= 0
    ensures c * a >= c * b
  {
    assert c * a - c * b == c * (a - b);
  }

  /** A divisor d >= i of rest < i * i has a cofactor in [2, i) that divides rest. */
  lemma CofactorBelow(rest: int, d: int, i: int)
    requires 2 <= d < rest && Divides(d, rest) && i >= 0 && d >= i && i * i > rest
    ensures 2 <= rest / d < i && Divides(rest / d, rest)
  {
    var e := rest / d;
    DividesQuotient(d, rest);
    assert rest == d * e;
    if e <= 1 {
      // then rest == d * e <= d * 1
      MulMonoLeft(d, 1, e);
    }
    if e >= i {
      // then rest == d * e >= i * e >= i * i
      MulMono(d, i, e);
      MulMonoLeft(i, e, i);
    }
    assert rest == e * d;
    DividesMultiple(e, d);
  }

  /** What is left after trial division up to i, with i * i > rest, is prime. */
  lemma NoFactorBelowSquare(rest: int, i: int)
    requires rest >= 2 && i >= 2 && i * i > rest && NoFactorBelow(rest, i)
    ensures IsPrime(rest) && rest >= i
  {
    forall d | 2 <= d < rest && d >= i ensures !Divides(d, rest) {
      if Divides(d, rest) {
        CofactorBelow(rest, d, i);
      }
    }
    DividesSelf(rest);
  }

  /** The state of the trial division in `primes` once every candidate below i
      has been divided out: the factors found so far (all at most top) times
      what is left of the number is the number. */
  ghost predicate TrialState(number: int, factors: seq<int>, rest: int, i: int, top: int) {
    && 2 <= i
    && 1 <= rest <= number
    && |factors| >= 1 && factors[0] == 1
    && (forall j :: 1 <= j < |factors| ==> IsPrime(factors[j]) && factors[j] <= top)
    && (forall j, k :: 1 <= j <= k < |factors| ==> factors[j] <= factors[k])
    && Product(factors) * rest == number
    && NoFactorBelow(rest, i)
  }

  /** Dividing out the candidate i keeps the state and makes the rest smaller. */
  lemma DivideOut(number: int, factors: seq<int>, rest: int, i: int)
    requires TrialState(number, factors, rest, i, i) && rest % i == 0
    ensures TrialState(number, factors + [i], rest / i, i, i) && rest / i < rest
  {
    var q := rest / i;
    NoFactorBelowPrime(i, rest);
    NoFactorBelowQuotient(rest, i, i);
    DividesQuotient(i, rest);
    assert rest == i * q;
    if q <= 0 {
      // then rest == i * q <= i * 0
      MulMonoLeft(i, 0, q);
    }
    assert q >= 1;
    MulMono(i, 2, q);
    assert q < rest;
    ProductAppend(factors, i);
    var p := Product(factors);
    assert Product(factors + [i]) * q == (p * i) * q;
    MulAssoc(p, i, q);
  }

  /** Once i no longer divides the rest, the next candidate may be tried. */
  lemma NextCandidate(number: int, factors: seq<int>, rest: int, i: int)
    requires TrialState(number, factors, rest, i, i) && rest % i != 0
    ensures TrialState(number, factors, rest, i + 1, i)
  {
  }

  /** The rest left when the candidates run out is 1 or one more, largest, prime. */
  lemma LastFactor(number: int, factors: seq<int>, rest: int, i: int)
    requires TrialState(number, factors, rest, i, i - 1) && i * i > rest
    ensures rest == 1 ==> IsFactorList(number, factors)
    ensures rest > 1 ==> IsFactorList(number, factors + [rest])
  {
    if rest > 1 {
      NoFactorBelowSquare(rest, i);
      ProductAppend(factors, rest);
    }
  }

  /** `primes(number)`: trial division. The list starts with 1. */
  method Primes(number: int) returns (factors: seq<int>)
    requires number > 0
    ensures IsFactorList(number, factors)
  {
    factors := [1];
    var rest := number;
    var i := 2;
    while i * i <= rest
      invariant TrialState(number, factors, rest, i, i - 1)
      decreases number - i
    {
      assert i <= number by { MulMono(i, 1, i); }
      while rest % i == 0
        invariant TrialState(number, factors, rest, i, i)
        decreases rest
      {
        DivideOut(number, factors, rest, i);
        factors := factors + [i];
        rest := rest / i;
      }
      NextCandidate(number, factors, rest, i);
      i := i + 1;
    }
    LastFactor(number, factors, rest, i);
    if rest > 1 {
      factors := factors + [rest];
    }
  }

  // ---------------------------------------------------------------------------
  // try_smaller_primes

  /** Python's `max` of a non-empty list. */
  function MaxOf(s: seq<int>): (m: int)
    requires |s| > 0
    ensures m in s && forall x :: x in s ==> x <= m
  {
    if |s| == 1 then s[0]
    else
      var rest := MaxOf(s[1..]);
      assert forall x :: x in s ==> x == s[0] || x in s[1..];
      if s[0] >= rest then s[0] else rest
  }

  lemma FactorListSmooth(n: int, s: seq<int>, maxprime: int)
    requires IsFactorList(n, s) && MaxOf(s) <= maxprime
    ensures maxprime >= 1 && Smooth(n, maxprime)
  {
    assert s[0] in s;
    ProductCons(s);
    forall q | IsPrime(q) && Divides(q, n) ensures q <= maxprime {
      PrimeAmongFactors(q, s[1..]);
    }
  }

  lemma SmoothFactorList(n: int, s: seq<int>, maxprime: int)
    requires IsFactorList(n, s) && maxprime >= 1 && Smooth(n, maxprime)
    ensures MaxOf(s) <= maxprime
  {
    var m := MaxOf(s);
    var j :| 0 <= j < |s| && s[j] == m;
    if j >= 1 {
      assert forall i :: 0 <= i < |s| ==> s[i] >= 1;
      FactorDivides(s, j);
    }
  }

  /** The largest entry of `primes(n)` is at most maxprime exactly when
      maxprime >= 1 and every prime dividing n is at most maxprime. */
  lemma FactorListBound(n: int, s: seq<int>, maxprime: int)
    requires IsFactorList(n, s)
    ensures MaxOf(s) <= maxprime <==> maxprime >= 1 && Smooth(n, maxprime)
  {
    if MaxOf(s) <= maxprime {
      FactorListSmooth(n, s, maxprime);
    } else if maxprime >= 1 && Smooth(n, maxprime) {
      SmoothFactorList(n, s, maxprime);
    }
  }

  /** Dropping the leading 1 does not change the product. */
  lemma {:induction false} ProductCons(s: seq<int>)
    requires |s| >= 1 && s[0] == 1
    ensures Product(s) == Product(s[1..])
  {
    if |s| == 1 {
      assert s[1..] == [];
    } else {
      var front := s[..|s| - 1];
      ProductCons(front);
      assert front[1..] == s[1..][..|s| - 2];
    }
  }

  /** `try_smaller_primes(number, maxprime, required_dividers)`. A `None` list of
      dividers behaves as the empty list. */
  method TrySmallerPrimes(number: int, maxprime: int, dividers: seq<int>) returns (ok: bool)
    requires number > 0
    requires PositiveDividers(dividers)
    ensures ok == Friendly(number, maxprime, dividers)
  {
    var p := Primes(number);
    FactorListBound(number, p, maxprime);
    if MaxOf(p) > maxprime {
      return false;
    }
    for t := 0 to |dividers|
      invariant forall j :: 0 <= j < t ==> Divides(dividers[j], number)
    {
      if number % dividers[t] != 0 {
        return false;
      }
    }
    return true;
  }

  // ---------------------------------------------------------------------------
  // higher_primes and smaller_primes

  /** The assertion both searches start with: `number > 1 and maxprime <= number`. */
  predicate SearchAllowed(number: int, maxprime: int) {
    number > 1 && maxprime <= number
  }

  /** m is the least friendly number >= n. */
  ghost predicate LeastFriendlyFrom(m: int, n: int, maxprime: int, dividers: seq<int>) {
    m >= n && Friendly(m, maxprime, dividers) &&
    forall j :: n <= j < m ==> !Friendly(j, maxprime, dividers)
  }

  /** m is the greatest friendly number in [1, n]. */
  ghost predicate GreatestFriendlyUpTo(m: int, n: int, maxprime: int, dividers: seq<int>) {
    1 <= m <= n && Friendly(m, maxprime, dividers) &&
    forall j :: m < j <= n ==> !Friendly(j, maxprime, dividers)
  }

  ghost predicate NoFriendlyUpTo(n: int, maxprime: int, dividers: seq<int>) {
    forall j :: 1 <= j <= n ==> !Friendly(j, maxprime, dividers)
  }


  /** `higher_primes(number, maxprime, required_dividers)` on a scalar. The early
      exit `number == limit` of the source is checked to be unreachable: the search
      only moves up from `limit`. */
  method HigherPrimes(number: int, maxprime: int, dividers: seq<int>) returns (r: Result<int>)
    requires SearchTerminates(maxprime, dividers)
    ensures r.Err? <==> !SearchAllowed(number, maxprime)
    ensures r.Err? ==> r.error == AssertionError
    ensures r.Ok? ==> LeastFriendlyFrom(r.value, number, maxprime, dividers)
  {
    var limit := number;
    if !SearchAllowed(number, maxprime) {
      return Err(AssertionError);
    }
    FriendlyAbove(number, maxprime, dividers);
    ghost var bound := Product(dividers) * Pow2(number);
    var n := number;
    var ok := TrySmallerPrimes(n, maxprime, dividers);
    while !ok
      invariant limit <= n <= bound
      invariant ok == Friendly(n, maxprime, dividers)
      invariant forall j :: limit <= j < n ==> !Friendly(j, maxprime, dividers)
      decreases bound - n
    {
      n := n + 1;
      assert n != limit;
      ok := TrySmallerPrimes(n, maxprime, dividers);
    }
    return Ok(n);
  }

  /** `smaller_primes(number, maxprime, required_dividers)` on a scalar: the
      greatest friendly number <= number, or 0 when none of 1..number is. */
  method SmallerPrimes(number: int, maxprime: int, dividers: seq<int>) returns (r: Result<int>)
    requires PositiveDividers(dividers)
    ensures r.Err? <==> !SearchAllowed(number, maxprime)
    ensures r.Err? ==> r.error == AssertionError
    ensures r.Ok? ==> (r.value == 0 <==> NoFriendlyUpTo(number, maxprime, dividers))
    ensures r.Ok? && r.value != 0 ==> GreatestFriendlyUpTo(r.value, number, maxprime, dividers)
  {
    if !SearchAllowed(number, maxprime) {
      return Err(AssertionError);
    }
    var n := number;
    var ok := TrySmallerPrimes(n, maxprime, dividers);
    while !ok
      invariant 1 <= n <= number
      invariant ok == Friendly(n, maxprime, dividers)
      invariant forall j :: n < j <= number ==> !Friendly(j, maxprime, dividers)
      decreases n
    {
      n := n - 1;
      if n == 0 {
        return Ok(0);
      }
      ok := TrySmallerPrimes(n, maxprime, dividers);
    }
    return Ok(n);
  }

  /** What the list/tuple/array form of `smaller_primes` returns: one size per
      entry, or the scalar 0 as soon as one entry has no friendly size. */
  datatype Sizes = Each(sizes: seq<int>) | ScalarZero

  /** The first t entries pass the assertion and have a friendly size below them. */
  ghost predicate PrefixSearchable(numbers: seq<int>, t: int, maxprime: int, dividers: seq<int>)
    requires 0 <= t <= |numbers|
  {
    forall u :: 0 <= u < t ==>
      SearchAllowed(numbers[u], maxprime) && !NoFriendlyUpTo(numbers[u], maxprime, dividers)
  }

  /** `smaller_primes` on a list of numbers, entry by entry in order: the first
      entry that fails the assertion raises, the first entry with no friendly size
      below it makes the whole answer 0, and otherwise each entry gets its size. */
  method SmallerPrimesEach(numbers: seq<int>, maxprime: int, dividers: seq<int>) returns (r: Result<Sizes>)
    requires PositiveDividers(dividers)
    ensures r.Ok? && r.value.Each? ==>
      && |r.value.sizes| == |numbers|
      && (forall t :: 0 <= t < |numbers| ==>
           SearchAllowed(numbers[t], maxprime) &&
           GreatestFriendlyUpTo(r.value.sizes[t], numbers[t], maxprime, dividers))
    ensures r.Ok? && r.value.ScalarZero? ==>
      exists t :: 0 <= t < |numbers| && PrefixSearchable(numbers, t, maxprime, dividers) &&
                  SearchAllowed(numbers[t], maxprime) && NoFriendlyUpTo(numbers[t], maxprime, dividers)
    ensures r.Err? ==> r.error == AssertionError
    ensures r.Err? ==>
      exists t :: 0 <= t < |numbers| && PrefixSearchable(numbers, t, maxprime, dividers) &&
                  !SearchAllowed(numbers[t], maxprime)
  {
    var found: seq<int> := [];
    for t := 0 to |numbers|
      invariant |found| == t
      invariant forall u :: 0 <= u < t ==>
                  SearchAllowed(numbers[u], maxprime) && GreatestFriendlyUpTo(found[u], numbers[u], maxprime, dividers)
      invariant PrefixSearchable(numbers, t, maxprime, dividers)
    {
      var one := SmallerPrimes(numbers[t], maxprime, dividers);
      match one
      case Err(e) => return Err(e);
      case Ok(m) =>
        if m == 0 {
          return Ok(ScalarZero);
        }
        found := found + [m];
        assert !NoFriendlyUpTo(numbers[t], maxprime, dividers) by {
          assert m in found && Friendly(m, maxprime, dividers);
        }
    }
    return Ok(Each(found));
  }

  /** `higher_primes` on a list of numbers, entry by entry in order. Its early
      exit `return limit` is unreachable, so the result is always a list. */
  method HigherPrimesEach(numbers: seq<int>, maxprime: int, dividers: seq<int>) returns (r: Result<seq<int>>)
    requires SearchTerminates(maxprime, dividers)
    ensures r.Ok? <==> forall t :: 0 <= t < |numbers| ==> SearchAllowed(numbers[t], maxprime)
    ensures r.Err? ==> r.error == AssertionError
    ensures r.Ok? ==> |r.value| == |numbers|
    ensures r.Ok? ==>
      forall t :: 0 <= t < |r.value| ==> LeastFriendlyFrom(r.value[t], numbers[t], maxprime, dividers)
  {
    var found: seq<int> := [];
    for t := 0 to |numbers|
      invariant |found| == t
      invariant forall u :: 0 <= u < t ==>
                  SearchAllowed(numbers[u], maxprime) && LeastFriendlyFrom(found[u], numbers[u], maxprime, dividers)
    {
      var one := HigherPrimes(numbers[t], maxprime, dividers);
      match one
      case Err(e) => return Err(e);
      case Ok(m) => found := found + [m];
    }
    return Ok(found);
  }

  // ---------------------------------------------------------------------------
  // Facts about the least/greatest friendly sizes

  /** n is a fixed point of `higher_primes` exactly when n is friendly; this is
      the test `pad_size[k] != higher_primes(pad_size[k], ...)` of `center_fft`. */
  lemma FixedPointIffFriendly(m: int, n: int, maxprime: int, dividers: seq<int>)
    requires LeastFriendlyFrom(m, n, maxprime, dividers)
    ensures m == n <==> Friendly(n, maxprime, dividers)
  {
  }

  /** 2 has the FFT shape `center_fft` asks for (maxprime 7, divider 2), so the
      downward search from any n >= 2 never ends at 0 there. */
  lemma TwoIsFftFriendly()
    ensures Friendly(2, 7, [2])
  {
    SmoothTwo(7);
    DividesSelf(2);
  }

  lemma NeverZeroForFft(n: int)
    requires n >= 2
    ensures !NoFriendlyUpTo(n, 7, [2])
  {
    TwoIsFftFriendly();
  }

  /** Friendly sizes for divider 2 are even, so `n // 2 * 2 == n`. */
  lemma FftFriendlyEven(n: int)
    requires Friendly(n, 7, [2])
    ensures n % 2 == 0 && n >= 2
  {
    assert 2 in [2];
  }

  /** `maxprime` matters to friendliness only through the largest entry of
      `primes(n)`: a size with the required dividers is friendly for every
      maxprime from that entry on and for none below it. */
  lemma FriendlyThreshold(n: int, s: seq<int>, maxprime: int, dividers: seq<int>)
    requires IsFactorList(n, s) && n >= 1 && AllDivide(dividers, n)
    ensures Friendly(n, maxprime, dividers) <==> MaxOf(s) <= maxprime
  {
    FactorListBound(n, s, maxprime);
  }
}
