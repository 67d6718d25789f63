/** Multiplication modulo a prime: no zero divisors, cancellation and Fermat's little theorem.
    IDEA's inverse is a power, and the reason it is one is Fermat's theorem. */
module PrimeField {

  ghost predicate Prime(p: nat) {
    p >= 2 && forall m :: 2 <= m < p ==> p % m != 0
  }

  function Times(p: nat, a: nat, b: nat): (r: nat)
    requires p >= 2
    ensures r < p
  {
    (a * b) % p
  }

  function Power(p: nat, x: nat, n: nat): (r: nat)
    requires p >= 2
    ensures r < p
  {
    if n == 0 then 1 else Times(p, x, Power(p, x, n - 1))
  }

  // ---------- congruence ----------

  lemma ModUnique(p: nat, q: int, r: nat, n: int)
    requires r < p && n == q * p + r
    ensures n % p == r
  {
    var k := n / p - q;
    assert p * k == r - n % p;
    assert k >= 1 ==> p * k >= p;
    assert k <= -1 ==> p * k + p <= 0;
  }

  lemma TimesReduces(p: nat, a: nat, b: nat)
    requires p >= 2
    ensures Times(p, a % p, b) == Times(p, a, b)
  {
    var q, s, r := a / p, (a * b) / p, (a * b) % p;
    assert (a % p) * b == (a - p * q) * b == a * b - q * b * p == (s - q * b) * p + r;
    ModUnique(p, s - q * b, r, (a % p) * b);
  }

  lemma TimesCommutes(p: nat, a: nat, b: nat)
    requires p >= 2
    ensures Times(p, a, b) == Times(p, b, a)
  {
    assert a * b == b * a;
  }

  lemma TimesAssociates(p: nat, a: nat, b: nat, c: nat)
    requires p >= 2
    ensures Times(p, Times(p, a, b), c) == Times(p, a, Times(p, b, c))
  {
    TimesReduces(p, a * b, c);
    TimesReduces(p, b * c, a);
    assert (a * b) * c == (b * c) * a;
    TimesCommutes(p, Times(p, b, c), a);
  }

  lemma TimesOne(p: nat, a: nat)
    requires p >= 2 && a < p
    ensures Times(p, a, 1) == a == Times(p, 1, a)
  {
    assert a * 1 == a == 1 * a;
    ModUnique(p, 0, a, a);
  }

  /** (a b)(c d) = (a c)(b d) */
  lemma TimesExchanges(p: nat, a: nat, b: nat, c: nat, d: nat)
    requires p >= 2
    ensures Times(p, Times(p, a, b), Times(p, c, d)) == Times(p, Times(p, a, c), Times(p, b, d))
  {
    hide Times;
    TimesAssociates(p, a, b, Times(p, c, d));
    TimesAssociates(p, b, c, d);
    TimesCommutes(p, b, c);
    TimesAssociates(p, c, b, d);
    TimesAssociates(p, a, c, Times(p, b, d));
  }

  // ---------- Euclid's lemma ----------

  /** A prime that divides a product but not one factor divides the other.
      The remainder of p by the factor a is the smaller factor to recurse on. */
  lemma {:induction false} NoZeroDivisors(p: nat, a: nat, b: int)
    requires Prime(p) && 0 < a < p && (a * b) % p == 0
    ensures b % p == 0
    decreases a
  {
    if a > 1 {
      var q, r, k := p / a, p % a, (a * b) / p;
      assert r * b == (p - a * q) * b == p * b - q * (a * b) == (b - q * k) * p;
      ModUnique(p, b - q * k, 0, r * b);
      NoZeroDivisors(p, r, b);
    }
  }

  lemma TimesNonzero(p: nat, a: nat, b: nat)
    requires Prime(p) && 0 < a < p && 0 < b < p
    ensures Times(p, a, b) != 0
  {
    if Times(p, a, b) == 0 {
      NoZeroDivisors(p, a, b);
      ModUnique(p, 0, b, b);
    }
  }

  lemma Cancel(p: nat, a: nat, x: nat, y: nat)
    requires Prime(p) && 0 < a < p && x < p && y < p
    requires Times(p, a, x) == Times(p, a, y)
    ensures x == y
  {
    var d, e := (a * x) / p, (a * y) / p;
    assert a * (x - y) == a * x - a * y == (d - e) * p;
    ModUnique(p, d - e, 0, a * (x - y));
    NoZeroDivisors(p, a, x - y);
    if x > y {
      ModUnique(p, 0, x - y, x - y);
    } else if y > x {
      ModUnique(p, -1, p + x - y, x - y);
    }
  }

  // ---------- Fermat's little theorem ----------

  function Product(p: nat, s: seq<nat>): (r: nat)
    requires p >= 2
    ensures r < p
  {
    if s == [] then 1 else Times(p, s[0], Product(p, s[1..]))
  }

  /** n, n - 1, ..., 1, each multiplied by x. */
  function Scaled(p: nat, x: nat, n: nat): (s: seq<nat>)
    requires p >= 2
    ensures |s| == n && forall i :: 0 <= i < n ==> s[i] == Times(p, x, n - i)
  {
    if n == 0 then [] else [Times(p, x, n)] + Scaled(p, x, n - 1)
  }

  lemma {:induction false} ProductOfScaled(p: nat, x: nat, n: nat)
    requires p >= 2
    ensures Product(p, Scaled(p, x, n)) == Times(p, Power(p, x, n), Product(p, Scaled(p, 1, n)))
  {
    hide Times;
    if n == 0 {
      TimesOne(p, 1);
    } else {
      ProductOfScaled(p, x, n - 1);
      var w, f := Power(p, x, n - 1), Product(p, Scaled(p, 1, n - 1));
      assert Scaled(p, x, n)[1..] == Scaled(p, x, n - 1);
      assert Scaled(p, 1, n)[1..] == Scaled(p, 1, n - 1);
      TimesExchanges(p, x, n, w, f);
      TimesAssociates(p, 1, n, f);
      TimesOne(p, Times(p, n, f));
    }
  }

  /** Taking an element out of a sequence divides it out of the product. */
  lemma {:induction false} ProductWithout(p: nat, s: seq<nat>, k: nat)
    requires p >= 2 && k < |s|
    ensures Product(p, s) == Times(p, s[k], Product(p, s[..k] + s[k + 1..]))
  {
    hide Times;
    if k == 0 {
      assert s[..0] + s[1..] == s[1..];
    } else {
      var t := s[1..];
      ProductWithout(p, t, k - 1);
      assert (s[..k] + s[k + 1..])[1..] == t[..k - 1] + t[k..];
      var r := Product(p, t[..k - 1] + t[k..]);
      TimesAssociates(p, s[0], s[k], r);
      TimesCommutes(p, s[0], s[k]);
      TimesAssociates(p, s[k], s[0], r);
    }
  }

  /** Different numbers between 1 and their count: a permutation of 1..n. */
  ghost predicate Permutation(s: seq<nat>) {
    && (forall i, j :: 0 <= i < j < |s| ==> s[i] != s[j])
    && (forall i :: 0 <= i < |s| ==> 1 <= s[i] <= |s|)
  }

  lemma {:induction false} PermutationHasItsLength(s: seq<nat>)
    requires |s| > 0 && Permutation(s)
    ensures |s| in s
    decreases |s|
  {
    var n := |s|;
    if n !in s {
      assert s[n - 1] in s;
      assert forall i :: 0 <= i < n ==> s[i] in s;
      if n > 1 {
        var t := seq(n - 1, i requires 0 <= i < n - 1 => if s[i] == n - 1 then s[n - 1] else s[i]);
        PermutationHasItsLength(t);
      }
    }
  }

  lemma PermutationShrinks(s: seq<nat>) returns (k: nat)
    requires |s| > 0 && Permutation(s)
    ensures k < |s| && s[k] == |s| && Permutation(s[..k] + s[k + 1..])
  {
    PermutationHasItsLength(s);
    k :| 0 <= k < |s| && s[k] == |s|;
    var t := s[..k] + s[k + 1..];
    assert forall i :: 0 <= i < |t| ==> t[i] == s[if i < k then i else i + 1];
  }

  lemma {:induction false} ProductOfPermutation(p: nat, s: seq<nat>)
    requires |s| < p && p >= 2 && Permutation(s)
    ensures Product(p, s) == Product(p, Scaled(p, 1, |s|))
    decreases |s|
  {
    hide Times, Permutation;
    var n := |s|;
    if n > 0 {
      var k := PermutationShrinks(s);
      ProductWithout(p, s, k);
      ProductOfPermutation(p, s[..k] + s[k + 1..]);
      assert Scaled(p, 1, n)[1..] == Scaled(p, 1, n - 1);
      TimesOne(p, n);
    }
  }

  lemma {:induction false} FactorialNonzero(p: nat, n: nat)
    requires Prime(p) && n < p
    ensures Product(p, Scaled(p, 1, n)) != 0
  {
    hide Times;
    if n > 0 {
      FactorialNonzero(p, n - 1);
      assert Scaled(p, 1, n)[1..] == Scaled(p, 1, n - 1);
      TimesOne(p, n);
      TimesNonzero(p, n, Product(p, Scaled(p, 1, n - 1)));
    }
  }

  lemma ScaledIsPermutation(p: nat, x: nat)
    requires Prime(p) && 0 < x < p
    ensures Permutation(Scaled(p, x, p - 1))
  {
    hide Times;
    var s := Scaled(p, x, p - 1);
    forall i | 0 <= i < |s|
      ensures 1 <= s[i] <= |s|
    {
      TimesNonzero(p, x, p - 1 - i);
    }
    forall i, j | 0 <= i < j < |s|
      ensures s[i] != s[j]
    {
      if s[i] == s[j] {
        Cancel(p, x, p - 1 - i, p - 1 - j);
      }
    }
  }

  /** x^(p-1) = 1: multiplying 1..p-1 by x permutes them, and their product can be cancelled. */
  lemma Fermat(p: nat, x: nat)
    requires Prime(p) && 0 < x < p
    ensures Power(p, x, p - 1) == 1
  {
    hide Times, Power, Product, Scaled;
    var f := Product(p, Scaled(p, 1, p - 1));
    var w := Power(p, x, p - 1);
    ScaledIsPermutation(p, x);
    ProductOfPermutation(p, Scaled(p, x, p - 1));
    ProductOfScaled(p, x, p - 1);
    FactorialNonzero(p, p - 1);
    TimesCommutes(p, f, w);
    TimesOne(p, f);
    Cancel(p, f, w, 1);
  }

  lemma {:induction false} PowerAdds(p: nat, x: nat, m: nat, n: nat)
    requires p >= 2
    ensures Power(p, x, m + n) == Times(p, Power(p, x, m), Power(p, x, n))
  {
    hide Times;
    if m == 0 {
      TimesOne(p, Power(p, x, n));
    } else {
      PowerAdds(p, x, m - 1, n);
      TimesAssociates(p, x, Power(p, x, m - 1), Power(p, x, n));
    }
  }

  lemma Prime65537()
    ensures Prime(65537)
  {
    assert forall m :: 2 <= m <= 256 ==> 65537 % m != 0;
    forall m | 2 <= m < 65537
      ensures 65537 % m != 0
    {
      if m > 256 && 65537 % m == 0 {
        var q := 65537 / m;
        assert m * q == 65537;
        assert q > 256 ==> m * q >= 257 * 257;
        ModUnique(q, m, 0, 65537);
      }
    }
  }
}
