/** Division of natural numbers, in the small steps that the solver takes, and decimal printing. */
module Numbers {

  function Min(a: int, b: int): (m: int)
    ensures m <= a && m <= b && (m == a || m == b)
  {
    if a < b then a else b
  }

  function Max(a: int, b: int): (m: int)
    ensures m >= a && m >= b && (m == a || m == b)
  {
    if a < b then b else a
  }

  lemma MulMonotone(a: int, b: int, m: nat)
    requires a <= b
    ensures a * m <= b * m
  {
  }

  lemma Divides(a: nat, m: nat)
    requires m > 0
    ensures a == a / m * m + a % m && a % m < m
  {
  }

  /** The quotient and the remainder are unique. */
  lemma DivisionUnique(a: nat, m: nat, q: int, r: nat)
    requires r < m && a == q * m + r
    ensures a / m == q && a % m == r
  {
    Divides(a, m);
    var p := a / m;
    if p < q {
      MulMonotone(p + 1, q, m);
    } else if q < p {
      MulMonotone(q + 1, p, m);
    }
  }

  /** `cuda::ceil_div` of numbers that are not negative. */
  function CeilDiv(n: nat, k: nat): (c: nat)
    requires k > 0
  {
    n / k + if n % k != 0 then 1 else 0
  }

  /** The least number of pieces' size that covers `n` with `k` pieces. */
  lemma CeilDivIsLeast(n: nat, k: nat, c: nat)
    requires k > 0
    ensures CeilDiv(n, k) * k >= n
    ensures c * k >= n <==> c >= CeilDiv(n, k)
  {
    Divides(n, k);
    var d := CeilDiv(n, k);
    if c >= d {
      MulMonotone(d, c, k);
    } else {
      MulMonotone(c, d - 1, k);
    }
  }

  /** The quotient rounded up, in one division. */
  lemma CeilDivMeans(n: nat, k: nat)
    requires k > 0
    ensures CeilDiv(n, k) == (n + k - 1) / k
  {
    Divides(n, k);
    var q, r := n / k, n % k;
    if r == 0 {
      DivisionUnique(n + k - 1, k, q, k - 1);
    } else {
      assert n + k - 1 == (q + 1) * k + (r - 1);
      DivisionUnique(n + k - 1, k, q + 1, r - 1);
    }
  }

  // ----- decimal printing -----

  predicate IsDigit(c: char) {
    '0' <= c <= '9'
  }

  function Digit(d: nat): (c: char)
    requires d < 10
    ensures IsDigit(c)
  {
    '0' + d as char
  }

  function Decimal(n: nat): (s: string)
    ensures s != []
    ensures forall i :: 0 <= i < |s| ==> IsDigit(s[i])
  {
    if n < 10 then [Digit(n)] else Decimal(n / 10) + [Digit(n % 10)]
  }

  lemma {:induction false} DecimalInjective(a: nat, b: nat)
    ensures Decimal(a) == Decimal(b) ==> a == b
  {
    if Decimal(a) == Decimal(b) && a >= 10 && b >= 10 {
      var n := |Decimal(a)| - 1;
      assert Decimal(a)[..n] == Decimal(a / 10) && Decimal(b)[..n] == Decimal(b / 10);
      assert Decimal(a)[n] == Digit(a % 10) && Decimal(b)[n] == Digit(b % 10);
      DecimalInjective(a / 10, b / 10);
    } else if Decimal(a) == Decimal(b) {
      assert |Decimal(a)| == |Decimal(b)|;
      assert Decimal(a)[0] == Decimal(b)[0];
    }
  }

  /** The number that digits stand for, from the left. */
  function ValueOf(s: string): int {
    if s == [] then 0 else 10 * ValueOf(s[..|s| - 1]) + (s[|s| - 1] as int - '0' as int)
  }

  /** The text is the number in decimal digits, without a leading zero unless the number is zero. */
  predicate Prints(s: string, n: nat) {
    && s != [] && (forall i :: 0 <= i < |s| ==> IsDigit(s[i])) && (|s| > 1 ==> s[0] != '0')
    && ValueOf(s) == n
  }

  lemma {:induction false} DecimalPrints(n: nat)
    ensures Prints(Decimal(n), n) && (n > 0 ==> Decimal(n)[0] != '0')
  {
    var s := Decimal(n);
    if n >= 10 {
      DecimalPrints(n / 10);
      assert s[..|s| - 1] == Decimal(n / 10) && s[0] == Decimal(n / 10)[0];
    } else {
      assert s[..|s| - 1] == [];
    }
  }

  lemma {:induction false} PrintsPositive(s: string)
    requires s != [] && (forall i :: 0 <= i < |s| ==> IsDigit(s[i])) && s[0] != '0'
    ensures ValueOf(s) > 0
  {
    if |s| > 1 {
      PrintsPositive(s[..|s| - 1]);
    } else {
      assert s[..|s| - 1] == [];
    }
  }

  /** Decimal printing gives the one such text. */
  lemma {:induction false} DecimalMeans(n: nat, s: string)
    ensures Decimal(n) == s <==> Prints(s, n)
    decreases |s|
  {
    DecimalPrints(n);
    if Prints(s, n) {
      var init := s[..|s| - 1];
      if init == [] {
        assert ValueOf(init) == 0;
        assert n == s[0] as int - '0' as int;
        assert s == [Digit(n)];
      } else {
        PrintsPositive(init);
        assert n == 10 * ValueOf(init) + (s[|s| - 1] as int - '0' as int);
        DecimalMeans(ValueOf(init), init);
        assert n / 10 == ValueOf(init) && Digit(n % 10) == s[|s| - 1];
        assert s == init + [s[|s| - 1]];
      }
    }
  }
}
