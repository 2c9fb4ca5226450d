/** Units and bounds, decimal integers, and the float64 values they decode to. */
module Numbers {
  import opened Wrappers

  /** Times are whole nanoseconds. */
  const SECOND: int := 1_000_000_000
  const MILLISECOND: int := 1_000_000

  function Min(a: int, b: int): int { if a < b then a else b }

  function Max(a: int, b: int): int { if a > b then a else b }

  const MAX_INT64: int := 0x7FFF_FFFF_FFFF_FFFF
  const MIN_INT64: int := -0x8000_0000_0000_0000
  const TWO_64: int := 0x1_0000_0000_0000_0000
  const TWO_53: int := 0x20_0000_0000_0000

  predicate IsInt64(n: int) { MIN_INT64 <= n <= MAX_INT64 }

  predicate IsDigit(c: char) { '0' <= c <= '9' }

  function Digit(d: nat): (c: char)
    requires d < 10
    ensures IsDigit(c) && c as int == d + '0' as int
  {
    (d + '0' as int) as char
  }

  /** `%d` on a natural number. */
  function NatText(n: nat): (s: string)
    ensures s != [] && forall i | 0 <= i < |s| :: IsDigit(s[i])
  {
    if n < 10 then [Digit(n)] else NatText(n / 10) + [Digit(n % 10)]
  }

  /** `%d` on an integer. */
  function IntText(n: int): (s: string)
    ensures s != [] && (forall i | 0 < i < |s| :: IsDigit(s[i])) && (IsDigit(s[0]) || (s[0] == '-' && |s| > 1))
  {
    if n < 0 then "-" + NatText(-n) else NatText(n)
  }

  /** The value of a run of digits; None on any other character. */
  function ParseDigits(s: string): Option<nat> {
    if s == [] then Some(0)
    else if !IsDigit(s[|s| - 1]) then None
    else
      match ParseDigits(s[..|s| - 1])
      case None => None
      case Some(high) => Some(10 * high + (s[|s| - 1] as int - '0' as int))
  }

  /** `strconv.ParseInt(s, 10, 64)`. */
  function ParseInt(s: string): (r: Option<int>)
    ensures r.Some? ==> IsInt64(r.value)
  {
    var signed := s != [] && (s[0] == '-' || s[0] == '+');
    var digits := if signed then s[1..] else s;
    if digits == [] then None
    else
      match ParseDigits(digits)
      case None => None
      case Some(n) =>
        var v: int := if signed && s[0] == '-' then -(n as int) else n;
        if IsInt64(v) then Some(v) else None
  }

  lemma {:induction false} ParseNatText(n: nat)
    ensures ParseDigits(NatText(n)) == Some(n)
  {
    if n >= 10 {
      ParseNatText(n / 10);
      var s := NatText(n);
      assert s[..|s| - 1] == NatText(n / 10);
    } else {
      assert ParseDigits([]) == Some(0);
      assert NatText(n)[..0] == [];
    }
  }

  /** Printing then parsing an int64 gives it back. */
  lemma ParseIntText(n: int)
    requires IsInt64(n)
    ensures ParseInt(IntText(n)) == Some(n)
  {
    if n < 0 {
      ParseNatText(-n);
      assert ("-" + NatText(-n))[1..] == NatText(-n);
    } else {
      ParseNatText(n);
    }
  }

  /** The spacing of float64 values around a magnitude: 1 below 2^53, then doubling. */
  function Ulp(a: nat): (u: nat)
    ensures u >= 1
  {
    if a < TWO_53 then 1 else 2 * Ulp(a / 2)
  }

  /** `float64(n)`: the nearest representable value, ties to the even multiple. */
  function RoundNat(a: nat): nat {
    var u := Ulp(a);
    var q, r := a / u, a % u;
    if 2 * r < u || (2 * r == u && q % 2 == 0) then q * u else (q + 1) * u
  }

  function Float64(n: int): int {
    if n < 0 then -(RoundNat(-n) as int) else RoundNat(n)
  }

  function Abs(n: int): nat { if n < 0 then -n else n }

  /** An integer float64 holds exactly. */
  predicate Representable(n: int) { Abs(n) % Ulp(Abs(n)) == 0 }

  lemma MulDiv(a: nat, u: nat)
    requires u >= 1
    ensures a == (a / u) * u + a % u
  {
  }

  /** A number lies between the multiples of `u` around it, and is the lower one exactly without a remainder. */
  lemma Bracket(a: nat, u: nat)
    requires u >= 1
    ensures a % u == 0 ==> a / u * u == a
    ensures a % u != 0 ==> a / u * u < a < (a / u + 1) * u
  {
    MulDiv(a, u);
    assert (a / u + 1) * u == a / u * u + u;
  }

  lemma RoundExact(a: nat)
    ensures RoundNat(a) == a <==> a % Ulp(a) == 0
  {
    Bracket(a, Ulp(a));
    hide Ulp;
  }

  lemma SmallUlp(a: nat)
    requires a <= TWO_53
    ensures a % Ulp(a) == 0
  {
    if a == TWO_53 {
      assert Ulp(a / 2) == 1;
      assert Ulp(a) == 2;
    }
  }

  lemma Float64Exact(n: int)
    ensures Float64(n) == n <==> Representable(n)
    ensures Abs(n) <= TWO_53 ==> Representable(n)
  {
    RoundExact(Abs(n));
    if Abs(n) <= TWO_53 {
      SmallUlp(Abs(n));
    }
    hide Ulp, RoundNat;
  }

  /** A printed integer has no surrounding white space. */
  lemma IntTextEnds(n: int)
    ensures var s := IntText(n); (IsDigit(s[0]) || s[0] == '-') && IsDigit(s[|s| - 1])
  {
  }
}
