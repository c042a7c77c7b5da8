/** macro/kml.py: the length of a note in milliseconds.  The source divides and multiplies binary
    floating-point numbers; rounding to 53 bits, ties to even, is written out here.  Exponents are
    unbounded, which makes no difference: where the source's numbers leave the range of normal
    ones, both results are 0. */
module KmlTiming {
  const LEAST: int := 0x10_0000_0000_0000
  const LIMIT: int := 0x20_0000_0000_0000
  const HALF: real := 4503599627370496.0
  const UNIT: real := 9007199254740992.0

  /** The nearest integer, the even one of two. */
  function HalfEven(x: real): (n: int)
    ensures -0.5 <= n as real - x <= 0.5
  {
    var floor := x.Floor;
    var rest := x - floor as real;
    if rest < 0.5 || (rest == 0.5 && floor % 2 == 0) then floor else floor + 1
  }

  /** The nearest number with a significand of 53 bits. */
  function Round(x: real): real
    requires x > 0.0
    decreases if HALF <= x < UNIT then 0 else 1, Distance(x)
  {
    if x >= UNIT then DistanceFalls(x); 2.0 * Round(x / 2.0)
    else if x < HALF then DistanceFalls(x); Round(2.0 * x) / 2.0
    else HalfEven(x) as real
  }

  function Distance(x: real): nat
    requires x > 0.0
  {
    if x >= UNIT then x.Floor else (UNIT / x).Floor
  }

  lemma DistanceFalls(x: real)
    requires x > 0.0
    ensures x >= 2.0 * UNIT ==> Distance(x / 2.0) < Distance(x)
    ensures 2.0 * x < HALF ==> Distance(2.0 * x) < Distance(x)
  {
    if x < HALF {
      var ratio := UNIT / x;
      assert ratio * x == UNIT;
      assert UNIT / (2.0 * x) == ratio / 2.0;
      assert ratio > 2.0;
    }
  }

  /** _length_to_ms on floating-point numbers. */
  function FloatMs(tempo: nat, length: nat): int
    requires tempo > 0 && length > 0
  {
    Product(Round(60000.0 / tempo as real), Round(4.0 / length as real)).Floor
  }

  function Product(a: real, b: real): real {
    var exact := a * b;
    if exact > 0.0 then Round(exact) else 0.0
  }

  // ----- what rounding does ----------------------------------------------------------------------

  lemma RoundDoubles(x: real)
    requires x > 0.0
    ensures Round(2.0 * x) == 2.0 * Round(x)
  {
  }

  function Power(k: nat): (p: int)
    ensures p > 0
  {
    if k == 0 then 1 else 2 * Power(k - 1)
  }

  lemma {:induction false} RoundScales(x: real, k: nat, factor: real)
    requires x > 0.0 && factor == Power(k) as real
    ensures x * factor > 0.0 && Rounded(x * factor) == Rounded(x) * factor
    decreases k
  {
    hide Rounded;
    if k > 0 {
      var half := Power(k - 1) as real;
      assert factor == 2.0 * half;
      var twice := 2.0 * x;
      RoundScales(twice, k - 1, half);
      var scaled := twice * half;
      assert Rounded(scaled) == Rounded(twice) * half;
      RoundedDoubles(x);
      Regroup(x, twice, half, factor);
      Regroup(Rounded(x), Rounded(twice), half, factor);
      assert Rounded(twice) * half == Rounded(x) * factor;
      assert Rounded(scaled) == Rounded(x) * factor;
      SameRound(x * factor, scaled);
      assert Rounded(x * factor) == Rounded(scaled);
    } else {
      assert x * factor == x;
    }
  }

  function Rounded(x: real): real
    requires x > 0.0
  {
    Round(x)
  }

  lemma RoundedDoubles(x: real)
    requires x > 0.0
    ensures Rounded(2.0 * x) == 2.0 * Rounded(x)
  {
    RoundDoubles(x);
  }

  lemma SameRound(x: real, y: real)
    requires x == y && x > 0.0
    ensures Rounded(x) == Rounded(y)
  {
  }

  lemma Regroup(x: real, twice: real, half: real, factor: real)
    requires twice == 2.0 * x && factor == 2.0 * half
    ensures twice * half == x * factor
  {
  }

  /** Rounding changes a number by at most one part in 2^53. */
  lemma {:induction false} RoundIsClose(x: real)
    requires x > 0.0
    ensures (UNIT - 1.0) * x <= UNIT * Round(x) <= (UNIT + 1.0) * x
    decreases if HALF <= x < UNIT then 0 else 1, Distance(x)
  {
    hide HalfEven, Distance;
    if x >= UNIT {
      DistanceFalls(x);
      RoundIsClose(x / 2.0);
      RoundDoubles(x / 2.0);
    } else if x < HALF {
      DistanceFalls(x);
      RoundIsClose(2.0 * x);
      RoundDoubles(x);
    } else {
      HalfIsClose(x);
    }
  }

  lemma HalfIsClose(x: real)
    requires HALF <= x < UNIT
    ensures (UNIT - 1.0) * x <= UNIT * HalfEven(x) as real <= (UNIT + 1.0) * x
  {
    hide HalfEven;
  }

  /** Whole numbers that fit into the significand are not rounded. */
  lemma {:induction false} RoundKeepsInteger(n: nat)
    requires 0 < n < LIMIT
    ensures Round(n as real) == n as real
    decreases LIMIT - n
  {
    if n < LEAST {
      RoundKeepsInteger(2 * n);
      assert (2 * n) as real == 2.0 * n as real;
    }
  }

  /** A number that is below n by at most one part in 2^54 is not rounded below n. */
  lemma {:induction false} RoundReaches(n: nat, x: real)
    requires 0 < n < LIMIT && x > 0.0
    requires (2.0 * UNIT - 1.0) * n as real <= (2.0 * UNIT) * x
    requires x <= 1.25 * n as real
    ensures Round(x) >= n as real
    decreases LIMIT - n
  {
    if n < LEAST {
      RoundReaches(2 * n, 2.0 * x);
      RoundDoubles(x);
    } else if x < HALF {
      RoundDoubles(x);
      assert n == LEAST;
      assert HalfEven(2.0 * x) == LIMIT;
    } else if x < UNIT {
      assert HalfEven(x) >= n;
    } else {
      RoundIsClose(x);
    }
  }

  // ----- divisors of 240000 = 2^7 * 3 * 5^4 -----------------------------------------------------------

  lemma PrimeDivides(p: nat, d: nat, q: nat, m: nat)
    requires p in {2, 3, 5} && d * q == p * m && d % p != 0
    ensures q % p == 0
  {
    var i, r := d / p, d % p;
    var k := m - i * q;
    assert d == p * i + r;
    Expand(p, i, r, q);
    assert p * m - p * (i * q) == p * k;
    if p == 2 {
      Remainder2(q, k, r);
    } else if p == 3 {
      Remainder3(q, k, r);
    } else {
      Remainder5(q, k, r);
    }
  }

  lemma Expand(p: nat, i: nat, r: nat, q: nat)
    ensures (p * i + r) * q == p * (i * q) + r * q
  {
  }

  lemma Remainder2(q: nat, k: int, r: nat)
    requires r * q == 2 * k && 0 < r < 2
    ensures q % 2 == 0
  {
    assert r == 1;
  }

  lemma Remainder3(q: nat, k: int, r: nat)
    requires r * q == 3 * k && 0 < r < 3
    ensures q % 3 == 0
  {
    if r == 1 { assert q == 3 * k; } else { assert q == 3 * (q - k); }
  }

  lemma Remainder5(q: nat, k: int, r: nat)
    requires r * q == 5 * k && 0 < r < 5
    ensures q % 5 == 0
  {
    if r == 1 { assert q == 5 * k; }
    else if r == 2 { assert q == 5 * (q - 2 * k); }
    else if r == 3 { assert q == 5 * (2 * k - q); }
    else { assert q == 5 * (q - k); }
  }

  /** Halving the cofactor k times. */
  lemma {:induction false} Halved(d: nat, q: nat, k: nat, m: nat) returns (rest: nat)
    requires d % 2 == 1 && d * q == Power(k) * m
    ensures d * rest == m
  {
    rest := q;
    if k > 0 {
      assert d * q == 2 * (Power(k - 1) * m);
      PrimeDivides(2, d, q, Power(k - 1) * m);
      assert d * (2 * (q / 2)) == 2 * (d * (q / 2));
      rest := Halved(d, q / 2, k - 1, m);
    }
  }

  function FivePower(k: nat): (p: nat)
    ensures p > 0
  {
    if k == 0 then 1 else 5 * FivePower(k - 1)
  }

  lemma {:induction false} DividesFivePower(d: nat, q: nat, k: nat)
    requires d * q == FivePower(k) && k <= 4
    ensures d in {1, 5, 25, 125, 625} && d <= FivePower(k)
    decreases k
  {
    if k == 0 {
      assert d == 1;
    } else if d % 5 == 0 {
      assert d == 5 * (d / 5);
      assert 5 * (d / 5 * q) == 5 * FivePower(k - 1);
      DividesFivePower(d / 5, q, k - 1);
    } else {
      PrimeDivides(5, d, q, FivePower(k - 1));
      assert d * (5 * (q / 5)) == 5 * (d * (q / 5));
      DividesFivePower(d, q / 5, k - 1);
    }
  }

  /** The odd divisors. */
  lemma OddDivisor(d: nat, q: nat)
    requires d * q == 240000 && d % 2 == 1
    ensures d in {1, 5, 25, 125, 625, 3, 15, 75, 375, 1875}
  {
    assert Power(7) == 128;
    assert FivePower(4) == 625;
    var rest := Halved(d, q, 7, 1875);
    if d % 3 == 0 {
      assert d == 3 * (d / 3);
      assert 3 * (d / 3 * rest) == 3 * 625;
      DividesFivePower(d / 3, rest, 4);
    } else {
      PrimeDivides(3, d, rest, 625);
      assert d * (3 * (rest / 3)) == 3 * (d * (rest / 3));
      DividesFivePower(d, rest / 3, 4);
    }
  }

  // ----- a whole note is 4 / length beats ---------------------------------------------------------

  /** Rounding 4 / length loses at most one part in 2^54. */
  ghost predicate LosesLittle(length: nat)
    requires length > 0
  {
    (2.0 * UNIT - 1.0) * (4.0 / length as real) <= (2.0 * UNIT) * Round(4.0 / length as real)
  }

  /** It is so when 2^k divided by the length has 53 digits before a fraction that is rounded up
      or is small. */
  lemma FractionDecides(length: nat, k: nat, whole: int, part: real)
    requires length > 0 && k >= 2 && LEAST <= whole < LIMIT && 0.0 <= part < length as real
    requires Power(k) as real == whole as real * length as real + part
    requires length as real < 2.0 * part || (2.0 * UNIT) * part <= Power(k) as real
    ensures LosesLittle(length)
  {
    hide Round, Power, HalfEven;
    var o, x, scale := length as real, 4.0 / length as real, Power(k - 2) as real;
    var y := x * scale;
    PowerTwice(k);
    Rescale(x, o, scale);
    Quotient(y, o, whole as real, part);
    RoundScales(x, k - 2, scale);
    RoundHere(y, o, whole, part);
    SameRound(y, x * scale);
    Unscale(x, Rounded(x), scale);
  }

  lemma PowerTwice(k: nat)
    requires k >= 2
    ensures Power(k) as real == 4.0 * Power(k - 2) as real
  {
    assert Power(k - 1) == 2 * Power(k - 2);
  }

  lemma Rescale(x: real, o: real, scale: real)
    requires o > 0.0 && x == 4.0 / o
    ensures (x * scale) * o == 4.0 * scale
  {
    assert x * o == 4.0;
    assert (x * scale) * o == (x * o) * scale;
  }

  lemma Cancel(a: real, b: real, factor: real)
    requires factor > 0.0
    ensures a * factor <= b * factor <==> a <= b
  {
  }

  lemma Quotient(y: real, o: real, whole: real, part: real)
    requires 0.0 <= part < o && y * o == whole * o + part
    ensures whole <= y < whole + 1.0 && (y - whole) * o == part
  {
    Cancel(whole, y, o);
    Cancel(whole + 1.0, y, o);
    assert (whole + 1.0) * o == whole * o + o;
    assert (y - whole) * o == y * o - whole * o;
  }

  lemma RoundHere(y: real, o: real, whole: int, part: real)
    requires o > 0.0 && LEAST <= whole < LIMIT && whole as real <= y < whole as real + 1.0
    requires (y - whole as real) * o == part
    requires o < 2.0 * part || (2.0 * UNIT) * part <= y * o
    ensures (2.0 * UNIT - 1.0) * y <= (2.0 * UNIT) * Round(y)
  {
    var rest := y - whole as real;
    assert Round(y) == HalfEven(y) as real;
    assert y.Floor == whole;
    if o < 2.0 * part {
      assert rest * o == part;
      Cancel(rest, 0.5, o);
      assert rest > 0.5;
    } else {
      var factor := (2.0 * UNIT);
      assert (factor * rest) * o == factor * (rest * o);
      Cancel(factor * rest, y, o);
      assert factor * rest == factor * y - factor * whole as real;
      assert Round(y) >= whole as real;
    }
  }

  lemma Unscale(x: real, rounded: real, scale: real)
    requires scale > 0.0
    requires (2.0 * UNIT - 1.0) * (x * scale) <= (2.0 * UNIT) * (rounded * scale)
    ensures (2.0 * UNIT - 1.0) * x <= (2.0 * UNIT) * rounded
  {
    var a, b := (2.0 * UNIT - 1.0) * x, (2.0 * UNIT) * rounded;
    assert a * scale == (2.0 * UNIT - 1.0) * (x * scale);
    assert b * scale == (2.0 * UNIT) * (rounded * scale);
    Cancel(a, b, scale);
  }

  lemma SmallPowers()
    ensures Power(1) == 2 && Power(2) == 4 && Power(10) == 1024
  {
  }

  lemma Powers()
    ensures Power(52) == 4503599627370496
    ensures Power(54) == 18014398509481984
    ensures Power(55) == 36028797018963968
    ensures Power(56) == 72057594037927936
    ensures Power(57) == 144115188075855872
    ensures Power(59) == 576460752303423488
    ensures Power(61) == 2305843009213693952
    ensures Power(62) == 4611686018427387904
    ensures Power(63) == 9223372036854775808
  {
    hide Power;
    SmallPowers();
    PowerAdds(10, 10);
    PowerAdds(20, 20);
    PowerAdds(40, 10);
    PowerAdds(50, 2);
    PowerAdds(52, 2);
    PowerAdds(54, 1);
    PowerAdds(55, 1);
    PowerAdds(56, 1);
    PowerAdds(57, 2);
    PowerAdds(59, 2);
    PowerAdds(61, 1);
    PowerAdds(62, 1);
  }

  lemma {:induction false} PowerAdds(a: nat, b: nat)
    ensures Power(a + b) == Power(a) * Power(b)
  {
    if b > 0 {
      PowerAdds(a, b - 1);
      assert Power(a + b) == 2 * Power(a + (b - 1));
    }
  }

  lemma OddLength(o: nat)
    requires o in {1, 5, 25, 125, 625, 3, 15, 75, 375, 1875}
    ensures LosesLittle(o)
  {
    hide LosesLittle;
    Powers();
    match o
    case 1 => FractionDecides(1, 52, 4503599627370496, 0.0);
    case 3 => FractionDecides(3, 54, 6004799503160661, 1.0);
    case 5 => FractionDecides(5, 55, 7205759403792793, 3.0);
    case 15 => FractionDecides(15, 56, 4803839602528529, 1.0);
    case 25 => FractionDecides(25, 57, 5764607523034234, 22.0);
    case 75 => FractionDecides(75, 59, 7686143364045646, 38.0);
    case 125 => FractionDecides(125, 59, 4611686018427387, 113.0);
    case 375 => FractionDecides(375, 61, 6148914691236517, 77.0);
    case 625 => FractionDecides(625, 62, 7378697629483820, 404.0);
    case 1875 => FractionDecides(1875, 63, 4919131752989213, 1433.0);
  }

  /** For every length that divides 240000. */
  lemma {:induction false} DivisorLosesLittle(length: nat, q: nat)
    requires length * q == 240000
    ensures LosesLittle(length)
  {
    if length % 2 == 0 {
      var half := length / 2;
      assert half * (2 * q) == 240000;
      DivisorLosesLittle(half, 2 * q);
      var x := 4.0 / length as real;
      assert 2.0 * x == 4.0 / half as real;
      RoundDoubles(x);
    } else {
      OddDivisor(length, q);
      OddLength(length);
    }
  }

  /** A quarter of a whole number is not rounded. */
  lemma QuarterIsExact(tempo: nat, m: nat)
    requires tempo * m == 240000
    ensures Round(60000.0 / tempo as real) == 60000.0 / tempo as real
  {
    var x := 60000.0 / tempo as real;
    assert x * tempo as real == 60000.0;
    assert 4.0 * x == m as real by {
      assert (4.0 * x) * tempo as real == m as real * tempo as real;
    }
    RoundDoubles(x);
    RoundDoubles(2.0 * x);
    RoundKeepsInteger(m);
  }

  // ----- the result -------------------------------------------------------------------------------

  /** Where the exact quotient is a whole number, the floating-point product does not fall short. */
  lemma WholeIsReached(tempo: nat, length: nat, n: nat)
    requires tempo > 0 && length > 0 && n > 0 && n * (tempo * length) == 240000
    ensures FloatMs(tempo, length) >= n
  {
    hide Round, LosesLittle;
    var a, b := 60000.0 / tempo as real, 4.0 / length as real;
    Cofactors(tempo, length, n);
    QuarterIsExact(tempo, n * length);
    DivisorLosesLittle(length, n * tempo);
    LittleMeans(length);
    RoundIsClose(b);
    ExactProduct(a, b, tempo, length, n);
    var factor := Round(b);
    var x := a * factor;
    Reaches(a, b, factor, n);
    SmallFactor(n, tempo * length);
    RoundReaches(n, x);
    assert FloatMs(tempo, length) == Round(x).Floor;
  }

  lemma Cofactors(tempo: nat, length: nat, n: nat)
    requires n * (tempo * length) == 240000
    ensures tempo * (n * length) == 240000 && length * (n * tempo) == 240000
  {
    assert tempo * (n * length) == n * (tempo * length);
    assert length * (n * tempo) == n * (tempo * length);
  }

  lemma SmallFactor(n: nat, d: nat)
    requires n * d == 240000
    ensures n <= 240000
  {
    if d > 0 { assert n * d >= n; }
  }

  lemma LittleMeans(length: nat)
    requires length > 0 && LosesLittle(length)
    ensures (2.0 * UNIT - 1.0) * (4.0 / length as real) <= (2.0 * UNIT) * Round(4.0 / length as real)
  {
    hide Round;
  }

  lemma ExactProduct(a: real, b: real, tempo: nat, length: nat, n: nat)
    requires tempo > 0 && length > 0 && n * (tempo * length) == 240000
    requires a == 60000.0 / tempo as real && b == 4.0 / length as real
    ensures a * b == n as real
  {
  }

  lemma Reaches(a: real, b: real, rounded: real, n: nat)
    requires a > 0.0 && b > 0.0 && n > 0 && a * b == n as real
    requires (2.0 * UNIT - 1.0) * b <= (2.0 * UNIT) * rounded
    requires UNIT * rounded <= (UNIT + 1.0) * b
    ensures a * rounded > 0.0 && a * rounded <= 1.25 * n as real
    ensures (2.0 * UNIT - 1.0) * n as real <= (2.0 * UNIT) * (a * rounded)
  {
  }

  /** A rounding changes a number by a factor between these two, and by much less. */
  const LOW: real := 0.999999999
  const HIGH: real := 1.000000001

  lemma RoundedWithin(x: real)
    requires x > 0.0
    ensures Rounded(x) > 0.0 && LOW * x <= Rounded(x) <= HIGH * x
  {
    RoundIsClose(x);
  }

  lemma Within(x: real, y: real, factor: real, product: real)
    requires factor > 0.0 && x * factor == product && LOW * x <= y <= HIGH * x
    ensures LOW * product <= y * factor <= HIGH * product
  {
    assert (LOW * x) * factor == LOW * product;
    assert (HIGH * x) * factor == HIGH * product;
    Cancel(LOW * x, y, factor);
    Cancel(y, HIGH * x, factor);
  }

  lemma TimesWithin(a: real, b: real)
    requires LOW * 60000.0 <= a <= HIGH * 60000.0 && LOW * 4.0 <= b <= HIGH * 4.0
    ensures LOW * LOW * 240000.0 <= a * b <= HIGH * HIGH * 240000.0
  {
    Grows(LOW * 60000.0, LOW * 4.0, a, b);
    Grows(a, b, HIGH * 60000.0, HIGH * 4.0);
  }

  lemma Grows(a: real, b: real, c: real, d: real)
    requires 0.0 < a <= c && 0.0 < b <= d
    ensures a * b <= c * d
  {
    Cancel(a, c, b);
    assert c * b <= c * d by { Cancel(b, d, c); }
  }

  /** Three roundings change the product by less than half a part in 240000. */
  lemma CloseProduct(a: real, b: real, a': real, b': real, x: real, p: real, t: real, l: real, factor: real)
    requires x == a' * b' && factor == t * l && t > 0.0 && l > 0.0 && a * t == 60000.0 && b * l == 4.0
    requires LOW * a <= a' <= HIGH * a && LOW * b <= b' <= HIGH * b
    requires LOW * x <= p <= HIGH * x
    ensures 239999.5 < p * factor < 240000.5
  {
    Within(a, a', t, 60000.0);
    Within(b, b', l, 4.0);
    Rearranged(a', b', t, l, x, factor);
    Composed(a' * t, b' * l, x, p, factor);
  }

  lemma Composed(a: real, b: real, x: real, p: real, factor: real)
    requires LOW * 60000.0 <= a <= HIGH * 60000.0 && LOW * 4.0 <= b <= HIGH * 4.0
    requires factor > 0.0 && x * factor == a * b && LOW * x <= p <= HIGH * x
    ensures 239999.5 < p * factor < 240000.5
  {
    TimesWithin(a, b);
    Within(x, p, factor, a * b);
    Bounds(a * b, p * factor);
  }

  lemma Bounds(product: real, y: real)
    requires LOW * LOW * 240000.0 <= product <= HIGH * HIGH * 240000.0
    requires LOW * product <= y <= HIGH * product
    ensures 239999.5 < y < 240000.5
  {
  }

  lemma Rearranged(a: real, b: real, t: real, l: real, x: real, factor: real)
    requires t > 0.0 && l > 0.0 && x == a * b && factor == t * l
    ensures factor > 0.0 && x * factor == (a * t) * (b * l)
  {
  }

  lemma FloorOf(p: real, d: nat, n: nat, factor: real)
    requires d > 0 && n == 240000 / d && factor == d as real && 239999.5 < p * factor < 240000.5
    ensures p.Floor == n || (p.Floor == n - 1 && n * d == 240000)
  {
    FloorTimes(p, p.Floor, d, factor);
    WholeBounds(p.Floor * d, (p.Floor + 1) * d, p * factor);
    QuotientOf(d, n, p.Floor);
  }

  lemma WholeBounds(low: int, high: int, y: real)
    requires low as real <= y < high as real && 239999.5 < y < 240000.5
    ensures low <= 240000 <= high
  {
  }

  lemma FloorTimes(p: real, f: int, d: int, factor: real)
    requires f as real <= p < (f + 1) as real && d > 0 && factor == d as real
    ensures (f * d) as real <= p * factor < ((f + 1) * d) as real
  {
    RealTimes(f, d);
    RealTimes(f + 1, d);
    Cancel(f as real, p, factor);
    Cancel((f + 1) as real, p, factor);
  }

  lemma RealTimes(f: int, d: int)
    ensures (f * d) as real == f as real * d as real
  {
  }

  lemma QuotientOf(d: nat, n: nat, f: int)
    requires d > 0 && n == 240000 / d && f * d <= 240000 <= (f + 1) * d
    ensures f == n || (f == n - 1 && n * d == 240000)
  {
    assert n * d <= 240000 < (n + 1) * d;
    WholeCancel(n + 1, f, d);
    WholeCancel(n, f + 1, d);
  }

  lemma WholeCancel(a: int, b: int, factor: nat)
    requires factor > 0
    ensures a * factor <= b * factor <==> a <= b
  {
    assert b * factor - a * factor == (b - a) * factor;
    if a <= b {
      assert (b - a) * factor >= 0;
    } else {
      assert (a - b) * factor > 0;
    }
  }

  lemma FloatParts(tempo: nat, length: nat)
    requires tempo > 0 && length > 0
    ensures var a, b := 60000.0 / tempo as real, 4.0 / length as real;
      && a > 0.0 && b > 0.0 && a * tempo as real == 60000.0 && b * length as real == 4.0
      && Product(Rounded(a), Rounded(b)).Floor == FloatMs(tempo, length)
  {
  }

  lemma Positive(a: real, b: real)
    requires a > 0.0 && b > 0.0
    ensures a * b > 0.0 && Product(a, b) == Rounded(a * b)
  {
    hide Round;
  }

  /** The floating-point result is the exact quotient, rounded down, for every tempo and length. */
  lemma TimingIsExact(tempo: nat, length: nat)
    requires tempo > 0 && length > 0
    ensures tempo * length > 0 && FloatMs(tempo, length) == 240000 / (tempo * length)
  {
    hide Round, Rounded, Product, FloatMs;
    var a, b, d := 60000.0 / tempo as real, 4.0 / length as real, tempo * length;
    assert d > 0;
    FloatParts(tempo, length);
    RoundedWithin(a);
    RoundedWithin(b);
    var a', b' := Rounded(a), Rounded(b);
    Positive(a', b');
    RoundedWithin(a' * b');
    var p, factor := Rounded(a' * b'), d as real;
    RealTimes(tempo, length);
    CloseProduct(a, b, a', b', a' * b', p, tempo as real, length as real, factor);
    var n := 240000 / d;
    FloorOf(p, d, n, factor);
    if n > 0 && n * d == 240000 { WholeIsReached(tempo, length, n); }
  }
}
