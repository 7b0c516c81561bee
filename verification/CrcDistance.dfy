/** Two flipped bits: the checksum of server/drv_serial_hm310t.cpp misses them
    exactly when their distance is a multiple of 32767, the order of x modulo
    the generator x^16 + x^15 + x^2 + 1.

    The registers are the polynomials of degree below 16, with the coefficient
    of x^15 in the least significant bit, and a step multiplies by x. */
module CrcDistance {
  import opened CrcRegister

  const ORDER := 32767

  // The polynomial 1, and the powers of x.
  function One(): (r: Reg)
    ensures forall i :: 0 <= i < 16 ==> r[i] == (i == 15)
  {
    Zeros(15) + [true]
  }

  function Power(n: nat): Reg { Steps(One(), n) }

  // ---------------------------------------------------------------------
  // Laws of repeated steps.

  lemma {:induction false} StepsAdd(r: Reg, m: nat, n: nat)
    ensures Steps(r, m + n) == Steps(Steps(r, m), n)
    decreases m
  {
    hide Step;
    if m > 0 {
      StepsAdd(Step(r), m - 1, n);
    }
  }

  lemma StepsLast(r: Reg, n: nat)
    ensures Steps(r, n + 1) == Step(Steps(r, n)) == Steps(Step(r), n)
  {
    hide Step;
    StepsAdd(r, n, 1);
    StepsOnce(Steps(r, n), 1);
  }

  lemma {:induction false} StepsLinear(r: Reg, t: Reg, n: nat)
    ensures Steps(Xor(r, t), n) == Xor(Steps(r, n), Steps(t, n))
    decreases n
  {
    hide Step;
    if n > 0 {
      StepLinear(r, t);
      StepsLinear(Step(r), Step(t), n - 1);
    }
  }

  lemma PowerAdd(m: nat, n: nat)
    ensures Power(m + n) == Steps(Power(m), n)
  {
    StepsAdd(One(), m, n);
  }

  // ---------------------------------------------------------------------
  // Multiplication, from the highest coefficient of r on.

  function Horner(p: Reg, b: bool, s: Reg): Reg {
    if b then Xor(Step(p), s) else Step(p)
  }

  function Product(r: Reg, s: Reg, k: nat): Reg
    requires k <= 16
  {
    if k == 0 then Zeros(16) else Horner(Product(r, s, k - 1), r[k - 1], s)
  }

  // The leading k coefficients of r.
  function Leading(r: Reg, k: nat): (t: Reg)
    requires k <= 16
  {
    Zeros(16 - k) + r[..k]
  }

  lemma LeadingNext(r: Reg, k: nat)
    requires 0 < k <= 16
    ensures Leading(r, k) == Horner(Leading(r, k - 1), r[k - 1], One())
  {}

  lemma StepsHorner(p: Reg, b: bool, n: nat)
    ensures Steps(Horner(p, b, One()), n) == Horner(Steps(p, n), b, Power(n))
  {
    StepsLast(p, n);
    if b {
      StepsLinear(Step(p), One(), n);
    }
    hide Step, Steps;
  }

  lemma {:induction false} ProductSteps(r: Reg, n: nat, k: nat)
    requires k <= 16
    ensures Product(r, Power(n), k) == Steps(Leading(r, k), n)
    decreases k
  {
    hide *;
    if k == 0 {
      ProductNone(r, Power(n));
      StepsZero(n);
    } else {
      ProductSteps(r, n, k - 1);
      ProductNext(r, Power(n), k);
      LeadingNext(r, k);
      StepsHorner(Leading(r, k - 1), r[k - 1], n);
    }
  }

  lemma ProductNone(r: Reg, s: Reg)
    ensures Product(r, s, 0) == Zeros(16) == Leading(r, 0)
  {}

  lemma ProductNext(r: Reg, s: Reg, k: nat)
    requires 0 < k <= 16
    ensures Product(r, s, k) == Horner(Product(r, s, k - 1), r[k - 1], s)
  {}

  lemma PowerProduct(m: nat, n: nat)
    ensures Product(Power(m), Power(n), 16) == Power(m + n)
  {
    ProductSteps(Power(m), n, 16);
    assert Leading(Power(m), 16) == Power(m);
    PowerAdd(m, n);
  }

  // ---------------------------------------------------------------------
  // The same on machine words, for computing.

  function Odd(s: bv16): bool { s & 1 == 1 }

  function Half(s: bv16): bv16 { s >> 1 }

  function Sum(s: bv16, t: bv16): bv16 { s ^ t }

  function Bit(s: bv16, i: nat): bool
    decreases i
  {
    if i == 0 then Odd(s) else Bit(Half(s), i - 1)
  }

  function Unpack(s: bv16): (r: Reg)
    ensures forall i :: 0 <= i < 16 ==> r[i] == Bit(s, i)
  {
    seq(16, i requires 0 <= i < 16 => Bit(s, i))
  }

  function Next(p: bv16, b: bool, y: bv16): bv16 {
    var h := if Odd(p) then Sum(Half(p), 0xA001) else Half(p);
    if b then Sum(h, y) else h
  }

  // Four coefficients of x, from its lowest bit on.
  function Four(p: bv16, x: bv16, y: bv16): bv16 {
    Next(Next(Next(Next(p, x & 1 != 0, y), x & 2 != 0, y), x & 4 != 0, y), x & 8 != 0, y)
  }

  function Mul(x: bv16, y: bv16): bv16 {
    Four(Four(Four(Four(0, x, y), x >> 4, y), x >> 8, y), x >> 12, y)
  }

  lemma SumParts(s: bv16, t: bv16)
    ensures Odd(Sum(s, t)) == (Odd(s) != Odd(t))
    ensures Half(Sum(s, t)) == Sum(Half(s), Half(t))
    ensures Sum(s, 0) == s
  {}

  lemma {:induction false} BitSum(s: bv16, t: bv16, i: nat)
    ensures Bit(Sum(s, t), i) == (Bit(s, i) != Bit(t, i))
    decreases i
  {
    hide Odd, Half, Sum;
    SumParts(s, t);
    if i > 0 {
      BitSum(Half(s), Half(t), i - 1);
    }
  }

  lemma {:induction false} BitZero(i: nat)
    ensures !Bit(0, i)
    decreases i
  {
    assert !Odd(0) && Half(0) == 0;
    hide Odd, Half;
    if i > 0 {
      BitZero(i - 1);
    }
  }

  // Four bits at a time.
  lemma FourBits(s: bv16)
    ensures Bit(s, 0) == (s & 1 != 0) && Bit(s, 1) == (s & 2 != 0)
    ensures Bit(s, 2) == (s & 4 != 0) && Bit(s, 3) == (s & 8 != 0)
  {}

  lemma HalfFour(s: bv16)
    ensures Half(Half(Half(Half(s)))) == s >> 4
  {}

  lemma BitFour(s: bv16, i: nat)
    ensures Bit(s, i + 4) == Bit(s >> 4, i)
  {
    HalfFour(s);
    hide Half;
    assert Bit(s, i + 4) == Bit(Half(s), i + 3);
    assert Bit(Half(s), i + 3) == Bit(Half(Half(s)), i + 2);
    assert Bit(Half(Half(s)), i + 2) == Bit(Half(Half(Half(s))), i + 1);
    assert Bit(Half(Half(Half(s))), i + 1) == Bit(Half(Half(Half(Half(s)))), i);
  }

  lemma BitsAbove(s: bv16, i: nat)
    ensures Bit(s, i + 8) == Bit(s >> 8, i) && Bit(s, i + 12) == Bit(s >> 12, i) && !Bit(s, i + 16)
  {
    BitFour(s, i + 4);
    BitFour(s, i + 8);
    BitFour(s, i + 12);
    BitFour(s >> 4, i);
    BitFour(s >> 4, i + 4);
    BitFour(s >> 4, i + 8);
    BitFour(s >> 8, i);
    BitFour(s >> 8, i + 4);
    BitFour(s >> 12, i);
    BitZero(i);
    ShiftFours(s);
    hide Bit;
  }

  lemma ShiftFours(s: bv16)
    ensures (s >> 4) >> 4 == s >> 8 && (s >> 8) >> 4 == s >> 12 && (s >> 12) >> 4 == 0
  {}

  lemma UnpackTaps()
    ensures Unpack(0xA001) == Taps(true)
  {
    hide Bit;
    forall i: nat | i < 16
      ensures Unpack(0xA001)[i] == Taps(true)[i]
    {
      TapsNibbles();
      FourBits(0xA001);
      FourBits(0xA00);
      FourBits(0xA0);
      FourBits(0xA);
      BitFour(0xA001, i % 4);
      BitsAbove(0xA001, i % 4);
      assert i == i % 4 || i == i % 4 + 4 || i == i % 4 + 8 || i == i % 4 + 12;
    }
  }

  lemma TapsNibbles()
    ensures 0xA001 as bv16 >> 4 == 0xA00 && 0xA001 as bv16 >> 8 == 0xA0 && 0xA001 as bv16 >> 12 == 0xA
  {}

  lemma UnpackSum(s: bv16, t: bv16)
    ensures Unpack(Sum(s, t)) == Xor(Unpack(s), Unpack(t))
  {
    hide Bit, Sum;
    forall i: nat | i < 16
      ensures Unpack(Sum(s, t))[i] == Xor(Unpack(s), Unpack(t))[i]
    {
      BitSum(s, t, i);
    }
  }

  lemma UnpackHalf(s: bv16)
    ensures Unpack(Half(s)) == Unpack(s)[1..] + [false]
  {
    hide Odd, Half;
    BitsAbove(s, 0);
    forall i: nat | i < 16
      ensures Unpack(Half(s))[i] == (Unpack(s)[1..] + [false])[i]
    {
      assert Bit(s, i + 1) == Bit(Half(s), i);
    }
  }

  // A step of the product on words is one on registers.
  lemma UnpackNext(p: bv16, b: bool, y: bv16)
    ensures Unpack(Next(p, b, y)) == Horner(Unpack(p), b, Unpack(y))
  {
    hide Odd, Half, Sum, Unpack;
    var h := if Odd(p) then Sum(Half(p), 0xA001) else Half(p);
    UnpackHalf(p);
    UnpackTaps();
    UnpackSum(Half(p), 0xA001);
    UnpackSum(h, y);
    assert Unpack(p)[0] == Bit(p, 0) == Odd(p);
    StepIs(Unpack(p));
    hide Xor, Step, Bit;
  }

  lemma StepIs(r: Reg)
    ensures Step(r) == if r[0] then Xor(r[1..] + [false], Taps(true)) else r[1..] + [false]
  {}

  // Four steps of the product at once.
  lemma UnpackFour(r: Reg, k: nat, p: bv16, x: bv16, y: bv16)
    requires k + 4 <= 16 && Unpack(p) == Product(r, Unpack(y), k)
    requires forall i :: 0 <= i < 4 ==> Bit(x, i) == r[k + i]
    ensures Unpack(Four(p, x, y)) == Product(r, Unpack(y), k + 4)
  {
    FourBits(x);
    hide Next, Unpack, Horner, Bit;
    var p1 := Next(p, x & 1 != 0, y);
    var p2 := Next(p1, x & 2 != 0, y);
    var p3 := Next(p2, x & 4 != 0, y);
    UnpackNext(p, x & 1 != 0, y);
    UnpackNext(p1, x & 2 != 0, y);
    UnpackNext(p2, x & 4 != 0, y);
    UnpackNext(p3, x & 8 != 0, y);
    assert Unpack(p1) == Product(r, Unpack(y), k + 1) && r[k] == Bit(x, 0);
    assert Unpack(p2) == Product(r, Unpack(y), k + 2) && r[k + 1] == Bit(x, 1);
    assert Unpack(p3) == Product(r, Unpack(y), k + 3) && r[k + 2] == Bit(x, 2);
    assert r[k + 3] == Bit(x, 3);
  }

  lemma UnpackMul(x: bv16, y: bv16)
    ensures Unpack(Mul(x, y)) == Product(Unpack(x), Unpack(y), 16)
  {
    hide Four, Bit, Product;
    var r := Unpack(x);
    var x4, x8, x12 := x >> 4, x >> 8, x >> 12;
    forall i: nat | i < 4
      ensures Bit(x4, i) == r[i + 4] && Bit(x8, i) == r[i + 8] && Bit(x12, i) == r[i + 12]
    {
      BitFour(x, i);
      BitsAbove(x, i);
    }
    UnpackZero();
    ProductNone(r, Unpack(y));
    UnpackFour(r, 0, 0, x, y);
    UnpackFour(r, 4, Four(0, x, y), x4, y);
    UnpackFour(r, 8, Four(Four(0, x, y), x4, y), x8, y);
    UnpackFour(r, 12, Four(Four(Four(0, x, y), x4, y), x8, y), x12, y);
  }

  lemma UnpackZero()
    ensures Unpack(0) == Zeros(16)
  {
    hide Bit;
    forall i: nat | i < 16
      ensures Unpack(0)[i] == Zeros(16)[i]
    {
      BitZero(i);
    }
  }

  // ---------------------------------------------------------------------
  // Some powers of x.

  predicate IsPower(n: nat, s: bv16) { Power(n) == Unpack(s) }

  lemma Multiply(m: nat, s: bv16, n: nat, t: bv16, u: bv16)
    requires IsPower(m, s) && IsPower(n, t) && Mul(s, t) == u
    ensures IsPower(m + n, u)
  {
    hide *;
    UnpackMul(s, t);
    PowerProduct(m, n);
    IsPowerMeans(m, s);
    IsPowerMeans(n, t);
    IsPowerMeans(m + n, u);
  }

  lemma IsPowerMeans(n: nat, s: bv16)
    ensures IsPower(n, s) <==> Power(n) == Unpack(s)
  {}

  lemma PowerOne()
    ensures IsPower(1, 0x4000)
  {
    hide Step, Bit;
    StepsOnce(One(), 1);
    FourBits(0x4000);
    FourBits(0x400);
    FourBits(0x40);
    FourBits(0x4);
    OneNibbles();
    forall i: nat | i < 16
      ensures Power(1)[i] == Unpack(0x4000)[i]
    {
      StepAt(One(), i);
      BitFour(0x4000, i % 4);
      BitsAbove(0x4000, i % 4);
      assert i == i % 4 || i == i % 4 + 4 || i == i % 4 + 8 || i == i % 4 + 12;
    }
  }

  lemma OneNibbles()
    ensures 0x4000 as bv16 >> 4 == 0x400 && 0x4000 as bv16 >> 8 == 0x40 && 0x4000 as bv16 >> 12 == 0x4
  {}

  lemma Squares1()
    ensures IsPower(2, 0x2000)
    ensures IsPower(4, 0x0800)
    ensures IsPower(8, 0x0080)
    ensures IsPower(16, 0xA001)
    ensures IsPower(32, 0xE801)
  {
    PowerOne();
    hide IsPower;
    Multiply(1, 0x4000, 1, 0x4000, 0x2000);
    Multiply(2, 0x2000, 2, 0x2000, 0x0800);
    Multiply(4, 0x0800, 4, 0x0800, 0x0080);
    Multiply(8, 0x0080, 8, 0x0080, 0xA001);
    Multiply(16, 0xA001, 16, 0xA001, 0xE801);
  }

  lemma Squares2()
    ensures IsPower(64, 0xC881)
    ensures IsPower(128, 0x6080)
    ensures IsPower(256, 0x8801)
    ensures IsPower(512, 0xE081)
    ensures IsPower(1024, 0x6800)
  {
    Squares1();
    hide IsPower;
    Multiply(32, 0xE801, 32, 0xE801, 0xC881);
    Multiply(64, 0xC881, 64, 0xC881, 0x6080);
    Multiply(128, 0x6080, 128, 0x6080, 0x8801);
    Multiply(256, 0x8801, 256, 0x8801, 0xE081);
    Multiply(512, 0xE081, 512, 0xE081, 0x6800);
  }

  lemma Squares3()
    ensures IsPower(2048, 0x2880)
    ensures IsPower(4096, 0xA881)
    ensures IsPower(8192, 0x4880)
    ensures IsPower(16384, 0x8081)
    ensures IsPower(32768, 0x4000)
  {
    Squares2();
    hide IsPower;
    Multiply(1024, 0x6800, 1024, 0x6800, 0x2880);
    Multiply(2048, 0x2880, 2048, 0x2880, 0xA881);
    Multiply(4096, 0xA881, 4096, 0xA881, 0x4880);
    Multiply(8192, 0x4880, 8192, 0x4880, 0x8081);
    Multiply(16384, 0x8081, 16384, 0x8081, 0x4000);
  }

  lemma Cofactor151()
    ensures IsPower(217, 0x3E55)
    ensures IsPower(73, 0x3004)
  {
    PowerOne();
    Squares1();
    Squares2();
    hide IsPower;
    Multiply(64, 0xC881, 8, 0x0080, 0x6008);
    Multiply(72, 0x6008, 1, 0x4000, 0x3004);
    Multiply(128, 0x6080, 73, 0x3004, 0xD732);
    Multiply(201, 0xD732, 16, 0xA001, 0x3E55);
  }

  lemma Cofactor31()
    ensures IsPower(1057, 0xCE41)
  {
    PowerOne();
    Squares1();
    Squares2();
    hide IsPower;
    Multiply(1024, 0x6800, 32, 0xE801, 0xDC81);
    Multiply(1056, 0xDC81, 1, 0x4000, 0xCE41);
  }

  lemma Cofactor7()
    ensures IsPower(4681, 0x8C69)
  {
    Squares2();
    Squares3();
    Cofactor151();
    hide IsPower;
    Multiply(512, 0xE081, 73, 0x3004, 0x0F31);
    Multiply(4096, 0xA881, 585, 0x0F31, 0x8C69);
  }

  // ---------------------------------------------------------------------
  // The order of x.

  predicate Period(n: nat) { Power(n) == One() }

  lemma PeriodMore(m: nat, n: nat)
    requires Period(m)
    ensures Period(m + n) <==> Period(n)
  {
    PowerAdd(m, n);
  }

  lemma {:induction false} PeriodMultiple(m: nat, k: nat)
    requires Period(m)
    ensures Period(k * m)
  {
    hide Period;
    if k == 0 {
      PeriodNone();
    } else {
      PeriodMultiple(m, k - 1);
      PeriodMore(m, (k - 1) * m);
      assert k * m == m + (k - 1) * m;
    }
  }

  lemma PeriodNone()
    ensures Period(0)
  {
    StepsNone(One());
  }

  // The common divisor of two periods is a period.
  lemma {:induction false} CommonPeriod(m: nat, n: nat) returns (g: nat, k: nat, l: nat)
    requires Period(m) && Period(n) && m > 0
    ensures g > 0 && Period(g) && m == k * g && n == l * g
    decreases n
  {
    hide Period;
    if n == 0 {
      g, k, l := m, 1, 0;
    } else {
      var q, r := m / n, m % n;
      assert m == q * n + r;
      PeriodMultiple(n, q);
      PeriodMore(q * n, r);
      var l', k';
      g, l', k' := CommonPeriod(n, r);
      k, l := q * l' + k', l';
      Distribute(q, l', k', g);
    }
  }

  lemma Distribute(q: nat, l: nat, k: nat, g: nat)
    ensures q * (l * g) + k * g == (q * l + k) * g
  {}

  // 32767 is a period, and its three largest proper divisors are not.
  lemma OrderFacts()
    ensures Period(ORDER) && !Period(217) && !Period(1057) && !Period(4681)
  {
    PowerOne();
    Squares3();
    Cofactor151();
    Cofactor31();
    Cofactor7();
    FourBits(0x3E55);
    FourBits(0xCE41);
    FourBits(0x8C69);
    hide Bit;
    assert !One()[0] && Unpack(0x3E55)[0] && Unpack(0xCE41)[0] && Unpack(0x8C69)[0];
    StepsLast(One(), 0);
    StepsLast(One(), ORDER);
    StepsNone(One());
    hide Steps, Step;
    StepInjective(Power(ORDER), One());
  }

  // A base-14 digit, spelled out so that the cases are gone through.
  predicate Base14(a: nat) {
    || a == 0 || a == 1 || a == 2 || a == 3 || a == 4 || a == 5 || a == 6
    || a == 7 || a == 8 || a == 9 || a == 10 || a == 11 || a == 12 || a == 13
  }

  // The divisors of 32767 up to its square root.
  lemma SmallDivisor(e: nat, f: nat)
    requires 2 <= e <= 181 && e * f == ORDER
    ensures (e == 7 && f == 4681) || (e == 31 && f == 1057) || (e == 151 && f == 217)
  {
    var a, b := e / 14, e % 14;
    assert Base14(a) && Base14(b);
  }

  lemma NoProperPeriod(g: nat, l: nat)
    requires l >= 2 && l * g == ORDER
    ensures !Period(g)
  {
    OrderFacts();
    hide Period;
    if Period(g) {
      if l <= 181 {
        SmallDivisor(l, g);
      } else {
        BothLarge(l, g);
        if g == 1 {
          PeriodMultiple(g, 217);
        } else {
          assert g * l == ORDER && g != 0;
          SmallDivisor(g, l);
          PeriodMultiple(g, if g == 7 then 31 else 7);
        }
      }
    }
  }

  lemma BothLarge(l: nat, g: nat)
    requires l > 181 && l * g == ORDER
    ensures g <= 181
  {
    assert l * g == 182 * g + (l - 182) * g;
  }

  // The powers of x come back to 1 exactly at the multiples of 32767.
  lemma OrderIff(d: nat)
    ensures Period(d) <==> d % ORDER == 0
  {
    OrderFacts();
    hide Period;
    var q, r := d / ORDER, d % ORDER;
    PeriodMultiple(ORDER, q);
    PeriodMore(q * ORDER, r);
    if r == 0 {
      PeriodNone();
    } else if Period(r) {
      var g, k, l := CommonPeriod(r, ORDER);
      assert g <= r by {
        assert k >= 1;
        assert k * g >= g;
      }
      assert l >= 2;
      NoProperPeriod(g, l);
    }
  }

  // ---------------------------------------------------------------------
  // Two flipped bits.

  // v and w have the same length and differ at places i and j only.
  ghost predicate DifferAt(v: Bits, w: Bits, i: nat, j: nat) {
    && |v| == |w|
    && i < j < |v|
    && forall k :: 0 <= k < |v| ==> (v[k] != w[k] <==> k == i || k == j)
  }

  lemma {:induction false} FeedZeros(r: Reg, k: nat)
    ensures Feed(r, Zeros(k)) == Steps(r, k)
    decreases k
  {
    hide Step;
    if k > 0 {
      assert r[0 := r[0] != false] == r;
      assert Zeros(k)[1..] == Zeros(k - 1);
      FeedZeros(Step(r), k - 1);
    }
  }

  // Feeding a one to the register s.
  lemma FeedOne(s: Reg)
    ensures Feed(s, [true]) == Xor(Step(s), Power(16))
  {
    hide Step;
    var u: Reg := [true] + Zeros(15);
    assert s[0 := s[0] != true] == Xor(s, u);
    assert Feed(s, [true]) == Feed(Step(Xor(s, u)), []);
    StepLinear(s, u);
    PowerTop();
    PowerAdd(15, 1);
    StepsOnce(Power(15), 1);
    StepsNone(Step(Power(15)));
  }

  lemma PowerTop()
    ensures Power(15) == [true] + Zeros(15)
  {
    PowerUnit(15);
  }

  lemma {:induction false} PowerUnit(k: nat)
    requires k < 16
    ensures Power(k) == Zeros(15 - k) + [true] + Zeros(k)
  {
    hide Step;
    if k == 0 {
      StepsNone(One());
    } else {
      PowerUnit(k - 1);
      StepsLast(One(), k - 1);
      forall i: nat | i < 16
        ensures Power(k)[i] == (Zeros(15 - k) + [true] + Zeros(k))[i]
      {
        StepAt(Power(k - 1), i);
      }
    }
  }

  // The register after two ones at distance d: it is zero exactly when x^d
  // is 1, whatever zeros follow.
  lemma FeedPair(i: nat, d: nat, k: nat)
    requires d > 0
    ensures Feed(Zeros(16), Zeros(i) + ([true] + (Zeros(d - 1) + ([true] + Zeros(k))))) == Zeros(16) <==> Period(d)
  {
    hide Feed, Step, Power, Steps;
    var z: Reg := Zeros(16);
    FeedAppend(z, Zeros(i), [true] + (Zeros(d - 1) + ([true] + Zeros(k))));
    FeedZeros(z, i);
    StepsZero(i);
    FeedAppend(z, [true], Zeros(d - 1) + ([true] + Zeros(k)));
    FeedOne(z);
    StepsZero(1);
    StepsOnce(z, 1);
    StepsNone(Step(z));
    assert Xor(z, Power(16)) == Power(16);
    FeedAppend(Power(16), Zeros(d - 1), [true] + Zeros(k));
    FeedZeros(Power(16), d - 1);
    var s := Steps(Power(16), d - 1);
    FeedAppend(s, [true], Zeros(k));
    FeedOne(s);
    var t := Feed(s, [true]);
    FeedZeros(t, k);
    PairEnd(d, k);
  }

  lemma PairEnd(d: nat, k: nat)
    requires d > 0
    ensures Steps(Xor(Step(Steps(Power(16), d - 1)), Power(16)), k) == Zeros(16) <==> Period(d)
  {
    hide Step, Steps;
    var s := Steps(Power(16), d - 1);
    var t := Xor(Step(s), Power(16));
    StepsLast(Power(16), d - 1);
    assert Step(s) == Steps(Power(16), d);
    PowerAdd(16, d);
    PowerAdd(d, 16);
    assert Step(s) == Steps(Power(d), 16);
    if Steps(Power(d), 16) == Steps(One(), 16) {
      StepsInjective(Power(d), One(), 16);
    }
    XorZero(Step(s), Power(16));
    StepsZero(k);
    if Steps(t, k) == Zeros(16) {
      StepsInjective(t, Zeros(16), k);
    }
  }

  // Two messages of which exactly two bits differ, at any places, have
  // different checksums exactly when the distance of the bits is not a
  // multiple of 32767.
  lemma TwoFlipsIff(m: seq<byte>, n: seq<byte>, i: nat, j: nat)
    requires DifferAt(MessageBits(m), MessageBits(n), i, j)
    ensures Crc(m) != Crc(n) <==> (j - i) % ORDER != 0
  {
    hide Feed, MessageBits, Period, Crc;
    var v, w := MessageBits(m), MessageBits(n);
    var d, k := j - i, |v| - 1 - j;
    assert Xor(v, w) == Zeros(i) + ([true] + (Zeros(d - 1) + ([true] + Zeros(k))));
    FeedLinear(Ones(), Ones(), v, w);
    assert Xor(Ones(), Ones()) == Zeros(16);
    FeedPair(i, d, k);
    OrderIff(d);
    SameCrc(m, n);
    XorZero(Feed(Ones(), v), Feed(Ones(), w));
  }
}
