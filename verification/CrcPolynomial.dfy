/** The checksum as a remainder of polynomials over GF(2), the independent
    meaning of the shift register of the Modbus serial line.

    A polynomial is its coefficients, the highest power first.  The message is
    multiplied by x^16, its first 16 coefficients are complemented (the preset
    of the register), and the result is divided by x^16 + x^15 + x^2 + 1. */
module CrcPolynomial {
  import opened CrcRegister

  // x^16 + x^15 + x^2 + 1
  function Generator(): (g: Bits)
    ensures |g| == 17
    ensures forall i :: 0 <= i < 17 ==> g[i] == (16 - i in {16, 15, 2, 0})
  {
    seq(17, i => 16 - i in {16, 15, 2, 0})
  }

  function Scaled(b: bool): (g: Bits)
    ensures |g| == 17
    ensures forall i :: 0 <= i < 17 ==> g[i] == (b && Generator()[i])
  {
    if b then Generator() else Zeros(17)
  }

  // The product of q and the generator, by long multiplication.
  function Times(q: Bits): (p: Bits)
    ensures |p| == |q| + 16
  {
    if q == [] then Zeros(16)
    else Xor(Scaled(q[0]) + Zeros(|q| - 1), [false] + Times(q[1..]))
  }

  // d equals q times the generator plus r, where r has degree below 16.
  ghost predicate Divides(d: Bits, q: Bits, r: Reg) {
    |d| == |q| + 16 && d == Xor(Times(q), Zeros(|q|) + r)
  }

  ghost predicate IsRemainder(d: Bits, r: Reg) {
    exists q :: Divides(d, q, r)
  }

  // The coefficients of w times x^16 with r added to the leading 16.
  function Preset(r: Reg, w: Bits): (d: Bits)
    ensures |d| == |w| + 16
  {
    Xor(w + Zeros(16), r + Zeros(|w|))
  }

  // ---------------------------------------------------------------------

  lemma ShiftedXorAt(g: Bits, t: Bits, i: nat)
    requires |g| == 17 && |t| >= 16 && i < |t| + 1
    ensures Xor(g + Zeros(|t| - 16), [false] + t)[i] == ((i < 17 && g[i]) != (i > 0 && t[i - 1]))
  {}

  lemma TimesAt(q: Bits, i: nat)
    requires q != [] && i < |q| + 16
    ensures Times(q)[i] == ((i < 17 && Scaled(q[0])[i]) != (i > 0 && Times(q[1..])[i - 1]))
  {
    hide Scaled, Xor;
    ShiftedXorAt(Scaled(q[0]), Times(q[1..]), i);
  }

  // One digit of the long division: subtract the generator if the leading
  // coefficient is one, and go on with the rest.
  lemma PresetStep(r: Reg, w: Bits, i: nat)
    requires w != [] && i < |w| + 16
    ensures var b := r[0] != w[0];
            Preset(r, w)[i] ==
            ((i < 17 && Scaled(b)[i]) != (i > 0 && Preset(Step(r[0 := b]), w[1..])[i - 1]))
  {}

  lemma DivisionStep(r: Reg, w: Bits, q: Bits, f: Reg, i: nat)
    requires w != [] && i < |w| + 16
    requires Divides(Preset(Step(r[0 := r[0] != w[0]]), w[1..]), q, f)
    ensures Preset(r, w)[i] == Xor(Times([r[0] != w[0]] + q), Zeros(|q| + 1) + f)[i]
  {
    hide Step, Times, Preset, Scaled;
    var u := [r[0] != w[0]] + q;
    assert u[1..] == q;
    TimesAt(u, i);
    PresetStep(r, w, i);
    if i > 0 {
      assert (Zeros(|q| + 1) + f)[i] == (Zeros(|q|) + f)[i - 1];
    }
  }

  // The quotient digits are the bits that fall out of the register.
  lemma {:induction false} FeedDivides(r: Reg, w: Bits) returns (q: Bits)
    ensures |q| == |w| && Divides(Preset(r, w), q, Feed(r, w))
    decreases w
  {
    if w == [] {
      q := [];
      hide Step;
    } else {
      var b := r[0] != w[0];
      var q' := FeedDivides(Step(r[0 := b]), w[1..]);
      q := [b] + q';
      var f := Feed(r, w);
      assert f == Feed(Step(r[0 := b]), w[1..]);
      hide Step, Times, Preset, Feed;
      forall i: nat | i < |w| + 16
        ensures Preset(r, w)[i] == Xor(Times(q), Zeros(|q|) + f)[i]
      {
        DivisionStep(r, w, q', f, i);
      }
      assert Preset(r, w) == Xor(Times(q), Zeros(|q|) + f);
    }
  }

  lemma {:induction false} TimesLinear(q: Bits, u: Bits)
    requires |q| == |u|
    ensures Times(Xor(q, u)) == Xor(Times(q), Times(u))
  {
    if q != [] {
      var x := Xor(q, u);
      assert x[1..] == Xor(q[1..], u[1..]);
      TimesLinear(q[1..], u[1..]);
      hide Times;
      forall i: nat | i < |q| + 16
        ensures Times(x)[i] == Xor(Times(q), Times(u))[i]
      {
        TimesAt(x, i);
        TimesAt(q, i);
        TimesAt(u, i);
      }
    }
  }

  // A multiple of the generator of degree below 16 is zero.
  lemma {:induction false} SmallMultiple(q: Bits, r: Reg)
    requires Times(q) == Zeros(|q|) + r
    ensures r == Zeros(16)
  {
    if q != [] {
      TimesAt(q, 0);
      assert !q[0];
      forall i | 0 <= i < |q| + 15
        ensures Times(q[1..])[i] == (Zeros(|q| - 1) + r)[i]
      {
        TimesAt(q, i + 1);
        assert (Zeros(|q|) + r)[i + 1] == (Zeros(|q| - 1) + r)[i];
      }
      SmallMultiple(q[1..], r);
    }
  }

  lemma RemainderUnique(d: Bits, r: Reg, t: Reg)
    requires IsRemainder(d, r) && IsRemainder(d, t)
    ensures r == t
  {
    var q :| Divides(d, q, r);
    var u :| Divides(d, u, t);
    TimesLinear(q, u);
    var z := Zeros(|q|);
    forall i | 0 <= i < |d|
      ensures Xor(Times(q), Times(u))[i] == (z + Xor(r, t))[i]
    {
      assert Xor(Times(q), z + r)[i] == Xor(Times(u), z + t)[i];
    }
    SmallMultiple(Xor(q, u), Xor(r, t));
    XorZero(r, t);
  }

  // The word the driver computes is the remainder of the division, and no
  // other word is.
  lemma CrcIsTheRemainder(m: seq<byte>, r: word)
    ensures IsRemainder(Preset(Ones(), MessageBits(m)), WordBits(r)) <==> r == Crc(m)
  {
    var d := Preset(Ones(), MessageBits(m));
    var q := FeedDivides(Ones(), MessageBits(m));
    CrcBits(m);
    if IsRemainder(d, WordBits(r)) {
      RemainderUnique(d, WordBits(r), WordBits(Crc(m)));
      WordBitsInjective(r, Crc(m));
    }
  }
}
