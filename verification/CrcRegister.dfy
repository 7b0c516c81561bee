/** The CRC-16 of the Modbus serial line (server/drv_serial_hm310t.cpp).

    A message is a sequence of bytes; on the wire every byte goes least
    significant bit first.  The reference meaning of the checksum is a shift
    register fed one bit at a time (section 6.2.2 of "MODBUS over Serial Line
    Specification and Implementation Guide V1.02"), written here on sequences
    of bits; the code works on 16-bit words, exclusive-ors a whole byte in and
    then shifts eight times.

    Machine integers are numbers with their range; the bitwise operators of
    the code are defined through the bits of the numbers. */
module CrcRegister {

  type byte = x: nat | x < 0x100

  type word = x: nat | x < 0x1_0000

  // Bits in the order of transmission.
  type Bits = seq<bool>

  // A register: its least significant bit first.
  type Reg = r: Bits | |r| == 16 witness seq(16, _ => false)

  function Zeros(n: nat): (z: Bits)
    ensures |z| == n
  {
    seq(n, _ => false)
  }

  function Xor(v: Bits, w: Bits): (r: Bits)
    requires |v| == |w|
    ensures |r| == |v|
    ensures forall i :: 0 <= i < |v| ==> r[i] == (v[i] != w[i])
  {
    seq(|v|, i requires 0 <= i < |v| => v[i] != w[i])
  }

  function ToBits(x: nat, n: nat): (w: Bits)
    ensures |w| == n
    decreases n
  {
    if n == 0 then [] else [x % 2 == 1] + ToBits(x / 2, n - 1)
  }

  function FromBits(w: Bits): (x: nat)
    ensures x < Pow2(|w|)
  {
    if w == [] then 0 else (if w[0] then 1 else 0) + 2 * FromBits(w[1..])
  }

  function Pow2(n: nat): (p: nat)
    ensures p >= 1
  {
    if n == 0 then 1 else 2 * Pow2(n - 1)
  }

  // The preset value 0xA001 of the standard, bits 0, 13 and 15.
  function Taps(on: bool): (r: Reg)
    ensures forall i :: 0 <= i < 16 ==> r[i] == (on && (i == 0 || i == 13 || i == 15))
  {
    seq(16, i => on && (i == 0 || i == 13 || i == 15))
  }

  // Move every bit one place down; a one falling out brings the taps in.
  function Step(r: Reg): (t: Reg) {
    Xor(r[1..] + [false], Taps(r[0]))
  }

  function Steps(r: Reg, k: nat): (t: Reg)
    decreases k
  {
    if k == 0 then r else Steps(Step(r), k - 1)
  }

  function Feed(r: Reg, w: Bits): (t: Reg)
    decreases w
  {
    if w == [] then r else Feed(Step(r[0 := r[0] != w[0]]), w[1..])
  }

  function ByteBits(x: byte): (w: Bits)
    ensures |w| == 8
  {
    ToBits(x, 8)
  }

  function MessageBits(m: seq<byte>): (w: Bits)
    ensures |w| == 8 * |m|
  {
    if m == [] then [] else ByteBits(m[0]) + MessageBits(m[1..])
  }

  function Ones(): (r: Reg)
    ensures forall i :: 0 <= i < 16 ==> r[i]
  {
    seq(16, _ => true)
  }

  // The register, preset to ones, after all bits of the message.
  function Checksum(m: seq<byte>): Reg { Feed(Ones(), MessageBits(m)) }

  // ---------------------------------------------------------------------
  // Laws of the register.

  lemma StepAt(r: Reg, i: nat)
    requires i < 16
    ensures Step(r)[i] == ((i < 15 && r[i + 1]) != (r[0] && (i == 0 || i == 13 || i == 15)))
  {}

  lemma StepLinear(r: Reg, t: Reg)
    ensures Step(Xor(r, t)) == Xor(Step(r), Step(t))
  {}

  // The step permutes the registers.
  lemma StepInjective(r: Reg, t: Reg)
    requires Step(r) == Step(t)
    ensures r == t
  {
    hide Step;
    StepAt(r, 15);
    StepAt(t, 15);
    forall i | 1 <= i < 16
      ensures r[i] == t[i]
    {
      StepAt(r, i - 1);
      StepAt(t, i - 1);
    }
  }

  lemma StepsOnce(r: Reg, k: nat)
    requires k > 0
    ensures Steps(r, k) == Steps(Step(r), k - 1)
  {}

  lemma StepsNone(r: Reg)
    ensures Steps(r, 0) == r
  {}

  lemma {:induction false} StepsInjective(r: Reg, t: Reg, k: nat)
    requires Steps(r, k) == Steps(t, k)
    ensures r == t
    decreases k
  {
    hide Step;
    if k > 0 {
      StepsInjective(Step(r), Step(t), k - 1);
      StepInjective(r, t);
    }
  }

  lemma {:induction false} StepsZero(k: nat)
    ensures Steps(Zeros(16), k) == Zeros(16)
  {
    if k > 0 {
      assert Step(Zeros(16)) == Zeros(16);
      StepsZero(k - 1);
    }
  }

  // A word of at most 16 bits, widened to a register.
  function Widen(w: Bits): (r: Reg)
    requires |w| <= 16
    ensures forall i :: 0 <= i < 16 ==> r[i] == (i < |w| && w[i])
  {
    w + Zeros(16 - |w|)
  }

  // Feeding at most 16 bits is exclusive-oring them in and then shifting.
  lemma {:induction false} FeedAtOnce(r: Reg, w: Bits)
    requires |w| <= 16
    ensures Feed(r, w) == Steps(Xor(r, Widen(w)), |w|)
    decreases w
  {
    hide Step;
    if w == [] {
      assert Xor(r, Widen(w)) == r;
    } else {
      var t := Step(r[0 := r[0] != w[0]]);
      forall i: nat | i < 16
        ensures Step(Xor(r, Widen(w)))[i] == Xor(t, Widen(w[1..]))[i]
      {
        StepAt(Xor(r, Widen(w)), i);
        StepAt(r[0 := r[0] != w[0]], i);
      }
      assert Step(Xor(r, Widen(w))) == Xor(t, Widen(w[1..]));
      FeedAtOnce(t, w[1..]);
    }
  }

  lemma {:induction false} FeedAppend(r: Reg, v: Bits, w: Bits)
    ensures Feed(r, v + w) == Feed(Feed(r, v), w)
    decreases v
  {
    hide Step;
    if v == [] {
      assert v + w == w;
    } else {
      assert (v + w)[1..] == v[1..] + w;
      FeedAppend(Step(r[0 := r[0] != v[0]]), v[1..], w);
    }
  }

  // The affine law: differences of registers depend on differences only.
  lemma {:induction false} FeedLinear(r: Reg, t: Reg, v: Bits, w: Bits)
    requires |v| == |w|
    ensures Xor(Feed(r, v), Feed(t, w)) == Feed(Xor(r, t), Xor(v, w))
    decreases v
  {
    hide Step;
    if v != [] {
      var r', t' := r[0 := r[0] != v[0]], t[0 := t[0] != w[0]];
      assert Xor(v, w)[1..] == Xor(v[1..], w[1..]);
      assert Xor(r', t') == Xor(r, t)[0 := Xor(r, t)[0] != Xor(v, w)[0]];
      StepLinear(r', t');
      FeedLinear(Step(r'), Step(t'), v[1..], w[1..]);
    }
  }

  lemma {:induction false} FeedInjective(r: Reg, t: Reg, w: Bits)
    requires Feed(r, w) == Feed(t, w)
    ensures r == t
    decreases w
  {
    hide Step;
    if w != [] {
      var r', t' := r[0 := r[0] != w[0]], t[0 := t[0] != w[0]];
      FeedInjective(Step(r'), Step(t'), w[1..]);
      StepInjective(r', t');
      forall i | 0 <= i < 16
        ensures r[i] == t[i]
      {
        assert r'[i] == t'[i];
      }
    }
  }

  lemma {:induction false} MessageBitsAppend(m: seq<byte>, n: seq<byte>)
    ensures MessageBits(m + n) == MessageBits(m) + MessageBits(n)
  {
    if m == [] {
      assert m + n == n;
    } else {
      assert (m + n)[1..] == m[1..] + n;
      MessageBitsAppend(m[1..], n);
    }
  }

  lemma MessageBitsByte(x: byte)
    ensures MessageBits([x]) == ByteBits(x)
  {
    assert [x][1..] == [];
  }

  // ---------------------------------------------------------------------
  // Words and registers.

  lemma WordLimits()
    ensures Pow2(8) == 0x100 && Pow2(15) == 0x8000 && Pow2(16) == 0x1_0000
  {
    assert Pow2(3) == 8 && Pow2(5) == 32 && Pow2(7) == 128 && Pow2(9) == 512 && Pow2(11) == 2048 && Pow2(13) == 8192;
  }

  lemma {:induction false} ToFromBits(w: Bits)
    ensures ToBits(FromBits(w), |w|) == w
  {
    if w != [] {
      ToFromBits(w[1..]);
    }
  }

  lemma {:induction false} FromToBits(x: nat, n: nat)
    requires x < Pow2(n)
    ensures FromBits(ToBits(x, n)) == x
  {
    if n > 0 {
      FromToBits(x / 2, n - 1);
      assert ToBits(x, n)[1..] == ToBits(x / 2, n - 1);
    }
  }

  lemma {:induction false} ToBitsWiden(x: nat, k: nat, n: nat)
    requires x < Pow2(k)
    ensures ToBits(x, k + n) == ToBits(x, k) + Zeros(n)
    decreases k + n
  {
    if k > 0 {
      ToBitsWiden(x / 2, k - 1, n);
    } else if n > 0 {
      ToBitsWiden(0, 0, n - 1);
      assert Zeros(n) == [false] + Zeros(n - 1);
    }
  }

  // Two numbers side by side.
  lemma {:induction false} ToBitsShift(lo: nat, k: nat, hi: nat, n: nat)
    requires lo < Pow2(k)
    ensures ToBits(lo + Pow2(k) * hi, k + n) == ToBits(lo, k) + ToBits(hi, n)
    decreases k
  {
    if k > 0 {
      var p := Pow2(k - 1) * hi;
      assert Pow2(k) * hi == 2 * p;
      ToBitsShift(lo / 2, k - 1, hi, n);
      assert (lo + 2 * p) / 2 == lo / 2 + p && (lo + 2 * p) % 2 == lo % 2;
    }
  }

  lemma {:induction false} AllOnes(n: nat)
    ensures ToBits(Pow2(n) - 1, n) == seq(n, _ => true)
  {
    if n > 0 {
      AllOnes(n - 1);
      assert (Pow2(n) - 1) / 2 == Pow2(n - 1) - 1;
    }
  }

  function WordBits(s: word): (r: Reg) { ToBits(s, 16) }

  function Word(r: Reg): (s: word) { WordLimits(); FromBits(r) }

  // The bitwise operators of the code.
  function XorWord(s: word, t: word): word { Word(Xor(WordBits(s), WordBits(t))) }

  lemma WordRoundTrip(r: Reg)
    ensures WordBits(Word(r)) == r
  {
    ToFromBits(r);
  }

  lemma WordBitsInjective(s: word, t: word)
    requires WordBits(s) == WordBits(t)
    ensures s == t
  {
    WordLimits();
    FromToBits(s, 16);
    FromToBits(t, 16);
  }

  lemma ByteBitsInjective(x: byte, y: byte)
    requires ByteBits(x) == ByteBits(y)
    ensures x == y
  {
    WordLimits();
    FromToBits(x, 8);
    FromToBits(y, 8);
  }

  lemma XorWordBits(s: word, t: word)
    ensures WordBits(XorWord(s, t)) == Xor(WordBits(s), WordBits(t))
  {
    WordRoundTrip(Xor(WordBits(s), WordBits(t)));
  }

  lemma XorByteBits(s: word, x: byte)
    ensures WordBits(XorWord(s, x)) == Xor(WordBits(s), Widen(ByteBits(x)))
  {
    WordLimits();
    XorWordBits(s, x);
    ToBitsWiden(x, 8, 8);
  }

  lemma HalfBits(s: word)
    ensures WordBits(s / 2) == WordBits(s)[1..] + [false]
  {
    WordLimits();
    ToBitsWiden(s / 2, 15, 1);
    assert Zeros(1) == [false];
  }

  lemma TapsBits()
    ensures WordBits(0x0000) == Taps(false) && WordBits(0xA001) == Taps(true)
  {
    ToBitsWiden(0, 0, 16);
    ToBitsShift(0, 1, 0x5000, 15);
    ToBitsShift(0, 12, 5, 3);
    ToBitsWiden(0, 0, 12);
    assert Pow2(1) == 2 && Pow2(3) == 8 && Pow2(5) == 32 && Pow2(7) == 128 && Pow2(9) == 512 && Pow2(11) == 2048;
    assert ToBits(5, 3) == [true] + ToBits(2, 2) && ToBits(2, 2) == [false, true];
    assert WordBits(0xA001) == [true] + ToBits(0x5000, 15);
    assert ToBits(0x5000, 15) == Zeros(12) + [true, false, true];
    assert WordBits(0xA001) == [true] + (Zeros(12) + [true, false, true]);
  }

  // One turn of the inner loop is one step of the register.
  lemma ShiftIsStep(s: word)
    ensures s % 2 == 0 ==> WordBits(XorWord(s / 2, 0x0000)) == Step(WordBits(s))
    ensures s % 2 == 1 ==> WordBits(XorWord(s / 2, 0xA001)) == Step(WordBits(s))
  {
    HalfBits(s);
    TapsBits();
    XorWordBits(s / 2, 0x0000);
    XorWordBits(s / 2, 0xA001);
  }

  // The checksum as the 16-bit word the driver computes.
  function Crc(m: seq<byte>): word { Word(Checksum(m)) }

  function Low(c: word): byte { c % 0x100 }

  function High(c: word): byte { c / 0x100 }

  lemma FrameBits(lo: byte, hi: byte)
    ensures WordBits(lo + 0x100 * hi) == ByteBits(lo) + ByteBits(hi)
  {
    hide ToBits;
    WordLimits();
    ToBitsShift(lo, 8, hi, 8);
  }

  // The bit-serial meaning of one round of the outer loop.
  lemma ChecksumNext(m: seq<byte>, i: nat)
    requires i < |m|
    ensures Checksum(m[..i + 1]) == Steps(Xor(Checksum(m[..i]), Widen(ByteBits(m[i]))), 8)
  {
    assert m[..i + 1] == m[..i] + [m[i]];
    MessageBitsAppend(m[..i], [m[i]]);
    MessageBitsByte(m[i]);
    FeedAppend(Ones(), MessageBits(m[..i]), ByteBits(m[i]));
    FeedAtOnce(Checksum(m[..i]), ByteBits(m[i]));
  }

  lemma PresetBits()
    ensures WordBits(0xFFFF) == Checksum([])
  {
    WordLimits();
    AllOnes(16);
  }

  lemma CrcIs(m: seq<byte>, crc: word)
    requires WordBits(crc) == Checksum(m)
    ensures crc == Crc(m)
  {
    WordRoundTrip(Checksum(m));
    WordBitsInjective(crc, Crc(m));
  }

  // The table-driven double loop computes the bit-serial checksum.
  method ModbusCrc(buf: array<byte>, len: nat) returns (crc: word)
    requires len <= buf.Length
    ensures crc == Crc(buf[..len])
  {
    hide *;
    var table: seq<word> := [0x0000, 0xA001];
    crc := 0xFFFF;
    var x := 0;
    ghost var m := buf[..len];
    PresetBits();
    assert m[..0] == [];
    for i := 0 to len
      invariant WordBits(crc) == Checksum(m[..i])
    {
      XorByteBits(crc, buf[i]);
      crc := XorWord(crc, buf[i]);
      ghost var entry := WordBits(crc);
      for bit := 0 to 8
        invariant Steps(WordBits(crc), 8 - bit) == Steps(entry, 8)
      {
        ShiftIsStep(crc);
        StepsOnce(WordBits(crc), 8 - bit);
        x := crc % 2;
        crc := crc / 2;
        crc := XorWord(crc, table[x]);
      }
      StepsNone(WordBits(crc));
      ChecksumNext(m, i);
    }
    assert m[..len] == m;
    CrcIs(m, crc);
  }

  // ---------------------------------------------------------------------
  // What the checksum detects.

  // v and w have the same length and agree outside the 16 bits from k on.
  ghost predicate SameOutsideBurst(v: Bits, w: Bits, k: nat) {
    && |v| == |w|
    && forall i :: 0 <= i < |v| && v[i] != w[i] ==> k <= i < k + 16
  }

  lemma XorCancels(r: Reg, t: Reg, u: Reg)
    requires Xor(r, t) == Xor(r, u)
    ensures t == u
  {}

  lemma WindowInjective(r: Reg, v: Bits, w: Bits)
    requires |v| == |w| <= 16 && Feed(r, v) == Feed(r, w)
    ensures v == w
  {
    FeedAtOnce(r, v);
    FeedAtOnce(r, w);
    StepsInjective(Xor(r, Widen(v)), Xor(r, Widen(w)), |v|);
    XorCancels(r, Widen(v), Widen(w));
    assert v == Widen(v)[..|v|] && w == Widen(w)[..|w|];
  }

  lemma BurstChangesFeed(r: Reg, v: Bits, w: Bits, k: nat)
    requires SameOutsideBurst(v, w, k) && Feed(r, v) == Feed(r, w)
    ensures v == w
  {
    hide Feed, Step;
    var lo := if k < |v| then k else |v|;
    var hi := if k + 16 < |v| then k + 16 else |v|;
    assert v[..lo] == w[..lo] && v[hi..] == w[hi..];
    assert v == v[..lo] + (v[lo..hi] + v[hi..]);
    assert w == w[..lo] + (w[lo..hi] + w[hi..]);
    var t := Feed(r, v[..lo]);
    FeedAppend(r, v[..lo], v[lo..hi] + v[hi..]);
    FeedAppend(r, w[..lo], w[lo..hi] + w[hi..]);
    FeedAppend(t, v[lo..hi], v[hi..]);
    FeedAppend(t, w[lo..hi], w[hi..]);
    FeedInjective(Feed(t, v[lo..hi]), Feed(t, w[lo..hi]), v[hi..]);
    WindowInjective(t, v[lo..hi], w[lo..hi]);
  }

  lemma SameParts(a: Bits, b: Bits, c: Bits, d: Bits)
    requires |a| == |c| && a + b == c + d
    ensures a == c && b == d
  {
    assert a == (a + b)[..|a|] && c == (c + d)[..|a|];
    assert b == (a + b)[|a|..] && d == (c + d)[|a|..];
  }

  lemma {:induction false} MessageBitsInjective(m: seq<byte>, n: seq<byte>)
    requires MessageBits(m) == MessageBits(n)
    ensures m == n
  {
    if m != [] {
      SameParts(ByteBits(m[0]), MessageBits(m[1..]), ByteBits(n[0]), MessageBits(n[1..]));
      ByteBitsInjective(m[0], n[0]);
      hide ByteBits;
      MessageBitsInjective(m[1..], n[1..]);
      assert m == [m[0]] + m[1..] && n == [n[0]] + n[1..];
    }
  }

  lemma SameCrc(m: seq<byte>, n: seq<byte>)
    ensures Crc(m) == Crc(n) <==> Checksum(m) == Checksum(n)
  {
    WordRoundTrip(Checksum(m));
    WordRoundTrip(Checksum(n));
  }

  lemma ZeroBits()
    ensures WordBits(0) == Zeros(16)
  {
    ToBitsWiden(0, 0, 16);
  }

  lemma ZeroCrc(m: seq<byte>)
    ensures Crc(m) == 0 <==> Checksum(m) == Zeros(16)
  {
    WordRoundTrip(Checksum(m));
    ZeroBits();
    hide Word, WordBits;
    if Checksum(m) == Zeros(16) {
      WordBitsInjective(Crc(m), 0);
    }
  }

  // Two different messages that differ only inside some window of 16
  // consecutive bits never share a checksum.
  lemma BurstDetected(m: seq<byte>, n: seq<byte>, k: nat)
    requires m != n && SameOutsideBurst(MessageBits(m), MessageBits(n), k)
    ensures Crc(m) != Crc(n)
  {
    SameCrc(m, n);
    if Crc(m) == Crc(n) {
      BurstChangesFeed(Ones(), MessageBits(m), MessageBits(n), k);
      MessageBitsInjective(m, n);
    }
  }

  lemma ChecksumTwoMore(m: seq<byte>, lo: byte, hi: byte)
    ensures Checksum(m + [lo, hi]) == Steps(Xor(Checksum(m), ByteBits(lo) + ByteBits(hi)), 16)
  {
    var w := ByteBits(lo) + ByteBits(hi);
    assert [lo] + [hi] == [lo, hi];
    MessageBitsAppend(m, [lo, hi]);
    MessageBitsAppend([lo], [hi]);
    MessageBitsByte(lo);
    MessageBitsByte(hi);
    FeedAppend(Ones(), MessageBits(m), w);
    FeedAtOnce(Checksum(m), w);
    hide ByteBits, Step, Steps, Feed;
    assert Widen(w) == w;
  }

  lemma XorZero(r: Reg, t: Reg)
    ensures Xor(r, t) == Zeros(16) <==> r == t
  {}

  lemma SameBytes(lo: byte, hi: byte, c: word)
    ensures ByteBits(lo) + ByteBits(hi) == WordBits(c) <==> lo == Low(c) && hi == High(c)
  {
    hide ByteBits, ToBits, WordBits;
    FrameBits(Low(c), High(c));
    FrameBits(lo, hi);
    if ByteBits(lo) + ByteBits(hi) == WordBits(c) {
      WordBitsInjective(lo + 0x100 * hi, c);
    }
  }

  // A message followed by two bytes has residue 0 exactly when these bytes
  // are the low and then the high byte of its checksum.
  lemma ResidueIff(m: seq<byte>, lo: byte, hi: byte)
    ensures Crc(m + [lo, hi]) == 0 <==> lo == Low(Crc(m)) && hi == High(Crc(m))
  {
    hide ByteBits, Step, Steps, Feed, MessageBits, ToBits, FromBits, WordBits;
    var r := Checksum(m);
    var w := ByteBits(lo) + ByteBits(hi);
    ZeroCrc(m + [lo, hi]);
    ChecksumTwoMore(m, lo, hi);
    StepsZero(16);
    if Steps(Xor(r, w), 16) == Zeros(16) {
      StepsInjective(Xor(r, w), Zeros(16), 16);
    }
    XorZero(r, w);
    WordRoundTrip(r);
    SameBytes(lo, hi, Crc(m));
  }

  // ---------------------------------------------------------------------
  // Parity.

  function Parity(w: Bits): bool {
    if w == [] then false else w[0] != Parity(w[1..])
  }

  lemma {:induction false} XorParity(v: Bits, w: Bits)
    requires |v| == |w|
    ensures Parity(Xor(v, w)) == (Parity(v) != Parity(w))
  {
    if v != [] {
      assert Xor(v, w)[1..] == Xor(v[1..], w[1..]);
      XorParity(v[1..], w[1..]);
    }
  }

  lemma {:induction false} AppendParity(v: Bits, w: Bits)
    ensures Parity(v + w) == (Parity(v) != Parity(w))
  {
    if v == [] {
      assert v + w == w;
    } else {
      assert (v + w)[1..] == v[1..] + w;
      AppendParity(v[1..], w);
    }
  }

  lemma {:induction false} ZerosParity(n: nat)
    ensures !Parity(Zeros(n))
  {
    if n > 0 {
      assert Zeros(n)[1..] == Zeros(n - 1);
      ZerosParity(n - 1);
    }
  }

  lemma TapsParity(on: bool)
    ensures Parity(Taps(on)) == on
  {
    if on {
      assert Taps(true) == [true] + (Zeros(12) + ([true] + ([false] + [true])));
      AppendParity([true], Zeros(12) + ([true] + ([false] + [true])));
      AppendParity(Zeros(12), [true] + ([false] + [true]));
      AppendParity([true], [false] + [true]);
      AppendParity([false], [true]);
      ZerosParity(12);
      assert Parity([true]) && !Parity([false]);
    } else {
      assert Taps(false) == Zeros(16);
      ZerosParity(16);
    }
  }

  lemma StepParity(r: Reg)
    ensures Parity(Step(r)) == Parity(r)
  {
    XorParity(r[1..] + [false], Taps(r[0]));
    AppendParity(r[1..], [false]);
    assert [false][1..] == [];
    TapsParity(r[0]);
  }

  lemma {:induction false} FeedParity(r: Reg, w: Bits)
    ensures Parity(Feed(r, w)) == (Parity(r) != Parity(w))
    decreases w
  {
    if w != [] {
      var r' := r[0 := r[0] != w[0]];
      assert r'[1..] == r[1..];
      StepParity(r');
      FeedParity(Step(r'), w[1..]);
    }
  }

  lemma CrcBits(m: seq<byte>)
    ensures WordBits(Crc(m)) == Feed(Ones(), MessageBits(m))
  {
    WordRoundTrip(Checksum(m));
  }

  lemma OnesParity()
    ensures !Parity(Ones())
  {
    var h := Ones()[..8];
    assert Ones() == h + h;
    AppendParity(h, h);
  }

  // The exclusive-or of the checksum's bits is that of all message bits.
  lemma CrcParity(m: seq<byte>)
    ensures Parity(WordBits(Crc(m))) == Parity(MessageBits(m))
  {
    hide Crc, WordBits, MessageBits, Parity, Feed;
    CrcBits(m);
    FeedParity(Ones(), MessageBits(m));
    OnesParity();
  }

  // A message with its checksum appended has even parity.
  lemma FrameParity(m: seq<byte>)
    ensures !Parity(MessageBits(m + [Low(Crc(m)), High(Crc(m))]))
  {
    var f := m + [Low(Crc(m)), High(Crc(m))];
    ResidueIff(m, Low(Crc(m)), High(Crc(m)));
    CrcParity(f);
    ZeroBits();
    ZerosParity(16);
  }

  // An odd number of flipped bits, anywhere in a frame of residue 0, leaves
  // a residue that is not 0.
  lemma OddFlipsDetected(sent: seq<byte>, received: seq<byte>)
    requires |sent| == |received| && Crc(sent) == 0
    requires Parity(Xor(MessageBits(sent), MessageBits(received)))
    ensures Crc(received) != 0
  {
    CrcParity(sent);
    CrcParity(received);
    XorParity(MessageBits(sent), MessageBits(received));
  }
}
