/** CRC-16/CCITT by its definition: long division of bit strings by x^16 + x^12 + x^5 + 1.
    Polynomials over GF(2) are sequences of coefficients, highest power first.
  */
module CrcDivision {

  function Zeros(n: nat): (r: seq<bool>) { seq(n, _ => false) }

  function Xor(a: seq<bool>, b: seq<bool>): (r: seq<bool>)
    requires |a| == |b|
    ensures |r| == |a| && forall i :: 0 <= i < |a| ==> r[i] == (a[i] != b[i])
  {
    seq(|a|, i requires 0 <= i < |a| => a[i] != b[i])
  }

  /** `a` added to the leading coefficients of `p`. */
  function XorHead(a: seq<bool>, p: seq<bool>): (r: seq<bool>)
    requires |a| <= |p|
    ensures |r| == |p| && forall i :: 0 <= i < |p| ==> r[i] == if i < |a| then a[i] != p[i] else p[i]
  {
    Xor(a, p[..|a|]) + p[|a|..]
  }

  /** The sixteen lower coefficients of the generator x^16 + x^12 + x^5 + 1. */
  const TAIL: seq<bool> := [
    false, false, false, true, false, false, false, false,
    false, false, true, false, false, false, false, true
  ]

  const GENERATOR: seq<bool> := [true] + TAIL

  /** Remainder of `p` modulo the generator: subtract it whenever the leading coefficient is set. */
  function Remainder(p: seq<bool>): seq<bool>
    requires |p| >= 16
    decreases |p|
  {
    if |p| == 16 then p
    else if p[0] then Remainder(XorHead(GENERATOR, p)[1..])
    else Remainder(p[1..])
  }

  // ---------- The shift register that computes it ----------

  /** A register of sixteen coefficients moves up one place, reduced by the generator. */
  function Shift(r: seq<bool>): (s: seq<bool>)
    requires |r| == 16
    ensures |s| == 16
  {
    var up := r[1..] + [false];
    if r[0] then Xor(up, TAIL) else up
  }

  /** Feeds one message bit into the register. */
  function Feed(r: seq<bool>, bit: bool): (s: seq<bool>)
    requires |r| == 16
    ensures |s| == 16
  {
    Shift([r[0] != bit] + r[1..])
  }

  function Register(r: seq<bool>, m: seq<bool>): (s: seq<bool>)
    requires |r| == 16
    ensures |s| == 16
    decreases |m|
  {
    if m == [] then r else Register(Feed(r, m[0]), m[1..])
  }

  lemma {:induction false} RegisterAppend(r: seq<bool>, m: seq<bool>, n: seq<bool>)
    requires |r| == 16
    ensures Register(r, m + n) == Register(Register(r, m), n)
    decreases |m|
  {
    if m == [] {
      assert m + n == n;
    } else {
      assert (m + n)[1..] == m[1..] + n;
      RegisterAppend(Feed(r, m[0]), m[1..], n);
    }
  }

  /** One subtraction of the long division is one shift of the register. */
  lemma DivisionStep(r: seq<bool>, p: seq<bool>)
    requires |r| == 16 < |p|
    ensures
      var q := XorHead(r, p);
      XorHead(Feed(r, p[0]), p[1..]) == if q[0] then XorHead(GENERATOR, q)[1..] else q[1..]
  {
    var q := XorHead(r, p);
    var left := XorHead(Feed(r, p[0]), p[1..]);
    var right := if q[0] then XorHead(GENERATOR, q)[1..] else q[1..];
    forall k | 0 <= k < |left| ensures left[k] == right[k] {
      if k < 16 {
        var up := (if k < 15 then r[k + 1] else false);
        assert Feed(r, p[0])[k] == if q[0] then up != TAIL[k] else up;
        assert GENERATOR[k + 1] == TAIL[k];
      }
    }
    assert left == right;
  }

  /** Dividing the message followed by sixteen zeros, with the initial value added to its head,
      leaves what the register holds after the message. */
  lemma {:induction false} RegisterIsLongDivision(r: seq<bool>, m: seq<bool>)
    requires |r| == 16
    ensures |m + Zeros(16)| >= 16
    ensures Remainder(XorHead(r, m + Zeros(16))) == Register(r, m)
    decreases |m|
  {
    var p := m + Zeros(16);
    if m == [] {
      assert XorHead(r, p) == r;
    } else {
      RegisterIsLongDivision(Feed(r, m[0]), m[1..]);
      assert m[1..] + Zeros(16) == p[1..];
      DivisionStep(r, p);
    }
  }

  // ---------- Linearity ----------

  lemma FeedLinear(r: seq<bool>, s: seq<bool>, x: bool, y: bool)
    requires |r| == |s| == 16
    ensures Feed(Xor(r, s), x != y) == Xor(Feed(r, x), Feed(s, y))
  {
    var left, right := Feed(Xor(r, s), x != y), Xor(Feed(r, x), Feed(s, y));
    forall k | 0 <= k < 16 ensures left[k] == right[k] {
      var u := k < 15 && r[k + 1];
      var v := k < 15 && s[k + 1];
      assert Feed(r, x)[k] == ((r[0] != x && TAIL[k]) != u);
      assert Feed(s, y)[k] == ((s[0] != y && TAIL[k]) != v);
    }
  }

  lemma {:induction false} RegisterLinear(r: seq<bool>, s: seq<bool>, m: seq<bool>, n: seq<bool>)
    requires |r| == |s| == 16 && |m| == |n|
    ensures Register(Xor(r, s), Xor(m, n)) == Xor(Register(r, m), Register(s, n))
    decreases |m|
  {
    if m != [] {
      FeedLinear(r, s, m[0], n[0]);
      assert Xor(m, n)[1..] == Xor(m[1..], n[1..]);
      RegisterLinear(Feed(r, m[0]), Feed(s, n[0]), m[1..], n[1..]);
    }
  }

  /** A register fed with its own leading bits is used up. */
  lemma {:induction false} Cancel(w: seq<bool>, n: nat)
    requires |w| + n == 16
    ensures Register(w + Zeros(n), w) == Zeros(16)
    decreases |w|
  {
    if w == [] {
      assert w + Zeros(n) == Zeros(16);
    } else {
      var r := w + Zeros(n);
      assert Feed(r, w[0]) == w[1..] + Zeros(n + 1);
      Cancel(w[1..], n + 1);
    }
  }

  /** Up to sixteen message bits may be added to the register beforehand. */
  lemma Absorb(r: seq<bool>, w: seq<bool>)
    requires |r| == 16 && |w| <= 16
    ensures Register(r, w) == Register(XorHead(w, r), Zeros(|w|))
  {
    var own := w + Zeros(16 - |w|);
    Cancel(w, 16 - |w|);
    RegisterLinear(r, own, w, w);
    XorPadded(r, w);
    XorSelf(w);
    XorZeros(Register(r, w));
  }

  lemma XorSelf(w: seq<bool>)
    ensures Xor(w, w) == Zeros(|w|)
  {}

  lemma XorZeros(w: seq<bool>)
    ensures Xor(w, Zeros(|w|)) == w
  {}

  lemma XorPadded(r: seq<bool>, w: seq<bool>)
    requires |w| <= |r|
    ensures Xor(r, w + Zeros(|r| - |w|)) == XorHead(w, r)
  {}

  lemma ShiftInjective(r: seq<bool>, s: seq<bool>)
    requires |r| == |s| == 16 && Shift(r) == Shift(s)
    ensures r == s
  {
    assert Shift(r)[15] == r[0] && Shift(s)[15] == s[0];
    forall k | 0 < k < 16 ensures r[k] == s[k] {
      assert Shift(r)[k - 1] == (r[k] != (r[0] && TAIL[k - 1]));
      assert Shift(s)[k - 1] == (s[k] != (s[0] && TAIL[k - 1]));
    }
  }

  lemma {:induction false} RegisterInjective(r: seq<bool>, s: seq<bool>, m: seq<bool>)
    requires |r| == |s| == 16 && Register(r, m) == Register(s, m)
    ensures r == s
    decreases |m|
  {
    if m != [] {
      RegisterInjective(Feed(r, m[0]), Feed(s, m[0]), m[1..]);
      var r', s' := [r[0] != m[0]] + r[1..], [s[0] != m[0]] + s[1..];
      ShiftInjective(r', s');
      assert r'[0] == s'[0] && r'[1..] == s'[1..];
      assert r == [r[0]] + r[1..] && s == [s[0]] + s[1..];
    }
  }

  // ---------- What the remainder is good for ----------

  /** A message followed by its own remainder leaves remainder zero, and nothing else does. */
  lemma CodewordIffRemainder(r: seq<bool>, m: seq<bool>, w: seq<bool>)
    requires |r| == |w| == 16
    ensures Register(r, m + w) == Zeros(16) <==> w == Register(r, m)
  {
    var s := Register(r, m);
    RegisterAppend(r, m, w);
    if w == s {
      Cancel(w, 0);
      assert w + Zeros(0) == w;
    }
    if Register(s, w) == Zeros(16) {
      ZeroNamesRegister(s, w);
    }
  }

  lemma ZeroNamesRegister(s: seq<bool>, w: seq<bool>)
    requires |s| == |w| == 16 && Register(s, w) == Zeros(16)
    ensures w == s
  {
    Absorb(s, w);
    Cancel(Zeros(16), 0);
    assert Zeros(16) + Zeros(0) == Zeros(16);
    var x := XorHead(w, s);
    RegisterInjective(x, Zeros(16), Zeros(16));
    XorIsZero(w, s);
  }

  lemma XorIsZero(w: seq<bool>, s: seq<bool>)
    requires |w| == |s| && XorHead(w, s) == Zeros(|s|)
    ensures w == s
  {
    var x := XorHead(w, s);
    forall k | 0 <= k < |w| ensures w[k] == s[k] {
      assert x[k] == (w[k] != s[k]);
    }
  }

  /** Any change confined to sixteen consecutive bits changes the remainder. */
  lemma BurstChangesRemainder(r: seq<bool>, front: seq<bool>, u: seq<bool>, v: seq<bool>, back: seq<bool>)
    requires |r| == 16 && |u| == |v| <= 16 && u != v
    ensures Register(r, front + u + back) != Register(r, front + v + back)
  {
    var s := Register(r, front);
    RegisterAppend(r, front + u, back);
    RegisterAppend(r, front + v, back);
    RegisterAppend(r, front, u);
    RegisterAppend(r, front, v);
    if Register(Register(s, u), back) == Register(Register(s, v), back) {
      RegisterInjective(Register(s, u), Register(s, v), back);
      RegisterSeparates(s, u, v);
    }
  }

  lemma RegisterSeparates(s: seq<bool>, u: seq<bool>, v: seq<bool>)
    requires |s| == 16 && |u| == |v| <= 16 && Register(s, u) == Register(s, v)
    ensures u == v
  {
    Absorb(s, u);
    Absorb(s, v);
    var x, y := XorHead(u, s), XorHead(v, s);
    RegisterInjective(x, y, Zeros(|u|));
    forall k | 0 <= k < |u| ensures u[k] == v[k] {
      assert x[k] == (u[k] != s[k]) && y[k] == (v[k] != s[k]);
    }
  }
}

/** Sixteen-bit words and bytes as bit strings. */
module CrcWords {
  import opened CrcDivision

  /** Bit `k` of a word, counted from the most significant. */
  function Bit(c: bv16, k: nat): bool
    requires k < 16
  {
    if k == 0 then c & 0x8000 != 0 else if k == 1 then c & 0x4000 != 0
    else if k == 2 then c & 0x2000 != 0 else if k == 3 then c & 0x1000 != 0
    else if k == 4 then c & 0x0800 != 0 else if k == 5 then c & 0x0400 != 0
    else if k == 6 then c & 0x0200 != 0 else if k == 7 then c & 0x0100 != 0
    else if k == 8 then c & 0x0080 != 0 else if k == 9 then c & 0x0040 != 0
    else if k == 10 then c & 0x0020 != 0 else if k == 11 then c & 0x0010 != 0
    else if k == 12 then c & 0x0008 != 0 else if k == 13 then c & 0x0004 != 0
    else if k == 14 then c & 0x0002 != 0 else c & 0x0001 != 0
  }

  function Bits16(c: bv16): (r: seq<bool>)
    ensures |r| == 16
  {
    seq(16, k requires 0 <= k < 16 => Bit(c, k))
  }

  function Bits8(b: bv8): (r: seq<bool>)
    ensures |r| == 8
  {
    Bits16(b as bv16)[8..]
  }

  function MessageBits(buf: seq<bv8>): (r: seq<bool>)
    ensures |r| == 8 * |buf|
  {
    if buf == [] then [] else MessageBits(buf[..|buf| - 1]) + Bits8(buf[|buf| - 1])
  }

  lemma {:induction false} MessageBitsAppend(a: seq<bv8>, b: seq<bv8>)
    ensures MessageBits(a + b) == MessageBits(a) + MessageBits(b)
    decreases |b|
  {
    if b == [] {
      assert a + b == a;
    } else {
      assert (a + b)[..|a + b| - 1] == a + b[..|b| - 1];
      MessageBitsAppend(a, b[..|b| - 1]);
    }
  }

  lemma MessageBitsPair(x: bv8, y: bv8)
    ensures MessageBits([x, y]) == Bits8(x) + Bits8(y)
  {
    assert [x, y][..1] == [x] && [x][..0] == [];
    assert MessageBits([x]) == MessageBits([]) + Bits8(x);
  }

  lemma BitXor(c: bv16, d: bv16, k: nat)
    requires k < 16
    ensures Bit(c ^ d, k) == (Bit(c, k) != Bit(d, k))
  {
    match k
    case 0 => assert Bit(c ^ d, 0) == (Bit(c, 0) != Bit(d, 0));
    case 1 => assert Bit(c ^ d, 1) == (Bit(c, 1) != Bit(d, 1));
    case 2 => assert Bit(c ^ d, 2) == (Bit(c, 2) != Bit(d, 2));
    case 3 => assert Bit(c ^ d, 3) == (Bit(c, 3) != Bit(d, 3));
    case 4 => assert Bit(c ^ d, 4) == (Bit(c, 4) != Bit(d, 4));
    case 5 => assert Bit(c ^ d, 5) == (Bit(c, 5) != Bit(d, 5));
    case 6 => assert Bit(c ^ d, 6) == (Bit(c, 6) != Bit(d, 6));
    case 7 => assert Bit(c ^ d, 7) == (Bit(c, 7) != Bit(d, 7));
    case 8 => assert Bit(c ^ d, 8) == (Bit(c, 8) != Bit(d, 8));
    case 9 => assert Bit(c ^ d, 9) == (Bit(c, 9) != Bit(d, 9));
    case 10 => assert Bit(c ^ d, 10) == (Bit(c, 10) != Bit(d, 10));
    case 11 => assert Bit(c ^ d, 11) == (Bit(c, 11) != Bit(d, 11));
    case 12 => assert Bit(c ^ d, 12) == (Bit(c, 12) != Bit(d, 12));
    case 13 => assert Bit(c ^ d, 13) == (Bit(c, 13) != Bit(d, 13));
    case 14 => assert Bit(c ^ d, 14) == (Bit(c, 14) != Bit(d, 14));
    case _ => assert k == 15; assert Bit(c ^ d, 15) == (Bit(c, 15) != Bit(d, 15));
  }

  lemma BitLeft(c: bv16, k: nat)
    requires k < 15
    ensures Bit(c << 1, k) == Bit(c, k + 1)
  {
    match k
    case 0 => assert Bit(c << 1, 0) == Bit(c, 1);
    case 1 => assert Bit(c << 1, 1) == Bit(c, 2);
    case 2 => assert Bit(c << 1, 2) == Bit(c, 3);
    case 3 => assert Bit(c << 1, 3) == Bit(c, 4);
    case 4 => assert Bit(c << 1, 4) == Bit(c, 5);
    case 5 => assert Bit(c << 1, 5) == Bit(c, 6);
    case 6 => assert Bit(c << 1, 6) == Bit(c, 7);
    case 7 => assert Bit(c << 1, 7) == Bit(c, 8);
    case 8 => assert Bit(c << 1, 8) == Bit(c, 9);
    case 9 => assert Bit(c << 1, 9) == Bit(c, 10);
    case 10 => assert Bit(c << 1, 10) == Bit(c, 11);
    case 11 => assert Bit(c << 1, 11) == Bit(c, 12);
    case 12 => assert Bit(c << 1, 12) == Bit(c, 13);
    case 13 => assert Bit(c << 1, 13) == Bit(c, 14);
    case _ => assert k == 14; assert Bit(c << 1, 14) == Bit(c, 15);
  }

  lemma BitLow(c: bv16, k: nat)
    requires k < 8
    ensures Bit(c << 8, k) == Bit(c, k + 8) && !Bit(c << 8, k + 8)
  {
    match k
    case 0 => assert Bit(c << 8, 0) == Bit(c, 8) && !Bit(c << 8, 8);
    case 1 => assert Bit(c << 8, 1) == Bit(c, 9) && !Bit(c << 8, 9);
    case 2 => assert Bit(c << 8, 2) == Bit(c, 10) && !Bit(c << 8, 10);
    case 3 => assert Bit(c << 8, 3) == Bit(c, 11) && !Bit(c << 8, 11);
    case 4 => assert Bit(c << 8, 4) == Bit(c, 12) && !Bit(c << 8, 12);
    case 5 => assert Bit(c << 8, 5) == Bit(c, 13) && !Bit(c << 8, 13);
    case 6 => assert Bit(c << 8, 6) == Bit(c, 14) && !Bit(c << 8, 14);
    case _ => assert k == 7; assert Bit(c << 8, 7) == Bit(c, 15) && !Bit(c << 8, 15);
  }

  lemma BitOfBytes(c: bv16, k: nat)
    requires k < 8
    ensures Bit(((c >> 8) as bv8) as bv16, k + 8) == Bit(c, k)
    ensures Bit(((c & 0xFF) as bv8) as bv16, k + 8) == Bit(c, k + 8)
  {
    match k
    case 0 => assert Bit(((c >> 8) as bv8) as bv16, 8) == Bit(c, 0) && Bit(((c & 0xFF) as bv8) as bv16, 8) == Bit(c, 8);
    case 1 => assert Bit(((c >> 8) as bv8) as bv16, 9) == Bit(c, 1) && Bit(((c & 0xFF) as bv8) as bv16, 9) == Bit(c, 9);
    case 2 => assert Bit(((c >> 8) as bv8) as bv16, 10) == Bit(c, 2) && Bit(((c & 0xFF) as bv8) as bv16, 10) == Bit(c, 10);
    case 3 => assert Bit(((c >> 8) as bv8) as bv16, 11) == Bit(c, 3) && Bit(((c & 0xFF) as bv8) as bv16, 11) == Bit(c, 11);
    case 4 => assert Bit(((c >> 8) as bv8) as bv16, 12) == Bit(c, 4) && Bit(((c & 0xFF) as bv8) as bv16, 12) == Bit(c, 12);
    case 5 => assert Bit(((c >> 8) as bv8) as bv16, 13) == Bit(c, 5) && Bit(((c & 0xFF) as bv8) as bv16, 13) == Bit(c, 13);
    case 6 => assert Bit(((c >> 8) as bv8) as bv16, 14) == Bit(c, 6) && Bit(((c & 0xFF) as bv8) as bv16, 14) == Bit(c, 14);
    case _ => assert k == 7; assert Bit(((c >> 8) as bv8) as bv16, 15) == Bit(c, 7) && Bit(((c & 0xFF) as bv8) as bv16, 15) == Bit(c, 15);
  }

  lemma BitByte(b: bv8, k: nat)
    requires k < 8
    ensures !Bit(b as bv16, k)
  {
    match k
    case 0 => assert !Bit(b as bv16, 0);
    case 1 => assert !Bit(b as bv16, 1);
    case 2 => assert !Bit(b as bv16, 2);
    case 3 => assert !Bit(b as bv16, 3);
    case 4 => assert !Bit(b as bv16, 4);
    case 5 => assert !Bit(b as bv16, 5);
    case 6 => assert !Bit(b as bv16, 6);
    case _ => assert k == 7; assert !Bit(b as bv16, 7);
  }

  lemma Bits16Xor(c: bv16, d: bv16)
    ensures Bits16(c ^ d) == Xor(Bits16(c), Bits16(d))
  {
    forall k: nat | k < 16 ensures Bit(c ^ d, k) == (Bit(c, k) != Bit(d, k)) {
      BitXor(c, d, k);
    }
  }

  /** The two bytes of a word spell its bits, high byte first. */
  lemma WordBytes(c: bv16)
    ensures Bits8((c >> 8) as bv8) + Bits8((c & 0xFF) as bv8) == Bits16(c)
  {
    HighByteBits(c);
    LowByteBits(c);
  }

  lemma HighByteBits(c: bv16)
    ensures Bits8((c >> 8) as bv8) == Bits16(c)[..8]
  {
    var bits := Bits8((c >> 8) as bv8);
    forall k: nat | k < 8 ensures bits[k] == Bits16(c)[k] {
      BitOfBytes(c, k);
    }
  }

  lemma LowByteBits(c: bv16)
    ensures Bits8((c & 0xFF) as bv8) == Bits16(c)[8..]
  {
    var bits, low := Bits8((c & 0xFF) as bv8), Bits16(c)[8..];
    forall k: nat | k < 8 ensures bits[k] == low[k] {
      BitOfBytes(c, k);
    }
    assert bits == low;
  }
}

/** The lookup table and the computation its entries stand for. */
module CrcTable {

  const ROW_0: seq<bv16> := [
    0x0000, 0x1021, 0x2042, 0x3063, 0x4084, 0x50A5, 0x60C6, 0x70E7,
    0x8108, 0x9129, 0xA14A, 0xB16B, 0xC18C, 0xD1AD, 0xE1CE, 0xF1EF,
    0x1231, 0x0210, 0x3273, 0x2252, 0x52B5, 0x4294, 0x72F7, 0x62D6,
    0x9339, 0x8318, 0xB37B, 0xA35A, 0xD3BD, 0xC39C, 0xF3FF, 0xE3DE
  ]
  const ROW_1: seq<bv16> := [
    0x2462, 0x3443, 0x0420, 0x1401, 0x64E6, 0x74C7, 0x44A4, 0x5485,
    0xA56A, 0xB54B, 0x8528, 0x9509, 0xE5EE, 0xF5CF, 0xC5AC, 0xD58D,
    0x3653, 0x2672, 0x1611, 0x0630, 0x76D7, 0x66F6, 0x5695, 0x46B4,
    0xB75B, 0xA77A, 0x9719, 0x8738, 0xF7DF, 0xE7FE, 0xD79D, 0xC7BC
  ]
  const ROW_2: seq<bv16> := [
    0x48C4, 0x58E5, 0x6886, 0x78A7, 0x0840, 0x1861, 0x2802, 0x3823,
    0xC9CC, 0xD9ED, 0xE98E, 0xF9AF, 0x8948, 0x9969, 0xA90A, 0xB92B,
    0x5AF5, 0x4AD4, 0x7AB7, 0x6A96, 0x1A71, 0x0A50, 0x3A33, 0x2A12,
    0xDBFD, 0xCBDC, 0xFBBF, 0xEB9E, 0x9B79, 0x8B58, 0xBB3B, 0xAB1A
  ]
  const ROW_3: seq<bv16> := [
    0x6CA6, 0x7C87, 0x4CE4, 0x5CC5, 0x2C22, 0x3C03, 0x0C60, 0x1C41,
    0xEDAE, 0xFD8F, 0xCDEC, 0xDDCD, 0xAD2A, 0xBD0B, 0x8D68, 0x9D49,
    0x7E97, 0x6EB6, 0x5ED5, 0x4EF4, 0x3E13, 0x2E32, 0x1E51, 0x0E70,
    0xFF9F, 0xEFBE, 0xDFDD, 0xCFFC, 0xBF1B, 0xAF3A, 0x9F59, 0x8F78
  ]
  const ROW_4: seq<bv16> := [
    0x9188, 0x81A9, 0xB1CA, 0xA1EB, 0xD10C, 0xC12D, 0xF14E, 0xE16F,
    0x1080, 0x00A1, 0x30C2, 0x20E3, 0x5004, 0x4025, 0x7046, 0x6067,
    0x83B9, 0x9398, 0xA3FB, 0xB3DA, 0xC33D, 0xD31C, 0xE37F, 0xF35E,
    0x02B1, 0x1290, 0x22F3, 0x32D2, 0x4235, 0x5214, 0x6277, 0x7256
  ]
  const ROW_5: seq<bv16> := [
    0xB5EA, 0xA5CB, 0x95A8, 0x8589, 0xF56E, 0xE54F, 0xD52C, 0xC50D,
    0x34E2, 0x24C3, 0x14A0, 0x0481, 0x7466, 0x6447, 0x5424, 0x4405,
    0xA7DB, 0xB7FA, 0x8799, 0x97B8, 0xE75F, 0xF77E, 0xC71D, 0xD73C,
    0x26D3, 0x36F2, 0x0691, 0x16B0, 0x6657, 0x7676, 0x4615, 0x5634
  ]
  const ROW_6: seq<bv16> := [
    0xD94C, 0xC96D, 0xF90E, 0xE92F, 0x99C8, 0x89E9, 0xB98A, 0xA9AB,
    0x5844, 0x4865, 0x7806, 0x6827, 0x18C0, 0x08E1, 0x3882, 0x28A3,
    0xCB7D, 0xDB5C, 0xEB3F, 0xFB1E, 0x8BF9, 0x9BD8, 0xABBB, 0xBB9A,
    0x4A75, 0x5A54, 0x6A37, 0x7A16, 0x0AF1, 0x1AD0, 0x2AB3, 0x3A92
  ]
  const ROW_7: seq<bv16> := [
    0xFD2E, 0xED0F, 0xDD6C, 0xCD4D, 0xBDAA, 0xAD8B, 0x9DE8, 0x8DC9,
    0x7C26, 0x6C07, 0x5C64, 0x4C45, 0x3CA2, 0x2C83, 0x1CE0, 0x0CC1,
    0xEF1F, 0xFF3E, 0xCF5D, 0xDF7C, 0xAF9B, 0xBFBA, 0x8FD9, 0x9FF8,
    0x6E17, 0x7E36, 0x4E55, 0x5E74, 0x2E93, 0x3EB2, 0x0ED1, 0x1EF0
  ]

  /** The lookup table, laid out in eight rows of thirty-two entries. */
  const CRC16_TAB: seq<bv16> := ROW_0 + ROW_1 + ROW_2 + ROW_3 + ROW_4 + ROW_5 + ROW_6 + ROW_7

  function WordShift(c: bv16): bv16 { if c & 0x8000 != 0 then (c << 1) ^ 0x1021 else c << 1 }

  function WordShift8(c: bv16): bv16 {
    WordShift(WordShift(WordShift(WordShift(WordShift(WordShift(WordShift(WordShift(c))))))))
  }

  lemma TableEntry(i: bv16)
    requires i < 256
    ensures CRC16_TAB[i as int] == WordShift8(i << 8)
  {
    if i < 32 { Row0(i); } else if i < 64 { Row1(i); } else if i < 96 { Row2(i); } else if i < 128 { Row3(i); }
    else if i < 160 { Row4(i); } else if i < 192 { Row5(i); } else if i < 224 { Row6(i); } else { Row7(i); }
  }

  lemma Row0(i: bv16)
    requires 0 <= i < 32
    ensures ROW_0[i as int - 0] == WordShift8(i << 8)
  {
    match i as int
    case 0 => case 1 => case 2 => case 3 => case 4 => case 5 => case 6 => case 7 => case 8 => case 9 => case 10 =>
    case 11 => case 12 => case 13 => case 14 => case 15 => case 16 => case 17 => case 18 => case 19 => case 20 => case 21 =>
    case 22 => case 23 => case 24 => case 25 => case 26 => case 27 => case 28 => case 29 => case 30 => case _ =>
  }

  lemma Row1(i: bv16)
    requires 32 <= i < 64
    ensures ROW_1[i as int - 32] == WordShift8(i << 8)
  {
    match i as int
    case 32 => case 33 => case 34 => case 35 => case 36 => case 37 => case 38 => case 39 => case 40 => case 41 => case 42 =>
    case 43 => case 44 => case 45 => case 46 => case 47 => case 48 => case 49 => case 50 => case 51 => case 52 => case 53 =>
    case 54 => case 55 => case 56 => case 57 => case 58 => case 59 => case 60 => case 61 => case 62 => case _ =>
  }

  lemma Row2(i: bv16)
    requires 64 <= i < 96
    ensures ROW_2[i as int - 64] == WordShift8(i << 8)
  {
    match i as int
    case 64 => case 65 => case 66 => case 67 => case 68 => case 69 => case 70 => case 71 => case 72 => case 73 => case 74 =>
    case 75 => case 76 => case 77 => case 78 => case 79 => case 80 => case 81 => case 82 => case 83 => case 84 => case 85 =>
    case 86 => case 87 => case 88 => case 89 => case 90 => case 91 => case 92 => case 93 => case 94 => case _ =>
  }

  lemma Row3(i: bv16)
    requires 96 <= i < 128
    ensures ROW_3[i as int - 96] == WordShift8(i << 8)
  {
    match i as int
    case 96 => case 97 => case 98 => case 99 => case 100 => case 101 => case 102 => case 103 => case 104 => case 105 => case 106 =>
    case 107 => case 108 => case 109 => case 110 => case 111 => case 112 => case 113 => case 114 => case 115 => case 116 => case 117 =>
    case 118 => case 119 => case 120 => case 121 => case 122 => case 123 => case 124 => case 125 => case 126 => case _ =>
  }

  lemma Row4(i: bv16)
    requires 128 <= i < 160
    ensures ROW_4[i as int - 128] == WordShift8(i << 8)
  {
    match i as int
    case 128 => case 129 => case 130 => case 131 => case 132 => case 133 => case 134 => case 135 => case 136 => case 137 => case 138 =>
    case 139 => case 140 => case 141 => case 142 => case 143 => case 144 => case 145 => case 146 => case 147 => case 148 => case 149 =>
    case 150 => case 151 => case 152 => case 153 => case 154 => case 155 => case 156 => case 157 => case 158 => case _ =>
  }

  lemma Row5(i: bv16)
    requires 160 <= i < 192
    ensures ROW_5[i as int - 160] == WordShift8(i << 8)
  {
    match i as int
    case 160 => case 161 => case 162 => case 163 => case 164 => case 165 => case 166 => case 167 => case 168 => case 169 => case 170 =>
    case 171 => case 172 => case 173 => case 174 => case 175 => case 176 => case 177 => case 178 => case 179 => case 180 => case 181 =>
    case 182 => case 183 => case 184 => case 185 => case 186 => case 187 => case 188 => case 189 => case 190 => case _ =>
  }

  lemma Row6(i: bv16)
    requires 192 <= i < 224
    ensures ROW_6[i as int - 192] == WordShift8(i << 8)
  {
    match i as int
    case 192 => case 193 => case 194 => case 195 => case 196 => case 197 => case 198 => case 199 => case 200 => case 201 => case 202 =>
    case 203 => case 204 => case 205 => case 206 => case 207 => case 208 => case 209 => case 210 => case 211 => case 212 => case 213 =>
    case 214 => case 215 => case 216 => case 217 => case 218 => case 219 => case 220 => case 221 => case 222 => case _ =>
  }

  lemma Row7(i: bv16)
    requires 224 <= i < 256
    ensures ROW_7[i as int - 224] == WordShift8(i << 8)
  {
    match i as int
    case 224 => case 225 => case 226 => case 227 => case 228 => case 229 => case 230 => case 231 => case 232 => case 233 => case 234 =>
    case 235 => case 236 => case 237 => case 238 => case 239 => case 240 => case 241 => case 242 => case 243 => case 244 => case 245 =>
    case 246 => case 247 => case 248 => case 249 => case 250 => case 251 => case 252 => case 253 => case 254 => case _ =>
  }
}

/** The checksum as uboot-shell computes it: one table lookup a byte. */
module Crc16 {
  import opened CrcDivision
  import opened CrcWords
  import opened CrcTable

  /** One step of the loop: the high byte and the next message byte select a table entry. */
  function ByteStep(c: bv16, b: bv8): bv16 {
    CRC16_TAB[((c >> 8) ^ (b as bv16)) as int] ^ (c << 8)
  }

  function Crc(c: bv16, buf: seq<bv8>): bv16 {
    if buf == [] then c else ByteStep(Crc(c, buf[..|buf| - 1]), buf[|buf| - 1])
  }

  method Crc16Ccitt(initial: bv16, buf: seq<bv8>) returns (cksum: bv16)
    ensures cksum == Crc(initial, buf)
  {
    cksum := initial;
    for i := 0 to |buf|
      invariant cksum == Crc(initial, buf[..i])
    {
      assert buf[..i + 1][..i] == buf[..i];
      cksum := ByteStep(cksum, buf[i]);
    }
    assert buf[..|buf|] == buf;
  }

  /** The table-driven loop computes what the shift register holds after the message. */
  lemma {:induction false} CrcIsRegister(c: bv16, buf: seq<bv8>)
    ensures Bits16(Crc(c, buf)) == Register(Bits16(c), MessageBits(buf))
  {
    if buf != [] {
      var front, last := buf[..|buf| - 1], buf[|buf| - 1];
      CrcIsRegister(c, front);
      RegisterAppend(Bits16(c), MessageBits(front), Bits8(last));
      ByteStepFeedsByte(Crc(c, front), last);
    }
  }

  lemma ByteStepFeedsByte(c: bv16, b: bv8)
    ensures Bits16(ByteStep(c, b)) == Register(Bits16(c), Bits8(b))
  {
    LookupBits(c, b);
    LookupFeedsByte(c, b, (c >> 8) ^ (b as bv16));
  }

  lemma BitsLeft(c: bv16)
    ensures Bits16(c << 1) == Bits16(c)[1..] + [false]
  {
    var left, right := Bits16(c << 1), Bits16(c)[1..] + [false];
    forall k: nat | k < 16 ensures left[k] == right[k] {
      if k < 15 {
        BitLeft(c, k);
      } else {
        assert !Bit(c << 1, 15);
      }
    }
    assert left == right;
  }

  lemma GeneratorBits()
    ensures Bits16(0x1021) == TAIL
  {}

  lemma WordShiftIsShift(c: bv16)
    ensures Bits16(WordShift(c)) == Shift(Bits16(c))
  {
    BitsLeft(c);
    assert Bits16(c)[0] == (c & 0x8000 != 0);
    if c & 0x8000 != 0 {
      Bits16Xor(c << 1, 0x1021);
      GeneratorBits();
    }
  }

  /** Eight zero bits move the register up eight places. */
  lemma WordShift8IsRegister(c: bv16)
    ensures Bits16(WordShift8(c)) == Register(Bits16(c), Zeros(8))
  {
    var c4 := WordShift(WordShift(WordShift(WordShift(c))));
    FourZeros(c);
    FourZeros(c4);
    RegisterAppend(Bits16(c), Zeros(4), Zeros(4));
    assert Zeros(4) + Zeros(4) == Zeros(8);
  }

  lemma FourZeros(c: bv16)
    ensures Bits16(WordShift(WordShift(WordShift(WordShift(c))))) == Register(Bits16(c), Zeros(4))
  {
    var c1 := WordShift(c);
    var c2 := WordShift(c1);
    var c3 := WordShift(c2);
    OneZero(c, 4);
    OneZero(c1, 3);
    OneZero(c2, 2);
    OneZero(c3, 1);
  }

  lemma OneZero(c: bv16, n: nat)
    requires n > 0
    ensures Register(Bits16(c), Zeros(n)) == Register(Bits16(WordShift(c)), Zeros(n - 1))
  {
    WordShiftIsShift(c);
    var r := Bits16(c);
    assert [r[0] != false] + r[1..] == r;
    assert Zeros(n)[1..] == Zeros(n - 1);
  }

  /** One lookup feeds one byte: the high byte of the register goes through the table. */
  lemma LookupFeedsByte(c: bv16, b: bv8, i: bv16)
    requires i < 256
    requires Xor(Bits16(i << 8), Zeros(8) + Bits16(c)[8..]) == XorHead(Bits8(b), Bits16(c))
    ensures Bits16(CRC16_TAB[i as int] ^ (c << 8)) == Register(Bits16(c), Bits8(b))
  {
    TableFeeds(i);
    Bits16Xor(CRC16_TAB[i as int], c << 8);
    LowByteUp(c);
    RegisterSplits(Bits16(c), Bits8(b), Bits16(i << 8));
  }

  /** Feeding a byte is feeding the sum of it and the high byte, with the low byte moved up. */
  lemma RegisterSplits(r: seq<bool>, byte: seq<bool>, high: seq<bool>)
    requires |r| == |high| == 16 && |byte| == 8
    requires Xor(high, Zeros(8) + r[8..]) == XorHead(byte, r)
    ensures Register(r, byte) == Xor(Register(high, Zeros(8)), r[8..] + Zeros(8))
  {
    Absorb(r, byte);
    RegisterLinear(high, Zeros(8) + r[8..], Zeros(8), Zeros(8));
    assert Xor(Zeros(8), Zeros(8)) == Zeros(8);
    LowBitsMove(r[8..]);
  }

  lemma TableFeeds(i: bv16)
    requires i < 256
    ensures Bits16(CRC16_TAB[i as int]) == Register(Bits16(i << 8), Zeros(8))
  {
    TableEntry(i);
    WordShift8IsRegister(i << 8);
  }

  lemma LookupBits(c: bv16, b: bv8)
    ensures ((c >> 8) ^ (b as bv16)) < 256
    ensures Xor(Bits16(((c >> 8) ^ (b as bv16)) << 8), Zeros(8) + Bits16(c)[8..]) == XorHead(Bits8(b), Bits16(c))
  {
    var up := Bits16(((c >> 8) ^ (b as bv16)) << 8);
    var left, right := Xor(up, Zeros(8) + Bits16(c)[8..]), XorHead(Bits8(b), Bits16(c));
    forall k: nat | k < 16 ensures left[k] == right[k] {
      LookupBit(c, b, if k < 8 then k else k - 8);
    }
    assert left == right;
  }

  lemma LowByteUp(c: bv16)
    ensures Bits16(c << 8) == Bits16(c)[8..] + Zeros(8)
  {
    var left, right := Bits16(c << 8), Bits16(c)[8..] + Zeros(8);
    forall k: nat | k < 16 ensures left[k] == right[k] {
      BitLow(c, if k < 8 then k else k - 8);
    }
    assert left == right;
  }

  lemma LookupBit(c: bv16, b: bv8, k: nat)
    requires k < 8
    ensures Bit(((c >> 8) ^ (b as bv16)) << 8, k) == (Bit(c, k) != Bit(b as bv16, k + 8)) && !Bit(((c >> 8) ^ (b as bv16)) << 8, k + 8)
  {
    match k
    case 0 =>
      assert Bit(((c >> 8) ^ (b as bv16)) << 8, 0) == (Bit(c, 0) != Bit(b as bv16, 8));
      assert !Bit(((c >> 8) ^ (b as bv16)) << 8, 8);
    case 1 =>
      assert Bit(((c >> 8) ^ (b as bv16)) << 8, 1) == (Bit(c, 1) != Bit(b as bv16, 9));
      assert !Bit(((c >> 8) ^ (b as bv16)) << 8, 9);
    case 2 =>
      assert Bit(((c >> 8) ^ (b as bv16)) << 8, 2) == (Bit(c, 2) != Bit(b as bv16, 10));
      assert !Bit(((c >> 8) ^ (b as bv16)) << 8, 10);
    case 3 =>
      assert Bit(((c >> 8) ^ (b as bv16)) << 8, 3) == (Bit(c, 3) != Bit(b as bv16, 11));
      assert !Bit(((c >> 8) ^ (b as bv16)) << 8, 11);
    case 4 =>
      assert Bit(((c >> 8) ^ (b as bv16)) << 8, 4) == (Bit(c, 4) != Bit(b as bv16, 12));
      assert !Bit(((c >> 8) ^ (b as bv16)) << 8, 12);
    case 5 =>
      assert Bit(((c >> 8) ^ (b as bv16)) << 8, 5) == (Bit(c, 5) != Bit(b as bv16, 13));
      assert !Bit(((c >> 8) ^ (b as bv16)) << 8, 13);
    case 6 =>
      assert Bit(((c >> 8) ^ (b as bv16)) << 8, 6) == (Bit(c, 6) != Bit(b as bv16, 14));
      assert !Bit(((c >> 8) ^ (b as bv16)) << 8, 14);
    case _ => assert k == 7;
      assert Bit(((c >> 8) ^ (b as bv16)) << 8, 7) == (Bit(c, 7) != Bit(b as bv16, 15));
      assert !Bit(((c >> 8) ^ (b as bv16)) << 8, 15);
  }

  /** The low byte of the register moves up eight places without feedback. */
  lemma LowBitsMove(low: seq<bool>)
    requires |low| == 8
    ensures Register(Zeros(8) + low, Zeros(8)) == low + Zeros(8)
  {
    LeadingZeros(8, low, 0);
    assert low + Zeros(0) == low;
  }

  lemma {:induction false} LeadingZeros(n: nat, low: seq<bool>, m: nat)
    requires n + |low| + m == 16
    ensures Register(Zeros(n) + (low + Zeros(m)), Zeros(n)) == low + Zeros(m + n)
    decreases n
  {
    var r := Zeros(n) + (low + Zeros(m));
    if n == 0 {
      assert r == low + Zeros(m + n);
    } else {
      assert Feed(r, false) == Zeros(n - 1) + (low + Zeros(m + 1));
      assert Zeros(n)[1..] == Zeros(n - 1);
      LeadingZeros(n - 1, low, m + 1);
    }
  }

}

/** What the checksum promises, stated for buffers of bytes. */
module CrcProperties {
  import opened CrcDivision
  import opened CrcWords
  import opened Crc16

  /** For any initial value the checksum is the remainder of the message times x^16, the initial
      value added to its head. */
  lemma CrcIsRemainder(c: bv16, buf: seq<bv8>)
    ensures |MessageBits(buf) + Zeros(16)| >= 16
    ensures Bits16(Crc(c, buf)) == Remainder(XorHead(Bits16(c), MessageBits(buf) + Zeros(16)))
    ensures c == 0 ==> Bits16(Crc(c, buf)) == Remainder(MessageBits(buf) + Zeros(16))
  {
    CrcIsRegister(c, buf);
    RegisterIsLongDivision(Bits16(c), MessageBits(buf));
    if c == 0 {
      var p := MessageBits(buf) + Zeros(16);
      assert XorHead(Bits16(0), p) == p;
    }
  }

  /** Continuing from the checksum of a first part is the checksum of the whole. */
  lemma {:induction false} CrcComposes(c: bv16, a: seq<bv8>, b: seq<bv8>)
    ensures Crc(c, a + b) == Crc(Crc(c, a), b)
    decreases |b|
  {
    if b == [] {
      assert a + b == a;
    } else {
      assert (a + b)[..|a + b| - 1] == a + b[..|b| - 1];
      CrcComposes(c, a, b[..|b| - 1]);
    }
  }

  /** A buffer followed by two bytes has checksum zero exactly when they are its own checksum,
      high byte first. */
  lemma CrcClosesFrame(buf: seq<bv8>, hi: bv8, lo: bv8)
    ensures Crc(0, buf + [hi, lo]) == 0 <==> Bits8(hi) + Bits8(lo) == Bits16(Crc(0, buf))
  {
    MessageBitsAppend(buf, [hi, lo]);
    MessageBitsPair(hi, lo);
    CrcIsRegister(0, buf);
    CrcIsRegister(0, buf + [hi, lo]);
    CodewordIffRemainder(Bits16(0), MessageBits(buf), Bits8(hi) + Bits8(lo));
    ZeroWord(Crc(0, buf + [hi, lo]));
  }

  lemma ZeroWord(c: bv16)
    ensures c == 0 <==> Bits16(c) == Zeros(16)
  {
    if Bits16(c) == Zeros(16) {
      assert Bits16(0) == Zeros(16);
      SameBits(c, 0);
    }
  }

  lemma Bits8Injective(x: bv8, y: bv8)
    requires Bits8(x) == Bits8(y)
    ensures x == y
  {
    var xs, ys := Bits16(x as bv16), Bits16(y as bv16);
    forall k: nat | k < 16 ensures xs[k] == ys[k] {
      if k < 8 {
        BitByte(x, k);
        BitByte(y, k);
      } else {
        assert Bits8(x)[k - 8] == Bits8(y)[k - 8];
      }
    }
    SameBits(x as bv16, y as bv16);
  }

  lemma SameBits(c: bv16, d: bv16)
    requires Bits16(c) == Bits16(d)
    ensures c == d
  {
    var xs, ys := Bits16(c), Bits16(d);
    assert xs[0] == ys[0]; assert xs[1] == ys[1]; assert xs[2] == ys[2]; assert xs[3] == ys[3];
    assert xs[4] == ys[4]; assert xs[5] == ys[5]; assert xs[6] == ys[6]; assert xs[7] == ys[7];
    assert xs[8] == ys[8]; assert xs[9] == ys[9]; assert xs[10] == ys[10]; assert xs[11] == ys[11];
    assert xs[12] == ys[12]; assert xs[13] == ys[13]; assert xs[14] == ys[14]; assert xs[15] == ys[15];
  }

  /** Any change confined to two adjacent bytes changes the checksum, whatever surrounds them. */
  lemma BurstDetected(c: bv16, a: seq<bv8>, b: seq<bv8>, k: nat)
    requires |a| == |b| && k + 2 <= |a| && a != b
    requires forall i :: 0 <= i < |a| && i != k && i != k + 1 ==> a[i] == b[i]
    ensures Crc(c, a) != Crc(c, b)
  {
    var front, back := a[..k], a[k + 2..];
    assert a == front + [a[k], a[k + 1]] + back;
    assert b == front + [b[k], b[k + 1]] + back;
    var u, v := Bits8(a[k]) + Bits8(a[k + 1]), Bits8(b[k]) + Bits8(b[k + 1]);
    PairBits(front, a[k], a[k + 1], back);
    PairBits(front, b[k], b[k + 1], back);
    if u == v {
      assert u[..8] == v[..8] && u[8..] == v[8..];
      Bits8Injective(a[k], b[k]);
      Bits8Injective(a[k + 1], b[k + 1]);
      assert false;
    }
    BurstChangesRemainder(Bits16(c), MessageBits(front), u, v, MessageBits(back));
    CrcIsRegister(c, a);
    CrcIsRegister(c, b);
  }

  lemma PairBits(front: seq<bv8>, x: bv8, y: bv8, back: seq<bv8>)
    ensures MessageBits(front + [x, y] + back) == MessageBits(front) + (Bits8(x) + Bits8(y)) + MessageBits(back)
  {
    MessageBitsAppend(front + [x, y], back);
    MessageBitsAppend(front, [x, y]);
    MessageBitsPair(x, y);
  }
}
