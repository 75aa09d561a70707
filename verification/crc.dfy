/** The table-driven CRC of benchmark/common/crc.hpp against the bit-serial one: a shift
    register that takes in the message one bit at a time.  An unsigned T is the sequence
    of its bits, least significant first, so every width is covered at once. */
module Crc {
  import opened Basics

  type Bits = seq<bool>

  function Zeros(n: nat): (r: Bits)
    ensures |r| == n && forall i :: 0 <= i < n ==> !r[i]
  {
    seq(n, _ => false)
  }

  function Xor(a: Bits, b: Bits): (r: Bits)
    requires |a| == |b|
    ensures |r| == |a| && forall i :: 0 <= i < |r| ==> r[i] == (a[i] != b[i])
  {
    seq(|a|, i requires 0 <= i < |a| => a[i] != b[i])
  }

  /** c >> 1 */
  function Shift(c: Bits): (r: Bits)
    requires |c| > 0
    ensures |r| == |c|
  {
    c[1..] + [false]
  }

  /** One turn of the shift register: c & 1 ? polynomial ^ (c >> 1) : c >> 1 */
  function Turn(poly: Bits, c: Bits): (r: Bits)
    requires |poly| == |c| > 0
    ensures |r| == |c|
  {
    if c[0] then Xor(poly, Shift(c)) else Shift(c)
  }

  function Turns(poly: Bits, c: Bits, n: nat): (r: Bits)
    requires |poly| == |c| > 0
    ensures |r| == |c|
    decreases n
  {
    if n == 0 then c else Turns(poly, Turn(poly, c), n - 1)
  }

  /** The reference: every message bit is added to the register, which then turns once. */
  function Serial(poly: Bits, c: Bits, message: Bits): (r: Bits)
    requires |poly| == |c| > 0
    ensures |r| == |c|
    decreases |message|
  {
    if message == [] then c
    else Serial(poly, Turn(poly, c[0 := c[0] != message[0]]), message[1..])
  }

  /** The number `v` in `width` bits; higher bits are cut off as static_cast does. */
  function BitsOf(v: nat, width: nat): (r: Bits)
    ensures |r| == width
  {
    if width == 0 then [] else [v % 2 == 1] + BitsOf(v / 2, width - 1)
  }

  function Value(bits: Bits): nat {
    if bits == [] then 0 else (if bits[0] then 1 else 0) + 2 * Value(bits[1..])
  }

  /** The message as the bits of its bytes, each byte least significant bit first. */
  function MessageBits(buf: seq<Byte>): (r: Bits)
    ensures |r| == 8 * |buf|
  {
    if buf == [] then [] else BitsOf(buf[0], 8) + MessageBits(buf[1..])
  }

  lemma {:induction false} ValueOfBits(bits: Bits)
    ensures BitsOf(Value(bits), |bits|) == bits
  {
    if bits != [] { ValueOfBits(bits[1..]); }
  }

  lemma {:induction false} ByteValue(bits: Bits, k: nat)
    requires |bits| <= k
    ensures Value(bits) < Pow2(k)
  {
    if bits != [] { ByteValue(bits[1..], k - 1); }
  }

  function Pow2(k: nat): (r: nat)
    ensures r > 0
  {
    if k == 0 then 1 else 2 * Pow2(k - 1)
  }

  lemma {:induction false} BitsOfPadded(v: nat, n: nat, width: nat)
    requires v < Pow2(n) && n <= width
    ensures BitsOf(v, width) == BitsOf(v, n) + Zeros(width - n)
  {
    if n == 0 {
      ZeroBits(width);
    } else {
      BitsOfPadded(v / 2, n - 1, width - 1);
    }
  }

  lemma {:induction false} ZeroBits(width: nat)
    ensures BitsOf(0, width) == Zeros(width)
  {
    if width > 0 { ZeroBits(width - 1); }
  }

  // ----- the register is linear -----

  lemma TurnLinear(poly: Bits, a: Bits, b: Bits)
    requires |poly| == |a| == |b| > 0
    ensures Turn(poly, Xor(a, b)) == Xor(Turn(poly, a), Turn(poly, b))
  {
    assert Shift(Xor(a, b)) == Xor(Shift(a), Shift(b));
  }

  lemma {:induction false} TurnsLinear(poly: Bits, a: Bits, b: Bits, n: nat)
    requires |poly| == |a| == |b| > 0
    ensures Turns(poly, Xor(a, b), n) == Xor(Turns(poly, a, n), Turns(poly, b, n))
    decreases n
  {
    if n > 0 {
      TurnLinear(poly, a, b);
      TurnsLinear(poly, Turn(poly, a), Turn(poly, b), n - 1);
    }
  }

  /** As long as only zeros come out, turning is shifting. */
  lemma {:induction false} TurnsShift(poly: Bits, n: nat, high: Bits, low: Bits)
    requires |poly| == n + |high| + |low| > 0 && low == Zeros(|low|)
    ensures Turns(poly, Zeros(n) + high + low, n) == high + low + Zeros(n)
    decreases n
  {
    if n > 0 {
      var c := Zeros(n) + high + low;
      assert Turn(poly, c) == Zeros(n - 1) + high + (low + [false]);
      TurnsShift(poly, n - 1, high, low + [false]);
      assert (low + [false]) + Zeros(n - 1) == low + Zeros(n);
    } else {
      assert Zeros(0) + high + low == high + low + Zeros(0);
    }
  }

  lemma FirstBit(c: Bits, message: Bits)
    requires 0 < |message| <= |c|
    ensures Xor(c, message + Zeros(|c| - |message|))
            == Xor(c[0 := c[0] != message[0]], [false] + (message[1..] + Zeros(|c| - |message|)))
  {
  }

  lemma TurnOfFalse(poly: Bits, m: Bits, n: nat)
    requires |poly| == 1 + |m| + n
    ensures Turn(poly, [false] + (m + Zeros(n))) == m + Zeros(n + 1)
  {
  }

  function Padded(m: Bits, width: nat): (r: Bits)
    requires |m| <= width
    ensures |r| == width
  {
    m + Zeros(width - |m|)
  }

  lemma TurnOfSum(poly: Bits, c: Bits, message: Bits)
    requires |poly| == |c| && 0 < |message| <= |c|
    ensures Turn(poly, Xor(c, Padded(message, |c|)))
            == Xor(Turn(poly, c[0 := c[0] != message[0]]), Padded(message[1..], |c|))
  {
    FirstBit(c, message);
    TurnLinear(poly, c[0 := c[0] != message[0]], [false] + (message[1..] + Zeros(|c| - |message|)));
    TurnOfFalse(poly, message[1..], |c| - |message|);
  }

  /** Taking in up to `|c|` bits one by one is adding them all at once and turning as often. */
  lemma {:induction false} SerialIsTurns(poly: Bits, c: Bits, message: Bits)
    requires |poly| == |c| > 0 && |message| <= |c|
    ensures Serial(poly, c, message) == Turns(poly, Xor(c, Padded(message, |c|)), |message|)
    decreases |message|
  {
    if message == [] {
      assert Xor(c, Padded(message, |c|)) == c;
    } else {
      var t := Turn(poly, c[0 := c[0] != message[0]]);
      calc {
        Serial(poly, c, message);
        Serial(poly, t, message[1..]);
        { SerialIsTurns(poly, t, message[1..]); }
        Turns(poly, Xor(t, Padded(message[1..], |c|)), |message| - 1);
        { TurnOfSum(poly, c, message); }
        Turns(poly, Xor(c, Padded(message, |c|)), |message|);
      }
    }
  }

  lemma {:induction false} SerialAppend(poly: Bits, c: Bits, a: Bits, b: Bits)
    requires |poly| == |c| > 0
    ensures Serial(poly, c, a + b) == Serial(poly, Serial(poly, c, a), b)
    decreases |a|
  {
    if a == [] {
      assert a + b == b;
    } else {
      assert (a + b)[1..] == a[1..] + b;
      SerialAppend(poly, Turn(poly, c[0 := c[0] != a[0]]), a[1..], b);
    }
  }

  // ----- the table -----

  lemma ShiftOut(poly: Bits, n: nat, high: Bits)
    requires |poly| == n + |high| > 0
    ensures Turns(poly, Zeros(n) + high, n) == high + Zeros(n)
  {
    TurnsShift(poly, n, high, []);
    assert Zeros(n) + high + [] == Zeros(n) + high;
    assert high + [] == high;
  }

  lemma LowXorHigh(c: Bits, n: nat)
    requires n <= |c|
    ensures c == Xor(c[..n] + Zeros(|c| - n), Zeros(n) + c[n..])
  {
  }

  /** Turning `n` times only folds in the low `n` bits; the others move down. */
  lemma TurnsSplit(poly: Bits, c: Bits, n: nat)
    requires |poly| == |c| > 0 && n <= |c|
    ensures Turns(poly, c, n) == Xor(Turns(poly, c[..n] + Zeros(|c| - n), n), c[n..] + Zeros(n))
  {
    LowXorHigh(c, n);
    TurnsLinear(poly, c[..n] + Zeros(|c| - n), Zeros(n) + c[n..], n);
    ShiftOut(poly, n, c[n..]);
  }

  lemma XorParts(c: Bits, m: Bits)
    requires |m| <= |c|
    ensures var d := Xor(c, Padded(m, |c|)); d[..|m|] == Xor(c[..|m|], m) && d[|m|..] == c[|m|..]
  {
  }

  lemma IndexBits(low: Bits, width: nat)
    requires |low| <= width
    ensures Value(low) < Pow2(|low|) && BitsOf(Value(low), width) == low + Zeros(width - |low|)
  {
    ByteValue(low, |low|);
    ValueOfBits(low);
    BitsOfPadded(Value(low), |low|, width);
  }

  lemma LookupStep(poly: Bits, c: Bits, m: Bits)
    requires |poly| == |c| > 0 && |m| <= |c|
    ensures var n := |m|;
            var i := Value(Xor(c[..n], m));
            i < Pow2(n) && Xor(Turns(poly, BitsOf(i, |c|), n), c[n..] + Zeros(n)) == Serial(poly, c, m)
  {
    IndexBits(Xor(c[..|m|], m), |c|);
    SerialIsTurns(poly, c, m);
    TurnsSplit(poly, Xor(c, Padded(m, |c|)), |m|);
    XorParts(c, m);
  }

  /** The byte step of makeCRC: tab[(crc ^ b) & 0xff] ^ (crc >> 8), with the table entry
      of `i` being eight turns of `i`, takes in the eight bits of the byte. */
  lemma TableStep(poly: Bits, c: Bits, b: Byte)
    requires |poly| == |c| >= 8
    ensures var i := Value(Xor(c[..8], BitsOf(b, 8)));
            && i < 256
            && Xor(Turns(poly, BitsOf(i, |c|), 8), c[8..] + Zeros(8)) == Serial(poly, c, BitsOf(b, 8))
  {
    LookupStep(poly, c, BitsOf(b, 8));
    assert Pow2(8) == 256;
  }

  class CRCBase {
    const tab: array<Bits>

    ghost predicate Valid(poly: Bits)
      requires |poly| > 0
      reads tab
    {
      tab.Length == 256 && forall i :: 0 <= i < 256 ==> tab[i] == Turns(poly, BitsOf(i, |poly|), 8)
    }

    constructor (poly: Bits)
      requires |poly| > 0
      ensures Valid(poly) && fresh(tab)
    {
      tab := new Bits[256](_ => []);
      new;
      for i := 0 to 256
        invariant tab.Length == 256 && fresh(tab)
        invariant forall k :: 0 <= k < i ==> tab[k] == Turns(poly, BitsOf(k, |poly|), 8)
      {
        var c := BitsOf(i, |poly|);
        for j := 0 to 8
          invariant |c| == |poly| && Turns(poly, c, 8 - j) == Turns(poly, BitsOf(i, |poly|), 8)
        {
          c := if c[0] then Xor(poly, Shift(c)) else Shift(c);
        }
        tab[i] := c;
      }
    }
  }

  /** makeCRC computes the bit-serial CRC of the message, for every buffer, polynomial,
      start value and final value. */
  method MakeCRC(poly: Bits, initial: Bits, final: Bits, buf: seq<Byte>) returns (crc: Bits)
    requires |poly| == |initial| == |final| >= 8
    ensures |crc| == |poly| && crc == Xor(Serial(poly, initial, MessageBits(buf)), final)
  {
    var base := new CRCBase(poly);
    crc := initial;
    for i := 0 to |buf|
      invariant |crc| == |poly| && base.Valid(poly)
      invariant Serial(poly, crc, MessageBits(buf[i..])) == Serial(poly, initial, MessageBits(buf))
    {
      TableStep(poly, crc, buf[i]);
      SerialAppend(poly, crc, BitsOf(buf[i], 8), MessageBits(buf[i + 1..]));
      assert buf[i..][1..] == buf[i + 1..];
      crc := Xor(base.tab[Value(Xor(crc[..8], BitsOf(buf[i], 8)))], crc[8..] + Zeros(8));
    }
    crc := Xor(crc, final);
  }

  // ----- burst errors -----

  /** The highest bit of the polynomial is set. */
  predicate TopBit(poly: Bits) {
    |poly| > 0 && poly[|poly| - 1]
  }

  lemma TurnInjective(poly: Bits, a: Bits, b: Bits)
    requires |poly| == |a| == |b| > 0 && TopBit(poly) && Turn(poly, a) == Turn(poly, b)
    ensures a == b
  {
    var t := |poly| - 1;
    assert Turn(poly, a)[t] == a[0] && Turn(poly, b)[t] == b[0];
    forall i | 0 < i <= t ensures a[i] == b[i] {
      assert Turn(poly, a)[i - 1] == (if a[0] then poly[i - 1] != a[i] else a[i]);
      assert Turn(poly, b)[i - 1] == (if b[0] then poly[i - 1] != b[i] else b[i]);
    }
  }

  /** The register loses nothing exactly when the highest bit of the polynomial is set. */
  lemma TurnInjectiveIff(poly: Bits)
    requires |poly| > 0
    ensures TopBit(poly) <==>
            forall a: Bits, b: Bits :: |a| == |b| == |poly| && Turn(poly, a) == Turn(poly, b) ==> a == b
  {
    if TopBit(poly) {
      forall a: Bits, b: Bits | |a| == |b| == |poly| && Turn(poly, a) == Turn(poly, b) ensures a == b {
        TurnInjective(poly, a, b);
      }
    } else {
      var a, b := [true] + Zeros(|poly| - 1), [false] + poly[..|poly| - 1];
      assert Turn(poly, a) == poly;
      assert Turn(poly, b) == poly;
      assert a[0] != b[0];
    }
  }

  lemma {:induction false} TurnsInjective(poly: Bits, a: Bits, b: Bits, n: nat)
    requires |poly| == |a| == |b| > 0 && TopBit(poly) && Turns(poly, a, n) == Turns(poly, b, n)
    ensures a == b
    decreases n
  {
    if n > 0 {
      var a1, b1 := Turn(poly, a), Turn(poly, b);
      assert Turns(poly, a, n) == Turns(poly, a1, n - 1) && Turns(poly, b, n) == Turns(poly, b1, n - 1);
      TurnsInjective(poly, a1, b1, n - 1);
      TurnInjective(poly, a, b);
    }
  }

  lemma {:induction false} SerialInjective(poly: Bits, a: Bits, b: Bits, message: Bits)
    requires |poly| == |a| == |b| > 0 && TopBit(poly) && Serial(poly, a, message) == Serial(poly, b, message)
    ensures a == b
    decreases |message|
  {
    if message != [] {
      var m := message[0];
      var a1, b1 := a[0 := a[0] != m], b[0 := b[0] != m];
      SerialInjective(poly, Turn(poly, a1), Turn(poly, b1), message[1..]);
      TurnInjective(poly, a1, b1);
      assert a1[0] == b1[0];
      forall i | 0 <= i < |a| ensures a[i] == b[i] { assert i > 0 ==> a1[i] == b1[i]; }
    }
  }

  lemma WindowInjective(poly: Bits, s: Bits, x: Bits, y: Bits)
    requires |poly| == |s| && TopBit(poly) && |x| == |y| <= |s| && Serial(poly, s, x) == Serial(poly, s, y)
    ensures x == y
  {
    SerialIsTurns(poly, s, x);
    SerialIsTurns(poly, s, y);
    var p, q := Padded(x, |s|), Padded(y, |s|);
    TurnsInjective(poly, Xor(s, p), Xor(s, q), |x|);
    XorCancels(s, p, q);
    assert x == p[..|x|] && y == q[..|y|];
  }

  lemma XorCancels(s: Bits, p: Bits, q: Bits)
    requires |s| == |p| == |q| && Xor(s, p) == Xor(s, q)
    ensures p == q
  {
    forall i | 0 <= i < |s| ensures p[i] == q[i] { assert Xor(s, p)[i] == Xor(s, q)[i]; }
  }

  lemma SerialInThree(poly: Bits, c: Bits, front: Bits, x: Bits, back: Bits)
    requires |poly| == |c| > 0
    ensures Serial(poly, c, front + x + back) == Serial(poly, Serial(poly, Serial(poly, c, front), x), back)
  {
    SerialAppend(poly, c, front + x, back);
    SerialAppend(poly, c, front, x);
  }

  /** Two messages of the same length that differ only inside a window no longer than the
      register leave different registers: every burst error is detected. */
  lemma BurstDetected(poly: Bits, c: Bits, front: Bits, x: Bits, y: Bits, back: Bits)
    requires |poly| == |c| && TopBit(poly)
    requires |x| == |y| <= |c| && x != y
    ensures Serial(poly, c, front + x + back) != Serial(poly, c, front + y + back)
  {
    SerialInThree(poly, c, front, x, back);
    SerialInThree(poly, c, front, y, back);
    var s := Serial(poly, c, front);
    if Serial(poly, c, front + x + back) == Serial(poly, c, front + y + back) {
      SerialInjective(poly, Serial(poly, s, x), Serial(poly, s, y), back);
      WindowInjective(poly, s, x, y);
    }
  }

  // ----- CRC-32 -----

  const CRC32_IEEE: bv32 := 0xEDB88320

  /** The bits of a uint32_t. */
  function Word(v: bv32): (r: Bits)
    ensures |r| == 32
  {
    seq(32, i requires 0 <= i < 32 => BitAt(v, i))
  }

  predicate BitAt(v: bv32, i: nat)
    requires i < 32
  {
    (v >> i) & 1 == 1
  }

  /** makeCRC as CRC32IEEE instantiates it: 32 bits, all ones at the start and at the end. */
  function Crc32(buf: seq<Byte>): (r: Bits)
    ensures |r| == 32
  {
    Xor(Serial(Word(CRC32_IEEE), Word(0xFFFFFFFF), MessageBits(buf)), Word(0xFFFFFFFF))
  }

  lemma {:induction false} MessageBitsAppend(a: seq<Byte>, b: seq<Byte>)
    ensures MessageBits(a + b) == MessageBits(a) + MessageBits(b)
  {
    if a == [] {
      assert a + b == b;
    } else {
      assert (a + b)[1..] == a[1..] + b;
      MessageBitsAppend(a[1..], b);
    }
  }

  lemma {:induction false} BitsOfInjective(v: nat, u: nat, width: nat)
    requires v < Pow2(width) && u < Pow2(width) && BitsOf(v, width) == BitsOf(u, width)
    ensures v == u
  {
    if width > 0 {
      assert BitsOf(v, width)[0] == BitsOf(u, width)[0];
      assert BitsOf(v / 2, width - 1) == BitsOf(v, width)[1..] == BitsOf(u, width)[1..] == BitsOf(u / 2, width - 1);
      BitsOfInjective(v / 2, u / 2, width - 1);
    }
  }

  lemma {:induction false} MessageBitsInjective(a: seq<Byte>, b: seq<Byte>)
    requires |a| == |b| && MessageBits(a) == MessageBits(b)
    ensures a == b
  {
    if a != [] {
      assert Pow2(8) == 256;
      assert BitsOf(a[0], 8) == MessageBits(a)[..8] == MessageBits(b)[..8] == BitsOf(b[0], 8);
      BitsOfInjective(a[0], b[0], 8);
      assert MessageBits(a[1..]) == MessageBits(a)[8..] == MessageBits(b)[8..] == MessageBits(b[1..]);
      MessageBitsInjective(a[1..], b[1..]);
    }
  }

  /** The generator polynomial of clause 3.2.9 of IEEE 802.3, x^32 aside: the coefficient of
      x^e is bit 31 - e. */
  lemma Crc32Polynomial(e: nat)
    requires e < 32
    ensures Word(CRC32_IEEE)[31 - e] <==> e in {0, 1, 2, 4, 5, 7, 8, 10, 11, 12, 16, 22, 23, 26}
  {
    PolynomialLow(e);
    PolynomialHigh(e);
  }

  lemma PolynomialLow(e: nat)
    requires e < 32
    ensures e < 16 ==> (BitAt(CRC32_IEEE, 31 - e) <==> e in {0, 1, 2, 4, 5, 7, 8, 10, 11, 12})
  {
    assert BitAt(CRC32_IEEE, 31) && BitAt(CRC32_IEEE, 30) && BitAt(CRC32_IEEE, 29) && !BitAt(CRC32_IEEE, 28);
    assert BitAt(CRC32_IEEE, 27) && BitAt(CRC32_IEEE, 26) && !BitAt(CRC32_IEEE, 25) && BitAt(CRC32_IEEE, 24);
    assert BitAt(CRC32_IEEE, 23) && !BitAt(CRC32_IEEE, 22) && BitAt(CRC32_IEEE, 21) && BitAt(CRC32_IEEE, 20);
    assert BitAt(CRC32_IEEE, 19) && !BitAt(CRC32_IEEE, 18) && !BitAt(CRC32_IEEE, 17) && !BitAt(CRC32_IEEE, 16);
  }

  lemma PolynomialHigh(e: nat)
    requires e < 32
    ensures e >= 16 ==> (BitAt(CRC32_IEEE, 31 - e) <==> e in {16, 22, 23, 26})
  {
    assert BitAt(CRC32_IEEE, 15) && !BitAt(CRC32_IEEE, 14) && !BitAt(CRC32_IEEE, 13) && !BitAt(CRC32_IEEE, 12);
    assert !BitAt(CRC32_IEEE, 11) && !BitAt(CRC32_IEEE, 10) && BitAt(CRC32_IEEE, 9) && BitAt(CRC32_IEEE, 8);
    assert !BitAt(CRC32_IEEE, 7) && !BitAt(CRC32_IEEE, 6) && BitAt(CRC32_IEEE, 5) && !BitAt(CRC32_IEEE, 4);
    assert !BitAt(CRC32_IEEE, 3) && !BitAt(CRC32_IEEE, 2) && !BitAt(CRC32_IEEE, 1) && !BitAt(CRC32_IEEE, 0);
  }

  // ----- the check value of CRC-32 -----

  function TurnWord(v: bv32): bv32 {
    if v & 1 == 1 then CRC32_IEEE ^ (v >> 1) else v >> 1
  }

  function TurnWords(v: bv32, n: nat): bv32
    decreases n
  {
    if n == 0 then v else TurnWords(TurnWord(v), n - 1)
  }

  lemma ShiftAt(v: bv32, i: nat)
    requires i < 32
    ensures BitAt(v >> 1, i) <==> i < 31 && BitAt(v, i + 1)
  {
    if i < 31 { assert (v >> 1) >> i == v >> (i + 1); }
  }

  lemma XorAt(u: bv32, v: bv32, i: nat)
    requires i < 32
    ensures BitAt(u ^ v, i) <==> BitAt(u, i) != BitAt(v, i)
  {
    assert (u ^ v) >> i == (u >> i) ^ (v >> i);
  }

  lemma XorWord(u: bv32, v: bv32)
    ensures Xor(Word(u), Word(v)) == Word(u ^ v)
  {
    forall i | 0 <= i < 32 ensures Word(u ^ v)[i] == (Word(u)[i] != Word(v)[i]) { XorAt(u, v, i); }
  }

  lemma TurnOfWord(v: bv32)
    ensures Turn(Word(CRC32_IEEE), Word(v)) == Word(TurnWord(v))
  {
    assert BitAt(v, 0) <==> v & 1 == 1;
    forall i | 0 <= i < 32 ensures Shift(Word(v))[i] == Word(v >> 1)[i] { ShiftAt(v, i); }
    assert Shift(Word(v)) == Word(v >> 1);
    XorWord(CRC32_IEEE, v >> 1);
  }

  lemma {:induction false} TurnsOfWord(v: bv32, n: nat)
    ensures Turns(Word(CRC32_IEEE), Word(v), n) == Word(TurnWords(v, n))
    decreases n
  {
    if n > 0 {
      TurnOfWord(v);
      TurnsOfWord(TurnWord(v), n - 1);
    }
  }

  /** One more byte of a message: `w` is the byte as a word. */
  lemma ByteOfWord(v: bv32, b: Byte, w: bv32, rest: seq<Byte>)
    requires Padded(BitsOf(b, 8), 32) == Word(w)
    ensures Serial(Word(CRC32_IEEE), Word(v), MessageBits([b] + rest))
            == Serial(Word(CRC32_IEEE), Word(TurnWords(v ^ w, 8)), MessageBits(rest))
  {
    var poly := Word(CRC32_IEEE);
    assert ([b] + rest)[1..] == rest;
    SerialAppend(poly, Word(v), BitsOf(b, 8), MessageBits(rest));
    SerialIsTurns(poly, Word(v), BitsOf(b, 8));
    XorWord(v, w);
    TurnsOfWord(v ^ w, 8);
  }

  lemma NumberOf(a: bool, rest: Bits)
    ensures Value([a] + rest) == (if a then 1 else 0) + 2 * Value(rest)
  {
    assert ([a] + rest)[1..] == rest;
  }

  /** The digit dcba in ASCII as a byte and as a word. */
  lemma DigitWord(v: Byte, w: bv32, a: bool, b: bool, c: bool, d: bool)
    requires v == 0x30 + (if a then 1 else 0) + (if b then 2 else 0) + (if c then 4 else 0) + (if d then 8 else 0)
    requires w & 1 == (if a then 1 else 0) && w & 2 == (if b then 2 else 0) && w & 4 == (if c then 4 else 0)
    requires w & 8 == (if d then 8 else 0) && w & 0xFFFFFFF0 == 0x30
    ensures Padded(BitsOf(v, 8), 32) == Word(w)
  {
    DigitBits(v, a, b, c, d);
    LowBits(w);
    HighBits(w);
  }

  lemma DigitBits(v: Byte, a: bool, b: bool, c: bool, d: bool)
    requires v == 0x30 + (if a then 1 else 0) + (if b then 2 else 0) + (if c then 4 else 0) + (if d then 8 else 0)
    ensures BitsOf(v, 8) == [a, b, c, d, true, true, false, false]
  {
    var high := [true, true, false, false];
    var x := [a] + ([b] + ([c] + ([d] + high)));
    NumberOf(a, [b] + ([c] + ([d] + high)));
    NumberOf(b, [c] + ([d] + high));
    NumberOf(c, [d] + high);
    NumberOf(d, high);
    assert Value(high) == 3;
    ValueOfBits(x);
    assert x == [a, b, c, d, true, true, false, false];
  }

  lemma LowBits(w: bv32)
    ensures BitAt(w, 0) <==> w & 1 == 1
    ensures BitAt(w, 1) <==> w & 2 == 2
    ensures BitAt(w, 2) <==> w & 4 == 4
    ensures BitAt(w, 3) <==> w & 8 == 8
  {
  }

  lemma HighBits(w: bv32)
    requires w & 0xFFFFFFF0 == 0x30
    ensures forall i :: 4 <= i < 32 ==> (BitAt(w, i) <==> i < 6)
  {
    forall i | 4 <= i < 32 ensures BitAt(w, i) <==> i < 6 { HighBit(w, i); }
  }

  lemma HighBit(w: bv32, i: nat)
    requires w & 0xFFFFFFF0 == 0x30 && 4 <= i < 32
    ensures BitAt(w, i) <==> i < 6
  {
    assert ((w & 0xFFFFFFF0) >> i) & 1 == (w >> i) & 1;
  }

  /** A digit takes the register from `v` to `v'`. */
  lemma DigitStep(v: bv32, x: Byte, w: bv32, a: bool, b: bool, c: bool, d: bool, v': bv32, rest: seq<Byte>)
    requires x == 0x30 + (if a then 1 else 0) + (if b then 2 else 0) + (if c then 4 else 0) + (if d then 8 else 0)
    requires w & 1 == (if a then 1 else 0) && w & 2 == (if b then 2 else 0) && w & 4 == (if c then 4 else 0)
    requires w & 8 == (if d then 8 else 0) && w & 0xFFFFFFF0 == 0x30
    requires TurnWords(v ^ w, 8) == v'
    ensures Serial(Word(CRC32_IEEE), Word(v), MessageBits([x] + rest))
            == Serial(Word(CRC32_IEEE), Word(v'), MessageBits(rest))
  {
    DigitWord(x, w, a, b, c, d);
    ByteOfWord(v, x, w, rest);
  }

  lemma OneToThree(rest: seq<Byte>)
    ensures Serial(Word(CRC32_IEEE), Word(0xFFFFFFFF), MessageBits([0x31] + ([0x32] + ([0x33] + rest))))
            == Serial(Word(CRC32_IEEE), Word(0x77B79C2D), MessageBits(rest))
  {
    DigitStep(0xFFFFFFFF, 0x31, 0x31, true, false, false, false, 0x7C231048, [0x32] + ([0x33] + rest));
    DigitStep(0x7C231048, 0x32, 0x32, false, true, false, false, 0xB0ACBB32, [0x33] + rest);
    DigitStep(0xB0ACBB32, 0x33, 0x33, true, true, false, false, 0x77B79C2D, rest);
  }

  lemma FourToSix(rest: seq<Byte>)
    ensures Serial(Word(CRC32_IEEE), Word(0x77B79C2D), MessageBits([0x34] + ([0x35] + ([0x36] + rest))))
            == Serial(Word(CRC32_IEEE), Word(0xF68D2C9E), MessageBits(rest))
  {
    DigitStep(0x77B79C2D, 0x34, 0x34, false, false, true, false, 0x641C1F5C, [0x35] + ([0x36] + rest));
    DigitStep(0x641C1F5C, 0x35, 0x35, true, false, true, false, 0x340AC5E3, [0x36] + rest);
    DigitStep(0x340AC5E3, 0x36, 0x36, false, true, true, false, 0xF68D2C9E, rest);
  }

  lemma SevenToNine(rest: seq<Byte>)
    ensures Serial(Word(CRC32_IEEE), Word(0xF68D2C9E), MessageBits([0x37] + ([0x38] + ([0x39] + rest))))
            == Serial(Word(CRC32_IEEE), Word(0x340BC6D9), MessageBits(rest))
  {
    DigitStep(0xF68D2C9E, 0x37, 0x37, true, true, true, false, 0xAFFC9660, [0x38] + ([0x39] + rest));
    DigitStep(0xAFFC9660, 0x38, 0x38, false, false, false, true, 0x651F2550, [0x39] + rest);
    DigitStep(0x651F2550, 0x39, 0x39, true, false, false, true, 0x340BC6D9, rest);
  }

  /** The check value of CRC-32: the CRC of the digits 1 to 9. */
  lemma Crc32CheckValue(digits: seq<Byte>)
    requires digits == [0x31, 0x32, 0x33, 0x34, 0x35, 0x36, 0x37, 0x38, 0x39]
    ensures Crc32(digits) == Word(0xCBF43926)
  {
    assert digits == [0x31] + ([0x32] + ([0x33] + digits[3..]));
    assert digits[3..] == [0x34] + ([0x35] + ([0x36] + digits[6..]));
    assert digits[6..] == [0x37] + ([0x38] + ([0x39] + digits[9..]));
    OneToThree(digits[3..]);
    FourToSix(digits[6..]);
    SevenToNine(digits[9..]);
    XorWord(0x340BC6D9, 0xFFFFFFFF);
  }

  /** Messages of equal length that differ only inside four consecutive bytes have
      different CRC-32 values. */
  lemma Crc32DetectsFourBytes(front: seq<Byte>, x: seq<Byte>, y: seq<Byte>, back: seq<Byte>)
    requires |x| == |y| <= 4 && x != y
    ensures Crc32(front + x + back) != Crc32(front + y + back)
  {
    var poly, ones := Word(CRC32_IEEE), Word(0xFFFFFFFF);
    Crc32Polynomial(0);
    if MessageBits(x) == MessageBits(y) { MessageBitsInjective(x, y); }
    BurstDetected(poly, ones, MessageBits(front), MessageBits(x), MessageBits(y), MessageBits(back));
    MessageInThree(front, x, back);
    MessageInThree(front, y, back);
    XorDiffers(Serial(poly, ones, MessageBits(front + x + back)),
               Serial(poly, ones, MessageBits(front + y + back)), ones);
  }

  lemma MessageInThree(front: seq<Byte>, x: seq<Byte>, back: seq<Byte>)
    ensures MessageBits(front + x + back) == MessageBits(front) + MessageBits(x) + MessageBits(back)
  {
    MessageBitsAppend(front + x, back);
    MessageBitsAppend(front, x);
  }

  lemma XorDiffers(a: Bits, b: Bits, c: Bits)
    requires |a| == |b| == |c| && a != b
    ensures Xor(a, c) != Xor(b, c)
  {
    var i :| 0 <= i < |a| && a[i] != b[i];
    assert Xor(a, c)[i] != Xor(b, c)[i];
  }
}
