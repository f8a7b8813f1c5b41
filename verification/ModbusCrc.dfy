/**
 The CRC-16 of the Modbus reader (section 6.2.2 of the MODBUS over Serial Line Specification and
 Implementation Guide V1.02), and the request frames it is appended to.
 */
module ModbusCrc {
  import opened Common

  type Byte = b: bv16 | b <= 0xFF

  const INITIAL: bv16 := 0xFFFF

  /** One step of the shift register. */
  function Shift(c: bv16): bv16 {
    if c & 1 == 1 then (c >> 1) ^ 0xA001 else c >> 1
  }

  function ShiftN(c: bv16, n: nat): bv16
    decreases n
  {
    if n == 0 then c else ShiftN(Shift(c), n - 1)
  }

  function Update(c: bv16, b: Byte): bv16 {
    ShiftN(c ^ b, 8)
  }

  /** The register after the bytes of a frame. */
  function Crc(c: bv16, data: seq<Byte>): bv16 {
    if data == [] then c else Update(Crc(c, data[..|data| - 1]), data[|data| - 1])
  }

  function Crc16(data: seq<Byte>): bv16 {
    Crc(INITIAL, data)
  }

  /** The loops over bytes and bits compute it. */
  method ModbusCrc16(data: seq<Byte>) returns (crc: bv16)
    ensures crc == Crc16(data)
  {
    crc := 0xFFFF;
    var k := 0;
    while k < |data|
      invariant 0 <= k <= |data|
      invariant crc == Crc16(data[..k])
    {
      crc := ShiftInByte(crc, data[k]);
      assert data[..k + 1][..k] == data[..k];
      k := k + 1;
    }
    assert data[..k] == data;
  }

  method ShiftInByte(c: bv16, b: Byte) returns (crc: bv16)
    ensures crc == Update(c, b)
  {
    crc := c ^ b;
    var i := 0;
    while i < 8
      invariant 0 <= i <= 8
      invariant ShiftN(crc, 8 - i) == Update(c, b)
    {
      if crc & 1 == 1 {
        crc := (crc >> 1) ^ 0xA001;
      } else {
        crc := crc >> 1;
      }
      i := i + 1;
    }
  }

  // ------------------------------------------------------------ injectivity

  lemma ShiftInjective(x: bv16, y: bv16)
    requires Shift(x) == Shift(y)
    ensures x == y
  {
  }

  lemma {:induction false} ShiftNInjective(x: bv16, y: bv16, n: nat)
    requires ShiftN(x, n) == ShiftN(y, n)
    ensures x == y
    decreases n
  {
    if n > 0 {
      ShiftNInjective(Shift(x), Shift(y), n - 1);
      ShiftInjective(x, y);
    }
  }

  /** For a given byte the update is injective in the register, and for a given register in the byte. */
  lemma UpdateInjective(c1: bv16, b1: Byte, c2: bv16, b2: Byte)
    requires Update(c1, b1) == Update(c2, b2)
    ensures c1 ^ b1 == c2 ^ b2
    ensures b1 == b2 ==> c1 == c2
    ensures c1 == c2 ==> b1 == b2
  {
    ShiftNInjective(c1 ^ b1, c2 ^ b2, 8);
    XorInjective(c1, b1, c2, b2);
  }

  lemma XorInjective(c1: bv16, b1: bv16, c2: bv16, b2: bv16)
    requires c1 ^ b1 == c2 ^ b2
    ensures b1 == b2 ==> c1 == c2
    ensures c1 == c2 ==> b1 == b2
  {
  }

  // --------------------------------------------------------------- linearity

  ghost predicate IsXor(x: bv16, y: bv16, z: bv16) {
    z == x ^ y
  }

  lemma ShiftLinearBothOdd(x: bv16, y: bv16)
    requires x & 1 == 1 && y & 1 == 1
    ensures Shift(x ^ y) == Shift(x) ^ Shift(y)
  {
  }

  lemma ShiftLinearFirstOdd(x: bv16, y: bv16)
    requires x & 1 == 1 && y & 1 != 1
    ensures Shift(x ^ y) == Shift(x) ^ Shift(y)
  {
  }

  lemma ShiftLinearSecondOdd(x: bv16, y: bv16)
    requires x & 1 != 1 && y & 1 == 1
    ensures Shift(x ^ y) == Shift(x) ^ Shift(y)
  {
  }

  lemma ShiftLinearBothEven(x: bv16, y: bv16)
    requires x & 1 != 1 && y & 1 != 1
    ensures Shift(x ^ y) == Shift(x) ^ Shift(y)
  {
  }

  lemma ShiftLinear(x: bv16, y: bv16, z: bv16)
    requires IsXor(x, y, z)
    ensures IsXor(Shift(x), Shift(y), Shift(z))
  {
    if x & 1 == 1 {
      if y & 1 == 1 {
        ShiftLinearBothOdd(x, y);
      } else {
        ShiftLinearFirstOdd(x, y);
      }
    } else {
      if y & 1 == 1 {
        ShiftLinearSecondOdd(x, y);
      } else {
        ShiftLinearBothEven(x, y);
      }
    }
  }

  lemma {:induction false} ShiftNLinear(x: bv16, y: bv16, z: bv16, n: nat)
    requires IsXor(x, y, z)
    ensures IsXor(ShiftN(x, n), ShiftN(y, n), ShiftN(z, n))
    decreases n
  {
    hide Shift;
    hide IsXor;
    if n > 0 {
      ShiftLinear(x, y, z);
      ShiftNLinear(Shift(x), Shift(y), Shift(z), n - 1);
    }
  }

  lemma XorRegroup(x1: bv16, y1: bv16, z1: bv16, x2: bv16, y2: bv16, z2: bv16)
    requires IsXor(x1, y1, z1) && IsXor(x2, y2, z2)
    ensures IsXor(x1 ^ x2, y1 ^ y2, z1 ^ z2)
  {
  }

  lemma UpdateLinear(c1: bv16, b1: Byte, c2: bv16, b2: Byte, c3: bv16, b3: Byte)
    requires IsXor(c1, c2, c3) && IsXor(b1, b2, b3)
    ensures IsXor(Update(c1, b1), Update(c2, b2), Update(c3, b3))
  {
    hide ShiftN;
    hide IsXor;
    XorRegroup(c1, c2, c3, b1, b2, b3);
    ShiftNLinear(c1 ^ b1, c2 ^ b2, c3 ^ b3, 8);
  }

  /** The CRC of the sum of two frames is the sum of their CRCs. */
  lemma {:induction false} CrcLinear(c1: bv16, x: seq<Byte>, c2: bv16, y: seq<Byte>, c3: bv16, z: seq<Byte>)
    requires |x| == |y| == |z| && IsXor(c1, c2, c3)
    requires forall i :: 0 <= i < |x| ==> IsXor(x[i], y[i], z[i])
    ensures IsXor(Crc(c1, x), Crc(c2, y), Crc(c3, z))
    decreases |x|
  {
    hide Update;
    hide IsXor;
    if x != [] {
      var n := |x| - 1;
      CrcLinear(c1, x[..n], c2, y[..n], c3, z[..n]);
      UpdateLinear(Crc(c1, x[..n]), x[n], Crc(c2, y[..n]), y[n], Crc(c3, z[..n]), z[n]);
    }
  }

  // ------------------------------------------------------------------ residue

  function LowByte(w: bv16): Byte { w & 0xFF }

  function HighByte(w: bv16): Byte { w >> 8 }

  function Shift8(c: bv16): bv16 {
    Shift(Shift(Shift(Shift(Shift(Shift(Shift(Shift(c))))))))
  }

  lemma ShiftN8(c: bv16)
    ensures ShiftN(c, 8) == Shift8(c)
  {
    hide Shift;
    var c1 := Shift(c);
    var c2 := Shift(c1);
    var c3 := Shift(c2);
    var c4 := Shift(c3);
    assert ShiftN(c, 8) == ShiftN(c4, 4);
    assert ShiftN(c4, 4) == Shift(Shift(Shift(Shift(c4))));
  }

  lemma UpdateIsShift8(c: bv16, b: Byte, x: bv16)
    requires IsXor(c, b, x)
    ensures Update(c, b) == Shift8(x)
  {
    ShiftN8(x);
  }

  /** The values that a byte takes to less than 256 are those with a low byte of zero. */
  lemma Shift8Small(x: bv16)
    ensures Shift8(x) <= 0xFF <==> x & 0xFF == 0
    ensures x & 0xFF == 0 ==> Shift8(x) == x >> 8
  {
  }

  /** Two more bytes bring the register to zero exactly if they are its own low and high byte. */
  lemma ZeroAfterOwnBytes(c: bv16, lo: Byte, hi: Byte)
    ensures Update(Update(c, lo), hi) == 0 <==> lo == LowByte(c) && hi == HighByte(c)
  {
    hide Update;
    hide Shift8;
    var u := Update(c, lo);
    UpdateIsShift8(c, lo, c ^ lo);
    UpdateIsShift8(u, hi, u ^ hi);
    ZeroAfterOwnBytes8(c, lo, hi, u);
  }

  lemma ZeroAfterOwnBytes8(c: bv16, lo: Byte, hi: Byte, u: bv16)
    requires u == Shift8(c ^ lo)
    ensures Shift8(u ^ hi) == 0 <==> lo == LowByte(c) && hi == HighByte(c)
  {
    Shift8Small(c ^ lo);
    Shift8Zero(u ^ hi);
  }

  lemma Shift8Zero(x: bv16)
    ensures Shift8(x) == 0 <==> x == 0
  {
  }

  /** A frame followed by two bytes has CRC zero exactly if they are the CRC of the frame, low byte first. */
  lemma ResidueIsZero(frame: seq<Byte>, lo: Byte, hi: Byte)
    ensures Crc16(frame + [lo, hi]) == 0 <==> lo == LowByte(Crc16(frame)) && hi == HighByte(Crc16(frame))
  {
    hide Update;
    hide LowByte;
    hide HighByte;
    var once := frame + [lo];
    var twice := frame + [lo, hi];
    assert once[..|once| - 1] == frame && once[|once| - 1] == lo;
    assert twice[..|twice| - 1] == once && twice[|twice| - 1] == hi;
    assert Crc16(once) == Update(Crc16(frame), lo);
    assert Crc16(twice) == Update(Crc16(once), hi);
    ZeroAfterOwnBytes(Crc16(frame), lo, hi);
  }

  // ------------------------------------------------------------------- bursts

  lemma {:induction false} CrcConcat(c: bv16, x: seq<Byte>, y: seq<Byte>)
    ensures Crc(c, x + y) == Crc(Crc(c, x), y)
    decreases |y|
  {
    hide Update;
    if y == [] {
      assert x + y == x;
    } else {
      var n := |y| - 1;
      assert (x + y)[..|x + y| - 1] == x + y[..n];
      CrcConcat(c, x, y[..n]);
    }
  }

  /** Frames that agree from some point on have equal CRCs only if their registers agreed at that point. */
  lemma {:induction false} CrcInjective(c1: bv16, c2: bv16, data: seq<Byte>)
    requires Crc(c1, data) == Crc(c2, data)
    ensures c1 == c2
    decreases |data|
  {
    if data != [] {
      var n := |data| - 1;
      UpdateInjective(Crc(c1, data[..n]), data[n], Crc(c2, data[..n]), data[n]);
      CrcInjective(c1, c2, data[..n]);
    }
  }

  /** The low k bits. */
  function LowBits(k: nat): Byte
    requires k < 8
  {
    match k
    case 0 => 0
    case 1 => 1
    case 2 => 3
    case 3 => 7
    case 4 => 0xF
    case 5 => 0x1F
    case 6 => 0x3F
    case 7 => 0x7F
  }

  /** No bit below bit k is set. */
  predicate StartsAt(b: Byte, k: nat)
    requires k < 8
  {
    b & LowBits(k) == 0
  }

  /** No bit from bit k on is set. */
  predicate EndsBefore(b: Byte, k: nat)
    requires k < 8
  {
    b <= LowBits(k)
  }

  /** A burst of at most 16 bits, from bit k of the first byte on, does not leave the register at zero. */
  lemma BurstIsVisible(b0: Byte, b1: Byte, b2: Byte, u: bv16, v: bv16, k: nat)
    requires k < 8 && StartsAt(b0, k) && EndsBefore(b2, k)
    requires u == Shift8(b0) && v == Shift8(u ^ b1) && Shift8(v ^ b2) == 0
    ensures b0 == 0 && b1 == 0 && b2 == 0
  {
  }

  lemma UpdatesSeeBurst(b0: Byte, b1: Byte, b2: Byte, k: nat)
    requires k < 8 && StartsAt(b0, k) && EndsBefore(b2, k)
    requires Update(Update(Update(0, b0), b1), b2) == 0
    ensures b0 == 0 && b1 == 0 && b2 == 0
  {
    hide Update;
    hide Shift8;
    hide StartsAt;
    hide EndsBefore;
    var u := Update(0, b0);
    var v := Update(u, b1);
    UpdateIsShift8(0, b0, b0);
    UpdateIsShift8(u, b1, u ^ b1);
    UpdateIsShift8(v, b2, v ^ b2);
    BurstIsVisible(b0, b1, b2, u, v, k);
  }

  /** The k-th byte of a frame, zero behind its end. */
  function At(data: seq<Byte>, k: nat): Byte {
    if k < |data| then data[k] else 0
  }

  /** The sum of two frames. */
  function Sum(x: seq<Byte>, y: seq<Byte>): (z: seq<Byte>)
    requires |x| == |y|
    ensures |z| == |x| && forall i :: 0 <= i < |x| ==> IsXor(x[i], y[i], z[i])
  {
    if x == [] then []
    else
      var n := |x| - 1;
      Sum(x[..n], y[..n]) + [SumByte(x[n], y[n])]
  }

  function SumByte(a: Byte, b: Byte): (r: Byte)
    ensures IsXor(a, b, r)
    ensures r == 0 <==> a == b
  {
    a ^ b
  }

  /** The two frames differ at most in a burst of 16 bits: from bit k of byte i to bit k - 1 of byte i + 2. */
  ghost predicate DifferInBurst(x: seq<Byte>, y: seq<Byte>, i: nat, k: nat)
    requires |x| == |y| && k < 8
  {
    && (forall j :: 0 <= j < |x| && !(i <= j <= i + 2) ==> x[j] == y[j])
    && StartsAt(SumByte(At(x, i), At(y, i)), k)
    && EndsBefore(SumByte(At(x, i + 2), At(y, i + 2)), k)
  }

  ghost predicate AllZero(data: seq<Byte>) {
    forall j :: 0 <= j < |data| ==> data[j] == 0
  }

  lemma {:induction false} ZerosChangeNothing(data: seq<Byte>)
    requires AllZero(data)
    ensures Crc(0, data) == 0
    decreases |data|
  {
    if data != [] {
      var n := |data| - 1;
      ZerosChangeNothing(data[..n]);
      ShiftN8(0);
    }
  }

  /** A burst between zeros leaves its mark. */
  lemma BurstSurvives(z: seq<Byte>, i: nat, k: nat)
    requires k < 8 && Crc(0, z) == 0
    requires forall j :: 0 <= j < |z| && !(i <= j <= i + 2) ==> z[j] == 0
    requires StartsAt(At(z, i), k) && EndsBefore(At(z, i + 2), k)
    ensures AllZero(z)
  {
    hide StartsAt;
    hide EndsBefore;
    hide Update;
    if i < |z| {
      var a := z[..i];
      var b := z[i..];
      assert z == a + b;
      CrcConcat(0, a, b);
      ZerosChangeNothing(a);
      BurstAtStart(b, k);
      assert forall j :: i <= j < |z| ==> z[j] == b[j - i];
    }
  }

  lemma BurstAtStart(z: seq<Byte>, k: nat)
    requires k < 8 && |z| > 0 && Crc(0, z) == 0
    requires forall j :: 3 <= j < |z| ==> z[j] == 0
    requires StartsAt(z[0], k) && EndsBefore(At(z, 2), k)
    ensures AllZero(z)
  {
    hide StartsAt;
    hide EndsBefore;
    hide Update;
    var padded := z + [0, 0];
    CrcConcat(0, z, [0, 0]);
    ZerosChangeNothing([0, 0]);
    var head := [padded[0], padded[1], padded[2]];
    var tail := padded[3..];
    assert padded == head + tail;
    CrcConcat(0, head, tail);
    ZerosChangeNothing(tail);
    CrcInjective(Crc(0, head), 0, tail);
    CrcOfThree(head);
    UpdatesSeeBurst(head[0], head[1], head[2], k);
    forall j | 0 <= j < |z| ensures z[j] == 0 {
      assert z[j] == padded[j];
    }
  }

  lemma CrcOfThree(head: seq<Byte>)
    requires |head| == 3
    ensures Crc(0, head) == Update(Update(Update(0, head[0]), head[1]), head[2])
  {
    hide Update;
    assert head[..2][..1] == head[..1] && head[..1][..0] == [];
    assert Crc(0, head[..1]) == Update(0, head[0]);
    assert Crc(0, head[..2]) == Update(Crc(0, head[..1]), head[1]);
  }

  /** Two different frames of equal length that differ in a burst of at most 16 bits have different CRCs. */
  lemma BurstDetected(x: seq<Byte>, y: seq<Byte>, i: nat, k: nat)
    requires |x| == |y| && k < 8 && DifferInBurst(x, y, i, k)
    ensures Crc16(x) == Crc16(y) <==> x == y
  {
    if Crc16(x) == Crc16(y) {
      var z := Sum(x, y);
      CrcLinear(INITIAL, x, INITIAL, y, 0, z);
      XorZero(Crc16(x), Crc(0, z));
      forall j | 0 <= j < |x| ensures z[j] == SumByte(x[j], y[j]) {}
      BurstSurvives(z, i, k);
      forall j | 0 <= j < |x| ensures x[j] == y[j] {
        assert z[j] == 0;
        assert SumByte(x[j], y[j]) == 0;
      }
    }
  }

  lemma XorZero(x: bv16, z: bv16)
    requires IsXor(x, x, z)
    ensures z == 0
  {
  }

  /** In particular two adjacent bytes cannot change unnoticed. */
  lemma AdjacentBytesDetected(before: seq<Byte>, a: Byte, b: Byte, c: Byte, d: Byte, after: seq<Byte>)
    ensures Crc16(before + [a, b] + after) == Crc16(before + [c, d] + after) <==> a == c && b == d
  {
    var x, y := before + [a, b] + after, before + [c, d] + after;
    var i := |before|;
    assert x[i] == a && x[i + 1] == b && y[i] == c && y[i + 1] == d;
    assert At(x, i + 2) == At(y, i + 2);
    NoLowBits(SumByte(a, c));
    BurstDetected(x, y, i, 0);
  }

  lemma NoLowBits(b: Byte)
    ensures StartsAt(b, 0)
  {
  }

  // ------------------------------------------------------------------- parity

  predicate EndsInOne(w: bv16) {
    w & 1 == 1
  }

  function Half(w: bv16): (h: bv16)
    ensures w != 0 ==> h < w
  {
    w >> 1
  }

  /** The number of bits that are set. */
  function CountBits(w: bv16): nat
    decreases w
  {
    if w == 0 then 0 else CountBits(Half(w)) + if EndsInOne(w) then 1 else 0
  }

  predicate IsOdd(w: bv16) {
    CountBits(w) % 2 == 1
  }

  lemma OddStep(w: bv16)
    ensures IsOdd(w) <==> IsOdd(Half(w)) != EndsInOne(w)
  {
  }

  lemma HalvesOfSum(x: bv16, y: bv16, z: bv16)
    requires IsXor(x, y, z)
    ensures IsXor(Half(x), Half(y), Half(z))
    ensures EndsInOne(z) <==> EndsInOne(x) != EndsInOne(y)
    ensures x == 0 ==> z == y
  {
  }

  lemma {:induction false} ParityOfSum(x: bv16, y: bv16, z: bv16)
    requires IsXor(x, y, z)
    ensures IsOdd(z) <==> IsOdd(x) != IsOdd(y)
    decreases x
  {
    hide IsOdd, IsXor, Half, EndsInOne;
    HalvesOfSum(x, y, z);
    if x == 0 {
      NothingIsEven();
    } else {
      ParityOfSum(Half(x), Half(y), Half(z));
      OddStep(x);
      OddStep(y);
      OddStep(z);
    }
  }

  lemma PolynomialIsOdd()
    ensures IsOdd(0xA001)
  {
    assert CountBits(5) == 2;
    assert CountBits(0x28) == 2;
    assert CountBits(0x140) == 2;
    assert CountBits(0xA00) == 2;
    assert CountBits(0x5000) == 2;
  }

  /** The bit that is shifted out makes up for the three bits that are added. */
  lemma ShiftKeepsParity(c: bv16)
    ensures IsOdd(Shift(c)) <==> IsOdd(c)
  {
    hide IsOdd;
    OddStep(c);
    PolynomialIsOdd();
    ParityOfSum(Half(c), 0xA001, Half(c) ^ 0xA001);
  }

  lemma {:induction false} ShiftNKeepsParity(c: bv16, n: nat)
    ensures IsOdd(ShiftN(c, n)) <==> IsOdd(c)
    decreases n
  {
    hide Shift, IsOdd;
    if n > 0 {
      ShiftKeepsParity(c);
      ShiftNKeepsParity(Shift(c), n - 1);
    }
  }

  lemma UpdateParity(c: bv16, b: Byte)
    ensures IsOdd(Update(c, b)) <==> IsOdd(c) != IsOdd(b)
  {
    hide IsOdd, ShiftN;
    ParityOfSum(c, b, c ^ b);
    ShiftNKeepsParity(c ^ b, 8);
  }

  /** The number of bits in which two frames differ. */
  function DifferingBits(x: seq<Byte>, y: seq<Byte>): nat
    requires |x| == |y|
  {
    if x == [] then 0
    else
      var n := |x| - 1;
      DifferingBits(x[..n], y[..n]) + CountBits(SumByte(x[n], y[n]))
  }

  lemma OddSum(a: nat, b: nat)
    ensures (a + b) % 2 == 1 <==> (a % 2 == 1) != (b % 2 == 1)
  {
  }

  lemma {:induction false} CrcParity(x: seq<Byte>, y: seq<Byte>, z: seq<Byte>)
    requires |x| == |y| && z == Sum(x, y)
    ensures IsOdd(Crc(0, z)) <==> DifferingBits(x, y) % 2 == 1
    decreases |x|
  {
    hide CountBits, Update, SumByte, IsXor;
    if x == [] {
      NothingIsEven();
    } else {
      var n := |x| - 1;
      CrcParity(x[..n], y[..n], z[..n]);
      UpdateParity(Crc(0, z[..n]), z[n]);
      OddSum(DifferingBits(x[..n], y[..n]), CountBits(z[n]));
    }
  }

  lemma NothingIsEven()
    ensures !IsOdd(0)
  {
  }

  /** Two frames of equal length that differ in an odd number of bits have different CRCs. */
  lemma OddErrorsDetected(x: seq<Byte>, y: seq<Byte>)
    requires |x| == |y| && DifferingBits(x, y) % 2 == 1
    ensures Crc16(x) != Crc16(y)
  {
    hide IsOdd;
    if Crc16(x) == Crc16(y) {
      var z := Sum(x, y);
      CrcLinear(INITIAL, x, INITIAL, y, 0, z);
      XorZero(Crc16(x), Crc(0, z));
      CrcParity(x, y, z);
      NothingIsEven();
    }
  }

  // ------------------------------------------------------------ request frames

  /**
   A request for input registers (function 0x04): the CRC of the whole frame is zero, and its fields can be read
   back.
   */
  method BuildReadInputRegister(device: Byte, startReg: bv16, quantity: bv16) returns (frame: seq<Byte>)
    ensures |frame| == 8 && Crc16(frame) == 0
    ensures frame[0] == device && frame[1] == 4
    ensures Join(frame[2], frame[3]) == startReg && Join(frame[4], frame[5]) == quantity
  {
    frame := [];
    frame := frame + [device];
    frame := frame + [0x04];
    frame := frame + [HighByte(startReg)];
    frame := frame + [LowByte(startReg)];
    frame := frame + [HighByte(quantity)];
    frame := frame + [LowByte(quantity)];
    var crc := ModbusCrc16(frame);
    ghost var body := frame;
    frame := frame + [LowByte(crc)];
    frame := frame + [HighByte(crc)];
    assert frame == body + [LowByte(crc), HighByte(crc)];
    ResidueIsZero(body, LowByte(crc), HighByte(crc));
    BytesJoin(startReg);
    BytesJoin(quantity);
  }

  /** A register as the receiver puts it together. */
  function Join(high: bv16, low: bv16): bv16 { (high << 8) | low }

  lemma BytesJoin(w: bv16)
    ensures Join(HighByte(w), LowByte(w)) == w
  {
  }

  /** A response is taken if it is long enough and answers the request; its CRC is not looked at. */
  method ParseResponse(buffer: seq<Byte>, device: Byte) returns (value: Option<bv16>)
    ensures value.Some? <==> |buffer| >= 7 && buffer[0] == device && buffer[1] == 4
    ensures value.Some? ==> HighByte(value.value) == buffer[3] && LowByte(value.value) == buffer[4]
  {
    if |buffer| < 7 {
      return None;
    }
    if buffer[0] != device || buffer[1] != 0x04 {
      return None;
    }
    JoinSplits(buffer[3], buffer[4]);
    return Some(Join(buffer[3], buffer[4]));
  }

  /** A register that is changed on the way is taken, although the CRC would tell. */
  method CorruptResponseIsTaken(device: Byte, high: Byte, low: Byte, otherHigh: Byte, otherLow: Byte)
    returns (sent: seq<Byte>, received: seq<Byte>, value: Option<bv16>)
    requires high != otherHigh || low != otherLow
    ensures Crc16(sent) == 0 && Crc16(received) != 0
    ensures value.Some? && (HighByte(value.value) != high || LowByte(value.value) != low)
  {
    hide Crc, HighByte, LowByte;
    var head := [device, 4, 2];
    var crc := ModbusCrc16(head + [high, low]);
    var tail := [LowByte(crc), HighByte(crc)];
    sent := head + [high, low] + tail;
    received := head + [otherHigh, otherLow] + tail;
    ResidueIsZero(head + [high, low], LowByte(crc), HighByte(crc));
    AdjacentBytesDetected(head, high, low, otherHigh, otherLow, tail);
    value := ParseResponse(received, device);
  }

  lemma JoinSplits(high: Byte, low: Byte)
    ensures HighByte(Join(high, low)) == high && LowByte(Join(high, low)) == low
  {
  }
}
