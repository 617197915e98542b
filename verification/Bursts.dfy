/** Errors confined to consecutive bits in transmission order, least significant bit of a byte first. */
module Bursts {
  import opened Wire
  import opened ShiftRegisters
  import opened Crc32

  // ----- bits -----

  function Mask(k: nat): bv8
    requires k < 8
  {
    match k
    case 0 => 0x01
    case 1 => 0x02
    case 2 => 0x04
    case 3 => 0x08
    case 4 => 0x10
    case 5 => 0x20
    case 6 => 0x40
    case _ => 0x80
  }

  function Difference(a: byte, b: byte): bv8 { Narrow(a) ^ Narrow(b) }

  predicate BitDiffers(a: byte, b: byte, k: nat)
    requires k < 8
  {
    Difference(a, b) & Mask(k) != 0
  }

  predicate DiffersAt(a: seq<byte>, b: seq<byte>, n: nat)
    requires |a| == |b| && n < 8 * |a|
  {
    BitDiffers(a[n / 8], b[n / 8], n % 8)
  }

  /** Strings of equal length that differ, and only within the `width` bits from bit `p` on. */
  predicate DifferWithin(a: seq<byte>, b: seq<byte>, p: nat, width: nat)
  {
    |a| == |b| && a != b && forall n :: 0 <= n < 8 * |a| && DiffersAt(a, b, n) ==> p <= n < p + width
  }

  // ----- shifts of a register -----

  function Double(w: bv32): bv32 { w << 1 }

  predicate IsOdd(w: bv32) { w & 1 != 0 }
  predicate IsTop(w: bv32) { w & 0x8000_0000 != 0 }

  /** The low `k` bits are zero. */
  predicate LowZero(w: bv32, k: nat)
    decreases k
  {
    k == 0 || (!IsOdd(w) && LowZero(Half(w), k - 1))
  }

  /** The high `k` bits are zero. */
  predicate HighZero(w: bv32, k: nat)
    decreases k
  {
    k == 0 || (!IsTop(w) && HighZero(Double(w), k - 1))
  }

  lemma EvenShift(w: bv32)
    ensures !IsOdd(w) ==> Shift(w) == Half(w)
  {
    if !IsOdd(w) {
      assert 0xEDB88320 & (0 - (w & 1)) == 0;
      assert (w >> 1) ^ 0 == w >> 1;
    }
  }

  lemma ShiftDouble(w: bv32)
    ensures !IsTop(w) ==> Shift(Double(w)) == w
  {
  }

  lemma {:induction false} IterateAdds<R>(f: R -> R, r: R, m: nat, n: nat)
    ensures Iterate(f, Iterate(f, r, m), n) == Iterate(f, r, m + n)
    decreases m
  {
    if m == 0 {
    } else {
      IterateAdds(f, f(r), m - 1, n);
    }
  }

  /** Zeros at the low end fall out without touching the rest. */
  lemma {:induction false} ShiftsOut(w: bv32, k: nat)
    requires LowZero(w, k)
    ensures Iterate(Shift, w, k) == Iterate(Half, w, k)
    decreases k
  {
    hide Shift, Half, IsOdd;
    if k == 0 {
    } else {
      EvenShift(w);
      ShiftsOut(Half(w), k - 1);
    }
  }

  /** Room at the high end lets a register be moved up and shifted back. */
  lemma {:induction false} ShiftsBack(w: bv32, k: nat)
    requires HighZero(w, k)
    ensures Iterate(Shift, Iterate(Double, w, k), k) == w
    decreases k
  {
    hide Shift, Double, IsTop;
    if k == 0 {
    } else {
      ShiftsBack(Double(w), k - 1);
      IterateAdds(Shift, Iterate(Double, w, k), k - 1, 1);
      assert Iterate(Shift, Double(w), 1) == Shift(Double(w));
      ShiftDouble(w);
    }
  }

  lemma {:induction false} HighZeroAdds(w: bv32, k: nat, n: nat)
    ensures HighZero(w, k + n) <==> HighZero(w, k) && HighZero(Iterate(Double, w, k), n)
    decreases k
  {
    hide Double, IsTop;
    if k == 0 {
    } else {
      HighZeroAdds(Double(w), k - 1, n);
    }
  }

  lemma {:induction false} LowZeroMeans(w: bv32, k: nat)
    ensures (forall i :: 0 <= i < k ==> !IsOdd(Iterate(Half, w, i))) ==> LowZero(w, k)
    decreases k
  {
    hide Half, IsOdd;
    if k == 0 {
    } else if forall i :: 0 <= i < k ==> !IsOdd(Iterate(Half, w, i)) {
      assert !IsOdd(Iterate(Half, w, 0));
      forall i | 0 <= i < k - 1 ensures !IsOdd(Iterate(Half, Half(w), i)) {
        assert !IsOdd(Iterate(Half, w, i + 1));
      }
      LowZeroMeans(Half(w), k - 1);
    }
  }

  lemma {:induction false} HighZeroMeans(w: bv32, k: nat)
    ensures (forall i :: 0 <= i < k ==> !IsTop(Iterate(Double, w, i))) ==> HighZero(w, k)
    decreases k
  {
    hide Double, IsTop;
    if k == 0 {
    } else if forall i :: 0 <= i < k ==> !IsTop(Iterate(Double, w, i)) {
      assert !IsTop(Iterate(Double, w, 0));
      forall i | 0 <= i < k - 1 ensures !IsTop(Iterate(Double, Double(w), i)) {
        assert !IsTop(Iterate(Double, w, i + 1));
      }
      HighZeroMeans(Double(w), k - 1);
    }
  }

  // ----- room at the high end -----

  predicate IsPart(v: bv32, w: bv32) { v & w == v }

  lemma PartStep(v: bv32, w: bv32)
    requires IsPart(v, w)
    ensures (IsTop(v) ==> IsTop(w)) && IsPart(Double(v), Double(w))
  {
    if IsTop(v) { PartTop(v, w); }
    PartDouble(v, w);
  }

  lemma PartTop(v: bv32, w: bv32)
    requires v & w == v && v & 0x8000_0000 != 0
    ensures w & 0x8000_0000 != 0
  {
  }

  lemma PartDouble(v: bv32, w: bv32)
    requires v & w == v
    ensures (v << 1) & (w << 1) == v << 1
  {
  }

  lemma {:induction false} PartZero(v: bv32, w: bv32, k: nat)
    requires IsPart(v, w) && HighZero(w, k)
    ensures HighZero(v, k)
    decreases k
  {
    hide Double, IsTop, IsPart;
    if k == 0 {
    } else {
      PartStep(v, w);
      PartZero(Double(v), Double(w), k - 1);
    }
  }

  lemma HalfStep(w: bv32)
    ensures !IsTop(Half(w)) && IsPart(Double(Half(w)), w)
  {
    assert ((w >> 1) << 1) & w == (w >> 1) << 1;
  }

  /** Every bit shifted out at the low end leaves room for one at the high end. */
  lemma {:induction false} HalvesRoom(w: bv32, k: nat)
    ensures HighZero(Iterate(Half, w, k), k)
    decreases k
  {
    hide Half, Double, IsTop, IsPart;
    if k == 0 {
    } else {
      var v := Iterate(Half, w, k - 1);
      HalvesRoom(w, k - 1);
      IterateAdds(Half, w, k - 1, 1);
      assert Iterate(Half, v, 1) == Half(v);
      HalfStep(v);
      PartZero(Double(Half(v)), v, k - 1);
    }
  }

  lemma DoubleByte(w: bv32)
    ensures Iterate(Double, w, 8) == Up(w)
  {
    hide Double, Up;
    Iterate8(Double, w);
    EightDoubles(w);
  }

  lemma EightDoubles(w: bv32)
    ensures Double(Double(Double(Double(Double(Double(Double(Double(w)))))))) == Up(w)
  {
  }

  lemma AllOut(w: bv32)
    ensures Up(Up(Up(Up(w)))) == 0
  {
  }

  lemma {:induction false} ZeroStays(k: nat)
    ensures Iterate(Shift, 0, k) == 0
    decreases k
  {
    hide Shift;
    if k == 0 {
    } else {
      ShiftZero();
      ZeroStays(k - 1);
    }
  }

  lemma ShiftZero()
    ensures Shift(0) == 0
  {
  }

  /** Only zero has room for a whole register. */
  lemma Vanishes(w: bv32)
    requires HighZero(w, 32)
    ensures w == 0
  {
    hide Double, Shift, HighZero, Up, Iterate;
    ShiftsBack(w, 32);
    IterateAdds(Double, w, 8, 8);
    IterateAdds(Double, w, 16, 8);
    IterateAdds(Double, w, 24, 8);
    DoubleByte(w);
    DoubleByte(Up(w));
    DoubleByte(Up(Up(w)));
    DoubleByte(Up(Up(Up(w))));
    AllOut(w);
    ZeroStays(32);
  }

  lemma SameRegister(a: bv32, b: bv32, k: nat)
    requires Iterate(Shift, a, k) == Iterate(Shift, b, k)
    ensures a == b
  {
    hide Shift;
    forall x: bv32, y: bv32 ensures Shift(x) == Shift(y) ==> x == y {
      if Shift(x) == Shift(y) { ShiftInjective(x, y); }
    }
    IterateInjective(Shift, a, b, k);
  }

  /** A difference whose low `j` bits are zero is not turned by 32 shifts into one of at most `j` bits. */
  lemma NothingCancels(d: bv32, e: bv32, j: nat)
    requires j <= 32 && LowZero(d, j) && HighZero(e, 32 - j) && Iterate(Shift, d, 32) == e
    ensures d == 0 && e == 0
  {
    hide Shift, Half, Double, LowZero, HighZero, Iterate;
    var low, high := Iterate(Half, d, j), Iterate(Double, e, 32 - j);
    ShiftsOut(d, j);
    IterateAdds(Shift, d, j, 32 - j);
    ShiftsBack(e, 32 - j);
    SameRegister(low, high, 32 - j);
    HalvesRoom(d, j);
    HighZeroAdds(e, 32 - j, j);
    Vanishes(e);
    ZeroStays(32);
    SameRegister(d, 0, 32);
  }

  // ----- the bits of a byte in a register -----

  predicate Touches(w: bv32, m: bv32) { w & m != 0 }

  lemma HalfTouches(w: bv32, m: bv32)
    requires !IsTop(m)
    ensures Touches(Half(w), m) <==> Touches(w, Double(m))
  {
  }

  lemma DoubleTouches(w: bv32, m: bv32)
    requires !IsOdd(m)
    ensures Touches(Double(w), m) <==> Touches(w, Half(m))
  {
  }

  function LowMask(i: nat): bv32
    requires i < 8
  {
    Widen(Mask(i))
  }

  function HighMask(i: nat): bv32
    requires i < 8
  {
    Up(Up(Up(Widen(Mask(i)))))
  }

  lemma MaskSteps(i: nat)
    requires i < 7
    ensures Double(LowMask(i)) == LowMask(i + 1) && !IsTop(LowMask(i))
    ensures Half(HighMask(i + 1)) == HighMask(i) && !IsOdd(HighMask(i + 1))
  {
  }

  lemma MaskEnds()
    ensures LowMask(0) == 1 && HighMask(7) == 0x8000_0000
  {
  }

  lemma {:induction false} OddBit(w: bv32, i: nat, k: nat)
    requires i + k < 8
    ensures Touches(Iterate(Half, w, i), LowMask(k)) <==> Touches(w, LowMask(k + i))
    decreases i
  {
    hide Half, Double, LowMask, Touches, IsTop;
    if i == 0 {
    } else {
      OddBit(Half(w), i - 1, k);
      MaskSteps(k + i - 1);
      HalfTouches(w, LowMask(k + i - 1));
    }
  }

  lemma {:induction false} TopBit(w: bv32, i: nat, k: nat)
    requires i <= k < 8
    ensures Touches(Iterate(Double, w, i), HighMask(k)) <==> Touches(w, HighMask(k - i))
    decreases i
  {
    hide Half, Double, HighMask, Touches, IsOdd;
    if i == 0 {
    } else {
      TopBit(Double(w), i - 1, k);
      MaskSteps(k - i);
      DoubleTouches(w, HighMask(k - i + 1));
    }
  }

  lemma MaskLow(z: bv8, u: bv32, m: bv8)
    ensures Touches(Xor(Widen(z), Up(u)), Widen(m)) <==> z & m != 0
  {
  }

  lemma MaskHigh(z: bv8, m: bv8)
    ensures Touches(Up(Up(Up(Widen(z)))), Up(Up(Up(Widen(m))))) <==> z & m != 0
  {
  }

  /** Bytes that agree in their low bits give a difference that is zero there. */
  lemma LowAgree(z: bv8, u: bv32, j: nat)
    requires j <= 8 && forall k :: 0 <= k < j ==> z & Mask(k) == 0
    ensures LowZero(Xor(Widen(z), Up(u)), j)
  {
    hide Half, Touches, Xor, Widen, Up, Mask;
    var d := Xor(Widen(z), Up(u));
    forall i | 0 <= i < j ensures !IsOdd(Iterate(Half, d, i)) {
      OddBit(d, i, 0);
      MaskLow(z, u, Mask(i));
      OddTouches(Iterate(Half, d, i));
    }
    LowZeroMeans(d, j);
  }

  lemma OddTouches(w: bv32)
    ensures IsOdd(w) <==> Touches(w, LowMask(0))
    ensures IsTop(w) <==> Touches(w, HighMask(7))
  {
    hide LowMask, HighMask;
    MaskEnds();
  }

  /** Bytes that agree in their high bits give a difference with room there, and 24 bits more. */
  lemma HighAgree(z: bv8, j: nat)
    requires j <= 8 && forall k :: j <= k < 8 ==> z & Mask(k) == 0
    ensures HighZero(Widen(z), 32 - j)
  {
    hide Double, Touches, Widen, Up, Mask, HighZero, IsTop, Iterate;
    var w := Up(Up(Up(Widen(z))));
    ByteRoom(z);
    forall i | 0 <= i < 8 - j ensures !IsTop(Iterate(Double, w, i)) {
      TopBit(w, i, 7);
      MaskHigh(z, Mask(7 - i));
      OddTouches(Iterate(Double, w, i));
    }
    HighZeroMeans(w, 8 - j);
    HighZeroAdds(Widen(z), 24, 8 - j);
  }

  lemma ByteRoom(z: bv8)
    ensures HighZero(Widen(z), 24) && Iterate(Double, Widen(z), 24) == Up(Up(Up(Widen(z))))
  {
    hide Double, Widen, Up, HighZero, IsTop, Iterate, Fits;
    var w := Widen(z);
    ByteFits(z);
    RoomForByte(w);
    RoomForByte(Up(w));
    RoomForByte(Up(Up(w)));
    HighZeroAdds(w, 8, 8);
    HighZeroAdds(w, 16, 8);
    IterateAdds(Double, w, 8, 8);
    IterateAdds(Double, w, 16, 8);
    DoubleByte(w);
    DoubleByte(Up(w));
    DoubleByte(Up(Up(w)));
  }

  lemma ByteFits(z: bv8)
    ensures Fits(3, Widen(z)) && Fits(3, Up(Widen(z))) && Fits(3, Up(Up(Widen(z))))
  {
  }

  lemma RoomForByte(w: bv32)
    requires Fits(3, w)
    ensures HighZero(w, 8)
  {
    hide Double, IsTop, HighZero, Touches;
    forall i | 0 <= i < 8 ensures !IsTop(Iterate(Double, w, i)) {
      TopBit(w, i, 7);
      NotHigh(w, 7 - i);
      OddTouches(Iterate(Double, w, i));
    }
    HighZeroMeans(w, 8);
  }

  lemma NotHigh(w: bv32, i: nat)
    requires Fits(3, w) && i < 8
    ensures !Touches(w, HighMask(i))
  {
    hide Mask;
    HighOnly(w, Mask(i));
  }

  lemma HighOnly(w: bv32, m: bv8)
    requires Fits(3, w)
    ensures !Touches(w, Up(Up(Up(Widen(m)))))
  {
  }

  // ----- five bytes -----

  lemma {:induction false} ClocksAreShifts(w: bv32, n: nat)
    ensures Iterate(Clock, w, n) == Iterate(Shift, w, 8 * n)
    decreases n
  {
    hide Shift;
    if n == 0 {
    } else {
      ClocksAreShifts(Clock(w), n - 1);
      IterateAdds(Shift, w, 8, 8 * (n - 1));
    }
  }

  lemma XorSelf(r: bv32, a: bv32, b: bv32)
    ensures Xor(Xor(r, a), Xor(r, b)) == Xor(a, b)
  {
    assert (r ^ a) ^ (r ^ b) == a ^ b;
  }

  lemma XorMove(a: bv32, b: bv32, x: bv32, y: bv32)
    requires Xor(a, x) == Xor(b, y)
    ensures Xor(a, b) == Xor(x, y)
  {
    hide Xor;
    XorInterchange(a, b, x, y);
    XorSame(Xor(a, x));
    XorNone(Xor(a, b), Xor(x, y));
  }

  lemma XorSame(a: bv32)
    ensures Xor(a, a) == 0
  {
  }

  lemma XorNone(a: bv32, b: bv32)
    requires Xor(a, b) == 0
    ensures a == b
  {
  }

  lemma FourClocks(a: bv32, b: bv32)
    ensures Xor(Iterate(Clock, a, 4), Iterate(Clock, b, 4)) == Iterate(Clock, Xor(a, b), 4)
  {
    hide Clock, Xor, Load;
    ClockLaws();
    IterateLinear(Xor, Clock, a, b, 4);
  }

  lemma AbsorbLast(r: bv32, data: seq<byte>)
    requires |data| == 5
    ensures Absorb(Register(), r, data)
         == Clock(Xor(Iterate(Clock, Xor(r, Pack(Register(), Packed(), data[..4])), 4), Load(data[4])))
  {
    hide Load, Clock, Xor, Up, Fits, Pack, Iterate;
    var m, four := Register(), data[..4];
    assert four + [data[4]] == data && [data[4]][1..] == [];
    AbsorbAppend(m, r, four, [data[4]]);
    FourBytes(r, four);
  }

  lemma DifferenceLoaded(a: byte, b: byte)
    ensures Widen(Difference(a, b)) == Xor(Load(a), Load(b))
  {
    hide Xor, Widen, Narrow;
    WidenXor(Narrow(a), Narrow(b));
  }

  function PackTail(a: seq<byte>): bv32
    requires a != []
  {
    Pack(Register(), Packed(), a[1..])
  }

  lemma PackOf(a: seq<byte>)
    requires a != []
    ensures Pack(Register(), Packed(), a) == Xor(Load(a[0]), Up(PackTail(a)))
  {
    hide Xor, Up, Load, Clock, Fits;
  }

  lemma XorUp(x: bv32, y: bv32, w: bv32, v: bv32)
    ensures Xor(Xor(x, Up(w)), Xor(y, Up(v))) == Xor(Xor(x, y), Up(Xor(w, v)))
  {
    hide Xor, Up;
    XorInterchange(x, Up(w), y, Up(v));
    UpXor(w, v);
  }

  lemma UpXor(a: bv32, b: bv32)
    ensures Xor(Up(a), Up(b)) == Up(Xor(a, b))
  {
    assert (a << 8) ^ (b << 8) == (a ^ b) << 8;
  }

  /** Five bytes each that differ only from bit `j` of the first to just before bit `j` of the last. */
  predicate DifferAcross(a: seq<byte>, b: seq<byte>, j: nat)
  {
    && |a| == |b| == 5 && a != b && j <= 8
    && (forall k :: 0 <= k < j ==> !BitDiffers(a[0], b[0], k))
    && (forall k :: j <= k < 8 ==> !BitDiffers(a[4], b[4], k))
  }

  lemma LastDiffers(a: seq<byte>, b: seq<byte>, j: nat)
    requires DifferAcross(a, b, j)
    ensures HighZero(Xor(Load(a[4]), Load(b[4])), 32 - j)
  {
    hide Xor, Widen, Load, Difference, HighZero, Mask;
    var z := Difference(a[4], b[4]);
    forall k | j <= k < 8 ensures z & Mask(k) == 0 {
      assert !BitDiffers(a[4], b[4], k);
    }
    HighAgree(z, j);
    DifferenceLoaded(a[4], b[4]);
  }

  lemma FirstDiffers(a: seq<byte>, b: seq<byte>, j: nat)
    requires DifferAcross(a, b, j)
    ensures LowZero(Xor(Pack(Register(), Packed(), a[..4]), Pack(Register(), Packed(), b[..4])), j)
  {
    hide Xor, Widen, Difference, LowZero, Mask, Pack, PackTail, Up, Load;
    var z := Difference(a[0], b[0]);
    forall k | 0 <= k < j ensures z & Mask(k) == 0 {
      assert !BitDiffers(a[0], b[0], k);
    }
    var w, v := PackTail(a[..4]), PackTail(b[..4]);
    PackOf(a[..4]);
    PackOf(b[..4]);
    XorUp(Load(a[0]), Load(b[0]), w, v);
    DifferenceLoaded(a[0], b[0]);
    LowAgree(z, Xor(w, v), j);
  }

  lemma AcrossDiffer(r: bv32, a: seq<byte>, b: seq<byte>, j: nat)
    requires DifferAcross(a, b, j)
    ensures Absorb(Register(), r, a) != Absorb(Register(), r, b)
  {
    hide Load, Clock, Xor, Up, Fits, Pack, Absorb, Iterate, LowZero, HighZero, Shift, BitDiffers;
    var m, p := Register(), Packed();
    var pa, pb := Pack(m, p, a[..4]), Pack(m, p, b[..4]);
    var ca, cb := Iterate(Clock, Xor(r, pa), 4), Iterate(Clock, Xor(r, pb), 4);
    if Absorb(m, r, a) == Absorb(m, r, b) {
      AbsorbLast(r, a);
      AbsorbLast(r, b);
      ClockLinear(Xor(ca, Load(a[4])), Xor(cb, Load(b[4])));
      XorMove(ca, cb, Load(a[4]), Load(b[4]));
      FourClocks(Xor(r, pa), Xor(r, pb));
      XorSelf(r, pa, pb);
      ClocksAreShifts(Xor(pa, pb), 4);
      FirstDiffers(a, b, j);
      LastDiffers(a, b, j);
      NothingCancels(Xor(pa, pb), Xor(Load(a[4]), Load(b[4])), j);
      SameFive(a, b);
    }
  }

  lemma SameFive(a: seq<byte>, b: seq<byte>)
    requires |a| == |b| == 5
    requires Xor(Pack(Register(), Packed(), a[..4]), Pack(Register(), Packed(), b[..4])) == 0
    requires Xor(Load(a[4]), Load(b[4])) == 0
    ensures a == b
  {
    hide Load, Xor, Up, Fits, Pack, Clock;
    PackLaws();
    XorNone(Pack(Register(), Packed(), a[..4]), Pack(Register(), Packed(), b[..4]));
    PackInjective(Register(), Packed(), a[..4], b[..4]);
    XorNone(Load(a[4]), Load(b[4]));
    LoadInjective(a[4], b[4]);
    assert a == a[..4] + [a[4]] && b == b[..4] + [b[4]];
  }

  // ----- the theorems -----

  lemma NoBitsDiffer(z: bv8)
    requires forall k :: 0 <= k < 8 ==> z & Mask(k) == 0
    ensures z == 0
  {
    assert z & Mask(0) == 0 && z & Mask(1) == 0 && z & Mask(2) == 0 && z & Mask(3) == 0;
    assert z & Mask(4) == 0 && z & Mask(5) == 0 && z & Mask(6) == 0 && z & Mask(7) == 0;
  }

  lemma WidenZero()
    ensures Widen(0) == 0
  {
  }

  lemma SameByte(a: byte, b: byte)
    requires forall k :: 0 <= k < 8 ==> !BitDiffers(a, b, k)
    ensures a == b
  {
    hide Widen, Load, Mask, Difference, Xor;
    forall k | 0 <= k < 8 ensures Difference(a, b) & Mask(k) == 0 {
      assert !BitDiffers(a, b, k);
    }
    NoBitsDiffer(Difference(a, b));
    WidenZero();
    DifferenceLoaded(a, b);
    XorNone(Load(a), Load(b));
    LoadInjective(a, b);
  }

  lemma BitInByte(a: seq<byte>, b: seq<byte>, p: nat, width: nat, q: nat, k: nat)
    requires DifferWithin(a, b, p, width) && q < |a| && k < 8 && !(p <= 8 * q + k < p + width)
    ensures !BitDiffers(a[q], b[q], k)
  {
    hide BitDiffers;
    var n := 8 * q + k;
    assert n / 8 == q && n % 8 == k;
    assert DiffersAt(a, b, n) == BitDiffers(a[q], b[q], k);
  }

  lemma ByteOutside(a: seq<byte>, b: seq<byte>, p: nat, width: nat, q: nat)
    requires DifferWithin(a, b, p, width) && q < |a| && (8 * q + 8 <= p || p + width <= 8 * q)
    ensures a[q] == b[q]
  {
    hide BitDiffers, DiffersAt;
    forall k | 0 <= k < 8 ensures !BitDiffers(a[q], b[q], k) {
      BitInByte(a, b, p, width, q, k);
    }
    SameByte(a[q], b[q]);
  }

  /** Every error confined to 32 consecutive bits in transmission order, wherever they start, changes the
      checksum. */
  lemma BitBurstDetected(crc: bv32, a: seq<byte>, b: seq<byte>, p: nat)
    requires DifferWithin(a, b, p, 32)
    ensures Crc(crc, a) != Crc(crc, b)
  {
    hide Crc, Absorb, Not, DiffersAt;
    var i := p / 8;
    forall q | 0 <= q < |a| && (q < i || q > i + 4) ensures a[q] == b[q] {
      ByteOutside(a, b, p, 32, q);
    }
    var end := Min(i + 5, |a|);
    SplitAt(a, b, i, end);
    if end == i + 5 {
      Straddles(a, b, p, i);
      AcrossDiffer(Absorb(Register(), Not(crc), a[..i]), a[i..end], b[i..end], p % 8);
      WindowChanges(crc, a[..i], a[i..end], b[i..end], a[end..]);
    } else {
      BurstDetected(crc, a[..i], a[i..end], b[i..end], a[end..]);
    }
  }

  lemma SplitAt(a: seq<byte>, b: seq<byte>, i: nat, end: nat)
    requires |a| == |b| && a != b && end <= |a| && end == Min(i + 5, |a|)
    requires forall q :: 0 <= q < |a| && (q < i || q > i + 4) ==> a[q] == b[q]
    ensures i <= end && a[..i] == b[..i] && a[end..] == b[end..] && a[i..end] != b[i..end]
    ensures a == a[..i] + a[i..end] + a[end..] && b == a[..i] + b[i..end] + a[end..]
  {
    assert i < |a|;
    assert a == a[..i] + a[i..end] + a[end..] && b == b[..i] + b[i..end] + b[end..];
  }

  lemma Straddles(a: seq<byte>, b: seq<byte>, p: nat, i: nat)
    requires DifferWithin(a, b, p, 32) && i == p / 8 && i + 5 <= |a| && a[i..i + 5] != b[i..i + 5]
    ensures DifferAcross(a[i..i + 5], b[i..i + 5], p % 8)
  {
    hide BitDiffers, DiffersAt;
    var j, first, last := p % 8, i, i + 4;
    forall k | 0 <= k < j ensures !BitDiffers(a[first], b[first], k) {
      BitInByte(a, b, p, 32, first, k);
    }
    forall k | j <= k < 8 ensures !BitDiffers(a[last], b[last], k) {
      BitInByte(a, b, p, 32, last, k);
    }
  }

  /** Errors confined to `n` consecutive bits never go unnoticed. */
  ghost predicate DetectsBits(n: nat)
  {
    forall crc: bv32, a: seq<byte>, b: seq<byte>, p: nat :: DifferWithin(a, b, p, n) ==> Crc(crc, a) != Crc(crc, b)
  }

  /** 32 bits is the limit: these strings differ in the first 33 bits only and have the same checksum. */
  lemma BitBurstLimit(n: nat)
    ensures DetectsBits(n) <==> n <= 32
  {
    hide Crc, BitDiffers;
    if n <= 32 {
      forall crc: bv32, a: seq<byte>, b: seq<byte>, p: nat | DifferWithin(a, b, p, n)
          ensures Crc(crc, a) != Crc(crc, b) {
        BitBurstDetected(crc, a, b, p);
      }
    } else {
      var a: seq<byte>, b: seq<byte> := [0x41, 0x06, 0x71, 0xDB, 0x01], [0, 0, 0, 0, 0];
      FiveByteCollision(0);
      ThirtyThreeBits();
      assert DifferWithin(a, b, 0, n);
    }
  }

  lemma ThirtyThreeBits()
    ensures DifferWithin([0x41, 0x06, 0x71, 0xDB, 0x01], [0, 0, 0, 0, 0], 0, 33)
  {
    hide BitDiffers;
    var a: seq<byte>, b: seq<byte> := [0x41, 0x06, 0x71, 0xDB, 0x01], [0, 0, 0, 0, 0];
    assert a[0] != b[0];
    forall k | 0 <= k < 8 * |a| && DiffersAt(a, b, k) ensures k < 33 {
      if k >= 33 { LastByteOnly(k % 8); }
    }
  }

  lemma LastByteOnly(k: nat)
    requires 1 <= k < 8
    ensures !BitDiffers(0x01, 0, k)
  {
  }
}
