/** The reflected CRC-32 of section 8 of RFC 1952, bit by bit, and its algebra. Inductions are done
    over an abstract register type, so that only one-step facts are about bit-vectors. */
module ShiftRegisters {
  import opened Wire

  /** A register that absorbs bytes: `clock` is eight shifts, `xor` combines, `load` widens a byte. */
  datatype Machine<!R> = Machine(xor: (R, R) -> R, clock: R -> R, load: byte -> R)

  function Iterate<R>(f: R -> R, r: R, n: nat): R
    decreases n
  {
    if n == 0 then r else Iterate(f, f(r), n - 1)
  }

  function Absorb<R>(m: Machine<R>, r: R, data: seq<byte>): R
    decreases |data|
  {
    if data == [] then r else Absorb(m, m.clock(m.xor(r, m.load(data[0]))), data[1..])
  }

  ghost predicate Injective<R(!new)>(f: R -> R) { forall a, b :: f(a) == f(b) ==> a == b }

  ghost predicate Linear<R(!new)>(xor: (R, R) -> R, f: R -> R) { forall a, b :: f(xor(a, b)) == xor(f(a), f(b)) }

  ghost predicate Interchange<R(!new)>(xor: (R, R) -> R) {
    forall a, b, c, d {:trigger xor(xor(a, b), xor(c, d))} :: xor(xor(a, b), xor(c, d)) == xor(xor(a, c), xor(b, d))
  }

  ghost predicate Cancels<R(!new)>(xor: (R, R) -> R) {
    forall a, b, c :: (xor(a, c) == xor(b, c) ==> a == b) && (xor(c, a) == xor(c, b) ==> a == b)
  }

  lemma {:induction false} IterateInjective<R(!new)>(f: R -> R, a: R, b: R, n: nat)
    requires Injective(f) && Iterate(f, a, n) == Iterate(f, b, n)
    ensures a == b
  {
    if n == 0 {
    } else {
      IterateInjective(f, f(a), f(b), n - 1);
    }
  }

  lemma {:induction false} IterateLinear<R(!new)>(xor: (R, R) -> R, f: R -> R, a: R, b: R, n: nat)
    requires Linear(xor, f)
    ensures Iterate(f, xor(a, b), n) == xor(Iterate(f, a, n), Iterate(f, b, n))
  {
    if n == 0 {
    } else {
      IterateLinear(xor, f, f(a), f(b), n - 1);
    }
  }

  lemma {:induction false} AbsorbAppend<R>(m: Machine<R>, r: R, a: seq<byte>, b: seq<byte>)
    ensures Absorb(m, r, a + b) == Absorb(m, Absorb(m, r, a), b)
    decreases |a|
  {
    if a == [] {
      assert a + b == b;
    } else {
      AbsorbAppend(m, m.clock(m.xor(r, m.load(a[0]))), a[1..], b);
      assert (a + b)[0] == a[0] && (a + b)[1..] == a[1..] + b;
    }
  }

  lemma AbsorbFirst<R>(m: Machine<R>, r: R, b: byte, data: seq<byte>)
    ensures Absorb(m, r, [b] + data) == Absorb(m, m.clock(m.xor(r, m.load(b))), data)
  {
    assert ([b] + data)[1..] == data;
  }

  /** Distinct registers stay distinct through the same bytes. */
  lemma {:induction false} AbsorbInjective<R(!new)>(m: Machine<R>, a: R, b: R, data: seq<byte>)
    requires Injective(m.clock) && Cancels(m.xor) && Absorb(m, a, data) == Absorb(m, b, data)
    ensures a == b
    decreases |data|
  {
    if data == [] {
    } else {
      var x := m.load(data[0]);
      AbsorbInjective(m, m.clock(m.xor(a, x)), m.clock(m.xor(b, x)), data[1..]);
    }
  }

  ghost predicate XorOf<R(!new)>(m: Machine<R>, a: seq<byte>, b: seq<byte>, c: seq<byte>)
  {
    |a| == |b| == |c| && forall i :: 0 <= i < |c| ==> m.load(c[i]) == m.xor(m.load(a[i]), m.load(b[i]))
  }

  lemma {:induction false} AbsorbLinear<R(!new)>(m: Machine<R>, r: R, s: R, a: seq<byte>, b: seq<byte>, c: seq<byte>)
    requires Linear(m.xor, m.clock) && Interchange(m.xor) && XorOf(m, a, b, c)
    ensures Absorb(m, m.xor(r, s), c) == m.xor(Absorb(m, r, a), Absorb(m, s, b))
    decreases |c|
  {
    if c == [] {
    } else {
      var x, y := m.load(a[0]), m.load(b[0]);
      assert m.load(c[0]) == m.xor(x, y);
      assert m.xor(m.xor(r, s), m.xor(x, y)) == m.xor(m.xor(r, x), m.xor(s, y));
      AbsorbLinear(m, m.clock(m.xor(r, x)), m.clock(m.xor(s, y)), a[1..], b[1..], c[1..]);
    }
  }

  // ----- a short burst is one register-wide difference -----

  /** `up` shifts a register left by a byte; `fits(k, w)` says that `w` occupies its low `k` bytes. */
  datatype Packing<!R> = Packing(up: R -> R, fits: (nat, R) -> bool, zero: R)

  function Pack<R>(m: Machine<R>, p: Packing<R>, data: seq<byte>): R
  {
    if data == [] then p.zero else m.xor(m.load(data[0]), p.up(Pack(m, p, data[1..])))
  }

  ghost predicate ZeroLaw<R(!new)>(m: Machine<R>, p: Packing<R>)
  {
    p.fits(0, p.zero) && forall r :: m.xor(r, p.zero) == r
  }

  ghost predicate GrowLaw<R(!new)>(m: Machine<R>, p: Packing<R>)
  {
    && (forall k: nat, b: byte, w: R {:trigger p.fits(k, w), m.load(b)} ::
          k <= 3 && p.fits(k, w) ==> p.fits(k + 1, m.xor(m.load(b), p.up(w))))
    && (forall k: nat, w: R {:trigger p.fits(k, w)} :: k <= 3 && p.fits(k, w) ==> p.fits(3, w))
  }

  ghost predicate ClockLaw<R(!new)>(m: Machine<R>, p: Packing<R>)
  {
    forall w: R {:trigger p.up(w)} :: p.fits(3, w) ==> m.clock(p.up(w)) == w
  }

  ghost predicate UnpackLaw<R(!new)>(m: Machine<R>, p: Packing<R>)
  {
    forall b: byte, c: byte, w: R, v: R {:trigger m.xor(m.load(b), p.up(w)), m.xor(m.load(c), p.up(v))} ::
      p.fits(3, w) && p.fits(3, v) && m.xor(m.load(b), p.up(w)) == m.xor(m.load(c), p.up(v)) ==> b == c && w == v
  }

  ghost predicate Associates<R(!new)>(xor: (R, R) -> R)
  {
    forall a, b, c {:trigger xor(a, xor(b, c))} :: xor(a, xor(b, c)) == xor(xor(a, b), c)
  }

  ghost predicate PackingLaws<R(!new)>(m: Machine<R>, p: Packing<R>)
  {
    ZeroLaw(m, p) && GrowLaw(m, p) && ClockLaw(m, p) && UnpackLaw(m, p) && Associates(m.xor)
  }

  lemma {:induction false} PackFits<R(!new)>(m: Machine<R>, p: Packing<R>, data: seq<byte>)
    requires PackingLaws(m, p) && |data| <= 4
    ensures p.fits(|data|, Pack(m, p, data))
  {
    if data == [] {
    } else {
      PackFits(m, p, data[1..]);
      assert m.load(data[0]) == m.load(data[0]);
    }
  }

  lemma {:induction false} PackInjective<R(!new)>(m: Machine<R>, p: Packing<R>, a: seq<byte>, b: seq<byte>)
    requires PackingLaws(m, p) && |a| == |b| <= 4 && Pack(m, p, a) == Pack(m, p, b)
    ensures a == b
  {
    if a == [] {
    } else {
      PackFits(m, p, a[1..]);
      PackFits(m, p, b[1..]);
      PackInjective(m, p, a[1..], b[1..]);
      assert a == [a[0]] + a[1..] && b == [b[0]] + b[1..];
    }
  }

  /** Up to four bytes are absorbed by xoring them in at once and clocking for each. */
  lemma {:induction false} AbsorbBurst<R(!new)>(m: Machine<R>, p: Packing<R>, r: R, data: seq<byte>)
    requires PackingLaws(m, p) && Linear(m.xor, m.clock) && |data| <= 4
    ensures Absorb(m, r, data) == Iterate(m.clock, m.xor(r, Pack(m, p, data)), |data|)
    decreases |data|
  {
    if data == [] {
    } else {
      var b, w := m.load(data[0]), Pack(m, p, data[1..]);
      PackFits(m, p, data[1..]);
      assert p.fits(3, w);
      AbsorbBurst(m, p, m.clock(m.xor(r, b)), data[1..]);
      assert m.xor(r, m.xor(b, p.up(w))) == m.xor(m.xor(r, b), p.up(w));
      assert m.clock(m.xor(m.xor(r, b), p.up(w))) == m.xor(m.clock(m.xor(r, b)), w);
    }
  }

  lemma BurstsDiffer<R(!new)>(m: Machine<R>, p: Packing<R>, r: R, a: seq<byte>, b: seq<byte>)
    requires PackingLaws(m, p) && Linear(m.xor, m.clock) && Injective(m.clock) && Cancels(m.xor)
    requires |a| == |b| <= 4 && a != b
    ensures Absorb(m, r, a) != Absorb(m, r, b)
  {
    AbsorbBurst(m, p, r, a);
    AbsorbBurst(m, p, r, b);
    if Absorb(m, r, a) == Absorb(m, r, b) {
      IterateInjective(m.clock, m.xor(r, Pack(m, p, a)), m.xor(r, Pack(m, p, b)), |a|);
      PackInjective(m, p, a, b);
    }
  }
}

/** Bytes as integers and as bit-vectors. */
module ByteBits {
  lemma BackAgain(x: bv8)
    ensures 0 <= x as int < 0x100 && (x as int) as bv8 == x
  {
  }

  type Octet = b: int | 0 <= b < 0x100

  lemma RoundTrip(b: Octet)
    ensures (b as bv8) as int - b == 0
  {
  }
}

module Crc32 {
  import ByteBits
  import opened Wire
  import opened ShiftRegisters

  function Xor(a: bv32, b: bv32): bv32 { a ^ b }
  function Narrow(b: byte): bv8 { b as bv8 }
  function Widen(b: bv8): bv32 { b as bv32 }
  function Load(b: byte): bv32 { Widen(Narrow(b)) }

  /** One right shift, with the polynomial folded in when a one falls out. */
  function Shift(c: bv32): bv32 { Xor(Half(c), Tap(c)) }
  function Half(c: bv32): bv32 { c >> 1 }
  function Tap(c: bv32): bv32 { 0xEDB88320 & (0 - (c & 1)) }

  function Clock(c: bv32): bv32 { Iterate(Shift, c, 8) }

  function Register(): Machine<bv32> { Machine(Xor, Clock, Load) }

  /** The checksum of `data` continued from `crc`, as crc32_update returns it. */
  function Crc(crc: bv32, data: seq<byte>): bv32 { Not(Absorb(Register(), Not(crc), data)) }

  function Not(r: bv32): bv32 { !r }

  method Crc32Update(start: bv32, data: seq<byte>) returns (crc: bv32)
    ensures crc == Crc(start, data)
  {
    hide Shift, Clock, Xor, Load;
    crc := !start;
    for i := 0 to |data|
      invariant Absorb(Register(), crc, data[i..]) == Absorb(Register(), !start, data)
    {
      crc := UpdateByte(crc, data[i]);
      assert data[i..][1..] == data[i + 1..];
    }
    crc := !crc;
  }

  method UpdateByte(before: bv32, b: byte) returns (crc: bv32)
    ensures crc == Clock(Xor(before, Load(b)))
  {
    hide Shift, Xor, Load, Half, Tap;
    crc := before ^ ((b as bv8) as bv32);
    LoadStep(before, b);
    ghost var loaded := Xor(before, Load(b));
    for bit := 0 to 8
      invariant Iterate(Shift, crc, 8 - bit) == Iterate(Shift, loaded, 8)
    {
      ShiftStep(crc);
      crc := (crc >> 1) ^ (0xEDB88320 & (0 - (crc & 1)));
    }
  }

  lemma LoadStep(r: bv32, b: byte)
    ensures r ^ ((b as bv8) as bv32) == Xor(r, Load(b))
  {
  }

  lemma ShiftStep(c: bv32)
    ensures (c >> 1) ^ (0xEDB88320 & (0 - (c & 1))) == Shift(c)
  {
    calc {
      Shift(c);
      Xor(c >> 1, 0xEDB88320 & (0 - (c & 1)));
      (c >> 1) ^ (0xEDB88320 & (0 - (c & 1)));
    }
  }

  // ----- one-step facts about bit-vectors -----

  lemma HalfLinear(a: bv32, b: bv32)
    ensures Half(Xor(a, b)) == Xor(Half(a), Half(b))
  {
    assert (a ^ b) >> 1 == (a >> 1) ^ (b >> 1);
  }

  lemma TapLinear(a: bv32, b: bv32)
    ensures Tap(Xor(a, b)) == Xor(Tap(a), Tap(b))
  {
    assert 0xEDB88320 & (0 - ((a ^ b) & 1)) == (0xEDB88320 & (0 - (a & 1))) ^ (0xEDB88320 & (0 - (b & 1)));
  }

  lemma XorInterchange(a: bv32, b: bv32, c: bv32, d: bv32)
    ensures Xor(Xor(a, b), Xor(c, d)) == Xor(Xor(a, c), Xor(b, d))
  {
    calc {
      Xor(Xor(a, b), Xor(c, d));
      Xor(a ^ b, c ^ d);
      (a ^ b) ^ (c ^ d);
      (a ^ c) ^ (b ^ d);
      Xor(a ^ c, b ^ d);
      Xor(Xor(a, c), Xor(b, d));
    }
  }

  lemma XorAssociates(a: bv32, b: bv32, c: bv32)
    ensures Xor(a, Xor(b, c)) == Xor(Xor(a, b), c)
  {
    calc {
      Xor(a, Xor(b, c));
      Xor(a, b ^ c);
      a ^ (b ^ c);
      (a ^ b) ^ c;
      Xor(a ^ b, c);
      Xor(Xor(a, b), c);
    }
  }

  lemma XorUndo(a: bv32, b: bv32)
    ensures Xor(Xor(a, b), b) == a
  {
    calc {
      Xor(Xor(a, b), b);
      (a ^ b) ^ b;
      a;
    }
  }

  lemma XorCommutes(a: bv32, b: bv32)
    ensures Xor(a, b) == Xor(b, a)
  {
  }

  lemma ShiftLinear(a: bv32, b: bv32)
    ensures Shift(Xor(a, b)) == Xor(Shift(a), Shift(b))
  {
    hide Half, Tap, Xor;
    HalfLinear(a, b);
    TapLinear(a, b);
    XorInterchange(Half(a), Half(b), Tap(a), Tap(b));
  }

  /** The top bit of the polynomial records the bit that fell out. */
  lemma ShiftInjective(a: bv32, b: bv32)
    requires Shift(a) == Shift(b)
    ensures a == b
  {
  }

  lemma Iterate8<R>(f: R -> R, r: R)
    ensures Iterate(f, r, 8) == f(f(f(f(f(f(f(f(r))))))))
  {
    var r4 := f(f(f(f(r))));
    assert Iterate(f, r, 8) == Iterate(f, f(f(r)), 6) == Iterate(f, r4, 4);
    assert Iterate(f, r4, 4) == Iterate(f, f(f(r4)), 2);
  }

  lemma EightShifts(w: bv32)
    requires w < 0x100_0000
    ensures Shift(Shift(Shift(Shift(Shift(Shift(Shift(Shift(w << 8)))))))) == w
  {
  }

  lemma LoadBounded(b: byte)
    ensures Load(b) < 0x100
  {
    hide Narrow;
    WidenBounded(Narrow(b));
  }

  lemma WidenBounded(x: bv8)
    ensures Widen(x) < 0x100
  {
  }

  lemma WidenInjective(x: bv8, y: bv8)
    requires Widen(x) == Widen(y)
    ensures x == y
  {
  }

  lemma NarrowExact(b: byte)
    ensures Narrow(b) as int == b
  {
    calc {
      Narrow(b) as int;
      (b as bv8) as int;
      { ByteBits.RoundTrip(b); }
      b;
    }
  }

  lemma LoadInjective(b: byte, c: byte)
    requires Load(b) == Load(c)
    ensures b == c
  {
    hide Narrow, Widen;
    WidenInjective(Narrow(b), Narrow(c));
    NarrowExact(b);
    NarrowExact(c);
  }

  // ----- the register obeys the laws the inductions need -----

  function Up(w: bv32): bv32 { w << 8 }

  predicate Fits(k: nat, w: bv32)
  {
    if k == 0 then w == 0
    else if k == 1 then w < 0x100
    else if k == 2 then w < 0x1_0000
    else if k == 3 then w < 0x100_0000
    else true
  }

  function Packed(): Packing<bv32> { Packing(Up, Fits, 0) }

  lemma PackByte(x: bv32, w: bv32)
    requires x < 0x100
    ensures w == 0 ==> x ^ (w << 8) < 0x100
    ensures w < 0x100 ==> x ^ (w << 8) < 0x1_0000
    ensures w < 0x1_0000 ==> x ^ (w << 8) < 0x100_0000
  {
  }

  lemma UnpackByte(x: bv32, y: bv32, w: bv32, v: bv32)
    requires x < 0x100 && y < 0x100 && w < 0x100_0000 && v < 0x100_0000 && x ^ (w << 8) == y ^ (v << 8)
    ensures x == y && w == v
  {
  }

  lemma ClockLinear(a: bv32, b: bv32)
    ensures Clock(Xor(a, b)) == Xor(Clock(a), Clock(b)) && (Clock(a) == Clock(b) ==> a == b)
  {
    hide Shift, Xor, Iterate;
    forall x: bv32, y: bv32
      ensures Shift(Xor(x, y)) == Xor(Shift(x), Shift(y)) && (Shift(x) == Shift(y) ==> x == y)
    {
      ShiftLinear(x, y);
      if Shift(x) == Shift(y) { ShiftInjective(x, y); }
    }
    IterateLinear(Xor, Shift, a, b, 8);
    if Clock(a) == Clock(b) { IterateInjective(Shift, a, b, 8); }
  }

  lemma XorCancels(a: bv32, b: bv32, c: bv32)
    ensures (Xor(a, c) == Xor(b, c) ==> a == b) && (Xor(c, a) == Xor(c, b) ==> a == b)
  {
    hide Xor;
    XorUndo(a, c);
    XorUndo(b, c);
    XorCommutes(a, c);
    XorCommutes(b, c);
  }

  lemma ClockLaws()
    ensures Linear(Register().xor, Register().clock) && Injective(Register().clock)
  {
    hide Clock, Xor, Load;
    forall a: bv32, b: bv32
      ensures Clock(Xor(a, b)) == Xor(Clock(a), Clock(b)) && (Clock(a) == Clock(b) ==> a == b)
    {
      ClockLinear(a, b);
    }
  }

  lemma InterchangeLaw()
    ensures Interchange(Register().xor)
  {
    hide Clock, Xor, Load;
    var xor := Register().xor;
    forall a: bv32, b: bv32, c: bv32, d: bv32 {:trigger xor(xor(a, b), xor(c, d))}
      ensures xor(xor(a, b), xor(c, d)) == xor(xor(a, c), xor(b, d))
    {
      XorInterchange(a, b, c, d);
    }
  }

  lemma CancelLaw()
    ensures Cancels(Register().xor)
  {
    hide Clock, Xor, Load;
    forall a: bv32, b: bv32, c: bv32
      ensures (Xor(a, c) == Xor(b, c) ==> a == b) && (Xor(c, a) == Xor(c, b) ==> a == b)
    {
      XorCancels(a, b, c);
    }
  }

  lemma PackLaws()
    ensures PackingLaws(Register(), Packed())
  {
    hide ZeroLaw, GrowLaw, ClockLaw, UnpackLaw, Associates;
    PackedZero();
    PackedGrows();
    PackedClock();
    PackedUnpacks();
    PackedAssociates();
  }

  lemma PackedZero()
    ensures ZeroLaw(Register(), Packed())
  {
    hide Xor, Fits;
    FitsZero();
    forall r: bv32 ensures Xor(r, 0) == r {
      XorZero(r);
    }
  }

  lemma PackedGrows()
    ensures GrowLaw(Register(), Packed())
  {
    hide Xor, Load, Up, Fits;
    forall k: nat, b: byte, w: bv32 ensures k <= 3 && Fits(k, w) ==> Fits(k + 1, Xor(Load(b), Up(w))) {
      PackStep(k, b, w);
    }
    forall k: nat, w: bv32 ensures k <= 3 && Fits(k, w) ==> Fits(3, w) {
      FitsGrows(k, w);
    }
  }

  lemma PackedClock()
    ensures ClockLaw(Register(), Packed())
  {
    hide Clock, Up, Fits;
    forall w: bv32 ensures Fits(3, w) ==> Clock(Up(w)) == w {
      ClockUndoesUp(w);
    }
  }

  lemma PackedUnpacks()
    ensures UnpackLaw(Register(), Packed())
  {
    hide Xor, Load, Up, Fits;
    forall b: byte, c: byte, w: bv32, v: bv32
      ensures Fits(3, w) && Fits(3, v) && Xor(Load(b), Up(w)) == Xor(Load(c), Up(v)) ==> b == c && w == v
    {
      UnpackStep(b, c, w, v);
    }
  }

  lemma PackedAssociates()
    ensures Associates(Register().xor)
  {
    hide Xor;
    forall a: bv32, b: bv32, c: bv32 ensures Xor(a, Xor(b, c)) == Xor(Xor(a, b), c) {
      XorAssociates(a, b, c);
    }
  }

  lemma FitsZero()
    ensures Fits(0, 0)
  {
  }

  lemma XorZero(r: bv32)
    ensures Xor(r, 0) == r
  {
  }

  lemma FitsGrows(k: nat, w: bv32)
    ensures k <= 3 && Fits(k, w) ==> Fits(3, w)
  {
  }

  lemma PackStep(k: nat, b: byte, w: bv32)
    ensures k <= 3 && Fits(k, w) ==> Fits(k + 1, Xor(Load(b), Up(w)))
  {
    hide Load;
    LoadBounded(b);
    PackByte(Load(b), w);
  }

  lemma ClockUndoesUp(w: bv32)
    ensures Fits(3, w) ==> Clock(Up(w)) == w
  {
    hide Shift;
    if Fits(3, w) {
      EightShifts(w);
      Iterate8(Shift, Up(w));
    }
  }

  lemma UnpackStep(b: byte, c: byte, w: bv32, v: bv32)
    ensures Fits(3, w) && Fits(3, v) && Xor(Load(b), Up(w)) == Xor(Load(c), Up(v)) ==> b == c && w == v
  {
    hide Load;
    LoadBounded(b);
    LoadBounded(c);
    if Fits(3, w) && Fits(3, v) && Xor(Load(b), Up(w)) == Xor(Load(c), Up(v)) {
      UnpackByte(Load(b), Load(c), w, v);
      LoadInjective(b, c);
    }
  }

  // ----- the theorems -----

  /** A checksum can be continued: updating with `a` and then with `b` is updating with `a + b`. */
  lemma CrcAppend(crc: bv32, a: seq<byte>, b: seq<byte>)
    ensures Crc(Crc(crc, a), b) == Crc(crc, a + b)
  {
    hide Load, Clock, Xor, Not;
    var r := Absorb(Register(), Not(crc), a);
    AbsorbAppend(Register(), Not(crc), a, b);
    NotNot(r);
  }

  lemma NotNot(r: bv32)
    ensures Not(Not(r)) == r
  {
  }

  /** The checksum of a byte string cut into chunks, folded over the chunks in order. */
  function CrcChunks(crc: bv32, chunks: seq<seq<byte>>): bv32
    decreases |chunks|
  {
    if chunks == [] then crc else CrcChunks(Crc(crc, chunks[0]), chunks[1..])
  }

  lemma CrcEmpty(crc: bv32)
    ensures Crc(crc, []) == crc
  {
    NotNot(crc);
  }

  /** The receiver's running checksum over any chunking is the sender's one-shot checksum. */
  lemma {:induction false} CrcOfChunks(crc: bv32, chunks: seq<seq<byte>>)
    ensures CrcChunks(crc, chunks) == Crc(crc, Flatten(chunks))
    decreases |chunks|
  {
    hide Crc;
    if chunks == [] {
      CrcEmpty(crc);
    } else {
      CrcOfChunks(Crc(crc, chunks[0]), chunks[1..]);
      CrcAppend(crc, chunks[0], Flatten(chunks[1..]));
    }
  }

  /** Exclusive-or of two byte strings of equal length. */
  function XorBytes(a: seq<byte>, b: seq<byte>): (c: seq<byte>)
    requires |a| == |b|
    ensures |c| == |a|
  {
    seq(|a|, i requires 0 <= i < |a| => XorByte(a[i], b[i]))
  }

  function XorByte(a: byte, b: byte): byte { (Narrow(a) ^ Narrow(b)) as int }

  /** Affine over exclusive-or: the checksums of `a`, `b` and `a xor b` from the xor of the seeds
      differ by a constant that depends on neither string. */
  lemma CrcAffine(c: bv32, d: bv32, a: seq<byte>, b: seq<byte>)
    requires |a| == |b|
    ensures Crc(Not(Xor(Not(c), Not(d))), XorBytes(a, b)) == Not(Xor(Not(Crc(c, a)), Not(Crc(d, b))))
  {
    hide Load, Clock, Xor, Not;
    var m := Register();
    ClockLaws();
    InterchangeLaw();
    forall i | 0 <= i < |a| ensures Load(XorBytes(a, b)[i]) == Xor(Load(a[i]), Load(b[i])) {
      LoadXor(a[i], b[i]);
    }
    AbsorbLinear(m, Not(c), Not(d), a, b, XorBytes(a, b));
    NotNot(Xor(Not(c), Not(d)));
    NotNot(Absorb(m, Not(c), a));
    NotNot(Absorb(m, Not(d), b));
  }

  lemma LoadXor(a: byte, b: byte)
    ensures Load(XorByte(a, b)) == Xor(Load(a), Load(b))
  {
    hide Widen, Xor;
    var x, y := Narrow(a), Narrow(b);
    ByteBits.BackAgain(x ^ y);
    WidenXor(x, y);
  }

  lemma WidenXor(x: bv8, y: bv8)
    ensures Widen(x ^ y) == Xor(Widen(x), Widen(y))
  {
    calc {
      Widen(x ^ y);
      (x ^ y) as bv32;
      (x as bv32) ^ (y as bv32);
      Xor(x as bv32, y as bv32);
      Xor(Widen(x), Widen(y));
    }
  }

  /** Distinct registers after the part that differs mean distinct checksums. */
  lemma WindowChanges(crc: bv32, prefix: seq<byte>, a: seq<byte>, b: seq<byte>, suffix: seq<byte>)
    requires var r := Absorb(Register(), Not(crc), prefix); Absorb(Register(), r, a) != Absorb(Register(), r, b)
    ensures Crc(crc, prefix + a + suffix) != Crc(crc, prefix + b + suffix)
  {
    hide Load, Clock, Xor, Up, Fits, Not;
    var m := Register();
    var r := Absorb(m, Not(crc), prefix);
    ClockLaws();
    CancelLaw();
    AbsorbAppend(m, Not(crc), prefix, a);
    AbsorbAppend(m, Not(crc), prefix, b);
    AbsorbAppend(m, Not(crc), prefix + a, suffix);
    AbsorbAppend(m, Not(crc), prefix + b, suffix);
    var ra, rb := Absorb(m, r, a), Absorb(m, r, b);
    if Crc(crc, prefix + a + suffix) == Crc(crc, prefix + b + suffix) {
      NotNot(Absorb(m, ra, suffix));
      NotNot(Absorb(m, rb, suffix));
      AbsorbInjective(m, ra, rb, suffix);
    }
  }

  /** Every error burst of at most 32 bits that starts on a byte boundary changes the checksum: strings of
      equal length that differ only inside one window of at most four bytes never collide. */
  lemma BurstDetected(crc: bv32, prefix: seq<byte>, a: seq<byte>, b: seq<byte>, suffix: seq<byte>)
    requires |a| == |b| <= 4 && a != b
    ensures Crc(crc, prefix + a + suffix) != Crc(crc, prefix + b + suffix)
  {
    hide Load, Clock, Xor, Up, Fits, Not;
    ClockLaws();
    CancelLaw();
    PackLaws();
    BurstsDiffer(Register(), Packed(), Absorb(Register(), Not(crc), prefix), a, b);
    WindowChanges(crc, prefix, a, b, suffix);
  }

  /** Four bytes is the limit: there are five-byte strings that collide from every seed. */
  lemma FiveByteCollision(crc: bv32)
    ensures Crc(crc, [0x41, 0x06, 0x71, 0xDB, 0x01]) == Crc(crc, [0, 0, 0, 0, 0])
  {
    hide Load, Clock, Xor, Up, Fits, Not, Pack, Absorb;
    var m := Register();
    var r := Not(crc);
    var u: seq<byte>, z: seq<byte> := [0x06, 0x71, 0xDB, 0x01], [0, 0, 0, 0];
    var p, q := Clock(Xor(r, Load(0x41))), Clock(Xor(r, Load(0)));
    assert [0x41] + u == [0x41, 0x06, 0x71, 0xDB, 0x01] && [0] + z == [0, 0, 0, 0, 0];
    AbsorbFirst(m, r, 0x41, u);
    AbsorbFirst(m, r, 0, z);
    FirstByte(r);
    PackedTail();
    FourBytes(p, u);
    FourBytes(q, z);
    XorUndo(q, 0x01DB7106);
    XorZero(q);
  }

  /** Equal-length strings that differ only inside one window of at most `n` bytes never collide. */
  ghost predicate DetectsWindow(n: nat)
  {
    forall crc: bv32, prefix: seq<byte>, a: seq<byte>, b: seq<byte>, suffix: seq<byte> ::
      |a| == |b| <= n && a != b ==> Differ(crc, prefix, a, b, suffix)
  }

  predicate Differ(crc: bv32, prefix: seq<byte>, a: seq<byte>, b: seq<byte>, suffix: seq<byte>)
  {
    Crc(crc, prefix + a + suffix) != Crc(crc, prefix + b + suffix)
  }

  /** The checksum detects every error inside a window exactly up to four bytes. */
  lemma WindowLimit(n: nat)
    ensures DetectsWindow(n) <==> n <= 4
  {
    hide Crc;
    if n <= 4 {
      forall crc: bv32, prefix: seq<byte>, a: seq<byte>, b: seq<byte>, suffix: seq<byte> | |a| == |b| <= n && a != b
        ensures Differ(crc, prefix, a, b, suffix)
      {
        BurstDetected(crc, prefix, a, b, suffix);
      }
    } else {
      var a: seq<byte>, b: seq<byte> := [0x41, 0x06, 0x71, 0xDB, 0x01], [0, 0, 0, 0, 0];
      FiveByteCollision(0);
      assert [] + a + [] == a && [] + b + [] == b;
      assert a[0] != b[0] && !Differ(0, [], a, b, []);
    }
  }

  lemma FourBytes(r: bv32, data: seq<byte>)
    requires |data| == 4
    ensures Absorb(Register(), r, data) == Iterate(Clock, Xor(r, Pack(Register(), Packed(), data)), 4)
  {
    hide Load, Clock, Xor, Up, Fits, Pack, Absorb;
    ClockLaws();
    PackLaws();
    AbsorbBurst(Register(), Packed(), r, data);
  }

  lemma FirstByte(r: bv32)
    ensures Clock(Xor(r, Load(0x41))) == Xor(Clock(Xor(r, Load(0))), 0x01DB7106)
  {
    hide Clock, Xor, Load;
    ClockOf41();
    LoadOf41();
    XorZero(r);
    ClockLinear(r, 0x41);
  }

  lemma LoadOf41()
    ensures Load(0) == 0 && Load(0x41) == 0x41
  {
  }

  lemma EightShiftsOf41()
    ensures Shift(Shift(Shift(Shift(Shift(Shift(Shift(Shift(0x41)))))))) == 0x01DB7106
  {
  }

  lemma ClockOf41()
    ensures Clock(0x41) == 0x01DB7106
  {
    hide Shift;
    EightShiftsOf41();
    Iterate8(Shift, 0x41);
  }

  lemma PackedTail()
    ensures Pack(Register(), Packed(), [0x06, 0x71, 0xDB, 0x01]) == 0x01DB7106
    ensures Pack(Register(), Packed(), [0, 0, 0, 0]) == 0
  {
    var m, p := Register(), Packed();
    assert Pack(m, p, [0x01]) == 0x01;
    assert Pack(m, p, [0xDB, 0x01]) == 0x01DB;
    assert Pack(m, p, [0x71, 0xDB, 0x01]) == 0x01_DB71;
    assert Pack(m, p, [0]) == 0;
    assert Pack(m, p, [0, 0]) == 0;
    assert Pack(m, p, [0, 0, 0]) == 0;
  }

  // ----- a known answer -----

  function Shift8(w: bv32): bv32 { Shift(Shift(Shift(Shift(Shift(Shift(Shift(Shift(w)))))))) }

  lemma ByteStep(r: bv32, b: byte, next: bv32, data: seq<byte>)
    requires Shift8(Xor(r, Load(b))) == next
    ensures Absorb(Register(), r, [b] + data) == Absorb(Register(), next, data)
  {
    hide Load, Shift, Xor;
    Iterate8(Shift, Xor(r, Load(b)));
    AbsorbFirst(Register(), r, b, data);
  }

  lemma CheckA()
    ensures Shift8(Xor(0xFFFFFFFF, Load(0x31))) == 0x7C231048
    ensures Shift8(Xor(0x7C231048, Load(0x32))) == 0xB0ACBB32
    ensures Shift8(Xor(0xB0ACBB32, Load(0x33))) == 0x77B79C2D
  {
  }

  lemma CheckB()
    ensures Shift8(Xor(0x77B79C2D, Load(0x34))) == 0x641C1F5C
    ensures Shift8(Xor(0x641C1F5C, Load(0x35))) == 0x340AC5E3
    ensures Shift8(Xor(0x340AC5E3, Load(0x36))) == 0xF68D2C9E
  {
  }

  lemma CheckC()
    ensures Shift8(Xor(0xF68D2C9E, Load(0x37))) == 0xAFFC9660
    ensures Shift8(Xor(0xAFFC9660, Load(0x38))) == 0x651F2550
    ensures Shift8(Xor(0x651F2550, Load(0x39))) == 0x340BC6D9
  {
  }

  lemma ThreeBytes(r: bv32, a: byte, b: byte, c: byte, r1: bv32, r2: bv32, r3: bv32, data: seq<byte>)
    requires Shift8(Xor(r, Load(a))) == r1 && Shift8(Xor(r1, Load(b))) == r2 && Shift8(Xor(r2, Load(c))) == r3
    ensures Absorb(Register(), r, [a, b, c] + data) == Absorb(Register(), r3, data)
  {
    hide Load, Shift8, Xor, Absorb, Clock;
    ByteStep(r, a, r1, [b, c] + data);
    ByteStep(r1, b, r2, [c] + data);
    ByteStep(r2, c, r3, data);
    assert [a] + ([b, c] + data) == [a, b, c] + data && [b] + ([c] + data) == [b, c] + data;
  }

  lemma DigitsAbsorbed()
    ensures Absorb(Register(), 0xFFFFFFFF, [0x31, 0x32, 0x33, 0x34, 0x35, 0x36, 0x37, 0x38, 0x39]) == 0x340BC6D9
  {
    hide Load, Shift8, Xor, Absorb, Clock;
    CheckA();
    CheckB();
    CheckC();
    var first: seq<byte>, middle: seq<byte>, last: seq<byte> :=
        [0x31, 0x32, 0x33], [0x34, 0x35, 0x36], [0x37, 0x38, 0x39];
    ThreeBytes(0xFFFFFFFF, 0x31, 0x32, 0x33, 0x7C231048, 0xB0ACBB32, 0x77B79C2D, middle + last);
    ThreeBytes(0x77B79C2D, 0x34, 0x35, 0x36, 0x641C1F5C, 0x340AC5E3, 0xF68D2C9E, last);
    ThreeBytes(0xF68D2C9E, 0x37, 0x38, 0x39, 0xAFFC9660, 0x651F2550, 0x340BC6D9, []);
    assert last + [] == last;
    assert first + (middle + last) == [0x31, 0x32, 0x33, 0x34, 0x35, 0x36, 0x37, 0x38, 0x39];
    AbsorbNothing(0x340BC6D9);
  }

  lemma Complements()
    ensures Not(0) == 0xFFFFFFFF && Not(0x340BC6D9) == 0xCBF43926
  {
  }

  /** The published check value: the checksum of the digits 1 to 9 in ASCII. */
  lemma CheckValue()
    ensures Crc(0, [0x31, 0x32, 0x33, 0x34, 0x35, 0x36, 0x37, 0x38, 0x39]) == 0xCBF43926
  {
    hide Load, Xor, Absorb, Clock, Not;
    DigitsAbsorbed();
    Complements();
  }

  lemma AbsorbNothing(r: bv32)
    ensures Absorb(Register(), r, []) == r
  {
  }
}
