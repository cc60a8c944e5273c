/** Wide MMIO accesses of the UIO platform over a flat little-endian byte memory,
    with or without the emulation of 64-bit accesses by 32-bit ones. */
module Mmio {
  import opened Words

  const TWO_32: int := 0x1_0000_0000

  type Byte = b: int | 0 <= b < 0x100
  type Half32 = h: int | 0 <= h < TWO_32

  // A device whose bytes read back as written.
  type Memory = Word -> Byte

  datatype Access = Access(at: Word, size: nat, write: bool)

  // ----- little-endian values -----

  function Bytes(v: nat, n: nat): (bs: seq<Byte>)
    ensures |bs| == n
    decreases n
  {
    if n == 0 then [] else [v % 0x100] + Bytes(v / 0x100, n - 1)
  }

  function Value(bs: seq<Byte>): nat {
    if bs == [] then 0 else bs[0] + 0x100 * Value(bs[1..])
  }

  function Pow256(n: nat): (p: nat)
    ensures p > 0
  {
    if n == 0 then 1 else 0x100 * Pow256(n - 1)
  }

  lemma {:induction false} BytesOfValue(bs: seq<Byte>)
    ensures Bytes(Value(bs), |bs|) == bs && Value(bs) < Pow256(|bs|)
  {
    if bs != [] {
      BytesOfValue(bs[1..]);
      Cut(Value(bs), Value(bs[1..]), bs[0], 0x100);
    }
  }

  lemma {:induction false} ValueOfBytes(v: nat, n: nat)
    requires v < Pow256(n)
    ensures Value(Bytes(v, n)) == v
    decreases n
  {
    if n > 0 {
      assert Bytes(v, n)[1..] == Bytes(v / 0x100, n - 1);
      ValueOfBytes(v / 0x100, n - 1);
    }
  }

  lemma {:induction false} ValueOfConcat(a: seq<Byte>, b: seq<Byte>)
    ensures Value(a + b) == Value(a) + Pow256(|a|) * Value(b)
  {
    if a == [] {
      assert a + b == b;
    } else {
      assert (a + b)[1..] == a[1..] + b;
      ValueOfConcat(a[1..], b);
      Horner(a[0], Value(a[1..]), Pow256(|a| - 1), Value(b), Value(a[1..] + b));
    }
  }

  lemma Horner(first: nat, rest: nat, p: nat, v: nat, sum: nat)
    requires sum == rest + p * v
    ensures first + 0x100 * sum == first + 0x100 * rest + 0x100 * p * v
  {
  }

  // A 64-bit word is its low half followed by its high half.
  lemma WordHalves(v: Word)
    ensures Bytes(v, 8) == Bytes(v % TWO_32, 4) + Bytes(v / TWO_32, 4)
  {
    var low, high := Bytes(v % TWO_32, 4), Bytes(v / TWO_32, 4);
    Pow256Values();
    ValueOfBytes(v % TWO_32, 4);
    ValueOfBytes(v / TWO_32, 4);
    ValueOfConcat(low, high);
    BytesOfValue(low + high);
  }

  lemma Pow256Values()
    ensures Pow256(4) == TWO_32 && Pow256(8) == TWO_64
  {
    assert Pow256(2) == 0x1_0000;
    assert Pow256(4) == 0x1_0000 * Pow256(2);
    assert Pow256(6) == 0x1_0000 * Pow256(4);
  }

  // ----- flat memory -----

  // How far x lies above a, wrapping.
  function Distance(a: Word, x: Word): Word {
    (x - a) % TWO_64
  }

  function Load(mem: Memory, a: Word, n: nat): (bs: seq<Byte>)
    ensures |bs| == n
  {
    seq<Byte>(n, i => mem(Plus(a, i)))
  }

  function Store(mem: Memory, a: Word, bs: seq<Byte>): Memory {
    x => if Distance(a, x) < |bs| then bs[Distance(a, x)] else mem(x)
  }

  ghost predicate Same(m: Memory, n: Memory) {
    forall x :: m(x) == n(x)
  }

  lemma DistancePlus(a: Word, d: int, x: Word)
    ensures Distance(Plus(a, d), x) == (Distance(a, x) - d) % TWO_64
    ensures 0 <= d < TWO_64 ==> Distance(a, Plus(a, d)) == d
    ensures Plus(a, Distance(a, x)) == x
  {
    var q := (a + d) / TWO_64;
    Cut(a + d, q, Plus(a, d), TWO_64);
    var r := (x - a) / TWO_64;
    Cut(x - a, r, Distance(a, x), TWO_64);
    var w := (Distance(a, x) - d) / TWO_64;
    Cut(x - Plus(a, d), r + q + w, (Distance(a, x) - d) % TWO_64, TWO_64);
    if 0 <= d < TWO_64 {
      Cut(Plus(a, d) - a, -q, d, TWO_64);
    }
    Cut(a + Distance(a, x), -r, x, TWO_64);
  }

  lemma LoadStore(mem: Memory, a: Word, bs: seq<Byte>)
    requires |bs| < TWO_64
    ensures Load(Store(mem, a, bs), a, |bs|) == bs
  {
    hide Plus, Distance;
    forall i | 0 <= i < |bs|
      ensures Store(mem, a, bs)(Plus(a, i)) == bs[i]
    {
      DistancePlus(a, i, a);
    }
  }

  lemma {:induction false} ByteOfWord(v: nat, n: nat, i: nat)
    requires i < n
    ensures Bytes(v, n)[i] == v / Pow256(i) % 0x100
    decreases n
  {
    if i > 0 {
      ByteOfWord(v / 0x100, n - 1, i - 1);
      DivideTwice(v, 0x100, Pow256(i - 1));
    }
  }

  lemma DivideTwice(v: nat, d: nat, e: nat)
    requires d > 0 && e > 0
    ensures d * e > 0 && v / d / e == v / (d * e)
  {
    var q, r := v / d / e, v / d % e;
    assert v == (q * e + r) * d + v % d;
    assert (q * e + r) * d == q * (d * e) + r * d;
    assert (r + 1) * d <= e * d;
    Cut(v, q, r * d + v % d, d * e);
  }

  // Byte i of a stored word is the one of weight 256^i, at the i-th address.
  lemma StoredByte(mem: Memory, a: Word, v: Word, i: nat)
    requires i < 8
    ensures Store(mem, a, Bytes(v, 8))((a + i) % TWO_64) == v / Pow256(i) % 0x100
    ensures forall x: Word :: Distance(a, x) >= 8 ==> Store(mem, a, Bytes(v, 8))(x) == mem(x)
  {
    hide Bytes, Pow256, Distance;
    ByteOfWord(v, 8, i);
    DistancePlus(a, i, a);
    assert Plus(a, i) == (a + i) % TWO_64;
  }

  // ----- narrow accesses -----

  // offset += d on a uint32_t.
  function Advance(offset: Half32, d: nat): Half32 {
    (offset + d) % TWO_32
  }

  lemma AdvanceTwice(offset: Half32, d: nat, e: nat)
    ensures Advance(Advance(offset, d), e) == Advance(offset, d + e)
  {
    Cut(Advance(offset, d) + e, (offset + d + e) / TWO_32 - (offset + d) / TWO_32, Advance(offset, d + e), TWO_32);
  }

  lemma AdvanceZero(offset: Half32)
    ensures Advance(offset, 0) == offset
  {
  }

  // n bytes are a whole number of units.
  predicate Whole(n: nat, unit: nat) {
    unit > 0 && n % unit == 0
  }

  // The bytes stored in units at offset, offset + unit, ...; offsets are 32-bit.
  function StoreUnits(mem: Memory, base: Word, offset: Half32, bs: seq<Byte>, unit: nat): Memory
    requires Whole(|bs|, unit)
    decreases |bs|
  {
    if bs == [] then mem
    else (LengthStep(|bs|, unit);
          StoreUnits(Store(mem, Plus(base, offset), bs[..unit]), base, Advance(offset, unit), bs[unit..], unit))
  }

  function LoadUnits(mem: Memory, base: Word, offset: Half32, n: nat, unit: nat): (bs: seq<Byte>)
    requires Whole(n, unit)
    ensures |bs| == n
    decreases n
  {
    if n == 0 then []
    else (LengthStep(n, unit);
          Load(mem, Plus(base, offset), unit) + LoadUnits(mem, base, Advance(offset, unit), n - unit, unit))
  }

  function Accesses(base: Word, offset: Half32, n: nat, unit: nat, write: bool): seq<Access>
    requires Whole(n, unit)
    decreases n
  {
    if n == 0 then []
    else (LengthStep(n, unit);
          [Access(Plus(base, offset), unit, write)] + Accesses(base, Advance(offset, unit), n - unit, unit, write))
  }

  lemma LengthStep(n: nat, unit: nat)
    requires n > 0 && Whole(n, unit)
    ensures n >= unit > 0 && Whole(n - unit, unit)
  {
    assert n == n / unit * unit;
    Multiple(n / unit, unit);
    Cut(n - unit, n / unit - 1, 0, unit);
  }

  lemma {:induction false} StoreUnitsConcat(mem: Memory, base: Word, offset: Half32, a: seq<Byte>, b: seq<Byte>,
                                            unit: nat)
    requires Whole(|a|, unit) && Whole(|b|, unit) && Whole(|a + b|, unit)
    ensures StoreUnits(mem, base, offset, a + b, unit)
         == StoreUnits(StoreUnits(mem, base, offset, a, unit), base, Advance(offset, |a|), b, unit)
    decreases |a|
  {
    hide Store, Plus, Advance, Whole;
    AdvanceZero(offset);
    if a == [] {
      assert a + b == b;
    } else {
      LengthStep(|a|, unit);
      LengthStep(|a + b|, unit);
      assert (a + b)[..unit] == a[..unit] && (a + b)[unit..] == a[unit..] + b;
      AdvanceTwice(offset, unit, |a| - unit);
      StoreUnitsConcat(Store(mem, Plus(base, offset), a[..unit]), base, Advance(offset, unit), a[unit..], b, unit);
    }
  }

  lemma {:induction false} LoadUnitsConcat(mem: Memory, base: Word, offset: Half32, n: nat, m: nat, unit: nat)
    requires Whole(n, unit) && Whole(m, unit) && Whole(n + m, unit)
    ensures LoadUnits(mem, base, offset, n + m, unit)
         == LoadUnits(mem, base, offset, n, unit) + LoadUnits(mem, base, Advance(offset, n), m, unit)
    decreases n
  {
    hide Plus, Load, Advance, Whole;
    AdvanceZero(offset);
    if n > 0 {
      LengthStep(n, unit);
      LengthStep(n + m, unit);
      AdvanceTwice(offset, unit, n - unit);
      LoadUnitsConcat(mem, base, Advance(offset, unit), n - unit, m, unit);
      assert n + m - unit == n - unit + m;
    }
  }

  lemma {:induction false} AccessesConcat(base: Word, offset: Half32, n: nat, m: nat, unit: nat, write: bool)
    requires Whole(n, unit) && Whole(m, unit) && Whole(n + m, unit)
    ensures Accesses(base, offset, n + m, unit, write)
         == Accesses(base, offset, n, unit, write) + Accesses(base, Advance(offset, n), m, unit, write)
    decreases n
  {
    hide Plus, Advance, Whole;
    AdvanceZero(offset);
    if n > 0 {
      LengthStep(n, unit);
      LengthStep(n + m, unit);
      AdvanceTwice(offset, unit, n - unit);
      AccessesConcat(base, Advance(offset, unit), n - unit, m, unit, write);
      assert n + m - unit == n - unit + m;
    }
  }

  // ----- a window that does not wrap -----

  // The last access of the window still has a 32-bit offset.
  predicate Contiguous(offset: Half32, n: nat, unit: nat) {
    offset + n - unit < TWO_32
  }

  lemma StoreConcat(mem: Memory, a: Word, b: seq<Byte>, c: seq<Byte>)
    requires |b + c| < TWO_64
    ensures Same(Store(Store(mem, a, b), Plus(a, |b|), c), Store(mem, a, b + c))
  {
    hide Distance, Plus;
    forall x: Word
      ensures Store(Store(mem, a, b), Plus(a, |b|), c)(x) == Store(mem, a, b + c)(x)
    {
      DistancePlus(a, |b|, x);
    }
  }

  lemma {:induction false} StoreContiguous(mem: Memory, base: Word, offset: Half32, bs: seq<Byte>, unit: nat)
    requires Whole(|bs|, unit) && |bs| < TWO_64 && Contiguous(offset, |bs|, unit)
    ensures Same(StoreUnits(mem, base, offset, bs, unit), Store(mem, Plus(base, offset), bs))
    decreases |bs|
  {
    hide Store, Plus;
    if bs == [] {
      StoreNothing(mem, Plus(base, offset));
    } else {
      LengthStep(|bs|, unit);
      var head, rest := bs[..unit], bs[unit..];
      var mem1 := Store(mem, Plus(base, offset), head);
      if rest == [] {
        assert head == bs;
      } else {
        LengthStep(|rest|, unit);
        assert Advance(offset, unit) == offset + unit;
        StoreContiguous(mem1, base, offset + unit, rest, unit);
        PlusPlus(base, offset, unit);
        StoreConcat(mem, Plus(base, offset), head, rest);
        assert head + rest == bs;
      }
    }
  }

  lemma StoreNothing(mem: Memory, a: Word)
    ensures Same(mem, Store(mem, a, []))
  {
  }

  lemma {:induction false} LoadContiguous(mem: Memory, base: Word, offset: Half32, n: nat, unit: nat)
    requires Whole(n, unit) && Contiguous(offset, n, unit)
    ensures LoadUnits(mem, base, offset, n, unit) == Load(mem, Plus(base, offset), n)
    decreases n
  {
    hide Plus, Advance;
    if n > 0 {
      LengthStep(n, unit);
      LoadConcat(mem, Plus(base, offset), unit, n - unit);
      if n > unit {
        LengthStep(n - unit, unit);
        AdvanceWithin(offset, unit);
        PlusPlus(base, offset, unit);
        LoadContiguous(mem, base, offset + unit, n - unit, unit);
      }
    }
  }

  lemma LoadConcat(mem: Memory, a: Word, n: nat, m: nat)
    ensures Load(mem, a, n + m) == Load(mem, a, n) + Load(mem, Plus(a, n), m)
  {
    hide Plus;
    forall i | 0 <= i < m
      ensures Plus(Plus(a, n), i) == Plus(a, n + i)
    {
      PlusPlus(a, n, i);
    }
  }

  lemma AdvanceWithin(offset: Half32, d: nat)
    requires offset + d < TWO_32
    ensures Advance(offset, d) == offset + d
  {
  }

  lemma {:induction false} AccessesCount(base: Word, offset: Half32, n: nat, unit: nat, write: bool)
    requires Whole(n, unit)
    ensures |Accesses(base, offset, n, unit, write)| == n / unit
    decreases n
  {
    hide Plus, Advance;
    if n > 0 {
      LengthStep(n, unit);
      Cut(n, (n - unit) / unit + 1, 0, unit);
      AccessesCount(base, Advance(offset, unit), n - unit, unit, write);
    }
  }

  // The accesses are consecutive, ascending and do not overlap.
  lemma {:induction false} AccessesContiguous(base: Word, offset: Half32, n: nat, unit: nat, write: bool)
    requires Whole(n, unit) && Contiguous(offset, n, unit)
    ensures |Accesses(base, offset, n, unit, write)| == n / unit
    ensures forall k :: 0 <= k < n / unit ==>
                          Accesses(base, offset, n, unit, write)[k]
                              == Access(Plus(base, offset + unit * k), unit, write)
    decreases n
  {
    hide Plus, Advance;
    if n > 0 {
      LengthStep(n, unit);
      Cut(n, (n - unit) / unit + 1, 0, unit);
      if n > unit {
        LengthStep(n - unit, unit);
        AdvanceWithin(offset, unit);
        AccessesContiguous(base, offset + unit, n - unit, unit, write);
        forall k | 1 <= k < n / unit
          ensures Accesses(base, offset, n, unit, write)[k] == Access(Plus(base, offset + unit * k), unit, write)
        {
          assert Accesses(base, offset, n, unit, write)[k]
              == Accesses(base, offset + unit, n - unit, unit, write)[k - 1];
          assert offset + unit + unit * (k - 1) == offset + unit * k;
        }
      }
    }
  }

  // ----- what is written is read back -----

  // Later units never come back to an earlier one, even when offsets wrap.
  lemma {:induction false} StoreUnitsMisses(mem: Memory, base: Word, offset: Half32, bs: seq<Byte>, unit: nat,
                                            o: Half32, i: nat)
    requires Whole(|bs|, unit) && i < unit
    requires unit <= (offset - o) % TWO_32 && (offset - o) % TWO_32 + |bs| <= TWO_32
    ensures StoreUnits(mem, base, offset, bs, unit)(Plus(base, o + i)) == mem(Plus(base, o + i))
    decreases |bs|
  {
    hide Store, Plus;
    if bs != [] {
      LengthStep(|bs|, unit);
      var gap := (offset - o) % TWO_32;
      var mem1 := Store(mem, Plus(base, offset), bs[..unit]);
      UnitMisses(mem, base, offset, bs[..unit], o, i);
      if |bs| > unit {
        LengthStep(|bs| - unit, unit);
        Cut((offset + unit) % TWO_32 - o, (offset - o) / TWO_32 - (offset + unit) / TWO_32, gap + unit, TWO_32);
        StoreUnitsMisses(mem1, base, Advance(offset, unit), bs[unit..], unit, o, i);
      }
    }
  }

  lemma UnitMisses(mem: Memory, base: Word, offset: Half32, bs: seq<Byte>, o: Half32, i: nat)
    requires i < |bs| <= (offset - o) % TWO_32 && (offset - o) % TWO_32 + |bs| <= TWO_32
    ensures Store(mem, Plus(base, offset), bs)(Plus(base, o + i)) == mem(Plus(base, o + i))
  {
    DistancePlus(base, o + i, base);
    DistancePlus(base, offset, Plus(base, o + i));
    hide Distance, Plus;
    assert offset - o == (offset - o) % TWO_32 || offset - o == (offset - o) % TWO_32 - TWO_32;
  }

  lemma {:induction false} ReadBack(mem: Memory, base: Word, offset: Half32, bs: seq<Byte>, unit: nat)
    requires Whole(|bs|, unit) && unit < TWO_32 && |bs| <= TWO_32
    ensures LoadUnits(StoreUnits(mem, base, offset, bs, unit), base, offset, |bs|, unit) == bs
    decreases |bs|
  {
    hide Plus, Store;
    if bs != [] {
      LengthStep(|bs|, unit);
      var a, head, rest := Plus(base, offset), bs[..unit], bs[unit..];
      var mem1, then_ := Store(mem, a, head), Advance(offset, unit);
      ReadBack(mem1, base, then_, rest, unit);
      LoadStore(mem, a, head);
      var last := StoreUnits(mem1, base, then_, rest, unit);
      forall i | 0 <= i < unit
        ensures last(Plus(a, i)) == mem1(Plus(a, i))
      {
        PlusPlus(base, offset, i);
        if rest != [] {
          Cut(then_ - offset, -((offset + unit) / TWO_32), unit, TWO_32);
          StoreUnitsMisses(mem1, base, then_, rest, unit, offset, i);
        }
      }
      assert Load(last, a, unit) == Load(mem1, a, unit) == head;
      assert head + rest == bs;
    }
  }

  // ----- when the window is one block -----

  // Byte i of the unit after start bytes comes from that unit's offset, wrapped or not.
  lemma {:induction false} UnitByte(mem: Memory, base: Word, offset: Half32, n: nat, unit: nat, start: nat, i: nat)
    requires Whole(n, unit) && Whole(start, unit) && start + unit <= n && i < unit
    ensures LoadUnits(mem, base, offset, n, unit)[start + i] == mem(Plus(base, Advance(offset, start) + i))
    decreases start
  {
    hide Advance, Plus, Whole;
    LengthStep(n, unit);
    AdvanceZero(offset);
    if start > 0 {
      LengthStep(start, unit);
      AdvanceTwice(offset, unit, start - unit);
      UnitByte(mem, base, Advance(offset, unit), n - unit, unit, start - unit, i);
    } else {
      PlusPlus(base, offset, i);
    }
  }

  // Narrow stores fill one block of memory for all contents exactly when the last
  // access keeps its 32-bit offset: a wrapped one lands at the other end of it.
  lemma OneBlockIffContiguous(base: Word, offset: Half32, n: nat, unit: nat)
    requires 0 < n <= TWO_32 && Whole(n, unit)
    ensures (forall mem: Memory, bs: seq<Byte> :: |bs| == n ==>
               Same(StoreUnits(mem, base, offset, bs, unit), Store(mem, Plus(base, offset), bs)))
            <==> Contiguous(offset, n, unit)
  {
    LengthStep(n, unit);
    if Contiguous(offset, n, unit) {
      forall mem: Memory, bs: seq<Byte> | |bs| == n
        ensures Same(StoreUnits(mem, base, offset, bs, unit), Store(mem, Plus(base, offset), bs))
      {
        StoreContiguous(mem, base, offset, bs, unit);
      }
    } else {
      var zero: Memory := _ => 0;
      var ones := seq<Byte>(n, _ => 1);
      WrappedUnitStrays(zero, base, offset, ones, unit);
      assert !Same(StoreUnits(zero, base, offset, ones, unit), Store(zero, Plus(base, offset), ones));
    }
    hide StoreUnits, Store, Same;
  }

  lemma WrappedUnitStrays(mem: Memory, base: Word, offset: Half32, bs: seq<Byte>, unit: nat)
    requires 0 < |bs| <= TWO_32 && Whole(|bs|, unit) && !Contiguous(offset, |bs|, unit)
    requires (forall x :: mem(x) == 0) && forall i :: 0 <= i < |bs| ==> bs[i] == 1
    ensures !Same(StoreUnits(mem, base, offset, bs, unit), Store(mem, Plus(base, offset), bs))
  {
    hide Plus, Store, StoreUnits, LoadUnits;
    var n := |bs|;
    LengthStep(n, unit);
    var o := Advance(offset, n - unit);
    assert o == offset + n - unit - TWO_32;
    if unit < TWO_32 {
      ReadBack(mem, base, offset, bs, unit);
      UnitByte(StoreUnits(mem, base, offset, bs, unit), base, offset, n, unit, n - unit, 0);
      assert StoreUnits(mem, base, offset, bs, unit)(Plus(base, o)) == 1;
      UntouchedBelow(mem, base, offset, bs, o);
    }
  }

  lemma UntouchedBelow(mem: Memory, base: Word, offset: Half32, bs: seq<Byte>, o: Half32)
    requires o < offset && |bs| <= TWO_32
    ensures Store(mem, Plus(base, offset), bs)(Plus(base, o)) == mem(Plus(base, o))
  {
    DistancePlus(base, o, base);
    DistancePlus(base, offset, Plus(base, o));
  }

  // ----- the accesses of intel_fpga_api_uio.h -----

  class Interface {
    const base: Word
    const emulated: bool // FPGA_PLATFORM_FORCE_64BIT_MMIO_EMULATION_WITH_32BIT
    var mem: Memory
    ghost var log: seq<Access>

    constructor (base: Word, emulated: bool, mem: Memory)
      ensures this.base == base && this.emulated == emulated && this.mem == mem && log == []
    {
      this.base, this.emulated, this.mem, log := base, emulated, mem, [];
    }

    // The widest access the build makes.
    ghost function Unit(): (u: nat)
      ensures u == if emulated then 4 else 8
    {
      if emulated then 4 else 8
    }

    method Read32(offset: Half32) returns (value: Half32)
      modifies `log
      ensures Bytes(value, 4) == LoadUnits(mem, base, offset, 4, 4)
      ensures log == old(log) + Accesses(base, offset, 4, 4, false)
    {
      var bytes := Load(mem, Plus(base, offset), 4);
      BytesOfValue(bytes);
      Pow256Values();
      value := Value(bytes);
      log := log + [Access(Plus(base, offset), 4, false)];
    }

    method Write32(offset: Half32, value: Half32)
      modifies this
      ensures mem == StoreUnits(old(mem), base, offset, Bytes(value, 4), 4)
      ensures log == old(log) + Accesses(base, offset, 4, 4, true)
    {
      ghost var bytes := Bytes(value, 4);
      assert bytes[..4] == bytes && bytes[4..] == [];
      mem := Store(mem, Plus(base, offset), Bytes(value, 4));
      log := log + [Access(Plus(base, offset), 4, true)];
    }

    method Read64(offset: Half32) returns (value: Word)
      modifies `log
      ensures Bytes(value, 8) == LoadUnits(mem, base, offset, 8, Unit())
      ensures log == old(log) + Accesses(base, offset, 8, Unit(), false)
      ensures log == old(log) + if emulated then [Access(Plus(base, offset), 4, false),
                                                  Access(Plus(base, Advance(offset, 4)), 4, false)]
                                else [Access(Plus(base, offset), 8, false)]
    {
      Pow256Values();
      if !emulated {
        var bytes := Load(mem, Plus(base, offset), 8);
        BytesOfValue(bytes);
        value := Value(bytes);
        log := log + [Access(Plus(base, offset), 8, false)];
      } else {
        var low := Read32(offset);
        var high := Read32(Advance(offset, 4));
        value := low + high * TWO_32;
        WordHalves(value);
        Cut(value, high, low, TWO_32);
        LoadUnitsConcat(mem, base, offset, 4, 4, 4);
        AccessesConcat(base, offset, 4, 4, 4, false);
      }
    }

    method Write64(offset: Half32, value: Word)
      modifies this
      ensures mem == StoreUnits(old(mem), base, offset, Bytes(value, 8), Unit())
      ensures log == old(log) + Accesses(base, offset, 8, Unit(), true)
      ensures log == old(log) + if emulated then [Access(Plus(base, offset), 4, true),
                                                  Access(Plus(base, Advance(offset, 4)), 4, true)]
                                else [Access(Plus(base, offset), 8, true)]
    {
      if !emulated {
        ghost var bytes := Bytes(value, 8);
        assert bytes[..8] == bytes && bytes[8..] == [];
        mem := Store(mem, Plus(base, offset), Bytes(value, 8));
        log := log + [Access(Plus(base, offset), 8, true)];
      } else {
        WordHalves(value);
        StoreUnitsConcat(mem, base, offset, Bytes(value % TWO_32, 4), Bytes(value / TWO_32, 4), 4);
        AccessesConcat(base, offset, 4, 4, 4, true);
        Write32(offset, value % TWO_32);
        Write32(Advance(offset, 4), value / TWO_32);
      }
    }

    method Read512(offset: Half32, value: array<Byte>)
      requires value.Length >= 64
      modifies `log, value
      ensures value[..64] == LoadUnits(mem, base, offset, 64, Unit()) && value[64..] == old(value[64..])
      ensures log == old(log) + Accesses(base, offset, 64, Unit(), false)
      ensures |log| == |old(log)| + if emulated then 16 else 8
    {
      hide LoadUnits, Accesses, Bytes, Plus, Whole, Advance, Unit;
      NothingRead(mem, base, offset, Unit());
      var i, at := 0, offset;
      while i < 8
        invariant 0 <= i <= 8 && at == Advance(offset, 8 * i) && Whole(8 * i, Unit())
        invariant value[..8 * i] == LoadUnits(mem, base, offset, 8 * i, Unit()) && value[64..] == old(value[64..])
        invariant log == old(log) + Accesses(base, offset, 8 * i, Unit(), false)
      {
        WholeWords(i, Unit());
        LoadUnitsConcat(mem, base, offset, 8 * i, 8, Unit());
        AccessesConcat(base, offset, 8 * i, 8, Unit(), false);
        AdvanceTwice(offset, 8 * i, 8);
        var word := Read64(at);
        PutWord(value, 8 * i, word);
        i, at := i + 1, Advance(at, 8);
      }
      WideCount(base, offset, Unit(), false);
    }

    method Write512(offset: Half32, value: array<Byte>)
      requires value.Length >= 64
      modifies this
      ensures mem == StoreUnits(old(mem), base, offset, value[..64], Unit())
      ensures log == old(log) + Accesses(base, offset, 64, Unit(), true)
      ensures |log| == |old(log)| + if emulated then 16 else 8
    {
      hide StoreUnits, Accesses, Value, Bytes, Plus, Whole, Advance, Unit;
      NothingWritten(mem, base, offset, Unit());
      Pow256Values();
      var i, at := 0, offset;
      while i < 8
        invariant 0 <= i <= 8 && at == Advance(offset, 8 * i) && Whole(8 * i, Unit())
        invariant mem == StoreUnits(old(mem), base, offset, value[..8 * i], Unit())
        invariant log == old(log) + Accesses(base, offset, 8 * i, Unit(), true)
      {
        WholeWords(i, Unit());
        BytesOfValue(value[8 * i..8 * i + 8]);
        StoreUnitsConcat(old(mem), base, offset, value[..8 * i], value[8 * i..8 * i + 8], Unit());
        AccessesConcat(base, offset, 8 * i, 8, Unit(), true);
        AdvanceTwice(offset, 8 * i, 8);
        assert value[..8 * i] + value[8 * i..8 * i + 8] == value[..8 * i + 8];
        Write64(at, Value(value[8 * i..8 * i + 8]));
        i, at := i + 1, Advance(at, 8);
      }
      WideCount(base, offset, Unit(), true);
    }
  }

  lemma WideCount(base: Word, offset: Half32, unit: nat, write: bool)
    requires unit == 4 || unit == 8
    ensures Whole(64, unit) && |Accesses(base, offset, 64, unit, write)| == if unit == 4 then 16 else 8
  {
    AccessesCount(base, offset, 64, unit, write);
    hide Accesses;
  }

  lemma WholeWords(i: nat, unit: nat)
    requires unit == 4 || unit == 8
    ensures Whole(8, unit) && Whole(8 * i, unit) && Whole(8 * i + 8, unit)
  {
  }

  lemma NothingRead(mem: Memory, base: Word, offset: Half32, unit: nat)
    requires unit > 0
    ensures Whole(0, unit) && Advance(offset, 0) == offset
    ensures LoadUnits(mem, base, offset, 0, unit) == [] && forall write :: Accesses(base, offset, 0, unit, write) == []
  {
  }

  lemma NothingWritten(mem: Memory, base: Word, offset: Half32, unit: nat)
    requires unit > 0
    ensures Whole(0, unit) && Advance(offset, 0) == offset
    ensures StoreUnits(mem, base, offset, [], unit) == mem
            && forall write :: Accesses(base, offset, 0, unit, write) == []
  {
  }

  // *(uint64_t *)(value + k) = word.
  method PutWord(value: array<Byte>, k: nat, word: Word)
    requires k + 8 <= value.Length
    modifies value
    ensures value[..] == old(value[..k]) + Bytes(word, 8) + old(value[k + 8..])
  {
    var bytes := Bytes(word, 8);
    forall j | k <= j < k + 8 {
      value[j] := bytes[j - k];
    }
  }

  // ----- the two builds -----

  // One 64-bit store leaves the same memory in both builds, for all contents,
  // exactly when its upper half keeps its 32-bit offset.
  lemma BuildsAgreeOnWord(base: Word, offset: Half32)
    ensures (forall mem: Memory, bs: seq<Byte> :: |bs| == 8 ==>
               Same(StoreUnits(mem, base, offset, bs, 4), StoreUnits(mem, base, offset, bs, 8)))
            <==> offset + 4 < TWO_32
  {
    OneBlockIffContiguous(base, offset, 8, 4);
    OneBlockIffContiguous(base, offset, 8, 8);
    hide StoreUnits, Store;
  }

  // No 64-bit word of the window has its halves on both sides of the wrap.
  predicate NoneStraddles(offset: Half32, n: nat) {
    forall k :: 0 <= k < n / 8 ==> Advance(offset, 8 * k) + 4 < TWO_32
  }

  // A store of n / 8 words leaves the same memory in both builds, for all contents,
  // exactly when none of them straddles the wrap; fpga_write_512 is the case n == 64.
  lemma BuildsAgreeIff(base: Word, offset: Half32, n: nat)
    requires Whole(n, 8) && Whole(n, 4) && n <= TWO_32
    ensures (forall mem: Memory, bs: seq<Byte> :: |bs| == n ==>
               Same(StoreUnits(mem, base, offset, bs, 4), StoreUnits(mem, base, offset, bs, 8)))
            <==> NoneStraddles(offset, n)
  {
    if NoneStraddles(offset, n) {
      forall mem: Memory, bs: seq<Byte> | |bs| == n
        ensures Same(StoreUnits(mem, base, offset, bs, 4), StoreUnits(mem, base, offset, bs, 8))
      {
        BuildsAgree(mem, base, offset, bs);
      }
    } else {
      var k :| 0 <= k < n / 8 && Advance(offset, 8 * k) + 4 >= TWO_32;
      var zero: Memory := _ => 0;
      var ones := seq<Byte>(n, _ => 1);
      StraddlingWordDiffers(zero, base, offset, ones, k);
      assert !Same(StoreUnits(zero, base, offset, ones, 4), StoreUnits(zero, base, offset, ones, 8));
    }
    hide StoreUnits, Same;
  }

  lemma {:induction false} BuildsAgree(mem: Memory, base: Word, offset: Half32, bs: seq<Byte>)
    requires Whole(|bs|, 8) && Whole(|bs|, 4) && NoneStraddles(offset, |bs|)
    ensures Same(StoreUnits(mem, base, offset, bs, 4), StoreUnits(mem, base, offset, bs, 8))
    decreases |bs|
  {
    hide Store, Plus, Advance;
    if bs != [] {
      LengthStep(|bs|, 8);
      LaterStraddles(offset, |bs|);
      var head, rest, a := bs[..8], bs[8..], Plus(base, offset);
      assert bs == head + rest;
      StoreUnitsConcat(mem, base, offset, head, rest, 4);
      StoreContiguous(mem, base, offset, head, 4);
      SameStores(StoreUnits(mem, base, offset, head, 4), Store(mem, a, head), base, Advance(offset, 8), rest, 4);
      BuildsAgree(Store(mem, a, head), base, Advance(offset, 8), rest);
    }
  }

  lemma LaterStraddles(offset: Half32, n: nat)
    requires n >= 8 && NoneStraddles(offset, n)
    ensures offset + 4 < TWO_32 && NoneStraddles(Advance(offset, 8), n - 8)
  {
    AdvanceZero(offset);
    assert Advance(offset, 8 * 0) + 4 < TWO_32;
    forall k | 0 <= k < (n - 8) / 8
      ensures Advance(Advance(offset, 8), 8 * k) + 4 < TWO_32
    {
      AdvanceTwice(offset, 8, 8 * k);
      assert Advance(offset, 8 * (k + 1)) + 4 < TWO_32;
    }
    hide Advance;
  }

  lemma {:induction false} SameStores(m: Memory, m': Memory, base: Word, offset: Half32, bs: seq<Byte>, unit: nat)
    requires Same(m, m') && Whole(|bs|, unit)
    ensures Same(StoreUnits(m, base, offset, bs, unit), StoreUnits(m', base, offset, bs, unit))
    decreases |bs|
  {
    if bs != [] {
      LengthStep(|bs|, unit);
      SameStore(m, m', Plus(base, offset), bs[..unit]);
      hide Store, Plus, Advance;
      SameStores(Store(m, Plus(base, offset), bs[..unit]), Store(m', Plus(base, offset), bs[..unit]), base,
                 Advance(offset, unit), bs[unit..], unit);
    }
  }

  lemma SameStore(m: Memory, m': Memory, a: Word, bs: seq<Byte>)
    requires Same(m, m')
    ensures Same(Store(m, a, bs), Store(m', a, bs))
  {
  }

  // The wide build stores the upper half of the straddling word just past 2^32; no
  // narrow access gets there.
  lemma StraddlingWordDiffers(mem: Memory, base: Word, offset: Half32, bs: seq<Byte>, k: nat)
    requires Whole(|bs|, 8) && Whole(|bs|, 4) && |bs| <= TWO_32
    requires k < |bs| / 8 && Advance(offset, 8 * k) + 4 >= TWO_32
    requires (forall x :: mem(x) == 0) && forall i :: 0 <= i < |bs| ==> bs[i] == 1
    ensures !Same(StoreUnits(mem, base, offset, bs, 4), StoreUnits(mem, base, offset, bs, 8))
  {
    hide StoreUnits, LoadUnits, Plus, Store, Whole, Advance, Same;
    var top := Advance(offset, 8 * k) + 4;
    WordInside(|bs|, k);
    ReadBack(mem, base, offset, bs, 8);
    UnitByte(StoreUnits(mem, base, offset, bs, 8), base, offset, |bs|, 8, 8 * k, 4);
    AdvanceKeepsResidue(offset, 8 * k);
    PastTheWrap(mem, base, offset, bs, top);
    DifferAt(StoreUnits(mem, base, offset, bs, 4), StoreUnits(mem, base, offset, bs, 8), Plus(base, top));
  }

  lemma WordInside(n: nat, k: nat)
    requires Whole(n, 8) && k < n / 8
    ensures Whole(8 * k, 8) && 8 * k + 8 <= n && 8 * k % 4 == 0 && Whole(8 * k + 4, 4)
  {
    Cut(8 * k, 2 * k, 0, 4);
    Cut(8 * k + 4, 2 * k + 1, 0, 4);
  }

  lemma DifferAt(m: Memory, m': Memory, x: Word)
    requires m(x) != m'(x)
    ensures !Same(m, m')
  {
  }

  lemma AdvanceKeepsResidue(offset: Half32, d: nat)
    requires d % 4 == 0
    ensures Advance(offset, d) % 4 == (Advance(offset, d) + 4) % 4 == offset % 4
  {
    var q, r := (offset + d) / TWO_32, offset % 4;
    Cut(Advance(offset, d), offset / 4 + d / 4 - q * (TWO_32 / 4), r, 4);
    Cut(Advance(offset, d) + 4, offset / 4 + d / 4 - q * (TWO_32 / 4) + 1, r, 4);
  }

  lemma {:induction false} PastTheWrap(mem: Memory, base: Word, offset: Half32, bs: seq<Byte>, top: nat)
    requires Whole(|bs|, 4) && TWO_32 <= top < TWO_32 + 4 && top % 4 == offset % 4
    ensures StoreUnits(mem, base, offset, bs, 4)(Plus(base, top)) == mem(Plus(base, top))
    decreases |bs|
  {
    hide Store, Plus, Advance;
    if bs != [] {
      LengthStep(|bs|, 4);
      UnitStaysBelow(mem, base, offset, bs[..4], top);
      AdvanceKeepsResidue(offset, 4);
      PastTheWrap(Store(mem, Plus(base, offset), bs[..4]), base, Advance(offset, 4), bs[4..], top);
    }
  }

  lemma AtLeastFour(a: nat, b: nat)
    requires a < b && a % 4 == b % 4
    ensures b - a >= 4
  {
    Cut(a, a / 4, a % 4, 4);
    Cut(b, b / 4, b % 4, 4);
  }

  lemma UnitStaysBelow(mem: Memory, base: Word, offset: Half32, bs: seq<Byte>, top: nat)
    requires |bs| == 4 && TWO_32 <= top < TWO_32 + 4 && top % 4 == offset % 4
    ensures Store(mem, Plus(base, offset), bs)(Plus(base, top)) == mem(Plus(base, top))
  {
    PlusPlus(base, offset, top - offset);
    DistancePlus(Plus(base, offset), top - offset, base);
    AtLeastFour(offset, top);
    hide Plus, Distance;
  }

  // A load of n / 8 words reads the same in both builds, from all memories, under the
  // same condition; fpga_read_512 is the case n == 64.
  lemma BuildsLoadAlikeIff(base: Word, offset: Half32, n: nat)
    requires Whole(n, 8) && Whole(n, 4)
    ensures (forall mem: Memory :: LoadUnits(mem, base, offset, n, 4) == LoadUnits(mem, base, offset, n, 8))
            <==> NoneStraddles(offset, n)
  {
    if NoneStraddles(offset, n) {
      forall mem: Memory
        ensures LoadUnits(mem, base, offset, n, 4) == LoadUnits(mem, base, offset, n, 8)
      {
        BuildsLoadAlike(mem, base, offset, n);
      }
    } else {
      var k :| 0 <= k < n / 8 && Advance(offset, 8 * k) + 4 >= TWO_32;
      var one: Memory := x => if x == Plus(base, Advance(offset, 8 * k) + 4) then 1 else 0;
      StraddlingLoadDiffers(one, base, offset, n, k);
      assert LoadUnits(one, base, offset, n, 4) != LoadUnits(one, base, offset, n, 8);
    }
    hide LoadUnits;
  }

  lemma {:induction false} BuildsLoadAlike(mem: Memory, base: Word, offset: Half32, n: nat)
    requires Whole(n, 8) && Whole(n, 4) && NoneStraddles(offset, n)
    ensures LoadUnits(mem, base, offset, n, 4) == LoadUnits(mem, base, offset, n, 8)
    decreases n
  {
    hide Load, Plus, Advance;
    if n > 0 {
      LengthStep(n, 8);
      LaterStraddles(offset, n);
      LoadUnitsConcat(mem, base, offset, 8, n - 8, 4);
      LoadContiguous(mem, base, offset, 8, 4);
      BuildsLoadAlike(mem, base, Advance(offset, 8), n - 8);
    }
  }

  // The wide build reads the byte just past 2^32, the narrow one the byte 4 GiB below.
  lemma StraddlingLoadDiffers(mem: Memory, base: Word, offset: Half32, n: nat, k: nat)
    requires Whole(n, 8) && Whole(n, 4) && k < n / 8 && Advance(offset, 8 * k) + 4 >= TWO_32
    requires forall x :: mem(x) == if x == Plus(base, Advance(offset, 8 * k) + 4) then 1 else 0
    ensures LoadUnits(mem, base, offset, n, 4) != LoadUnits(mem, base, offset, n, 8)
  {
    hide LoadUnits, Plus, Whole, Advance;
    var o := Advance(offset, 8 * k);
    WordInside(n, k);
    UnitByte(mem, base, offset, n, 8, 8 * k, 4);
    UnitByte(mem, base, offset, n, 4, 8 * k + 4, 0);
    AdvanceTwice(offset, 8 * k, 4);
    AdvancePast(o);
    PlusDistinct(base, o + 4 - TWO_32, o + 4);
  }

  lemma AdvancePast(offset: Half32)
    requires offset + 4 >= TWO_32
    ensures Advance(offset, 4) == offset + 4 - TWO_32
  {
  }

  // What fpga_write_512 writes, fpga_read_512 reads back, at any offset; a window
  // that does not wrap is the only memory changed.
  method WriteThenRead(dev: Interface, offset: Half32, value: array<Byte>, result: array<Byte>)
    requires value.Length >= 64 && result.Length >= 64
    modifies dev, result
    ensures result[..64] == old(value[..64])
    ensures Contiguous(offset, 64, 4) ==>
              forall x :: Distance(Plus(dev.base, offset), x) >= 64 ==> dev.mem(x) == old(dev.mem)(x)
  {
    ghost var before, bytes := dev.mem, value[..64];
    dev.Write512(offset, value);
    ReadBack(before, dev.base, offset, bytes, dev.Unit());
    if Contiguous(offset, 64, 4) {
      StoreContiguous(before, dev.base, offset, bytes, dev.Unit());
    }
    dev.Read512(offset, result);
    hide StoreUnits, LoadUnits, Plus, Distance;
  }
}
