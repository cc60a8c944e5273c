/** Reading DFL words in a build that emulates 64-bit reads by 32-bit ones: the
    narrow read refuses misaligned addresses, the wide one does not. */
module DflReads {
  import opened Words
  import opened DflCodec
  import opened DflTree
  import opened Mmio

  datatype Result<T> = Ok(value: T) | Halted

  // common_dfl_read_32: a run-time exception unless the address is a multiple of 4.
  function Read32(mem: Memory, at: Word, offset: Half32): Result<Half32> {
    if Plus(at, offset) % 4 != 0 then Halted
    else (BytesOfValue(Load(mem, Plus(at, offset), 4)); Pow256Values(); Ok(Value(Load(mem, Plus(at, offset), 4))))
  }

  // common_dfl_read_64 in either build.
  function Read64(mem: Memory, at: Word, offset: Half32, emulated: bool): Result<Word> {
    if !emulated then Ok(WordAt(mem, Plus(at, offset)))
    else
      match Read32(mem, at, offset)
      case Halted => Halted
      case Ok(low) =>
        match Read32(mem, at, Advance(offset, 4))
        case Halted => Halted
        case Ok(high) => Ok(low + high * TWO_32)
  }

  function WordAt(mem: Memory, at: Word): Word {
    BytesOfValue(Load(mem, at, 8));
    Pow256Values();
    Value(Load(mem, at, 8))
  }

  // The memory as the 64-bit words found in it.
  function AsRom(mem: Memory): Rom {
    at => WordAt(mem, at)
  }

  // The emulating build halts exactly at a misaligned address, whatever the offset.
  lemma EmulatedReadHaltsIff(mem: Memory, at: Word, offset: Half32)
    ensures Read64(mem, at, offset, true).Halted? <==> Plus(at, offset) % 4 != 0
  {
    hide Plus, Advance, Load;
    Residue(at, offset);
    Residue(at, Advance(offset, 4));
    AdvanceKeepsResidue(offset, 4);
    SameResidue(at, offset, Advance(offset, 4));
  }

  // Otherwise it reads the word of the image, if the upper half keeps its offset.
  lemma EmulatedRead(mem: Memory, at: Word, offset: Half32)
    requires Plus(at, offset) % 4 == 0 && offset + 4 < TWO_32
    ensures Read64(mem, at, offset, true) == Ok(AsRom(mem)(Plus(at, offset)))
  {
    EmulatedReadHaltsIff(mem, at, offset);
    hide Plus, Load, Value, Pow256, Advance;
    var a := Plus(at, offset);
    PlusPlus(at, offset, 4);
    AdvanceWithin(offset, 4);
    LoadConcat(mem, a, 4, 4);
    ValueOfConcat(Load(mem, a, 4), Load(mem, Plus(a, 4), 4));
    Pow256Values();
  }

  // Both builds read the same from every memory exactly at an aligned address whose
  // upper half keeps its 32-bit offset.
  lemma BuildsReadAlikeIff(at: Word, offset: Half32)
    ensures (forall mem: Memory :: Read64(mem, at, offset, true) == Read64(mem, at, offset, false))
            <==> Plus(at, offset) % 4 == 0 && offset + 4 < TWO_32
  {
    var zero: Memory := _ => 0;
    EmulatedReadHaltsIff(zero, at, offset);
    if Plus(at, offset) % 4 == 0 {
      if offset + 4 < TWO_32 {
        forall mem: Memory
          ensures Read64(mem, at, offset, true) == Read64(mem, at, offset, false)
        {
          EmulatedRead(mem, at, offset);
        }
      } else {
        var one: Memory := x => if x == Plus(at, offset + 4) then 1 else 0;
        WrappedHalfMissed(one, at, offset);
        assert Read64(one, at, offset, true) != Read64(one, at, offset, false);
      }
    } else {
      assert Read64(zero, at, offset, true) != Read64(zero, at, offset, false);
    }
    hide Read64, Plus;
  }

  lemma WrappedHalfMissed(mem: Memory, at: Word, offset: Half32)
    requires Plus(at, offset) % 4 == 0 && offset + 4 >= TWO_32
    requires forall x :: mem(x) == if x == Plus(at, offset + 4) then 1 else 0
    ensures Read64(mem, at, offset, true) != Read64(mem, at, offset, false)
  {
    EmulatedReadHaltsIff(mem, at, offset);
    var low, high := Load(mem, Plus(at, offset), 4), Load(mem, Plus(at, Advance(offset, 4)), 4);
    assert Advance(offset, 4) == offset + 4 - TWO_32;
    hide Plus, Advance, WordAt;
    forall i | 0 <= i < 4
      ensures low[i] == 0 && high[i] == 0
    {
      PlusPlus(at, offset, i);
      PlusPlus(at, offset + 4 - TWO_32, i);
      PlusDistinct(at, offset + i, offset + 4);
      PlusDistinct(at, offset + 4 - TWO_32 + i, offset + 4);
    }
    ValueZeroIff(low);
    ValueZeroIff(high);
    PlusPlus(at, offset, 4);
    WordAtByte(mem, Plus(at, offset), 4);
  }

  lemma {:induction false} ValueZeroIff(bs: seq<Byte>)
    ensures Value(bs) == 0 <==> forall i :: 0 <= i < |bs| ==> bs[i] == 0
  {
    if bs != [] {
      ValueZeroIff(bs[1..]);
      assert (forall i :: 0 <= i < |bs| ==> bs[i] == 0) ==> forall i :: 0 <= i < |bs| - 1 ==> bs[1..][i] == 0;
    }
  }

  lemma WordAtByte(mem: Memory, a: Word, i: nat)
    requires i < 8 && mem(Plus(a, i)) != 0
    ensures WordAt(mem, a) != 0
  {
    ValueZeroIff(Load(mem, a, 8));
    assert Load(mem, a, 8)[i] != 0;
    hide Plus;
  }

  lemma Residue(a: Word, d: int)
    ensures Plus(a, d) % 4 == (a + d) % 4
  {
    var q := (a + d) / TWO_64;
    Cut(a + d, q, Plus(a, d), TWO_64);
    Cut(a + d, q * (TWO_64 / 4) + Plus(a, d) / 4, Plus(a, d) % 4, 4);
  }

  lemma SameResidue(a: Word, d: nat, e: nat)
    requires d % 4 == e % 4
    ensures (a + d) % 4 == (a + e) % 4
  {
    Cut(a + d, a / 4 + d / 4 + (a % 4 + d % 4) / 4, (a % 4 + d % 4) % 4, 4);
    Cut(a + e, a / 4 + e / 4 + (a % 4 + e % 4) / 4, (a % 4 + e % 4) % 4, 4);
  }

  lemma AlignedPlus(a: Word, d: int)
    requires d % 4 == 0
    ensures Plus(a, d) % 4 == a % 4
  {
  }

  // ----- a whole walk -----

  // Every header and block the walk stands on is a multiple of 4.
  predicate AllAligned(l: Level)
    decreases l
  {
    l.at % 4 == 0 && ParamsAligned(l.params) && (l.next.NextHeader? ==> AllAligned(l.next.level))
  }

  predicate ParamsAligned(ps: Params)
    decreases ps
  {
    ps.Block? ==> ps.at % 4 == 0 && (ps.branch.SubLevel? ==> AllAligned(ps.branch.level)) && ParamsAligned(ps.rest)
  }

  // Every next-header offset followed is a multiple of 4.
  predicate StepsAligned(rom: Rom, l: Level)
    decreases l
  {
    && StepsAlignedBelow(rom, l.params)
    && (l.next.NextHeader? ==> NextDfhByteOffset(DfhStart(rom, l.at)) % 4 == 0 && StepsAligned(rom, l.next.level))
  }

  predicate StepsAlignedBelow(rom: Rom, ps: Params)
    decreases ps
  {
    ps.Block? ==> (ps.branch.SubLevel? ==> StepsAligned(rom, ps.branch.level)) && StepsAlignedBelow(rom, ps.rest)
  }

  // A tree is aligned exactly when the first header is and every next-header offset
  // followed is a multiple of 4: parameter offsets and branch targets always keep the
  // alignment.
  lemma {:induction false} WalkAlignedIff(rom: Rom, at: Word, l: Level)
    requires Unfolds(rom, at, l)
    ensures AllAligned(l) <==> at % 4 == 0 && StepsAligned(rom, l)
    decreases l
  {
    hide Plus, UnfoldsParams, HasParams, CsrGroupSize, NextHeaderAddr, DfhStart, NextDfhByteOffset, IsEol;
    if at % 4 == 0 {
      AlignedPlus(at, PARAM_HEADER_OFFSET);
      if HasParams(CsrGroupSize(rom, at)) {
        ParamsAlignedIff(rom, at, FirstParamHeaderAddr(at), l.params);
      }
      if l.next.NextHeader? {
        NextAligned(rom, at);
        WalkAlignedIff(rom, NextHeaderAddr(rom, at), l.next.level);
      }
    }
  }

  lemma NextAligned(rom: Rom, at: Word)
    requires at % 4 == 0
    ensures NextHeaderAddr(rom, at) % 4 == 0 <==> NextDfhByteOffset(DfhStart(rom, at)) % 4 == 0
  {
    hide DfhStart, NextDfhByteOffset;
  }

  lemma {:induction false} ParamsAlignedIff(rom: Rom, owner: Word, p: Word, ps: Params)
    requires UnfoldsParams(rom, owner, p, ps) && owner % 4 == 0 && p % 4 == 0
    ensures ParamsAligned(ps) <==> StepsAlignedBelow(rom, ps)
    decreases ps
  {
    hide Plus, IsLastParamBlock, IsNullBlock, ParamId, AllAligned, StepsAligned, NextBlockAddr, BranchTargetAt,
         Unfolds;
    LinksAligned(rom, owner, p);
    if ps.Block? {
      assert UnfoldsBranch(rom, owner, p, ps.branch);
      if ps.branch.SubLevel? {
        WalkAlignedIff(rom, BranchTargetAt(rom, owner, p), ps.branch.level);
      }
      if !IsLastParamBlock(rom(p)) {
        ParamsAlignedIff(rom, owner, NextBlockAddr(rom, p), ps.rest);
      }
    }
  }

  lemma LinksAligned(rom: Rom, owner: Word, p: Word)
    requires owner % 4 == 0 && p % 4 == 0
    ensures BranchTargetAt(rom, owner, p) % 4 == 0 && NextBlockAddr(rom, p) % 4 == 0
  {
    var data := rom(Plus(p, PARAM_DATA_OFFSET));
    EightsAligned(data / 8);
    EightsAligned(rom(p) / 0x8_0000_0000);
    AlignedPlus(owner, data - data % 8);
    AlignedPlus(p, NextParamByteOffset(rom(p)));
    hide Plus;
  }

  lemma EightsAligned(k: int)
    ensures k * 8 % 4 == 0
  {
    Cut(k * 8, k * 2, 0, 4);
  }

  // ----- the walk of an emulating build -----

  // The further reads the collecting pass makes at a header and at a block.
  predicate CollectsHeader(mem: Memory, at: Word) {
    && Read64(mem, at, GUID_L_OFFSET, true).Ok? && Read64(mem, at, GUID_H_OFFSET, true).Ok?
    && Read64(mem, at, CSR_ADDRESS_OFFSET, true).Ok?
  }

  ghost predicate CollectsBlock(mem: Memory, p: Word) {
    forall i :: 0 <= i < ParamDataSize(AsRom(mem)(p)) / 8 ==>
                  Read64(mem, Plus(Plus(p, PARAM_HEADER_SIZE), 8 * i), 0, true).Ok?
  }

  // A pass over memory that follows what it reads, to the tree it has walked; l only
  // bounds the recursion.
  ghost function Walk(mem: Memory, at: Word, l: Level, collect: bool): Result<Level>
    requires Unfolds(AsRom(mem), at, l)
    decreases l
  {
    if collect && !CollectsHeader(mem, at) then Halted
    else
      match Read64(mem, at, CSR_GROUP_SIZE_OFFSET, true)
      case Halted => Halted
      case Ok(csrGroupSize) =>
        WalkReads(mem, at, CSR_GROUP_SIZE_OFFSET);
        match if HasParams(csrGroupSize) then WalkParams(mem, at, FirstParamHeaderAddr(at), l.params, collect)
            else Ok(Stop)
        case Halted => Halted
        case Ok(params) =>
          match Read64(mem, at, DFH_START_OFFSET, true)
          case Halted => Halted
          case Ok(dfhStart) =>
            WalkReads(mem, at, DFH_START_OFFSET);
            if IsEol(dfhStart) then Ok(Level(at, params, EndOfLevel))
            else
              match Walk(mem, NextDfhAddr(dfhStart, at), l.next.level, collect)
              case Halted => Halted
              case Ok(rest) => Ok(Level(at, params, NextHeader(rest)))
  }

  ghost function WalkParams(mem: Memory, owner: Word, p: Word, ps: Params, collect: bool): Result<Params>
    requires UnfoldsParams(AsRom(mem), owner, p, ps)
    decreases ps
  {
    match Read64(mem, p, 0, true)
    case Halted => Halted
    case Ok(header) =>
      WalkReads(mem, p, 0);
      PlusZero(p);
      if IsNullBlock(header) then Ok(Stop)
      else if collect && !CollectsBlock(mem, p) then Halted
      else
        match WalkBranch(mem, owner, p, ps.branch, collect)
        case Halted => Halted
        case Ok(branch) =>
          match if IsLastParamBlock(header) then Ok(Stop)
                else WalkParams(mem, owner, Plus(p, NextParamByteOffset(header)), ps.rest, collect)
          case Halted => Halted
          case Ok(rest) => Ok(Block(p, branch, rest))
  }

  ghost function WalkBranch(mem: Memory, owner: Word, p: Word, b: Branch, collect: bool): Result<Branch>
    requires UnfoldsBranch(AsRom(mem), owner, p, b)
    decreases b
  {
    if ParamId(AsRom(mem)(p)) != BRANCH_PARAM_ID then Ok(Plain)
    else
      match Read64(mem, p, PARAM_DATA_OFFSET, true)
      case Halted => Halted
      case Ok(data) =>
        WalkReads(mem, p, PARAM_DATA_OFFSET);
        match Walk(mem, BranchTarget(data, owner), b.level, collect)
        case Halted => Halted
        case Ok(sub) => Ok(SubLevel(sub))
  }

  lemma WalkReads(mem: Memory, at: Word, offset: Half32)
    requires Read64(mem, at, offset, true).Ok? && offset + 4 < TWO_32
    ensures Read64(mem, at, offset, true) == Ok(AsRom(mem)(Plus(at, offset)))
  {
    EmulatedReadHaltsIff(mem, at, offset);
    EmulatedRead(mem, at, offset);
  }

  // An emulating build walks the very tree of the image, in both passes, when every
  // header and block of it is aligned, and halts in all other cases.
  lemma {:induction false} WalkHaltsIff(mem: Memory, at: Word, l: Level, collect: bool)
    requires Unfolds(AsRom(mem), at, l)
    ensures Walk(mem, at, l, collect) == if AllAligned(l) then Ok(l) else Halted
    decreases l
  {
    AlignedHeader(mem, at);
    if at % 4 == 0 {
      AlignedPlus(at, PARAM_HEADER_OFFSET);
      if HasParams(CsrGroupSize(AsRom(mem), at)) {
        ParamsHaltIff(mem, at, FirstParamHeaderAddr(at), l.params, collect);
      }
      if !IsEol(DfhStart(AsRom(mem), at)) {
        WalkHaltsIff(mem, NextHeaderAddr(AsRom(mem), at), l.next.level, collect);
      }
    }
    hide Plus, Read64, CollectsHeader, HasParams, IsEol, AsRom, UnfoldsParams, WalkParams, NextDfhAddr;
  }

  lemma AlignedHeader(mem: Memory, at: Word)
    ensures CollectsHeader(mem, at) <==> at % 4 == 0
    ensures at % 4 != 0 ==> Read64(mem, at, CSR_GROUP_SIZE_OFFSET, true).Halted?
    ensures at % 4 == 0 ==>
              && Read64(mem, at, CSR_GROUP_SIZE_OFFSET, true) == Ok(CsrGroupSize(AsRom(mem), at))
              && Read64(mem, at, DFH_START_OFFSET, true) == Ok(DfhStart(AsRom(mem), at))
  {
    AlignedRead(mem, at, DFH_START_OFFSET);
    AlignedRead(mem, at, GUID_L_OFFSET);
    AlignedRead(mem, at, GUID_H_OFFSET);
    AlignedRead(mem, at, CSR_ADDRESS_OFFSET);
    AlignedRead(mem, at, CSR_GROUP_SIZE_OFFSET);
    hide Plus, Read64, AsRom;
  }

  lemma AlignedRead(mem: Memory, at: Word, offset: Half32)
    requires offset % 4 == 0 && offset < 0x1000
    ensures if at % 4 == 0 then Read64(mem, at, offset, true) == Ok(AsRom(mem)(Plus(at, offset)))
            else Read64(mem, at, offset, true).Halted?
  {
    hide Plus, AsRom, Read64;
    AlignedPlus(at, offset);
    EmulatedReadHaltsIff(mem, at, offset);
    if at % 4 == 0 {
      EmulatedRead(mem, at, offset);
    }
  }

  lemma {:induction false} ParamsHaltIff(mem: Memory, owner: Word, p: Word, ps: Params, collect: bool)
    requires UnfoldsParams(AsRom(mem), owner, p, ps) && owner % 4 == 0 && p % 4 == 0
    ensures WalkParams(mem, owner, p, ps, collect) == if ParamsAligned(ps) then Ok(ps) else Halted
    decreases ps
  {
    hide Plus, Read64, AsRom, IsNullBlock, IsLastParamBlock, ParamId, NextParamByteOffset, UnfoldsBranch, WalkBranch,
         CollectsBlock, AllAligned;
    AlignedRead(mem, p, 0);
    PlusZero(p);
    LinksAligned(AsRom(mem), owner, p);
    BlockCollected(mem, p);
    if ps.Block? {
      BranchHaltsIff(mem, owner, p, ps.branch, collect);
      if !IsLastParamBlock(AsRom(mem)(p)) {
        ParamsHaltIff(mem, owner, NextBlockAddr(AsRom(mem), p), ps.rest, collect);
      }
    }
  }

  lemma {:induction false} BranchHaltsIff(mem: Memory, owner: Word, p: Word, b: Branch, collect: bool)
    requires UnfoldsBranch(AsRom(mem), owner, p, b) && owner % 4 == 0 && p % 4 == 0
    ensures WalkBranch(mem, owner, p, b, collect) == if b.SubLevel? ==> AllAligned(b.level) then Ok(b) else Halted
    decreases b
  {
    hide Plus, Read64, AsRom, ParamId, BranchTarget, Unfolds, Walk, AllAligned;
    AlignedRead(mem, p, PARAM_DATA_OFFSET);
    if b.SubLevel? {
      WalkHaltsIff(mem, BranchTargetAt(AsRom(mem), owner, p), b.level, collect);
    }
  }

  lemma BlockCollected(mem: Memory, p: Word)
    requires p % 4 == 0
    ensures CollectsBlock(mem, p)
  {
    hide Plus, Read64, ParamDataSize;
    AlignedPlus(p, PARAM_HEADER_SIZE);
    forall i | 0 <= i < ParamDataSize(AsRom(mem)(p)) / 8
      ensures Read64(mem, Plus(Plus(p, PARAM_HEADER_SIZE), 8 * i), 0, true).Ok?
    {
      EightsAligned(i);
      AlignedPlus(Plus(p, PARAM_HEADER_SIZE), 8 * i);
      AlignedRead(mem, Plus(Plus(p, PARAM_HEADER_SIZE), 8 * i), 0);
    }
  }
}
