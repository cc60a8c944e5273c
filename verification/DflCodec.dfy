/** The bit layout of a Device Feature Header: the field decoders of
    intel_fpga_api_cmn_dfl.c and the encoders its tests print headers with. */
module DflCodec {
  import opened Words

  // Byte offsets of the five header words and of the parameter area.
  const DFH_START_OFFSET := 0x00
  const GUID_L_OFFSET := 0x08
  const GUID_H_OFFSET := 0x10
  const CSR_ADDRESS_OFFSET := 0x18
  const CSR_GROUP_SIZE_OFFSET := 0x20
  const PARAM_HEADER_OFFSET := 0x28

  const PARAM_HEADER_SIZE := 8
  const PARAM_DATA_OFFSET := 8
  const BRANCH_PARAM_ID: Half := 0xC

  // ----- decoders -----

  predicate IsEol(dfhStart: Word) {
    dfhStart / 0x100_0000_0000 % 2 == 1
  }

  // Only 23 bits are kept.
  function NextDfhByteOffset(dfhStart: Word): nat {
    dfhStart / 0x1_0000 % 0x80_0000
  }

  function NextDfhAddr(dfhStart: Word, at: Word): Word {
    Plus(at, NextDfhByteOffset(dfhStart))
  }

  function InstanceId(csrGroupSize: Word): Half {
    csrGroupSize % 0x1_0000
  }

  function GroupId(csrGroupSize: Word): Half {
    csrGroupSize / 0x1_0000 % 0x8000
  }

  predicate HasParams(csrGroupSize: Word) {
    csrGroupSize / 0x8000_0000 % 2 == 1
  }

  function FirstParamHeaderAddr(at: Word): Word {
    Plus(at, PARAM_HEADER_OFFSET)
  }

  predicate IsLastParamBlock(paramHeader: Word) {
    paramHeader / 0x1_0000_0000 % 2 == 1
  }

  function NextParamByteOffset(paramHeader: Word): nat {
    paramHeader / 0x8_0000_0000 * 8
  }

  function ParamVersion(paramHeader: Word): Half {
    paramHeader / 0x1_0000 % 0x1_0000
  }

  function ParamId(paramHeader: Word): Half {
    paramHeader % 0x1_0000
  }

  // The terminator: end of parameters and no data.
  predicate IsNullBlock(paramHeader: Word) {
    IsLastParamBlock(paramHeader) && NextParamByteOffset(paramHeader) == 0
  }

  // Bytes of data in a block: the offset of a final block counts data only, any
  // other offset also counts the header (and the subtraction is a size_t one).
  function ParamDataSize(paramHeader: Word): Word {
    if IsLastParamBlock(paramHeader) then NextParamByteOffset(paramHeader)
    else (NextParamByteOffset(paramHeader) - PARAM_HEADER_SIZE) % TWO_64
  }

  // Bit 0 set means absolute.
  function BaseAddress(csrAddress: Word, at: Word): Word {
    if csrAddress % 2 == 1 then csrAddress - csrAddress % 2 else Plus(at, csrAddress)
  }

  function BranchTarget(branchData: Word, at: Word): Word {
    if branchData % 2 == 1 then branchData - branchData % 8
    else Plus(at, branchData - branchData % 8)
  }

  // ----- encoders, one per CONSTRUCT_ macro -----

  // The macro reserves 24 bits for the next-header offset.
  function EncodeDfh(featureType: nat, dfhVersion: nat, minorRev: nat, reserved: nat,
                     eol: bool, next: nat, rev: nat, id: nat): Word {
    featureType % 16 * 0x1000_0000_0000_0000 + dfhVersion % 0x100 * 0x10_0000_0000_0000
    + minorRev % 16 * 0x1_0000_0000_0000 + reserved % 0x80 * 0x200_0000_0000
    + (if eol then 0x100_0000_0000 else 0) + next % 0x100_0000 * 0x1_0000
    + rev % 16 * 0x1000 + id % 0x1000
  }

  // CONSTRUCT_CSR_ADDR as the tests write it, shifting the address by one.
  function EncodeCsrAddrShifted(addr: Word, absolute: bool): Word {
    (addr - addr % 2) * 2 % TWO_64 + (if absolute then 1 else 0)
  }

  // The encoder that BaseAddress undoes: bit 0 carries the flag, nothing moves.
  function EncodeCsrAddr(addr: Word, absolute: bool): Word {
    addr - addr % 2 + (if absolute then 1 else 0)
  }

  function EncodeCsrGroupSize(csrSize: nat, hasParams: bool, group: nat, instance: nat): Word {
    csrSize % 0x1_0000_0000 * 0x1_0000_0000 + (if hasParams then 0x8000_0000 else 0)
    + group % 0x8000 * 0x1_0000 + instance % 0x1_0000
  }

  function EncodeParamHeader(next: nat, reserved: nat, eop: bool, version: nat, id: nat): Word {
    next / 8 % 0x2000_0000 * 0x8_0000_0000 + reserved % 4 * 0x2_0000_0000
    + (if eop then 0x1_0000_0000 else 0) + version % 0x1_0000 * 0x1_0000 + id % 0x1_0000
  }

  // addr | flag: the address is not masked.
  function EncodeBranchData(addr: Word, absolute: bool): Word {
    if absolute && addr % 2 == 0 then addr + 1 else addr
  }

  // ----- round trips -----

  // The offset survives exactly when it fits the 23 bits the decoder keeps; bit 23
  // of the 24 the encoder writes is lost.
  lemma DfhRoundTrip(featureType: nat, dfhVersion: nat, minorRev: nat, reserved: nat,
                     eol: bool, next: nat, rev: nat, id: nat)
    ensures var w := EncodeDfh(featureType, dfhVersion, minorRev, reserved, eol, next, rev, id);
            && IsEol(w) == eol
            && NextDfhByteOffset(w) == next % 0x80_0000
            && (NextDfhByteOffset(w) == next <==> next < 0x80_0000)
  {
    hide IsEol, NextDfhByteOffset;
    DfhFields(EncodeDfh(featureType, dfhVersion, minorRev, reserved, eol, next, rev, id),
              DfhHigh(featureType % 16, dfhVersion % 0x100, minorRev % 16, reserved % 0x80),
              if eol then 1 else 0, next % 0x100_0000, rev % 16 * 0x1000 + id % 0x1000);
    Halved(next);
  }

  // The fields above bit 40.
  function DfhHigh(featureType: nat, dfhVersion: nat, minorRev: nat, reserved: nat): nat {
    featureType * 0x8_0000 + dfhVersion * 0x800 + minorRev * 0x80 + reserved
  }

  lemma Halved(next: nat)
    ensures next % 0x100_0000 % 0x80_0000 == next % 0x80_0000
    ensures next % 0x80_0000 == next <==> next < 0x80_0000
  {
    var q := next / 0x80_0000;
    Cut(next, q / 2, q % 2 * 0x80_0000 + next % 0x80_0000, 0x100_0000);
    Cut(next % 0x100_0000, q % 2, next % 0x80_0000, 0x80_0000);
  }

  // A start word cut at bits 16, 40 and 41.
  lemma DfhFields(w: Word, high: nat, eol: nat, next: nat, low: nat)
    requires eol < 2 && next < 0x100_0000 && low < 0x1_0000
    requires w == high * 0x200_0000_0000 + eol * 0x100_0000_0000 + next * 0x1_0000 + low
    ensures IsEol(w) == (eol == 1) && NextDfhByteOffset(w) == next % 0x80_0000
  {
    Cut(w, 2 * high + eol, next * 0x1_0000 + low, 0x100_0000_0000);
    Cut(2 * high + eol, high, eol, 2);
    Cut(w, (2 * high + eol) * 0x100_0000 + next, low, 0x1_0000);
    var top, bottom := next / 0x80_0000, next % 0x80_0000;
    Cut(w / 0x1_0000, (2 * high + eol) * 2 + top, bottom, 0x80_0000);
  }

  // Group and instance survive exactly when they fit their 15 and 16 bits.
  lemma CsrGroupSizeRoundTrip(csrSize: nat, hasParams: bool, group: nat, instance: nat)
    ensures var w := EncodeCsrGroupSize(csrSize, hasParams, group, instance);
            && HasParams(w) == hasParams
            && (GroupId(w) == group <==> group < 0x8000) && (InstanceId(w) == instance <==> instance < 0x1_0000)
  {
    hide HasParams, GroupId, InstanceId;
    CsrGroupSizeFields(EncodeCsrGroupSize(csrSize, hasParams, group, instance), csrSize % 0x1_0000_0000,
                       if hasParams then 1 else 0, group % 0x8000, instance % 0x1_0000);
  }

  lemma CsrGroupSizeFields(w: Word, high: nat, params: nat, group: nat, instance: nat)
    requires params < 2 && group < 0x8000 && instance < 0x1_0000
    requires w == high * 0x1_0000_0000 + params * 0x8000_0000 + group * 0x1_0000 + instance
    ensures HasParams(w) == (params == 1) && GroupId(w) == group && InstanceId(w) == instance
  {
    Cut(w, 2 * high + params, group * 0x1_0000 + instance, 0x8000_0000);
    Cut(2 * high + params, high, params, 2);
    Cut(w, (2 * high + params) * 0x8000 + group, instance, 0x1_0000);
    Cut(w / 0x1_0000, 2 * high + params, group, 0x8000);
  }

  // The offset survives exactly when it is a multiple of 8 below 2^32.
  lemma ParamHeaderRoundTrip(next: nat, reserved: nat, eop: bool, version: nat, id: nat)
    ensures var w := EncodeParamHeader(next, reserved, eop, version, id);
            && IsLastParamBlock(w) == eop
            && (ParamVersion(w) == version <==> version < 0x1_0000) && (ParamId(w) == id <==> id < 0x1_0000)
            && (NextParamByteOffset(w) == next <==> next % 8 == 0 && next < 0x1_0000_0000)
  {
    hide IsLastParamBlock, ParamVersion, ParamId, NextParamByteOffset;
    ParamHeaderFields(EncodeParamHeader(next, reserved, eop, version, id), next / 8 % 0x2000_0000,
                      reserved % 4, if eop then 1 else 0, version % 0x1_0000, id % 0x1_0000);
  }

  lemma ParamHeaderFields(w: Word, units: nat, reserved: nat, eop: nat, version: nat, id: nat)
    requires reserved < 4 && eop < 2 && version < 0x1_0000 && id < 0x1_0000
    requires w == units * 0x8_0000_0000 + reserved * 0x2_0000_0000 + eop * 0x1_0000_0000 + version * 0x1_0000 + id
    ensures IsLastParamBlock(w) == (eop == 1) && ParamVersion(w) == version && ParamId(w) == id
    ensures NextParamByteOffset(w) == units * 8
  {
    var top := units * 4 + reserved;
    Cut(w, units, reserved * 0x2_0000_0000 + eop * 0x1_0000_0000 + version * 0x1_0000 + id, 0x8_0000_0000);
    Cut(w, 2 * top + eop, version * 0x1_0000 + id, 0x1_0000_0000);
    Cut(2 * top + eop, top, eop, 2);
    Cut(w, (2 * top + eop) * 0x1_0000 + version, id, 0x1_0000);
    Cut(w / 0x1_0000, 2 * top + eop, version, 0x1_0000);
  }

  // With bit 0 given to the flag, an address survives exactly when it is even.
  lemma CsrAddrRoundTrip(addr: Word, absolute: bool, at: Word)
    ensures BaseAddress(EncodeCsrAddr(addr, absolute), at) == (if absolute then addr else Plus(at, addr))
            <==> addr % 2 == 0
  {
    Evened(addr);
    hide Plus;
    if !absolute && Plus(at, addr - addr % 2) == Plus(at, addr) {
      PlusInjective(at, addr - addr % 2, addr);
    }
  }

  lemma Evened(addr: Word)
    ensures (addr - addr % 2) % 2 == 0 && (addr - addr % 2 + 1) % 2 == 1
  {
    Cut(addr - addr % 2, addr / 2, 0, 2);
    Cut(addr - addr % 2 + 1, addr / 2, 1, 2);
  }

  // The shifting macro is undone only when the address or offset is 0.
  lemma ShiftedCsrAddrRoundTrip(addr: Word, absolute: bool, at: Word)
    ensures BaseAddress(EncodeCsrAddrShifted(addr, absolute), at) == (if absolute then addr else Plus(at, addr))
            <==> addr == 0
  {
    Evened(addr);
    Doubled(addr - addr % 2);
    hide Plus;
    var w := (addr - addr % 2) * 2 % TWO_64;
    if !absolute && Plus(at, w) == Plus(at, addr) {
      PlusInjective(at, w, addr);
    }
  }

  lemma Doubled(addr: Word)
    requires addr % 2 == 0
    ensures var w := addr * 2 % TWO_64;
            w % 2 == 0 && (w + 1) % 2 == 1 && (w == addr <==> addr == 0)
  {
    var w := if addr * 2 < TWO_64 then addr * 2 else addr * 2 - TWO_64;
    Cut(addr * 2, if addr * 2 < TWO_64 then 0 else 1, w, TWO_64);
    Evened(w);
  }

  // An absolute target survives exactly when it is a multiple of 8. A relative one
  // does too, except that an odd one is taken for absolute: from just the header whose
  // address it would wrap to 0 with, it leads where it should.
  lemma BranchDataRoundTrip(addr: Word, absolute: bool, at: Word)
    ensures BranchTarget(EncodeBranchData(addr, absolute), at) == (if absolute then addr else Plus(at, addr))
            <==> addr % 8 == 0 || (!absolute && addr % 2 == 1 && Plus(at, addr % 8) == 0)
  {
    LowBits(addr, 0);
    if absolute {
      if addr % 2 == 0 {
        LowBits(addr, 1);
      }
    } else {
      PlusDistinct(at, addr, addr - addr % 8);
      PlusPlus(at, addr % 8, addr - addr % 8);
      var rounded: Word := addr - addr % 8;
      OddTarget(rounded, Plus(at, addr % 8));
    }
    hide Plus;
  }

  lemma OddTarget(a: Word, b: Word)
    ensures Plus(b, a) == a <==> b == 0
  {
    if b != 0 && b + a >= TWO_64 {
      assert Plus(b, a) == b + a - TWO_64;
    }
  }

  // Setting a flag in the lowest of three bits that are clear from it.
  lemma LowBits(addr: Word, flag: nat)
    requires addr % 8 + flag < 8
    ensures (addr + flag) - (addr + flag) % 8 == addr - addr % 8
    ensures (addr + flag) % 2 == (addr % 8 + flag) % 2
  {
    var k, r := addr / 8, addr % 8 + flag;
    Cut(addr + flag, k, r, 8);
    Cut(addr + flag, 4 * k + r / 2, r % 2, 2);
  }

  // Sizes are multiples of 8 below 2^32 exactly when the block is final or advances.
  lemma ParamDataSizeBounds(paramHeader: Word)
    ensures ParamDataSize(paramHeader) % 8 == 0
    ensures ParamDataSize(paramHeader) < 0x1_0000_0000
            <==> IsLastParamBlock(paramHeader) || NextParamByteOffset(paramHeader) >= 8
  {
  }
}
