/** Moving an image: which trees and listings move along with it. */
module DflRelocation {
  import opened Words
  import opened DflCodec
  import opened DflTree
  import opened DflListing
  import opened DflParents

  // The ROM with everything displaced by d.
  function Moved(rom: Rom, d: int): Rom {
    a => rom(Plus(a, -d))
  }

  lemma MovedWord(rom: Rom, d: int, at: Word, offset: int)
    ensures Moved(rom, d)(Plus(Plus(at, d), offset)) == rom(Plus(at, offset))
  {
    PlusPlus(at, d, offset);
    PlusPlus(at, d + offset, -d);
  }

  lemma MovedSame(rom: Rom, d: int, at: Word)
    ensures Moved(rom, d)(Plus(at, d)) == rom(at)
  {
    PlusInverse(at, d);
  }

  function Shift(l: Level, d: int): (m: Level)
    ensures m.at == Plus(l.at, d) && Size(m) == Size(l) && Nest(m) == Nest(l)
    decreases l
  {
    Level(Plus(l.at, d), ShiftParams(l.params, d),
          if l.next.EndOfLevel? then EndOfLevel else NextHeader(Shift(l.next.level, d)))
  }

  function ShiftParams(ps: Params, d: int): (qs: Params)
    ensures SizeParams(qs) == SizeParams(ps) && NestParams(qs) == NestParams(ps)
    decreases ps
  {
    if ps.Stop? then Stop
    else Block(Plus(ps.at, d), ShiftBranch(ps.branch, d), ShiftParams(ps.rest, d))
  }

  function ShiftBranch(b: Branch, d: int): (c: Branch)
    ensures SizeBranch(c) == SizeBranch(b) && NestBranch(c) == NestBranch(b)
    decreases b
  {
    if b.Plain? then Plain else SubLevel(Shift(b.level, d))
  }

  // Every branch taken is relative to its header.
  predicate RelativeBranches(rom: Rom, l: Level)
    decreases l
  {
    RelativeParams(rom, l.params) && (l.next.NextHeader? ==> RelativeBranches(rom, l.next.level))
  }

  predicate RelativeParams(rom: Rom, ps: Params)
    decreases ps
  {
    ps.Block? ==> RelativeBranch(rom, ps.at, ps.branch) && RelativeParams(rom, ps.rest)
  }

  predicate RelativeBranch(rom: Rom, p: Word, b: Branch)
    decreases b
  {
    b.SubLevel? ==> rom(Plus(p, PARAM_DATA_OFFSET)) % 2 == 0 && RelativeBranches(rom, b.level)
  }

  // Every register block address is relative to its header.
  predicate RelativeCsrs(rom: Rom, l: Level)
    decreases l
  {
    && rom(Plus(l.at, CSR_ADDRESS_OFFSET)) % 2 == 0
    && RelativeCsrsBelow(rom, l.params)
    && (l.next.NextHeader? ==> RelativeCsrs(rom, l.next.level))
  }

  predicate RelativeCsrsBelow(rom: Rom, ps: Params)
    decreases ps
  {
    ps.Block? ==>
      && (ps.branch.SubLevel? ==> RelativeCsrs(rom, ps.branch.level))
      && RelativeCsrsBelow(rom, ps.rest)
  }

  // ----- the walk moves with the image -----

  lemma MovedHeader(rom: Rom, d: int, at: Word)
    ensures DfhStart(Moved(rom, d), Plus(at, d)) == DfhStart(rom, at)
    ensures CsrGroupSize(Moved(rom, d), Plus(at, d)) == CsrGroupSize(rom, at)
    ensures NextHeaderAddr(Moved(rom, d), Plus(at, d)) == Plus(NextHeaderAddr(rom, at), d)
    ensures FirstParamHeaderAddr(Plus(at, d)) == Plus(FirstParamHeaderAddr(at), d)
  {
    MovedWord(rom, d, at, DFH_START_OFFSET);
    MovedWord(rom, d, at, CSR_GROUP_SIZE_OFFSET);
    PlusPlus(at, d, NextDfhByteOffset(DfhStart(rom, at)));
    PlusPlus(at, d, PARAM_HEADER_OFFSET);
  }

  // An address stays put when it is absolute, so a target moves with the image
  // exactly when it is relative or nothing moves.
  lemma MovedBlock(rom: Rom, d: int, owner: Word, p: Word)
    ensures Moved(rom, d)(Plus(p, d)) == rom(p)
    ensures NextBlockAddr(Moved(rom, d), Plus(p, d)) == Plus(NextBlockAddr(rom, p), d)
    ensures BranchTargetAt(Moved(rom, d), Plus(owner, d), Plus(p, d)) == Plus(BranchTargetAt(rom, owner, p), d)
            <==> rom(Plus(p, PARAM_DATA_OFFSET)) % 2 == 0 || d % TWO_64 == 0
  {
    MovedSame(rom, d, p);
    PlusPlus(p, d, NextParamByteOffset(rom(p)));
    MovedWord(rom, d, p, PARAM_DATA_OFFSET);
    var data := rom(Plus(p, PARAM_DATA_OFFSET));
    PlusPlus(owner, d, data - data % 8);
    PlusFixed(data - data % 8, d);
  }

  lemma PlusFixed(a: Word, d: int)
    ensures Plus(a, d) == a <==> d % TWO_64 == 0
  {
    Cut(a + d, (a + d) / TWO_64, Plus(a, d), TWO_64);
    if Plus(a, d) == a {
      Cut(d, (a + d) / TWO_64, 0, TWO_64);
    }
  }

  lemma MovedParameter(rom: Rom, d: int, p: Word)
    ensures ParameterAt(Moved(rom, d), Plus(p, d)) == ParameterAt(rom, p)
  {
    MovedSame(rom, d, p);
    MovedWords(rom, d, p, ParamDataSize(rom(p)) / 8);
  }

  lemma MovedWords(rom: Rom, d: int, p: Word, count: nat)
    ensures WordsAt(Moved(rom, d), Plus(Plus(p, d), PARAM_HEADER_SIZE), count)
         == WordsAt(rom, Plus(p, PARAM_HEADER_SIZE), count)
  {
    hide Plus, Moved;
    forall i | 0 <= i < count
      ensures Moved(rom, d)(Plus(Plus(Plus(p, d), PARAM_HEADER_SIZE), 8 * i))
              == rom(Plus(Plus(p, PARAM_HEADER_SIZE), 8 * i))
    {
      PlusPlus(Plus(p, d), PARAM_HEADER_SIZE, 8 * i);
      PlusPlus(p, PARAM_HEADER_SIZE, 8 * i);
      MovedWord(rom, d, p, PARAM_HEADER_SIZE + 8 * i);
    }
  }

  // The moved image unfolds to the moved tree exactly when every branch taken is
  // relative, or nothing moves.
  lemma {:induction false} MovedUnfolds(rom: Rom, d: int, at: Word, l: Level)
    requires Unfolds(rom, at, l)
    ensures Unfolds(Moved(rom, d), Plus(at, d), Shift(l, d)) <==> RelativeBranches(rom, l) || d % TWO_64 == 0
    decreases l
  {
    hide Plus, Moved, IsEol, HasParams, DfhStart, CsrGroupSize, NextHeaderAddr, FirstParamHeaderAddr, UnfoldsParams,
         RelativeParams, ShiftParams;
    MovedHeader(rom, d, at);
    if HasParams(CsrGroupSize(rom, at)) {
      MovedParams(rom, d, at, FirstParamHeaderAddr(at), l.params);
    } else {
      NothingShifted(rom, d);
    }
    if l.next.NextHeader? {
      MovedUnfolds(rom, d, NextHeaderAddr(rom, at), l.next.level);
    }
  }

  lemma NothingShifted(rom: Rom, d: int)
    ensures ShiftParams(Stop, d) == Stop && RelativeParams(rom, Stop)
  {
  }

  lemma {:induction false} MovedParams(rom: Rom, d: int, owner: Word, p: Word, ps: Params)
    requires UnfoldsParams(rom, owner, p, ps)
    ensures UnfoldsParams(Moved(rom, d), Plus(owner, d), Plus(p, d), ShiftParams(ps, d))
            <==> RelativeParams(rom, ps) || d % TWO_64 == 0
    decreases ps
  {
    hide Plus, Moved, IsNullBlock, IsLastParamBlock, NextBlockAddr, UnfoldsBranch, RelativeBranch, ShiftBranch;
    MovedBlock(rom, d, owner, p);
    if ps.Block? {
      MovedBranch(rom, d, owner, p, ps.branch);
      if !IsLastParamBlock(rom(p)) {
        MovedParams(rom, d, owner, NextBlockAddr(rom, p), ps.rest);
      } else {
        NothingShifted(rom, d);
      }
    }
  }

  lemma {:induction false} MovedBranch(rom: Rom, d: int, owner: Word, p: Word, b: Branch)
    requires UnfoldsBranch(rom, owner, p, b)
    ensures UnfoldsBranch(Moved(rom, d), Plus(owner, d), Plus(p, d), ShiftBranch(b, d))
            <==> RelativeBranch(rom, p, b) || d % TWO_64 == 0
    decreases b
  {
    hide Plus, Moved, ParamId, BranchTargetAt, Unfolds, RelativeBranches;
    MovedBlock(rom, d, owner, p);
    if b.SubLevel? {
      MovedUnfolds(rom, d, BranchTargetAt(rom, owner, p), b.level);
      UnfoldsFrom(rom, BranchTargetAt(rom, owner, p), b.level);
      if Unfolds(Moved(rom, d), BranchTargetAt(Moved(rom, d), Plus(owner, d), Plus(p, d)), Shift(b.level, d)) {
        UnfoldsFrom(Moved(rom, d), BranchTargetAt(Moved(rom, d), Plus(owner, d), Plus(p, d)), Shift(b.level, d));
      }
    }
  }

  lemma UnfoldsFrom(rom: Rom, at: Word, l: Level)
    requires Unfolds(rom, at, l)
    ensures l.at == at
  {
  }

  // ----- so does the table -----

  function ShiftBase(e: Info, d: int): Info {
    e.(base := Plus(e.base, d))
  }

  function ShiftBases(t: seq<Info>, d: int): (s: seq<Info>)
    ensures |s| == |t| && forall k :: 0 <= k < |t| ==> s[k] == ShiftBase(t[k], d)
  {
    seq(|t|, k requires 0 <= k < |t| => ShiftBase(t[k], d))
  }

  lemma ShiftConcat(a: seq<Info>, b: seq<Info>, d: int)
    ensures ShiftBases(a + b, d) == ShiftBases(a, d) + ShiftBases(b, d)
  {
  }

  // The stored parameters do not move, branch words included.
  lemma {:induction false} MovedStored(rom: Rom, d: int, ps: Params)
    ensures Stored(Moved(rom, d), ShiftParams(ps, d)) == Stored(rom, ps)
    decreases ps
  {
    hide Plus, Moved, IsLastParamBlock, ParameterAt;
    if ps.Block? {
      MovedSame(rom, d, ps.at);
      MovedParameter(rom, d, ps.at);
      MovedStored(rom, d, ps.rest);
    }
  }

  // An entry moves by its base address alone, and only if that is relative.
  lemma MovedInfo(rom: Rom, d: int, at: Word, ps: Params, parent: int)
    ensures HeaderInfo(Moved(rom, d), Plus(at, d), ShiftParams(ps, d), parent)
            == ShiftBase(HeaderInfo(rom, at, ps, parent), d)
            <==> rom(Plus(at, CSR_ADDRESS_OFFSET)) % 2 == 0 || d % TWO_64 == 0
  {
    MovedStored(rom, d, ps);
    MovedHeader(rom, d, at);
    MovedWord(rom, d, at, GUID_L_OFFSET);
    MovedWord(rom, d, at, GUID_H_OFFSET);
    MovedWord(rom, d, at, CSR_ADDRESS_OFFSET);
    MovedBase(rom(Plus(at, CSR_ADDRESS_OFFSET)), at, d);
    hide Plus, Moved, Stored, ShiftParams, BaseAddress, InstanceId, GroupId, CsrGroupSize;
  }

  lemma MovedBase(csrAddress: Word, at: Word, d: int)
    ensures BaseAddress(csrAddress, Plus(at, d)) == Plus(BaseAddress(csrAddress, at), d)
            <==> csrAddress % 2 == 0 || d % TWO_64 == 0
  {
    PlusPlus(at, d, csrAddress);
    PlusFixed(csrAddress - csrAddress % 2, d);
  }

  // The listing of the moved tree is the old listing with every base address moved,
  // exactly when every register block address is relative, or nothing moves.
  lemma {:induction false} MovedListing(rom: Rom, d: int, l: Level, parent: int, next: int, mode: Numbering)
    ensures Flatten(Moved(rom, d), Shift(l, d), parent, next, mode)
            == ShiftBases(Flatten(rom, l, parent, next, mode), d)
            <==> RelativeCsrs(rom, l) || d % TWO_64 == 0
    decreases l
  {
    hide Plus, Moved, HeaderInfo, ShiftBase, ShiftParams, FlattenParams, RelativeCsrsBelow, SizeParams, Size, Nest,
         NestParams;
    var after := next + 1 + SizeParams(l.params);
    var head := [HeaderInfo(rom, l.at, l.params, parent)];
    var head' := [HeaderInfo(Moved(rom, d), Plus(l.at, d), ShiftParams(l.params, d), parent)];
    var mid := FlattenParams(rom, l.params, next, next + 1, mode);
    var mid' := FlattenParams(Moved(rom, d), ShiftParams(l.params, d), next, next + 1, mode);
    var tail := FlattenTail(rom, l.next, parent, after, mode);
    var tail' := FlattenTail(Moved(rom, d), Shift(l, d).next, parent, after, mode);
    MovedInfo(rom, d, l.at, l.params, parent);
    MovedListingParams(rom, d, l.params, next, next + 1, mode);
    if l.next.NextHeader? {
      MovedListing(rom, d, l.next.level, parent, after, mode);
    }
    ShiftConcat(head, mid, d);
    ShiftConcat(head + mid, tail, d);
    SameConcat(head', mid', ShiftBases(head, d), ShiftBases(mid, d));
    SameConcat(head' + mid', tail', ShiftBases(head, d) + ShiftBases(mid, d), ShiftBases(tail, d));
    assert head' == ShiftBases(head, d) <==> head'[0] == ShiftBase(head[0], d);
  }

  lemma {:induction false} MovedListingParams(rom: Rom, d: int, ps: Params, owner: int, next: int, mode: Numbering)
    ensures FlattenParams(Moved(rom, d), ShiftParams(ps, d), owner, next, mode)
            == ShiftBases(FlattenParams(rom, ps, owner, next, mode), d)
            <==> RelativeCsrsBelow(rom, ps) || d % TWO_64 == 0
    decreases ps
  {
    hide Plus, Moved, Flatten, Shift, RelativeCsrs;
    if ps.Block? {
      var rest := next + SizeBranch(ps.branch);
      var sub := FlattenBranch(rom, ps.branch, owner, next, mode);
      var sub' := FlattenBranch(Moved(rom, d), ShiftBranch(ps.branch, d), owner, next, mode);
      var tail := FlattenParams(rom, ps.rest, owner, rest, mode);
      var tail' := FlattenParams(Moved(rom, d), ShiftParams(ps.rest, d), owner, rest, mode);
      if ps.branch.SubLevel? {
        MovedListing(rom, d, ps.branch.level, if mode == Running then next - 1 else owner, next, mode);
      }
      MovedListingParams(rom, d, ps.rest, owner, rest, mode);
      ShiftConcat(sub, tail, d);
      SameConcat(sub', tail', ShiftBases(sub, d), ShiftBases(tail, d));
    }
  }
}
