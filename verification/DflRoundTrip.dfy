/** Scanning a forest laid out in a ROM gives back its listing. */
module DflRoundTrip {
  import opened Words
  import opened DflCodec
  import opened DflTree
  import opened DflListing
  import opened DflParents
  import opened DflImage
  import opened ParentStack
  import opened DflWalker

  // ----- reading back one header and one block -----

  lemma HeaderWordsHeld(rom: Rom, f: Feature, eol: bool, next: nat, at: Word)
    requires Holds(rom, at, HeaderWords(f, eol, next))
    ensures DfhStart(rom, at) == HeaderWords(f, eol, next)[0]
    ensures rom(Plus(at, GUID_L_OFFSET)) == f.guidL && rom(Plus(at, GUID_H_OFFSET)) == f.guidH
    ensures rom(Plus(at, CSR_ADDRESS_OFFSET)) == CsrWord(f.csr)
    ensures CsrGroupSize(rom, at) == HeaderWords(f, eol, next)[4]
  {
    hide Plus, EncodeDfh, EncodeCsrGroupSize, CsrWord;
    var ws := HeaderWords(f, eol, next);
    assert rom(Plus(at, 8 * 0)) == ws[0] && rom(Plus(at, 8 * 1)) == ws[1] && rom(Plus(at, 8 * 2)) == ws[2];
    assert rom(Plus(at, 8 * 3)) == ws[3] && rom(Plus(at, 8 * 4)) == ws[4];
  }

  lemma HeaderRead(rom: Rom, f: Feature, eol: bool, next: nat, at: Word)
    requires Holds(rom, at, HeaderWords(f, eol, next)) && PrintableFeature(f)
    requires !eol ==> next < 0x80_0000
    ensures IsEol(DfhStart(rom, at)) == eol
    ensures !eol ==> NextHeaderAddr(rom, at) == Plus(at, next)
    ensures HasParams(CsrGroupSize(rom, at)) == f.area.Area?
    ensures InstanceId(CsrGroupSize(rom, at)) == f.instance && GroupId(CsrGroupSize(rom, at)) == f.group
    ensures BaseAddress(rom(Plus(at, CSR_ADDRESS_OFFSET)), at)
         == if f.csr.AbsoluteCsr? then f.csr.addr else Plus(at, f.csr.offset)
  {
    HeaderWordsHeld(rom, f, eol, next, at);
    hide Plus, EncodeDfh, EncodeCsrGroupSize, EncodeCsrAddr, IsEol, NextDfhByteOffset, HasParams, InstanceId, GroupId,
         BaseAddress, DfhStart, CsrGroupSize, Holds;
    var m := f.misc;
    DfhRoundTrip(m.featureType, m.dfhVersion, m.minorRev, m.reserved, eol, next, m.rev, m.id);
    CsrGroupSizeRoundTrip(m.csrSize, f.area.Area?, f.group, f.instance);
    if f.csr.AbsoluteCsr? {
      CsrAddrRoundTrip(f.csr.addr, true, at);
    } else {
      CsrAddrRoundTrip(f.csr.offset, false, at);
    }
  }

  lemma BlockHeaderRead(rom: Rom, b: PBlock, last: bool, p: Word, at: Word, target: Word)
    requires Holds(rom, p, BlockWords(b, last, at, target)) && PrintableBlock(b) && (last ==> DataLen(b) > 0)
    ensures !IsNullBlock(rom(p)) && IsLastParamBlock(rom(p)) == last
    ensures !last ==> NextBlockAddr(rom, p) == Plus(p, 8 * (1 + DataLen(b)))
    ensures ParamId(rom(p)) == BlockId(b) && ParamVersion(rom(p)) == b.version
    ensures ParamDataSize(rom(p)) / 8 == DataLen(b)
  {
    var next := 8 * (DataLen(b) + if last then 0 else 1);
    PlusZero(p);
    assert rom(Plus(p, 8 * 0)) == EncodeParamHeader(next, 0, last, b.version, BlockId(b));
    hide Plus, EncodeParamHeader, NextParamByteOffset, IsLastParamBlock, ParamId, ParamVersion, Holds;
    ParamHeaderRoundTrip(next, 0, last, b.version, BlockId(b));
  }

  lemma BlockDataRead(rom: Rom, b: PBlock, last: bool, p: Word, at: Word, target: Word)
    requires Holds(rom, p, BlockWords(b, last, at, target))
    ensures WordsAt(rom, Plus(p, PARAM_HEADER_SIZE), DataLen(b)) == BlockData(b, at, target)
  {
    hide EncodeParamHeader, BlockData;
    HoldsConcat(rom, p, BlockWords(b, last, at, target)[..1], BlockData(b, at, target));
    hide Plus;
  }

  lemma BranchRead(rom: Rom, b: PBlock, last: bool, p: Word, at: Word, target: Word)
    requires Holds(rom, p, BlockWords(b, last, at, target)) && b.BranchTo? && Reaches(b, at, target)
    ensures BranchTargetAt(rom, at, p) == target
  {
    assert BlockWords(b, last, at, target)[1] == BlockData(b, at, target)[0];
    assert rom(Plus(p, 8 * 1)) == BlockData(b, at, target)[0];
    PlusGap(at, target);
    hide Plus, BlockWords, Holds, EncodeBranchData, BranchTarget;
    if b.absolute {
      BranchDataRoundTrip(target, true, at);
    } else {
      BranchDataRoundTrip((target - at) % TWO_64, false, at);
    }
  }

  lemma PlusGap(a: Word, b: Word)
    ensures Plus(a, (b - a) % TWO_64) == b
  {
    if b < a {
      assert (b - a) % TWO_64 == b - a + TWO_64;
    }
  }

  // ----- a laid-out forest unfolds to its tree -----

  lemma {:induction false} LaidUnfolds(rom: Rom, d: Dfl, l: Level)
    requires Printable(d) && Matches(d, l) && Laid(rom, d, l)
    ensures Unfolds(rom, l.at, l)
    decreases d
  {
    hide Plus, Holds, HasParams, IsEol, NextHeaderAddr, DfhStart, CsrGroupSize, UnfoldsParams, LaidBlocks,
         MatchesBlocks, PrintableBlocks, HeaderWords, InstanceId, GroupId, BaseAddress, FirstParamHeaderAddr;
    HeaderRead(rom, d.feature, d.rest.NoMore?, Gap(l), l.at);
    if d.feature.area.Area? {
      LaidParamsUnfold(rom, d.feature.area.blocks, l.at, FirstParamHeaderAddr(l.at), l.params);
    }
    if d.rest.More? {
      PlusGap(l.at, l.next.level.at);
      LaidUnfolds(rom, d.rest.dfl, l.next.level);
    }
  }

  lemma {:induction false} LaidParamsUnfold(rom: Rom, bs: Blocks, at: Word, p: Word, ps: Params)
    requires PrintableBlocks(bs) && MatchesBlocks(bs, ps) && LaidBlocks(rom, bs, at, p, ps)
    ensures UnfoldsParams(rom, at, p, ps)
    decreases bs
  {
    hide Plus, Holds, IsNullBlock, IsLastParamBlock, ParamId, NextBlockAddr, UnfoldsBranch, PrintableBlock,
         BlockWords, DataLen, MatchesBranch, Target;
    match bs
    case Terminator(version, id) =>
      TerminatorRead(rom, version, id, p);
    case Final(b) =>
      LaidBranchUnfolds(rom, b, true, at, p, ps.branch);
    case Then(b, rest) =>
      LaidBranchUnfolds(rom, b, false, at, p, ps.branch);
      LaidParamsUnfold(rom, rest, at, Plus(p, 8 * (1 + DataLen(b))), ps.rest);
  }

  lemma TerminatorRead(rom: Rom, version: Half, id: Half, p: Word)
    requires Holds(rom, p, TerminatorWords(version, id))
    ensures IsNullBlock(rom(p))
  {
    PlusZero(p);
    assert rom(Plus(p, 8 * 0)) == EncodeParamHeader(0, 0, true, version, id);
    hide EncodeParamHeader, IsLastParamBlock, NextParamByteOffset;
    ParamHeaderRoundTrip(0, 0, true, version, id);
  }

  lemma {:induction false} LaidBranchUnfolds(rom: Rom, b: PBlock, last: bool, at: Word, p: Word, br: Branch)
    requires PrintableBlock(b) && (last ==> DataLen(b) > 0)
    requires MatchesBranch(b, br) && LaidBlock(rom, b, last, at, p, br)
    ensures UnfoldsBranch(rom, at, p, br)
    ensures !IsNullBlock(rom(p)) && IsLastParamBlock(rom(p)) == last
    ensures !last ==> NextBlockAddr(rom, p) == Plus(p, 8 * (1 + DataLen(b)))
    decreases b
  {
    hide Plus, Holds, BlockWords, IsNullBlock, IsLastParamBlock, NextBlockAddr, ParamId, BranchTargetAt, DataLen,
         Unfolds, Matches, Laid, Reaches;
    BlockHeaderRead(rom, b, last, p, at, Target(br));
    if b.BranchTo? {
      BranchRead(rom, b, last, p, at, Target(br));
      LaidUnfolds(rom, b.sub, br.level);
    }
  }

  // ----- and its listing is the forest's own -----

  lemma BlockRead(rom: Rom, b: PBlock, last: bool, p: Word, at: Word, target: Word)
    requires Holds(rom, p, BlockWords(b, last, at, target)) && PrintableBlock(b) && (last ==> DataLen(b) > 0)
    ensures ParameterAt(rom, p) == BlockParameter(b, at, target) && IsLastParamBlock(rom(p)) == last
  {
    hide Plus, Holds, BlockWords, IsNullBlock, NextBlockAddr, BlockData, DataLen, ParamDataSize, ParamId,
         ParamVersion;
    BlockHeaderRead(rom, b, last, p, at, target);
    BlockDataRead(rom, b, last, p, at, target);
  }

  lemma {:induction false} LaidParameters(rom: Rom, bs: Blocks, at: Word, p: Word, ps: Params)
    requires PrintableBlocks(bs) && MatchesBlocks(bs, ps) && LaidBlocks(rom, bs, at, p, ps)
    ensures Stored(rom, ps) == if bs.Terminator? then [] else BlocksParameters(bs, at, ps)
    decreases bs
  {
    hide Plus, Holds, IsLastParamBlock, ParameterAt, BlockParameter, PrintableBlock, BlockWords, DataLen,
         MatchesBranch, Target, Laid, Reaches;
    match bs
    case Terminator(_, _) =>
    case Final(b) =>
      BlockRead(rom, b, true, p, at, Target(ps.branch));
    case Then(b, rest) =>
      BlockRead(rom, b, false, p, at, Target(ps.branch));
      LaidParameters(rom, rest, at, Plus(p, 8 * (1 + DataLen(b))), ps.rest);
  }

  lemma FeatureRead(rom: Rom, d: Dfl, l: Level, parent: int)
    requires Printable(d) && Matches(d, l) && Laid(rom, d, l)
    ensures HeaderInfo(rom, l.at, l.params, parent) == FeatureInfo(d.feature, l.at, l.params, parent)
  {
    hide Plus, Holds, HasParams, IsEol, NextHeaderAddr, DfhStart, CsrGroupSize, Stored, LaidBlocks, MatchesBlocks,
         PrintableBlocks, HeaderWords, InstanceId, GroupId, BaseAddress, CsrWord, BlocksParameters,
         FirstParamHeaderAddr;
    HeaderRead(rom, d.feature, d.rest.NoMore?, Gap(l), l.at);
    HeaderWordsHeld(rom, d.feature, d.rest.NoMore?, Gap(l), l.at);
    if d.feature.area.Area? {
      LaidParameters(rom, d.feature.area.blocks, l.at, FirstParamHeaderAddr(l.at), l.params);
    } else {
      NothingStored(rom);
    }
  }

  lemma NothingStored(rom: Rom)
    ensures Stored(rom, Stop) == []
  {
  }

  lemma {:induction false} MatchedSize(d: Dfl, l: Level)
    requires Matches(d, l)
    ensures Size(l) == Features(d)
    decreases d, 1
  {
    hide MatchesArea, AreaFeatures, SizeParams;
    MatchedAreaSize(d.feature.area, l.params);
    if d.rest.More? {
      MatchedSize(d.rest.dfl, l.next.level);
    }
  }

  lemma {:induction false} MatchedAreaSize(a: Area, ps: Params)
    requires MatchesArea(a, ps)
    ensures SizeParams(ps) == AreaFeatures(a)
    decreases a, 1
  {
    if a.Area? {
      MatchedParamsSize(a.blocks, ps);
    }
  }

  lemma {:induction false} MatchedParamsSize(bs: Blocks, ps: Params)
    requires MatchesBlocks(bs, ps)
    ensures SizeParams(ps) == FeaturesBelow(bs)
    decreases bs, 1
  {
    hide MatchesBranch, SizeBranch, FeaturesUnder;
    match bs
    case Terminator(_, _) =>
    case Final(b) =>
      MatchedBranchSize(b, ps.branch);
    case Then(b, rest) =>
      MatchedBranchSize(b, ps.branch);
      MatchedParamsSize(rest, ps.rest);
  }

  lemma {:induction false} MatchedBranchSize(b: PBlock, br: Branch)
    requires MatchesBranch(b, br)
    ensures SizeBranch(br) == FeaturesUnder(b)
    decreases b, 1
  {
    if b.BranchTo? {
      MatchedSize(b.sub, br.level);
    }
  }

  lemma {:induction false} LaidListing(rom: Rom, d: Dfl, l: Level, parent: int, next: int)
    requires Printable(d) && Matches(d, l) && Laid(rom, d, l)
    ensures Flatten(rom, l, parent, next, Owner) == Listing(d, l, parent, next)
    decreases d, 1
  {
    hide Plus, Holds, FeatureInfo, HeaderInfo, Printable, Matches, MatchesArea, Laid, FlattenParams, ListingArea,
         AreaFeatures, FlattenTail, ListingRest, SizeParams, Size;
    MatchesParts(d, l);
    FeatureRead(rom, d, l, parent);
    LaidAreaListing(rom, d, l, next);
    LaidRest(rom, d, l, parent, next + 1 + AreaFeatures(d.feature.area));
    MatchedAreaSize(d.feature.area, l.params);
  }

  lemma MatchesParts(d: Dfl, l: Level)
    requires Matches(d, l)
    ensures MatchesArea(d.feature.area, l.params)
    ensures d.rest.More? ==> l.next.NextHeader? && Matches(d.rest.dfl, l.next.level)
    ensures d.rest.NoMore? ==> l.next.EndOfLevel?
  {
  }

  lemma {:induction false} LaidRest(rom: Rom, d: Dfl, l: Level, parent: int, next: int)
    requires Printable(d) && Matches(d, l) && Laid(rom, d, l)
    ensures FlattenTail(rom, l.next, parent, next, Owner) == ListingRest(d.rest, l.next, parent, next)
    decreases d, 0
  {
    hide Plus, Holds, Flatten, Listing, PrintableFeature, MatchesArea;
    if d.rest.More? {
      LaidListing(rom, d.rest.dfl, l.next.level, parent, next);
    }
  }

  lemma {:induction false} LaidAreaListing(rom: Rom, d: Dfl, l: Level, next: int)
    requires Printable(d) && Matches(d, l) && Laid(rom, d, l)
    ensures FlattenParams(rom, l.params, next, next + 1, Owner) == ListingArea(d.feature.area, l.params, next)
    decreases d, 0
  {
    hide Plus, Holds, LaidBlocks, MatchesBlocks, PrintableBlocks, HeaderWords, ListingBelow, FlattenParams;
    if d.feature.area.Area? {
      LaidBelow(rom, d.feature.area.blocks, l.at, FirstParamHeaderAddr(l.at), l.params, next, next + 1);
    } else {
      NothingBelow(rom, next);
    }
  }

  lemma NothingBelow(rom: Rom, next: int)
    ensures FlattenParams(rom, Stop, next, next + 1, Owner) == []
  {
  }

  lemma {:induction false} LaidBelow(rom: Rom, bs: Blocks, at: Word, p: Word, ps: Params, owner: int, next: int)
    requires PrintableBlocks(bs) && MatchesBlocks(bs, ps) && LaidBlocks(rom, bs, at, p, ps)
    ensures FlattenParams(rom, ps, owner, next, Owner) == ListingBelow(bs, ps, owner, next)
    decreases bs
  {
    hide Plus, Holds, PrintableBlock, BlockWords, DataLen, FlattenBranch, ListingUnder, SizeBranch, MatchesBranch,
         LaidBlock;
    match bs
    case Terminator(_, _) =>
    case Final(b) =>
      LaidUnder(rom, b, true, at, p, ps.branch, owner, next);
    case Then(b, rest) =>
      LaidUnder(rom, b, false, at, p, ps.branch, owner, next);
      MatchedBranchSize(b, ps.branch);
      LaidBelow(rom, rest, at, Plus(p, 8 * (1 + DataLen(b))), ps.rest, owner, next + FeaturesUnder(b));
  }

  lemma {:induction false} LaidUnder(rom: Rom, b: PBlock, last: bool, at: Word, p: Word, br: Branch, owner: int,
                                     next: int)
    requires PrintableBlock(b) && MatchesBranch(b, br) && LaidBlock(rom, b, last, at, p, br)
    ensures FlattenBranch(rom, br, owner, next, Owner) == ListingUnder(b, br, owner, next)
    decreases b
  {
    hide Plus, Holds, Flatten, Listing;
    if b.BranchTo? {
      LaidListing(rom, b.sub, br.level, owner, next);
    }
  }

  // ----- print, then scan -----

  // A forest laid out in any way unfolds to its tree, and scans to its own listing
  // exactly when no header of it has two branches.
  lemma ParsePrint(rom: Rom, d: Dfl, l: Level)
    requires Printable(d) && Matches(d, l) && Laid(rom, d, l)
    ensures Unfolds(rom, l.at, l) && Size(l) == Features(d)
    ensures Flatten(rom, l, -1, 0, Running) == Listing(d, l, -1, 0) <==> AtMostOneBranch(l)
  {
    LaidUnfolds(rom, d, l);
    MatchedSize(d, l);
    LaidListing(rom, d, l, -1, 0);
    NumberingsAgree(rom, l, -1, 0);
  }

  // The same, on the walker itself.
  method ScanPrinted(w: Walker, ghost d: Dfl, ghost l: Level, first: Word) returns (status: Status)
    requires w.Valid() && w.stack.Live() == []
    requires Printable(d) && Matches(d, l) && Laid(w.rom, d, l) && first == l.at
    modifies w, w.stack, w.table
    ensures status == if 1 + Nest(l) <= CAPACITY then Done else OutOfBounds
    ensures status == Done ==>
              && w.Valid() && w.stack.Live() == [] && w.scannedCount == Features(d)
              && (w.table.Contents() == Listing(d, l, -1, 0) <==> AtMostOneBranch(l))
  {
    ParsePrint(w.rom, d, l);
    hide Unfolds, Flatten, Listing, Laid, Printable, Matches, AtMostOneBranch, Nest, Size;
    status := w.ScanMultiInterfaces(first, l);
  }

  // ----- the compact layout is one -----

  lemma Aligned(at: Word, words: nat)
    requires at % 8 == 0
    ensures Plus(at, 8 * words) % 8 == 0 && (Plus(at, 8 * words) - at) % TWO_64 % 8 == 0
  {
    var half := TWO_64 / 8;
    var units := at / 8 + words;
    Cut(at + 8 * words, units / half, units % half * 8, TWO_64);
    Cut(units % half * 8, units % half, 0, 8);
    var r := if units % half < at / 8 then units % half - at / 8 + half else units % half - at / 8;
    Cut(Plus(at, 8 * words) - at, if units % half < at / 8 then -1 else 0, r * 8, TWO_64);
    Cut(r * 8, r, 0, 8);
  }

  lemma {:induction false} CompactLaid(rom: Rom, d: Dfl, at: Word)
    requires ShortSteps(d) && at % 8 == 0 && Holds(rom, at, Image(d, at))
    ensures Laid(rom, d, Place(d, at))
    decreases d
  {
    hide Plus, Holds, Image, Extent, Matches, HeaderWords, BlocksWords, SubsWords, LaidBlocks, BlocksLen, PlaceBlocks,
         MatchesBlocks;
    LevelHeld(rom, d, at);
    if d.feature.area.Area? {
      var blocks := d.feature.area.blocks;
      CompactLaidBlocks(rom, blocks, FirstParamHeaderAddr(at), at, HEADER_WORDS + BlocksLen(blocks));
    }
    if d.rest.More? {
      Aligned(at, Extent(d.feature));
      Wraps(at, 8 * Extent(d.feature));
      CompactLaid(rom, d.rest.dfl, Plus(at, 8 * Extent(d.feature)));
    }
  }

  // The three parts of a level's image.
  lemma LevelHeld(rom: Rom, d: Dfl, at: Word)
    requires Holds(rom, at, Image(d, at))
    ensures Holds(rom, at, HeaderWords(d.feature, d.rest.NoMore?, if d.rest.NoMore? then 0 else 8 * Extent(d.feature)))
    ensures d.feature.area.Area? ==>
              var blocks := d.feature.area.blocks;
              var subAt := HEADER_WORDS + BlocksLen(blocks);
              && Holds(rom, FirstParamHeaderAddr(at), BlocksWords(blocks, at, subAt))
              && Holds(rom, Plus(at, 8 * subAt), SubsWords(blocks, at, subAt))
    ensures d.rest.More? ==> var next := Plus(at, 8 * Extent(d.feature)); Holds(rom, next, Image(d.rest.dfl, next))
  {
    hide Plus, Holds, HeaderWords, BlocksWords, SubsWords;
    var header := HeaderWords(d.feature, d.rest.NoMore?, if d.rest.NoMore? then 0 else 8 * Extent(d.feature));
    var area, next := AreaWords(d.feature.area, at), Plus(at, 8 * Extent(d.feature));
    var tail := if d.rest.NoMore? then [] else Image(d.rest.dfl, next);
    HoldsConcat(rom, at, header + area, tail);
    HoldsConcat(rom, at, header, area);
    if d.feature.area.Area? {
      var blocks := d.feature.area.blocks;
      var subAt := HEADER_WORDS + BlocksLen(blocks);
      HoldsConcat(rom, FirstParamHeaderAddr(at), BlocksWords(blocks, at, subAt), SubsWords(blocks, at, subAt));
      PlusPlus(at, 8 * HEADER_WORDS, 8 * BlocksLen(blocks));
    }
  }

  lemma {:induction false} CompactLaidBlocks(rom: Rom, bs: Blocks, p: Word, at: Word, subAt: nat)
    requires ShortStepsBelow(bs) && at % 8 == 0
    requires Holds(rom, p, BlocksWords(bs, at, subAt)) && Holds(rom, Plus(at, 8 * subAt), SubsWords(bs, at, subAt))
    ensures LaidBlocks(rom, bs, at, p, PlaceBlocks(bs, p, at, subAt))
    decreases bs
  {
    hide Plus, Holds, PlaceBranch, BlockWords, SubWords, DataLen, MatchesBranch, LaidBlock, ShortStepsUnder,
         SubTarget;
    match bs
    case Terminator(_, _) =>
    case Final(b) =>
      CompactLaidBlock(rom, b, true, p, at, subAt);
    case Then(b, rest) =>
      BlocksHeld(rom, b, rest, p, at, subAt);
      CompactLaidBlock(rom, b, false, p, at, subAt);
      hide BlocksWords, SubsWords;
      CompactLaidBlocks(rom, rest, Plus(p, 8 * (1 + DataLen(b))), at, subAt + SubLen(b));
  }

  // A block and its sub-level, apart from the following ones.
  lemma BlocksHeld(rom: Rom, b: PBlock, rest: Blocks, p: Word, at: Word, subAt: nat)
    requires Holds(rom, p, BlocksWords(Then(b, rest), at, subAt))
    requires Holds(rom, Plus(at, 8 * subAt), SubsWords(Then(b, rest), at, subAt))
    ensures Holds(rom, p, BlockWords(b, false, at, SubTarget(b, at, subAt)))
    ensures Holds(rom, Plus(p, 8 * (1 + DataLen(b))), BlocksWords(rest, at, subAt + SubLen(b)))
    ensures Holds(rom, Plus(at, 8 * subAt), SubWords(b, at, subAt))
    ensures Holds(rom, Plus(at, 8 * (subAt + SubLen(b))), SubsWords(rest, at, subAt + SubLen(b)))
  {
    hide Plus, Holds, BlockWords, SubWords, SubTarget;
    HoldsConcat(rom, p, BlockWords(b, false, at, SubTarget(b, at, subAt)), BlocksWords(rest, at, subAt + SubLen(b)));
    HoldsConcat(rom, Plus(at, 8 * subAt), SubWords(b, at, subAt), SubsWords(rest, at, subAt + SubLen(b)));
    PlusPlus(at, 8 * subAt, 8 * SubLen(b));
  }

  lemma {:induction false} CompactLaidBlock(rom: Rom, b: PBlock, last: bool, p: Word, at: Word, subAt: nat)
    requires ShortStepsUnder(b) && at % 8 == 0
    requires Holds(rom, p, BlockWords(b, last, at, SubTarget(b, at, subAt)))
    requires Holds(rom, Plus(at, 8 * subAt), SubWords(b, at, subAt))
    ensures LaidBlock(rom, b, last, at, p, PlaceBranch(b, at, subAt))
    decreases b
  {
    hide Plus, Holds, BlockWords, Laid, Place, Matches, Image;
    if b.BranchTo? {
      Aligned(at, subAt);
      CompactLaid(rom, b.sub, Plus(at, 8 * subAt));
    }
  }
}
