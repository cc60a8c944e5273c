/** Feature forests, the words the tests' CONSTRUCT_ macros print them as, and the
    ways they may lie in a ROM. */
module DflImage {
  import opened Words
  import opened DflCodec
  import opened DflTree
  import opened DflListing

  // One level of features; a feature's sub-levels hang under its branch blocks.
  datatype Dfl = Dfl(feature: Feature, rest: DflRest)
  datatype DflRest = NoMore | More(dfl: Dfl)
  datatype Feature = Feature(misc: Misc, guidL: Word, guidH: Word, instance: Half, group: Half, csr: Csr, area: Area)
  datatype Area = NoArea | Area(blocks: Blocks)
  datatype Blocks = Terminator(version: Half, id: Half) | Final(block: PBlock) | Then(block: PBlock, rest: Blocks)
  datatype PBlock =
    | Data(version: Half, id: Half, words: seq<Word>)
    | BranchTo(version: Half, absolute: bool, extra: seq<Word>, sub: Dfl)
  datatype Csr = AbsoluteCsr(addr: Word) | RelativeCsr(offset: Word)

  // Header fields that the walker never reads.
  datatype Misc = Misc(featureType: nat, dfhVersion: nat, minorRev: nat, reserved: nat, rev: nat, id: nat, csrSize: nat)

  const HEADER_WORDS := 5

  // ----- sizes, in words -----

  function DataLen(b: PBlock): nat {
    if b.Data? then |b.words| else 1 + |b.extra|
  }

  function BlocksLen(bs: Blocks): nat {
    match bs
    case Terminator(_, _) => 1
    case Final(b) => 1 + DataLen(b)
    case Then(b, rest) => 1 + DataLen(b) + BlocksLen(rest)
  }

  function AreaLen(a: Area): nat {
    if a.NoArea? then 0 else BlocksLen(a.blocks)
  }

  function SubLen(b: PBlock): nat
    decreases b, 0
  {
    if b.Data? then 0 else ImageLen(b.sub)
  }

  function SubsLen(bs: Blocks): nat
    decreases bs, 0
  {
    match bs
    case Terminator(_, _) => 0
    case Final(b) => SubLen(b)
    case Then(b, rest) => SubLen(b) + SubsLen(rest)
  }

  function Extent(f: Feature): nat
    decreases f, 0
  {
    HEADER_WORDS + AreaLen(f.area) + if f.area.NoArea? then 0 else SubsLen(f.area.blocks)
  }

  function ImageLen(d: Dfl): nat
    decreases d, 0
  {
    Extent(d.feature) + if d.rest.NoMore? then 0 else ImageLen(d.rest.dfl)
  }

  // ----- what can be printed -----

  predicate Printable(d: Dfl)
    decreases d
  {
    PrintableFeature(d.feature) && (d.rest.More? ==> Printable(d.rest.dfl))
  }

  predicate PrintableFeature(f: Feature)
    decreases f
  {
    && f.group < 0x8000
    && (if f.csr.AbsoluteCsr? then f.csr.addr else f.csr.offset) % 2 == 0
    && (f.area.Area? ==> PrintableBlocks(f.area.blocks))
  }

  // A final block needs data, or it would read as the terminator.
  predicate PrintableBlocks(bs: Blocks)
    decreases bs
  {
    match bs
    case Terminator(_, _) => true
    case Final(b) => PrintableBlock(b) && DataLen(b) > 0
    case Then(b, rest) => PrintableBlock(b) && PrintableBlocks(rest)
  }

  predicate PrintableBlock(b: PBlock)
    decreases b
  {
    && 8 * (1 + DataLen(b)) < 0x1_0000_0000
    && match b
       case Data(_, id, _) => id != 0xC
       case BranchTo(_, _, _, sub) => Printable(sub)
  }

  // ----- the words of one header and one block -----

  // A block of a branch names the address its sub-level is laid out at.
  function BlockData(b: PBlock, at: Word, target: Word): (ws: seq<Word>)
    ensures |ws| == DataLen(b)
  {
    match b
    case Data(_, _, words) => words
    case BranchTo(_, absolute, extra, _) =>
      [EncodeBranchData(if absolute then target else (target - at) % TWO_64, absolute)] + extra
  }

  function BlockId(b: PBlock): Half {
    if b.Data? then b.id else 0xC
  }

  function BlockWords(b: PBlock, last: bool, at: Word, target: Word): (ws: seq<Word>)
    ensures |ws| == 1 + DataLen(b)
  {
    [EncodeParamHeader(8 * (DataLen(b) + if last then 0 else 1), 0, last, b.version, BlockId(b))]
        + BlockData(b, at, target)
  }

  function CsrWord(csr: Csr): Word {
    match csr
    case AbsoluteCsr(addr) => EncodeCsrAddr(addr, true)
    case RelativeCsr(offset) => EncodeCsrAddr(offset, false)
  }

  // next is the distance to the next header of the level.
  function HeaderWords(f: Feature, eol: bool, next: nat): (ws: seq<Word>)
    ensures |ws| == HEADER_WORDS
  {
    var m := f.misc;
    [EncodeDfh(m.featureType, m.dfhVersion, m.minorRev, m.reserved, eol, next, m.rev, m.id),
     f.guidL, f.guidH, CsrWord(f.csr), EncodeCsrGroupSize(m.csrSize, f.area.Area?, f.group, f.instance)]
  }

  // Whatever else its header says, a block without data that ends the list ends it.
  function TerminatorWords(version: Half, id: Half): seq<Word> {
    [EncodeParamHeader(0, 0, true, version, id)]
  }

  // ----- forests laid out over a tree of addresses -----

  // The tree gives an address to each header and block of the forest.
  predicate Matches(d: Dfl, l: Level)
    decreases d
  {
    && MatchesArea(d.feature.area, l.params)
    && (d.rest.More? <==> l.next.NextHeader?)
    && (d.rest.More? ==> Matches(d.rest.dfl, l.next.level))
  }

  predicate MatchesArea(a: Area, ps: Params)
    decreases a
  {
    if a.NoArea? then ps.Stop? else MatchesBlocks(a.blocks, ps)
  }

  predicate MatchesBlocks(bs: Blocks, ps: Params)
    decreases bs
  {
    match bs
    case Terminator(_, _) => ps.Stop?
    case Final(b) => ps.Block? && MatchesBranch(b, ps.branch) && ps.rest.Stop?
    case Then(b, rest) => ps.Block? && MatchesBranch(b, ps.branch) && MatchesBlocks(rest, ps.rest)
  }

  predicate MatchesBranch(b: PBlock, br: Branch)
    decreases b
  {
    if b.Data? then br.Plain? else br.SubLevel? && Matches(b.sub, br.level)
  }

  function Target(br: Branch): Word {
    if br.Plain? then 0 else br.level.at
  }

  // Distance from a header to the next one of its level.
  function Gap(l: Level): nat {
    if l.next.EndOfLevel? then 0 else (l.next.level.at - l.at) % TWO_64
  }

  // The ROM holds the forest at the addresses of the tree. Headers, parameter areas
  // and sub-levels may lie anywhere, in any order, and be shared by several branches.
  ghost predicate Laid(rom: Rom, d: Dfl, l: Level)
    requires Matches(d, l)
    decreases d
  {
    && Holds(rom, l.at, HeaderWords(d.feature, d.rest.NoMore?, Gap(l)))
    && LaidArea(rom, d.feature.area, l.at, l.params)
    && (d.rest.More? ==> Gap(l) < 0x80_0000 && Laid(rom, d.rest.dfl, l.next.level))
  }

  ghost predicate LaidArea(rom: Rom, a: Area, at: Word, ps: Params)
    requires MatchesArea(a, ps)
    decreases a
  {
    a.Area? ==> LaidBlocks(rom, a.blocks, at, FirstParamHeaderAddr(at), ps)
  }

  ghost predicate LaidBlocks(rom: Rom, bs: Blocks, at: Word, p: Word, ps: Params)
    requires MatchesBlocks(bs, ps)
    decreases bs
  {
    match bs
    case Terminator(version, id) => Holds(rom, p, TerminatorWords(version, id))
    case Final(b) => ps.at == p && LaidBlock(rom, b, true, at, p, ps.branch)
    case Then(b, rest) =>
      && ps.at == p && LaidBlock(rom, b, false, at, p, ps.branch)
      && LaidBlocks(rom, rest, at, Plus(p, 8 * (1 + DataLen(b))), ps.rest)
  }

  ghost predicate LaidBlock(rom: Rom, b: PBlock, last: bool, at: Word, p: Word, br: Branch)
    requires MatchesBranch(b, br)
    decreases b
  {
    && Holds(rom, p, BlockWords(b, last, at, Target(br)))
    && (b.BranchTo? ==> Reaches(b, at, Target(br)) && Laid(rom, b.sub, br.level))
  }

  // Branch data has no room for the lowest three bits.
  predicate Reaches(b: PBlock, at: Word, target: Word) {
    b.BranchTo? ==> if b.absolute then target % 8 == 0 else (target - at) % TWO_64 % 8 == 0
  }

  // ----- the listing of a forest at given addresses, without any ROM -----

  function BlockParameter(b: PBlock, at: Word, target: Word): Parameter {
    Parameter(b.version, BlockId(b), BlockData(b, at, target))
  }

  function AreaParameters(a: Area, at: Word, ps: Params): seq<Parameter>
    requires MatchesArea(a, ps)
  {
    if a.NoArea? || a.blocks.Terminator? then [] else BlocksParameters(a.blocks, at, ps)
  }

  function BlocksParameters(bs: Blocks, at: Word, ps: Params): seq<Parameter>
    requires MatchesBlocks(bs, ps)
    decreases bs
  {
    match bs
    case Terminator(_, _) => [ZERO_PARAMETER]
    case Final(b) => [BlockParameter(b, at, Target(ps.branch))]
    case Then(b, rest) => [BlockParameter(b, at, Target(ps.branch))] + BlocksParameters(rest, at, ps.rest)
  }

  function FeatureInfo(f: Feature, at: Word, ps: Params, parent: int): Info
    requires MatchesArea(f.area, ps)
  {
    ZERO_INFO.(guidL := f.guidL, guidH := f.guidH, instance := f.instance, group := f.group,
               parameters := AreaParameters(f.area, at, ps), parent := parent, dfl := true,
               base := if f.csr.AbsoluteCsr? then f.csr.addr else Plus(at, f.csr.offset))
  }

  function Features(d: Dfl): nat
    decreases d, 0
  {
    1 + AreaFeatures(d.feature.area) + if d.rest.NoMore? then 0 else Features(d.rest.dfl)
  }

  function AreaFeatures(a: Area): nat
    decreases a, 0
  {
    if a.NoArea? then 0 else FeaturesBelow(a.blocks)
  }

  function FeaturesBelow(bs: Blocks): nat
    decreases bs, 0
  {
    match bs
    case Terminator(_, _) => 0
    case Final(b) => FeaturesUnder(b)
    case Then(b, rest) => FeaturesUnder(b) + FeaturesBelow(rest)
  }

  function FeaturesUnder(b: PBlock): nat
    decreases b, 0
  {
    if b.Data? then 0 else Features(b.sub)
  }

  // Preorder: a feature, everything under its branches, the rest of its level. Each
  // entry's parent is the feature whose branch leads to its level.
  function Listing(d: Dfl, l: Level, parent: int, next: int): seq<Info>
    requires Matches(d, l)
    decreases d, 0
  {
    [FeatureInfo(d.feature, l.at, l.params, parent)] + ListingArea(d.feature.area, l.params, next)
    + ListingRest(d.rest, l.next, parent, next + 1 + AreaFeatures(d.feature.area))
  }

  function ListingRest(r: DflRest, t: Tail, parent: int, next: int): seq<Info>
    requires r.More? ==> t.NextHeader? && Matches(r.dfl, t.level)
    decreases r, 0
  {
    if r.NoMore? then [] else Listing(r.dfl, t.level, parent, next)
  }

  // Everything under the branches of the header numbered owner.
  function ListingArea(a: Area, ps: Params, owner: int): seq<Info>
    requires MatchesArea(a, ps)
    decreases a, 0
  {
    if a.NoArea? then [] else ListingBelow(a.blocks, ps, owner, owner + 1)
  }

  function ListingBelow(bs: Blocks, ps: Params, owner: int, next: int): seq<Info>
    requires MatchesBlocks(bs, ps)
    decreases bs, 0
  {
    match bs
    case Terminator(_, _) => []
    case Final(b) => ListingUnder(b, ps.branch, owner, next)
    case Then(b, rest) =>
      ListingUnder(b, ps.branch, owner, next) + ListingBelow(rest, ps.rest, owner, next + FeaturesUnder(b))
  }

  function ListingUnder(b: PBlock, br: Branch, owner: int, next: int): seq<Info>
    requires MatchesBranch(b, br)
    decreases b, 0
  {
    if b.Data? then [] else Listing(b.sub, br.level, owner, next)
  }

  // ----- the compact layout -----

  // The words of a forest printed at one place: a header, its parameter area, the
  // sub-levels of its branches, then the next feature of the level. subAt is the
  // word, counted from the header at `at`, where a block's sub-level goes.
  function Image(d: Dfl, at: Word): (ws: seq<Word>)
    ensures |ws| == ImageLen(d)
    decreases d, 0
  {
    HeaderWords(d.feature, d.rest.NoMore?, if d.rest.NoMore? then 0 else 8 * Extent(d.feature))
    + AreaWords(d.feature.area, at)
    + if d.rest.NoMore? then [] else Image(d.rest.dfl, Plus(at, 8 * Extent(d.feature)))
  }

  function AreaWords(a: Area, at: Word): (ws: seq<Word>)
    ensures |ws| == AreaLen(a) + if a.NoArea? then 0 else SubsLen(a.blocks)
    decreases a, 0
  {
    if a.NoArea? then []
    else
      var subAt := HEADER_WORDS + BlocksLen(a.blocks);
      BlocksWords(a.blocks, at, subAt) + SubsWords(a.blocks, at, subAt)
  }

  function BlocksWords(bs: Blocks, at: Word, subAt: nat): (ws: seq<Word>)
    ensures |ws| == BlocksLen(bs)
  {
    match bs
    case Terminator(version, id) => TerminatorWords(version, id)
    case Final(b) => BlockWords(b, true, at, SubTarget(b, at, subAt))
    case Then(b, rest) => BlockWords(b, false, at, SubTarget(b, at, subAt)) + BlocksWords(rest, at, subAt + SubLen(b))
  }

  function SubTarget(b: PBlock, at: Word, subAt: nat): Word {
    if b.Data? then 0 else Plus(at, 8 * subAt)
  }

  function SubWords(b: PBlock, at: Word, subAt: nat): (ws: seq<Word>)
    ensures |ws| == SubLen(b)
    decreases b, 0
  {
    if b.Data? then [] else Image(b.sub, Plus(at, 8 * subAt))
  }

  function SubsWords(bs: Blocks, at: Word, subAt: nat): (ws: seq<Word>)
    ensures |ws| == SubsLen(bs)
    decreases bs, 0
  {
    match bs
    case Terminator(_, _) => []
    case Final(b) => SubWords(b, at, subAt)
    case Then(b, rest) => SubWords(b, at, subAt) + SubsWords(rest, at, subAt + SubLen(b))
  }

  // Where everything lands.
  function Place(d: Dfl, at: Word): (l: Level)
    ensures l.at == at && Matches(d, l)
    decreases d, 0
  {
    Level(at, PlaceArea(d.feature.area, at), PlaceRest(d.rest, Plus(at, 8 * Extent(d.feature))))
  }

  function PlaceRest(r: DflRest, at: Word): (t: Tail)
    ensures if r.NoMore? then t.EndOfLevel? else t.NextHeader? && t.level.at == at && Matches(r.dfl, t.level)
    decreases r, 0
  {
    if r.NoMore? then EndOfLevel else NextHeader(Place(r.dfl, at))
  }

  function PlaceArea(a: Area, at: Word): (ps: Params)
    ensures MatchesArea(a, ps)
    decreases a, 0
  {
    if a.NoArea? then Stop
    else PlaceBlocks(a.blocks, FirstParamHeaderAddr(at), at, HEADER_WORDS + BlocksLen(a.blocks))
  }

  function PlaceBlocks(bs: Blocks, p: Word, at: Word, subAt: nat): (ps: Params)
    ensures MatchesBlocks(bs, ps)
    decreases bs, 0
  {
    match bs
    case Terminator(_, _) => Stop
    case Final(b) => Block(p, PlaceBranch(b, at, subAt), Stop)
    case Then(b, rest) =>
      Block(p, PlaceBranch(b, at, subAt), PlaceBlocks(rest, Plus(p, 8 * (1 + DataLen(b))), at, subAt + SubLen(b)))
  }

  function PlaceBranch(b: PBlock, at: Word, subAt: nat): (br: Branch)
    ensures MatchesBranch(b, br) && Target(br) == SubTarget(b, at, subAt)
    decreases b, 0
  {
    if b.Data? then Plain else SubLevel(Place(b.sub, Plus(at, 8 * subAt)))
  }

  // Every next-header distance of the compact layout can be read back.
  predicate ShortSteps(d: Dfl)
    decreases d
  {
    && (d.feature.area.Area? ==> ShortStepsBelow(d.feature.area.blocks))
    && (d.rest.More? ==> 8 * Extent(d.feature) < 0x80_0000 && ShortSteps(d.rest.dfl))
  }

  predicate ShortStepsBelow(bs: Blocks)
    decreases bs
  {
    match bs
    case Terminator(_, _) => true
    case Final(b) => ShortStepsUnder(b)
    case Then(b, rest) => ShortStepsUnder(b) && ShortStepsBelow(rest)
  }

  predicate ShortStepsUnder(b: PBlock)
    decreases b
  {
    b.BranchTo? ==> ShortSteps(b.sub)
  }

  // ----- images in a ROM -----

  ghost predicate Holds(rom: Rom, p: Word, ws: seq<Word>) {
    forall i :: 0 <= i < |ws| ==> rom(Plus(p, 8 * i)) == ws[i]
  }

  lemma HoldsConcat(rom: Rom, p: Word, a: seq<Word>, b: seq<Word>)
    requires Holds(rom, p, a + b)
    ensures Holds(rom, p, a) && Holds(rom, Plus(p, 8 * |a|), b)
  {
    hide Plus;
    assert forall i :: 0 <= i < |a| ==> (a + b)[i] == a[i];
    forall i | 0 <= i < |b|
      ensures rom(Plus(Plus(p, 8 * |a|), 8 * i)) == b[i]
    {
      PlusPlus(p, 8 * |a|, 8 * i);
      assert (a + b)[|a| + i] == b[i];
    }
  }

  // Any image that fits the address space once has a ROM.
  function RomOf(base: Word, ws: seq<Word>): Rom {
    a => var d := (a - base) % TWO_64; if d % 8 == 0 && d / 8 < |ws| then ws[d / 8] else 0
  }

  lemma RomOfHolds(base: Word, ws: seq<Word>)
    requires |ws| <= TWO_64 / 8
    ensures Holds(RomOf(base, ws), base, ws)
  {
    forall i | 0 <= i < |ws|
      ensures RomOf(base, ws)(Plus(base, 8 * i)) == ws[i]
    {
      Wraps(base, 8 * i);
      assert 8 * i % 8 == 0 && 8 * i / 8 == i;
    }
  }

  lemma Wraps(base: Word, d: nat)
    requires d < TWO_64
    ensures (Plus(base, d) - base) % TWO_64 == d
  {
  }
}
