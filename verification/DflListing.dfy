/** The interface table that a scan should produce: the preorder listing of an
    unfolding, with each entry read from the ROM. */
module DflListing {
  import opened Words
  import opened DflCodec
  import opened DflTree

  datatype Parameter = Parameter(version: Half, id: Half, data: seq<Word>)

  // FPGA_INTERFACE_INFO as a value; num_of_parameters is |parameters|.
  datatype Info = Info(guidL: Word, guidH: Word, instance: Half, group: Half,
                       parameters: seq<Parameter>, parent: int, dfl: bool, base: Word,
                       interrupt: Half, mmioOpened: bool, interruptOpened: bool,
                       interruptEnable: bool, isr: Word, isrContext: Word)

  const ZERO_PARAMETER := Parameter(0, 0, [])
  const ZERO_INFO := Info(0, 0, 0, 0, [], 0, false, 0, 0, false, false, false, 0, 0)

  // Parent numbering: what the walker pushes (the last index it assigned), or what
  // dfh_parent is documented to be (the index of the header that owns the branch).
  datatype Numbering = Running | Owner

  // ----- one entry -----

  function WordsAt(rom: Rom, p: Word, count: nat): (ws: seq<Word>)
    ensures |ws| == count
  {
    seq<Word>(count, i => rom(Plus(p, 8 * i)))
  }

  function ParameterAt(rom: Rom, p: Word): Parameter {
    Parameter(ParamVersion(rom(p)), ParamId(rom(p)),
              WordsAt(rom, Plus(p, PARAM_HEADER_SIZE), ParamDataSize(rom(p)) / 8))
  }

  // One entry per block; a NULL terminator reached after some block leaves an
  // all-zero entry, one that comes first leaves none.
  function Stored(rom: Rom, ps: Params): (params: seq<Parameter>)
    ensures params == [] <==> ps.Stop?
    decreases ps, 0
  {
    if ps.Stop? then []
    else [ParameterAt(rom, ps.at)] + StoredAfter(rom, ps.at, ps.rest)
  }

  function StoredAfter(rom: Rom, p: Word, rest: Params): seq<Parameter>
    decreases rest, 1
  {
    if IsLastParamBlock(rom(p)) then []
    else if rest.Stop? then [ZERO_PARAMETER]
    else Stored(rom, rest)
  }

  function HeaderInfo(rom: Rom, at: Word, ps: Params, parent: int): (e: Info)
    ensures e.parent == parent
  {
    ZERO_INFO.(guidL := rom(Plus(at, GUID_L_OFFSET)), guidH := rom(Plus(at, GUID_H_OFFSET)),
               instance := InstanceId(CsrGroupSize(rom, at)), group := GroupId(CsrGroupSize(rom, at)),
               parameters := Stored(rom, ps), parent := parent, dfl := true,
               base := BaseAddress(rom(Plus(at, CSR_ADDRESS_OFFSET)), at))
  }

  // ----- the listing -----

  // next is the index of the first entry of the listing.
  function Flatten(rom: Rom, l: Level, parent: int, next: int, mode: Numbering): (t: seq<Info>)
    ensures |t| == Size(l)
    decreases l
  {
    [HeaderInfo(rom, l.at, l.params, parent)]
    + FlattenParams(rom, l.params, next, next + 1, mode)
    + FlattenTail(rom, l.next, parent, next + 1 + SizeParams(l.params), mode)
  }

  function FlattenParams(rom: Rom, ps: Params, owner: int, next: int, mode: Numbering): (t: seq<Info>)
    ensures |t| == SizeParams(ps)
    decreases ps
  {
    if ps.Stop? then []
    else FlattenBranch(rom, ps.branch, owner, next, mode)
         + FlattenParams(rom, ps.rest, owner, next + SizeBranch(ps.branch), mode)
  }

  function FlattenBranch(rom: Rom, b: Branch, owner: int, next: int, mode: Numbering): (t: seq<Info>)
    ensures |t| == SizeBranch(b)
    decreases b
  {
    if b.Plain? then []
    else Flatten(rom, b.level, if mode == Running then next - 1 else owner, next, mode)
  }

  function FlattenTail(rom: Rom, t: Tail, parent: int, next: int, mode: Numbering): (s: seq<Info>)
    ensures |s| == SizeTail(t)
    decreases t
  {
    if t.EndOfLevel? then [] else Flatten(rom, t.level, parent, next, mode)
  }

  // ----- stored parameters against the ROM -----

  // Bytes occupied by the first j stored blocks.
  function Span(params: seq<Parameter>, j: nat): nat
    requires j <= |params|
  {
    if j == 0 then 0 else 8 * (1 + |params[0].data|) + Span(params[1..], j - 1)
  }

  // The next-block offset covers a non-final block's header and data.
  lemma BlockSpan(rom: Rom, owner: Word, p: Word, ps: Params)
    requires UnfoldsParams(rom, owner, p, ps) && !IsLastParamBlock(rom(p))
    ensures 8 * (1 + |ParameterAt(rom, p).data|) == NextParamByteOffset(rom(p))
  {
    OffsetAdvances(rom, owner, p, ps);
    assert ParamDataSize(rom(p)) == NextParamByteOffset(rom(p)) - 8;
  }

  // Stored blocks tile the parameter area: block j starts where the sizes of the
  // earlier ones end, its content is the ROM's (all zero for the terminator), and
  // it is the last entry exactly when its header says so.
  lemma {:induction false} StoredTiles(rom: Rom, owner: Word, p: Word, ps: Params, j: nat)
    requires UnfoldsParams(rom, owner, p, ps) && j < |Stored(rom, ps)|
    ensures var at := Plus(p, Span(Stored(rom, ps), j));
            && Stored(rom, ps)[j] == (if IsNullBlock(rom(at)) then ZERO_PARAMETER else ParameterAt(rom, at))
            && (IsLastParamBlock(rom(at)) <==> j == |Stored(rom, ps)| - 1)
    decreases ps
  {
    PlusZero(p);
    hide Plus, NextParamByteOffset, IsLastParamBlock, ParameterAt;
    var params := Stored(rom, ps);
    assert params[1..] == StoredAfter(rom, p, ps.rest);
    if j > 0 {
      BlockSpan(rom, owner, p, ps);
      var q := NextBlockAddr(rom, p);
      PlusPlus(p, NextParamByteOffset(rom(p)), Span(params[1..], j - 1));
      assert Plus(p, Span(params, j)) == Plus(q, Span(params[1..], j - 1));
      assert params[j] == params[1..][j - 1];
      if ps.rest.Block? {
        StoredTiles(rom, owner, q, ps.rest, j - 1);
      } else {
        PlusZero(q);
      }
    }
  }

  // The sub-levels opened under a header, in order.
  function SubLevels(ps: Params): seq<Level> {
    if ps.Stop? then []
    else (if ps.branch.SubLevel? then [ps.branch.level] else []) + SubLevels(ps.rest)
  }

  // The stored parameters with the branch id.
  function BranchBlocks(params: seq<Parameter>): seq<Parameter> {
    if params == [] then []
    else (if params[0].id == 0xC then [params[0]] else []) + BranchBlocks(params[1..])
  }

  // Blocks correspond one to one to sub-levels, and a block that holds data names
  // the address of its sub-level.
  ghost predicate TargetsMatch(blocks: seq<Parameter>, levels: seq<Level>, owner: Word) {
    && |blocks| == |levels|
    && forall k :: 0 <= k < |blocks| && blocks[k].data != [] ==>
                     levels[k].at == BranchTarget(blocks[k].data[0], owner)
  }

  lemma TargetsConcat(bs: seq<Parameter>, ls: seq<Level>, cs: seq<Parameter>, ms: seq<Level>, owner: Word)
    requires TargetsMatch(bs, ls, owner) && TargetsMatch(cs, ms, owner)
    ensures TargetsMatch(bs + cs, ls + ms, owner)
  {
  }

  // The stored parameters with the branch id are, in order, the branches taken.
  lemma {:induction false} StoredBranchesAreTaken(rom: Rom, owner: Word, p: Word, ps: Params)
    requires UnfoldsParams(rom, owner, p, ps)
    ensures TargetsMatch(BranchBlocks(Stored(rom, ps)), SubLevels(ps), owner)
    decreases ps
  {
    if ps.Block? {
      BlockTargets(rom, owner, p, ps.branch);
      hide Plus, NextParamByteOffset, IsLastParamBlock, ParameterAt;
      var params, tail := Stored(rom, ps), StoredAfter(rom, p, ps.rest);
      assert params[0] == ParameterAt(rom, p) && params[1..] == tail;
      if !IsLastParamBlock(rom(p)) {
        StoredBranchesAreTaken(rom, owner, NextBlockAddr(rom, p), ps.rest);
        assert BranchBlocks([ZERO_PARAMETER]) == BranchBlocks([]);
      }
      assert TargetsMatch(BranchBlocks(tail), SubLevels(ps.rest), owner);
      var block := if params[0].id == 0xC then [params[0]] else [];
      var level := if ps.branch.SubLevel? then [ps.branch.level] else [];
      TargetsConcat(block, level, BranchBlocks(tail), SubLevels(ps.rest), owner);
    }
  }

  lemma BlockTargets(rom: Rom, owner: Word, p: Word, b: Branch)
    requires UnfoldsBranch(rom, owner, p, b)
    ensures var block := ParameterAt(rom, p);
            TargetsMatch(if block.id == 0xC then [block] else [],
                         if b.SubLevel? then [b.level] else [], owner)
  {
    FirstWord(rom, p);
  }

  lemma FirstWord(rom: Rom, p: Word)
    ensures var data := ParameterAt(rom, p).data;
            data != [] ==> data[0] == rom(Plus(p, PARAM_DATA_OFFSET))
  {
    PlusPlus(p, PARAM_HEADER_SIZE, 0);
  }
}
