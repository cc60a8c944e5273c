/** One image written out word by word, and the table that a scan of it must leave. */
module DflSample {
  import opened Words
  import opened DflCodec
  import opened DflTree
  import opened DflListing
  import opened DflWalker

  const SAMPLE_WORDS: seq<Word> := [
    // 0x00: next header 0x50 ahead, registers 0x1000 ahead, parameters, group 5, instance 9
    0x3000_0000_0050_1FFF, 0x1111, 0x2222, 0x1000, 0x40_8005_0009,
    // 0x28: version 3, id 7, one word; 0x38: version 1, branch 0x78 ahead; 0x48: terminator
    0x10_0003_0007, 0xABCD, 0x10_0001_000C, 0x78, 0x1_0000_0000,
    // 0x50: last of its list, registers at 0x5000, no parameters, all id bits set
    0x100_0000_0000, 0x3333, 0x4444, 0x5001, 0x7FFF_FFFF,
    // 0x78: last of its list, registers 0x10 before it, parameters
    0x100_0000_0000, 0x5555, 0x6666, 0xFFFF_FFFF_FFFF_FFF0, 0x8000_0000,
    // 0xA0: id 2, one word, last block
    0x9_0000_0002, 0x77
  ]

  const SAMPLE: Rom := a => if a % 8 == 0 && a / 8 < 22 then SAMPLE_WORDS[a / 8] else 0

  const BELOW := Level(0x78, Block(0xA0, Plain, Stop), EndOfLevel)
  const AFTER := Level(0x50, Stop, EndOfLevel)
  const SAMPLE_TREE := Level(0, Block(0x28, Plain, Block(0x38, SubLevel(BELOW), Stop)), NextHeader(AFTER))

  const SAMPLE_TABLE: seq<Info> := [
    Info(0x1111, 0x2222, 9, 5, [Parameter(3, 7, [0xABCD]), Parameter(1, 0xC, [0x78]), Parameter(0, 0, [])],
         -1, true, 0x1000, 0, false, false, false, 0, 0),
    Info(0x5555, 0x6666, 0, 0, [Parameter(0, 2, [0x77])],
         0, true, 0x68, 0, false, false, false, 0, 0),
    Info(0x3333, 0x4444, 0xFFFF, 0x7FFF, [],
         -1, true, 0x5000, 0, false, false, false, 0, 0)
  ]

  lemma AfterUnfolds()
    ensures Unfolds(SAMPLE, 0x50, AFTER)
    ensures forall parent :: HeaderInfo(SAMPLE, 0x50, Stop, parent) == SAMPLE_TABLE[2].(parent := parent)
  {
  }

  // A block of one word.
  lemma OneWord(rom: Rom, p: Word)
    requires ParamDataSize(rom(p)) == 8
    ensures ParameterAt(rom, p) == Parameter(ParamVersion(rom(p)), ParamId(rom(p)), [rom(Plus(p, 8))])
  {
    hide ParamDataSize, ParamVersion, ParamId;
    PlusPlus(p, PARAM_HEADER_SIZE, 0);
    assert WordsAt(rom, Plus(p, PARAM_HEADER_SIZE), 1) == [rom(Plus(p, 8))];
  }

  lemma BelowUnfolds()
    ensures Unfolds(SAMPLE, 0x78, BELOW)
    ensures forall parent :: HeaderInfo(SAMPLE, 0x78, BELOW.params, parent) == SAMPLE_TABLE[1].(parent := parent)
  {
    assert SAMPLE(0xA0) == 0x9_0000_0002 && SAMPLE(0xA8) == 0x77;
    OneWord(SAMPLE, 0xA0);
    assert UnfoldsParams(SAMPLE, 0x78, 0xA0, BELOW.params);
  }

  lemma BranchUnfolds()
    ensures UnfoldsBranch(SAMPLE, 0, 0x38, SubLevel(BELOW))
  {
    BelowUnfolds();
    BlockWords();
    hide SAMPLE, Unfolds;
  }

  lemma LastBlocksUnfold()
    ensures UnfoldsParams(SAMPLE, 0, 0x38, SAMPLE_TREE.params.rest)
    ensures Stored(SAMPLE, SAMPLE_TREE.params.rest) == [Parameter(1, 0xC, [0x78]), ZERO_PARAMETER]
  {
    BranchUnfolds();
    BlockWords();
    OneWord(SAMPLE, 0x38);
    hide SAMPLE, ParameterAt, UnfoldsBranch;
    assert UnfoldsParams(SAMPLE, 0, 0x48, Stop);
  }

  lemma PlainBlock(rom: Rom, owner: Word, p: Word, rest: Params)
    requires !IsLastParamBlock(rom(p)) && ParamId(rom(p)) != BRANCH_PARAM_ID && rest.Block?
    requires UnfoldsParams(rom, owner, NextBlockAddr(rom, p), rest)
    ensures UnfoldsParams(rom, owner, p, Block(p, Plain, rest))
    ensures Stored(rom, Block(p, Plain, rest)) == [ParameterAt(rom, p)] + Stored(rom, rest)
  {
    hide Plus, ParameterAt, IsLastParamBlock, NextBlockAddr, ParamId;
    assert UnfoldsBranch(rom, owner, p, Plain);
  }

  lemma BlocksUnfold()
    ensures UnfoldsParams(SAMPLE, 0, 0x28, SAMPLE_TREE.params)
    ensures Stored(SAMPLE, SAMPLE_TREE.params) == SAMPLE_TABLE[0].parameters
  {
    hide SAMPLE, ParameterAt, Unfolds, UnfoldsParams, Stored;
    LastBlocksUnfold();
    BlockWords();
    OneWord(SAMPLE, 0x28);
    PlainBlock(SAMPLE, 0, 0x28, SAMPLE_TREE.params.rest);
  }

  lemma BlockWords()
    ensures SAMPLE(0x28) == 0x10_0003_0007 && SAMPLE(0x30) == 0xABCD
    ensures SAMPLE(0x38) == 0x10_0001_000C && SAMPLE(0x40) == 0x78 && SAMPLE(0x48) == 0x1_0000_0000
  {
  }

  lemma SampleUnfolds()
    ensures Unfolds(SAMPLE, 0, SAMPLE_TREE)
    ensures HeaderInfo(SAMPLE, 0, SAMPLE_TREE.params, -1) == SAMPLE_TABLE[0]
  {
    AfterUnfolds();
    BlocksUnfold();
    hide UnfoldsParams, Stored;
  }

  lemma SampleListing()
    ensures Flatten(SAMPLE, SAMPLE_TREE, -1, 0, Running) == SAMPLE_TABLE
  {
    AfterUnfolds();
    BelowUnfolds();
    SampleUnfolds();
    hide HeaderInfo, SAMPLE;
    assert Flatten(SAMPLE, AFTER, -1, 2, Running) == [SAMPLE_TABLE[2]];
    assert Flatten(SAMPLE, BELOW, 0, 1, Running) == [SAMPLE_TABLE[1]];
    assert Size(BELOW) == 1 && SAMPLE_TREE.params.branch.Plain?;
    assert FlattenParams(SAMPLE, SAMPLE_TREE.params, 0, 1, Running) == [SAMPLE_TABLE[1]];
  }

  method ScanSample() returns (w: Walker)
    ensures fresh(w) && w.Valid() && w.table.Contents() == SAMPLE_TABLE && w.scannedCount == 3
  {
    hide Flatten, Unfolds;
    SampleUnfolds();
    SampleListing();
    w := new Walker(SAMPLE);
    var status := w.ScanMultiInterfaces(0, SAMPLE_TREE);
    assert Nest(BELOW) == 0 && Nest(AFTER) == 0;
  }
}
