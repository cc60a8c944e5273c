/** Images on which the walker does not do what is promised of it. */
module DflWitnesses {
  import opened Words
  import opened DflCodec
  import opened DflTree
  import opened DflListing
  import opened DflParents
  import opened DflImage
  import opened DflRoundTrip
  import opened DflWalker

  const NO_MISC := Misc(0, 0, 0, 0, 0, 0, 0)

  function Plainly(area: Area): Feature {
    Feature(NO_MISC, 0, 0, 0, 0, RelativeCsr(0), area)
  }

  // ----- branches nested too deeply -----

  // One feature under another, n branches deep.
  function Chain(n: nat): Dfl {
    Dfl(Plainly(if n == 0 then NoArea else Area(Final(BranchTo(0, false, [], Chain(n - 1))))), NoMore)
  }

  lemma {:induction false} ChainShape(n: nat)
    ensures Printable(Chain(n)) && ShortSteps(Chain(n)) && ImageLen(Chain(n)) == 7 * n + 5
    decreases n
  {
    if n > 0 {
      ChainShape(n - 1);
    }
  }

  lemma {:induction false} ChainNest(n: nat, at: Word)
    ensures Nest(Place(Chain(n), at)) == n
    decreases n
  {
    if n > 0 {
      hide Plus, Place, Chain, Nest;
      ChainPlace(n, at);
      NestOne(at, FirstParamHeaderAddr(at), Place(Chain(n - 1), Plus(at, 56)));
      ChainNest(n - 1, Plus(at, 56));
    } else {
      assert Place(Chain(0), at) == Level(at, Stop, EndOfLevel);
    }
  }

  lemma NestOne(at: Word, p: Word, sub: Level)
    ensures Nest(Level(at, Block(p, SubLevel(sub), Stop), EndOfLevel)) == 1 + Nest(sub)
  {
    assert NestParams(Block(p, SubLevel(sub), Stop)) == Max(NestBranch(SubLevel(sub)), NestParams(Stop));
  }

  lemma ChainPlace(n: nat, at: Word)
    requires n > 0
    ensures Place(Chain(n), at)
         == Level(at, Block(FirstParamHeaderAddr(at), SubLevel(Place(Chain(n - 1), Plus(at, 56))), Stop), EndOfLevel)
  {
    hide Plus, FirstParamHeaderAddr;
    var b := BranchTo(0, false, [], Chain(n - 1));
    var bs := Final(b);
    assert BlocksLen(bs) == 2;
    assert PlaceBranch(b, at, 7) == SubLevel(Place(Chain(n - 1), Plus(at, 56)));
    assert PlaceBlocks(bs, FirstParamHeaderAddr(at), at, 7)
        == Block(FirstParamHeaderAddr(at), PlaceBranch(b, at, 7), Stop);
    assert Chain(n).feature.area == Area(bs) && Chain(n).rest.NoMore?;
  }

  // A chain has an image that unfolds to it.
  lemma ChainUnfolds(n: nat)
    requires 7 * n + 5 <= TWO_64 / 8
    ensures var rom := RomOf(0, Image(Chain(n), 0)); Unfolds(rom, 0, Place(Chain(n), 0))
    ensures 1 + Nest(Place(Chain(n), 0)) == n + 1
  {
    hide RomOf, Image, Place, Unfolds, Laid, Matches, Nest;
    ChainShape(n);
    ChainNest(n, 0);
    var rom := RomOf(0, Image(Chain(n), 0));
    RomOfHolds(0, Image(Chain(n), 0));
    CompactLaid(rom, Chain(n), 0);
    ParsePrint(rom, Chain(n), Place(Chain(n), 0));
  }

  // Six nested branches are scanned; a seventh makes the scan store outside the
  // allocation of the parent stack.
  method ScanChain(n: nat) returns (status: Status)
    requires 7 * n + 5 <= TWO_64 / 8
    ensures status == if n <= 6 then Done else OutOfBounds
  {
    hide RomOf, Image, Place, Unfolds, Nest, Flatten;
    ChainUnfolds(n);
    var w := new Walker(RomOf(0, Image(Chain(n), 0)));
    status := w.ScanMultiInterfaces(0, Place(Chain(n), 0));
  }

  method SevenNestedBranches() returns (status: Status)
    ensures status == OutOfBounds
  {
    status := ScanChain(7);
  }

  // ----- two branches of one header -----

  const LEAF := Dfl(Plainly(NoArea), NoMore)
  const FIRST := BranchTo(0, true, [], LEAF)
  const SECOND := BranchTo(0, false, [], LEAF)

  // A header whose two branches, one absolute and one relative, lead to one level.
  const FORK := Dfl(Plainly(Area(Then(FIRST, Final(SECOND)))), NoMore)

  const SHARED := Level(72, Stop, EndOfLevel)
  const FORK_TREE := Level(0, Block(40, SubLevel(SHARED), Block(56, SubLevel(SHARED), Stop)), EndOfLevel)

  const FORK_HEADER := HeaderWords(FORK.feature, true, 0)
  const FORK_BLOCKS := BlockWords(FIRST, false, 0, 72) + BlockWords(SECOND, true, 0, 72)
  const FORK_ROM := RomOf(0, FORK_HEADER + FORK_BLOCKS + HeaderWords(LEAF.feature, true, 0))

  const FORK_SCANNED := Flatten(FORK_ROM, FORK_TREE, -1, 0, Running)
  const FORK_PROMISED := Listing(FORK, FORK_TREE, -1, 0)

  lemma ForkHeld()
    ensures Holds(FORK_ROM, 0, FORK_HEADER)
    ensures Holds(FORK_ROM, 40, BlockWords(FIRST, false, 0, 72)) && Holds(FORK_ROM, 56, BlockWords(SECOND, true, 0, 72))
    ensures Holds(FORK_ROM, 72, HeaderWords(LEAF.feature, true, 0))
  {
    hide RomOf, Holds, HeaderWords, BlockWords;
    var leaf := HeaderWords(LEAF.feature, true, 0);
    RomOfHolds(0, FORK_HEADER + FORK_BLOCKS + leaf);
    HoldsConcat(FORK_ROM, 0, FORK_HEADER + FORK_BLOCKS, leaf);
    HoldsConcat(FORK_ROM, 0, FORK_HEADER, FORK_BLOCKS);
    HoldsConcat(FORK_ROM, 40, BlockWords(FIRST, false, 0, 72), BlockWords(SECOND, true, 0, 72));
  }

  lemma ForkLaid()
    ensures Printable(FORK) && Matches(FORK, FORK_TREE) && Laid(FORK_ROM, FORK, FORK_TREE)
  {
    ForkHeld();
    hide Holds, HeaderWords, BlockWords, RomOf;
    assert Laid(FORK_ROM, LEAF, SHARED);
    assert LaidBlock(FORK_ROM, FIRST, false, 0, 40, SubLevel(SHARED));
    assert LaidBlock(FORK_ROM, SECOND, true, 0, 56, SubLevel(SHARED));
    assert FirstParamHeaderAddr(0) == 40 && Plus(40, 8 * (1 + DataLen(FIRST))) == 56;
  }

  // The shared header is listed twice. Entry 0 owns both branches, but the second
  // listing carries parent 1, the entry visited last under the first branch.
  lemma ForkMisnumbered()
    ensures Unfolds(FORK_ROM, 0, FORK_TREE) && !AtMostOneBranch(FORK_TREE)
    ensures |FORK_SCANNED| == 3 == |FORK_PROMISED|
    ensures FORK_SCANNED[1].parent == 0 == FORK_PROMISED[1].parent
    ensures FORK_SCANNED[2].parent == 1 && FORK_PROMISED[2].parent == 0
    ensures FORK_SCANNED[1].base == FORK_SCANNED[2].base == 72
  {
    hide RomOf, Unfolds, Listing, Laid, Matches, Flatten, SubLevelsHaveOneBranch, HeaderInfo, Printable;
    ForkLaid();
    ParsePrint(FORK_ROM, FORK, FORK_TREE);
    LaidListing(FORK_ROM, FORK, FORK_TREE, -1, 0);
    ForkFlattens(Running);
    ForkFlattens(Owner);
    ForkBases();
    assert BranchCount(FORK_TREE.params) == 2;
  }

  lemma ForkFlattens(mode: Numbering)
    ensures Flatten(FORK_ROM, FORK_TREE, -1, 0, mode)
         == [HeaderInfo(FORK_ROM, 0, FORK_TREE.params, -1), HeaderInfo(FORK_ROM, 72, Stop, 0),
             HeaderInfo(FORK_ROM, 72, Stop, if mode == Running then 1 else 0)]
  {
    hide HeaderInfo, RomOf;
    assert forall parent, next ::
        Flatten(FORK_ROM, SHARED, parent, next, mode) == [HeaderInfo(FORK_ROM, 72, Stop, parent)];
    assert Size(SHARED) == 1;
    assert FlattenParams(FORK_ROM, FORK_TREE.params.rest, 0, 2, mode)
        == [HeaderInfo(FORK_ROM, 72, Stop, if mode == Running then 1 else 0)];
  }

  lemma ForkBases()
    ensures HeaderInfo(FORK_ROM, 72, Stop, 0).base == 72 == HeaderInfo(FORK_ROM, 72, Stop, 1).base
  {
    ForkHeld();
    HeaderRead(FORK_ROM, LEAF.feature, true, 0, 72);
    hide RomOf, Holds, HeaderWords, BaseAddress;
  }
}
