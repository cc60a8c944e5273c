/** The finite unfolding of a ROM: what the walker visits, as a tree.

    A level is a list of headers linked by next-header offsets. Each header may
    own a parameter list, and a parameter with the branch id opens a sub-level.
    The tree records addresses only; everything else is read from the ROM. */
module DflTree {
  import opened Words
  import opened DflCodec

  datatype Level = Level(at: Word, params: Params, next: Tail)
  datatype Tail = EndOfLevel | NextHeader(level: Level)
  datatype Params = Stop | Block(at: Word, branch: Branch, rest: Params)
  datatype Branch = Plain | SubLevel(level: Level)

  function DfhStart(rom: Rom, at: Word): Word {
    rom(Plus(at, DFH_START_OFFSET))
  }

  function CsrGroupSize(rom: Rom, at: Word): Word {
    rom(Plus(at, CSR_GROUP_SIZE_OFFSET))
  }

  function NextHeaderAddr(rom: Rom, at: Word): Word {
    NextDfhAddr(DfhStart(rom, at), at)
  }

  function NextBlockAddr(rom: Rom, p: Word): Word {
    Plus(p, NextParamByteOffset(rom(p)))
  }

  // The address a branch parameter at p leads to; relative to the owner's header.
  function BranchTargetAt(rom: Rom, owner: Word, p: Word): Word {
    BranchTarget(rom(Plus(p, PARAM_DATA_OFFSET)), owner)
  }

  // ----- the unfolding relation -----

  ghost predicate Unfolds(rom: Rom, at: Word, l: Level)
    decreases l
  {
    && l.at == at
    && (if HasParams(CsrGroupSize(rom, at))
        then UnfoldsParams(rom, at, FirstParamHeaderAddr(at), l.params)
        else l.params.Stop?)
    && (if IsEol(DfhStart(rom, at)) then l.next.EndOfLevel?
        else l.next.NextHeader? && Unfolds(rom, NextHeaderAddr(rom, at), l.next.level))
  }

  ghost predicate UnfoldsParams(rom: Rom, owner: Word, p: Word, ps: Params)
    decreases ps
  {
    if IsNullBlock(rom(p)) then ps.Stop?
    else
      && ps.Block? && ps.at == p
      && UnfoldsBranch(rom, owner, p, ps.branch)
      && (if IsLastParamBlock(rom(p)) then ps.rest.Stop?
          else UnfoldsParams(rom, owner, NextBlockAddr(rom, p), ps.rest))
  }

  ghost predicate UnfoldsBranch(rom: Rom, owner: Word, p: Word, b: Branch)
    decreases b
  {
    if ParamId(rom(p)) == BRANCH_PARAM_ID
    then b.SubLevel? && Unfolds(rom, BranchTargetAt(rom, owner, p), b.level)
    else b.Plain?
  }

  // The blocks that open a level are those whose lowest 16 bits are 0xC.
  lemma BranchIdOpensLevel(rom: Rom, owner: Word, p: Word, b: Branch)
    requires UnfoldsBranch(rom, owner, p, b)
    ensures b.SubLevel? <==> rom(p) % 0x1_0000 == 0xC
  {
  }

  lemma {:induction false} UnfoldingUnique(rom: Rom, at: Word, l: Level, m: Level)
    requires Unfolds(rom, at, l) && Unfolds(rom, at, m)
    ensures l == m
    decreases l
  {
    if l.params.Block? {
      ParamsUnique(rom, at, FirstParamHeaderAddr(at), l.params, m.params);
    }
    if l.next.NextHeader? {
      UnfoldingUnique(rom, NextHeaderAddr(rom, at), l.next.level, m.next.level);
    }
  }

  lemma {:induction false} ParamsUnique(rom: Rom, owner: Word, p: Word, ps: Params, qs: Params)
    requires UnfoldsParams(rom, owner, p, ps) && UnfoldsParams(rom, owner, p, qs)
    ensures ps == qs
    decreases ps
  {
    if ps.Block? {
      if ps.branch.SubLevel? {
        UnfoldingUnique(rom, BranchTargetAt(rom, owner, p), ps.branch.level, qs.branch.level);
      }
      if !IsLastParamBlock(rom(p)) {
        ParamsUnique(rom, owner, NextBlockAddr(rom, p), ps.rest, qs.rest);
      }
    }
  }

  // A non-final block of a finite parameter list advances: offset 0 would loop.
  lemma {:induction false} OffsetAdvances(rom: Rom, owner: Word, p: Word, ps: Params)
    requires UnfoldsParams(rom, owner, p, ps) && !IsLastParamBlock(rom(p))
    ensures NextParamByteOffset(rom(p)) >= PARAM_HEADER_SIZE
    decreases ps
  {
    if NextParamByteOffset(rom(p)) == 0 {
      OffsetAdvances(rom, owner, p, ps.rest);
    }
  }

  // ----- measures -----

  // Headers visited: a level reached by several branches counts once per path.
  function Size(l: Level): (n: nat)
    ensures n >= 1
    decreases l
  {
    1 + SizeParams(l.params) + SizeTail(l.next)
  }

  function SizeParams(ps: Params): nat
    decreases ps
  {
    if ps.Stop? then 0 else SizeBranch(ps.branch) + SizeParams(ps.rest)
  }

  function SizeBranch(b: Branch): nat
    decreases b
  {
    if b.Plain? then 0 else Size(b.level)
  }

  function SizeTail(t: Tail): nat
    decreases t
  {
    if t.EndOfLevel? then 0 else Size(t.level)
  }

  function Max(a: nat, b: nat): nat {
    if a >= b then a else b
  }

  // Greatest number of branches nested in one another.
  function Nest(l: Level): nat
    decreases l
  {
    Max(NestParams(l.params), NestTail(l.next))
  }

  function NestParams(ps: Params): nat
    decreases ps
  {
    if ps.Stop? then 0 else Max(NestBranch(ps.branch), NestParams(ps.rest))
  }

  function NestBranch(b: Branch): nat
    decreases b
  {
    if b.Plain? then 0 else 1 + Nest(b.level)
  }

  function NestTail(t: Tail): nat
    decreases t
  {
    if t.EndOfLevel? then 0 else Nest(t.level)
  }

  // All the nodes of the tree, headers and blocks.
  function Weight(l: Level): nat
    decreases l
  {
    1 + WeightParams(l.params) + WeightTail(l.next)
  }

  function WeightParams(ps: Params): nat
    decreases ps
  {
    if ps.Stop? then 0 else 1 + WeightBranch(ps.branch) + WeightParams(ps.rest)
  }

  function WeightBranch(b: Branch): nat
    decreases b
  {
    if b.Plain? then 0 else Weight(b.level)
  }

  function WeightTail(t: Tail): nat
    decreases t
  {
    if t.EndOfLevel? then 0 else Weight(t.level)
  }

  // ----- which ROMs have an unfolding -----

  // A place the walker can stand: a header, or a block of some header's parameters.
  datatype Node = Head(at: Word) | Param(owner: Word, p: Word)

  function Successors(rom: Rom, n: Node): set<Node> {
    match n
    case Head(at) =>
      (if HasParams(CsrGroupSize(rom, at)) then {Param(at, FirstParamHeaderAddr(at))} else {})
      + (if IsEol(DfhStart(rom, at)) then {} else {Head(NextHeaderAddr(rom, at))})
    case Param(owner, p) =>
      if IsNullBlock(rom(p)) then {}
      else
        (if ParamId(rom(p)) == BRANCH_PARAM_ID then {Head(BranchTargetAt(rom, owner, p))} else {})
        + (if IsLastParamBlock(rom(p)) then {} else {Param(owner, NextBlockAddr(rom, p))})
  }

  // A region closed under links on which every link lowers the rank. Addresses
  // themselves need not grow or shrink.
  ghost predicate Ranking(rom: Rom, region: iset<Node>, rank: Node -> nat) {
    forall n, m :: n in region && m in Successors(rom, n) ==> m in region && rank(m) < rank(n)
  }

  ghost predicate Terminates(rom: Rom, at: Word) {
    exists l :: Unfolds(rom, at, l)
  }

  lemma {:induction false} RankedLevel(rom: Rom, region: iset<Node>, rank: Node -> nat, at: Word) returns (l: Level)
    requires Ranking(rom, region, rank) && Head(at) in region
    ensures Unfolds(rom, at, l)
    decreases rank(Head(at))
  {
    var params, next := Stop, EndOfLevel;
    if HasParams(CsrGroupSize(rom, at)) {
      assert Param(at, FirstParamHeaderAddr(at)) in Successors(rom, Head(at));
      params := RankedParams(rom, region, rank, at, FirstParamHeaderAddr(at));
    }
    if !IsEol(DfhStart(rom, at)) {
      assert Head(NextHeaderAddr(rom, at)) in Successors(rom, Head(at));
      var rest := RankedLevel(rom, region, rank, NextHeaderAddr(rom, at));
      next := NextHeader(rest);
    }
    l := Level(at, params, next);
  }

  lemma {:induction false} RankedParams(rom: Rom, region: iset<Node>, rank: Node -> nat, owner: Word, p: Word)
    returns (ps: Params)
    requires Ranking(rom, region, rank) && Param(owner, p) in region
    ensures UnfoldsParams(rom, owner, p, ps)
    decreases rank(Param(owner, p))
  {
    ps := Stop;
    if !IsNullBlock(rom(p)) {
      var branch, rest := Plain, Stop;
      if ParamId(rom(p)) == BRANCH_PARAM_ID {
        assert Head(BranchTargetAt(rom, owner, p)) in Successors(rom, Param(owner, p));
        var sub := RankedLevel(rom, region, rank, BranchTargetAt(rom, owner, p));
        branch := SubLevel(sub);
      }
      if !IsLastParamBlock(rom(p)) {
        assert Param(owner, NextBlockAddr(rom, p)) in Successors(rom, Param(owner, p));
        rest := RankedParams(rom, region, rank, owner, NextBlockAddr(rom, p));
      }
      ps := Block(p, branch, rest);
    }
  }

  // The region and rank that an unfolding gives: the nodes that unfold, by weight.
  ghost predicate NodeUnfolds(rom: Rom, n: Node) {
    match n
    case Head(at) => exists l :: Unfolds(rom, at, l)
    case Param(owner, p) => exists ps :: UnfoldsParams(rom, owner, p, ps)
  }

  ghost function NodeWeight(rom: Rom, n: Node): nat {
    if !NodeUnfolds(rom, n) then 0
    else
      match n
      case Head(at) => var l :| Unfolds(rom, at, l); Weight(l)
      case Param(owner, p) => var ps :| UnfoldsParams(rom, owner, p, ps); WeightParams(ps)
  }

  lemma HeadWeight(rom: Rom, at: Word, l: Level)
    requires Unfolds(rom, at, l)
    ensures NodeUnfolds(rom, Head(at)) && NodeWeight(rom, Head(at)) == Weight(l)
  {
    var m :| Unfolds(rom, at, m) && NodeWeight(rom, Head(at)) == Weight(m);
    UnfoldingUnique(rom, at, l, m);
  }

  lemma ParamWeight(rom: Rom, owner: Word, p: Word, ps: Params)
    requires UnfoldsParams(rom, owner, p, ps)
    ensures NodeUnfolds(rom, Param(owner, p)) && NodeWeight(rom, Param(owner, p)) == WeightParams(ps)
  {
    var qs :| UnfoldsParams(rom, owner, p, qs) && NodeWeight(rom, Param(owner, p)) == WeightParams(qs);
    ParamsUnique(rom, owner, p, ps, qs);
  }

  lemma WeightFalls(rom: Rom, n: Node, m: Node)
    requires NodeUnfolds(rom, n) && m in Successors(rom, n)
    ensures NodeUnfolds(rom, m) && NodeWeight(rom, m) < NodeWeight(rom, n)
  {
    match n
    case Head(at) =>
      var l :| Unfolds(rom, at, l);
      HeadWeight(rom, at, l);
      if m.Param? {
        ParamWeight(rom, at, m.p, l.params);
      } else {
        HeadWeight(rom, m.at, l.next.level);
      }
    case Param(owner, p) =>
      var ps :| UnfoldsParams(rom, owner, p, ps);
      ParamWeight(rom, owner, p, ps);
      if m.Param? {
        ParamWeight(rom, owner, m.p, ps.rest);
      } else {
        assert UnfoldsBranch(rom, owner, p, ps.branch);
        HeadWeight(rom, m.at, ps.branch.level);
      }
  }

  // The walk from an address is finite exactly when the links reachable from it
  // can be ranked.
  lemma TerminatesIffRanked(rom: Rom, at: Word)
    ensures Terminates(rom, at)
            <==> exists region: iset<Node>, rank: Node -> nat :: Head(at) in region && Ranking(rom, region, rank)
  {
    if Terminates(rom, at) {
      var region := iset n | NodeUnfolds(rom, n);
      var rank: Node -> nat := n => NodeWeight(rom, n);
      forall n, m | n in region && m in Successors(rom, n)
        ensures m in region && rank(m) < rank(n)
      {
        WeightFalls(rom, n, m);
      }
      assert Head(at) in region && Ranking(rom, region, rank);
    }
    if region: iset<Node>, rank: Node -> nat :| Head(at) in region && Ranking(rom, region, rank) {
      var l := RankedLevel(rom, region, rank, at);
    }
  }

  // A header that is not marked as the last one and links to itself has no unfolding.
  lemma CyclicRomDoesNotTerminate(rom: Rom, at: Word)
    requires !IsEol(DfhStart(rom, at)) && NextHeaderAddr(rom, at) == at
    ensures !Terminates(rom, at)
  {
    if Terminates(rom, at) {
      WeightFalls(rom, Head(at), Head(at));
    }
  }
}
