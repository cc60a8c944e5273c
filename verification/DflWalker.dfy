/** The two-pass walk of intel_fpga_api_cmn_dfl.c over its mutable state: the scan
    counter, the running index, the parent stack and the interface table. */
module DflWalker {
  import opened Words
  import opened DflCodec
  import opened DflTree
  import opened DflListing
  import opened ParentStack
  import opened InterfaceTable

  // OutOfBounds: a store outside the stack's allocation was reached.
  datatype Status = Done | OutOfBounds

  class Walker {
    const rom: Rom
    const stack: DfhParentStack
    const table: InterfaceInfoVec
    var scannedCount: int
    var interfaceIndex: int

    ghost predicate Valid()
      reads this, stack, table
    {
      stack.Valid() && table.Valid() && table.Settled() && table.Tidy()
    }

    // The entries up to interfaceIndex are t, and the rest of the table is zero.
    ghost predicate Collected(t: seq<Info>)
      reads this, table
    {
      && table.Shaped()
      && interfaceIndex + 1 == |t| <= table.size
      && table.Contents()[..|t|] == t
      && forall k :: |t| <= k < table.size ==> table.Slots()[k] == ZERO_ENTRY
    }

    constructor (rom: Rom)
      ensures Valid() && fresh(stack) && fresh(table) && this.rom == rom
      ensures stack.Live() == [] && table.Contents() == [] && table.live == {}
    {
      this.rom := rom;
      stack := new DfhParentStack();
      table := new InterfaceInfoVec();
      scannedCount, interfaceIndex := 0, 0;
    }

    // The same counter, index, stack and table with another image in view.
    constructor Facing(w: Walker, rom: Rom)
      ensures this.rom == rom && stack == w.stack && table == w.table
      ensures scannedCount == w.scannedCount && interfaceIndex == w.interfaceIndex
    {
      this.rom := rom;
      stack, table := w.stack, w.table;
      scannedCount, interfaceIndex := w.scannedCount, w.interfaceIndex;
    }

    // ----- filling one entry -----

    // Element j of entry i holds the given words, and nothing else differs from before.
    ghost predicate Copied(before: seq<Entry>, i: nat, j: nat, words: seq<Word>)
      reads table
    {
      && table.Valid() && i < table.size && |table.Slots()| == |before|
      && j < |ParamsOf(before[i])| && ParamsOf(before[i])[j].data.At?
      && table.Slots() == before[i := WithParam(before[i], j, WithWords(ParamsOf(before[i])[j], words))]
    }

    method StoreWord(i: nat, j: nat, m: nat, w: Word, ghost before: seq<Entry>, ghost words: seq<Word>)
      requires Copied(before, i, j, words) && m < |words|
      modifies table
      ensures Copied(before, i, j, words[m := w]) && table.size == old(table.size)
    {
      hide InterfaceInfoVec.Accounted, EntryValid;
      var cur := ParamsOf(table.Slots()[i])[j];
      table.PutParam(i, j, WithWords(cur, cur.data.value[m := w]));
      UpdateTwice(before, i, j, cur, WithWords(cur, cur.data.value[m := w]));
    }

    lemma NothingCopied(i: nat, j: nat)
      requires table.Valid() && i < table.size && j < |ParamsOf(table.Slots()[i])|
      requires ParamsOf(table.Slots()[i])[j].data.At?
      ensures Copied(table.Slots(), i, j, ParamsOf(table.Slots()[i])[j].data.value)
    {
      SameParam(table.Slots(), i, j);
    }

    method ParamDataCopy(i: nat, j: nat, from: Word)
      requires table.Valid() && i < table.size && j < |ParamsOf(table.Slots()[i])|
      requires var p := ParamsOf(table.Slots()[i])[j]; p.data.At? && p.dataSize == 8 * |p.data.value|
      modifies table
      ensures table.size == old(table.size)
      ensures Copied(old(table.Slots()), i, j, WordsAt(rom, from, old(ParamsOf(table.Slots()[i])[j].dataSize) / 8))
    {
      ghost var before, original: seq<Word> := table.Slots(), ParamsOf(table.Slots()[i])[j].data.value;
      NothingCopied(i, j);
      PlusZero(from);
      var count := ParamsOf(table.Slots()[i])[j].dataSize / 8;
      hide Copied, Plus;
      var m, at := 0, from;
      ghost var words: seq<Word> := original;
      while m < count
        invariant 0 <= m <= count == |original| && at == Plus(from, 8 * m)
        invariant Copied(before, i, j, words) && table.size == old(table.size)
        invariant words == WordsAt(rom, from, m) + original[m..]
      {
        var word: Word := rom(at);
        StoreWord(i, j, m, word, before, words);
        words := words[m := word];
        PlusPlus(from, 8 * m, 8);
        m, at := m + 1, Plus(at, 8);
      }
      assert words == WordsAt(rom, from, count);
    }

    // Version, id and data of the block at p into element j.
    method FillBlock(i: nat, j: nat, p: Word) returns (halted: bool)
      requires table.Valid() && i < table.size && j < |ParamsOf(table.Slots()[i])|
      requires !ParamsOf(table.Slots()[i])[j].data.At?
      modifies table
      ensures !halted && table.Valid() && table.size == old(table.size)
      ensures 0 <= i < |table.Slots()| && j < |ParamsOf(table.Slots()[i])|
      ensures var q := ParamsOf(table.Slots()[i])[j];
              && table.Slots() == old(table.Slots())[i := WithParam(old(table.Slots()[i]), j, q)]
              && ViewParam(q) == ParameterAt(rom, p) && ParamSettled(q)
    {
      assert i < |table.Slots()|;
      hide Plus, ParamVersion, ParamId, ParamDataSize, InterfaceInfoVec.Accounted, InterfaceInfoVec.Shaped;
      ghost var slots, e := table.Slots(), table.Slots()[i];
      var paramHeader := rom(p);
      var q := ParamsOf(table.Slots()[i])[j];
      q := q.(version := ParamVersion(paramHeader));
      table.PutParam(i, j, q);
      q := q.(id := ParamId(paramHeader));
      table.PutParam(i, j, q);
      UpdateTwice(slots, i, j, old(ParamsOf(table.Slots()[i])[j]).(version := ParamVersion(paramHeader)), q);
      var size := ParamDataSize(paramHeader);
      ParamDataSizeBounds(paramHeader);
      halted := table.ParamDataAllocate(i, j, size);
      if !halted {
        q := ParamsOf(table.Slots()[i])[j];
        UpdateTwice(slots, i, j, old(ParamsOf(table.Slots()[i])[j]).(version := q.version, id := q.id), q);
        ParamDataCopy(i, j, Plus(p, PARAM_HEADER_SIZE));
        UpdateTwice(slots, i, j, q, WithWords(q, WordsAt(rom, Plus(p, PARAM_HEADER_SIZE), size / 8)));
      }
    }

    // Entry i's array holds exactly the blocks in done; the table is otherwise before.
    ghost predicate Closed(before: seq<Entry>, i: nat, done: seq<Parameter>)
      reads table
    {
      && table.Valid() && i < table.size
      && OnlyParams(before, table.Slots(), i) && Full(table.Slots()[i], done)
    }

    // The same with room for a next block, unless none is stored yet.
    ghost predicate Open(before: seq<Entry>, i: nat, done: seq<Parameter>)
      reads table
    {
      && table.Valid() && i < table.size
      && OnlyParams(before, table.Slots(), i) && Filling(table.Slots()[i], done)
    }

    // The loop body of SetParameterProperties up to the next-block step.
    method StoreBlock(i: nat, k: nat, p: Word, ghost before: seq<Entry>, ghost done: seq<Parameter>)
      returns (halted: bool)
      requires Open(before, i, done) && k == |done|
      modifies table
      ensures !halted && table.size == old(table.size)
      ensures Closed(before, i, done + [ParameterAt(rom, p)])
    {
      hide InterfaceInfoVec.Accounted, ParameterAt, ParamSettled, ViewParam, Full, EntryValid;
      if k == 0 {
        table.ParamBlockInit(i);
      } else {
        FillingReady(table.Slots()[i], done);
      }
      ghost var e := table.Slots()[i];
      halted := FillBlock(i, k, p);
      ReadyFull(e, done, ParamsOf(table.Slots()[i])[k]);
    }

    method AdvanceBlock(i: nat, k: nat, ghost before: seq<Entry>, ghost done: seq<Parameter>)
      requires Closed(before, i, done) && k == |done| > 0
      modifies table
      ensures Open(before, i, done) && table.size == old(table.size)
    {
      hide InterfaceInfoVec.Accounted, ParamSettled, ViewParam, EntryValid;
      ZeroParamSettled();
      var halted := table.ParamBlockResize(i, k + 1);
    }

    // One iteration: store the block at p and, unless it is the last, make room.
    method StoreStep(i: nat, k: nat, p: Word, ghost before: seq<Entry>, ghost done: seq<Parameter>)
      returns (halted: bool, last: bool)
      requires Open(before, i, done) && k == |done|
      modifies table
      ensures !halted && table.size == old(table.size) && last == IsLastParamBlock(rom(p))
      ensures var stored := done + [ParameterAt(rom, p)];
              if last then Stores(before, i, stored) else Open(before, i, stored)
    {
      hide IsLastParamBlock, ParameterAt, Open, Closed, Stores;
      halted := StoreBlock(i, k, p, before, done);
      last := IsLastParamBlock(rom(p));
      if last {
        ClosedStops(before, i, done + [ParameterAt(rom, p)]);
      } else {
        AdvanceBlock(i, k + 1, before, done + [ParameterAt(rom, p)]);
      }
    }

    // Entry i's parameter array, from the list of the header at dfhAddr.
    method SetParameterProperties(i: nat, dfhAddr: Word, ghost ps: Params) returns (halted: bool)
      requires table.Valid() && i < table.size
      requires table.Slots()[i].params.Null? && table.Slots()[i].numParams == 0
      requires if HasParams(CsrGroupSize(rom, dfhAddr)) then
               UnfoldsParams(rom, dfhAddr, FirstParamHeaderAddr(dfhAddr), ps)
               else ps.Stop?
      modifies table
      ensures !halted && table.size == old(table.size)
      ensures Stores(old(table.Slots()), i, Stored(rom, ps))
    {
      hide Plus, CsrGroupSize, UnfoldsParams, Open, Closed, View, EntrySettled;
      ghost var before := table.Slots();
      OpenStart(before, i);
      halted := false;
      if HasParams(CsrGroupSize(rom, dfhAddr)) {
        halted := StoreParams(i, dfhAddr, FirstParamHeaderAddr(dfhAddr), before, ps);
      } else {
        OpenStops(before, i, []);
      }
    }

    method StoreParams(i: nat, dfhAddr: Word, first: Word, ghost before: seq<Entry>, ghost ps: Params)
      returns (halted: bool)
      requires Open(before, i, []) && UnfoldsParams(rom, dfhAddr, first, ps)
      modifies table
      ensures !halted && table.size == old(table.size)
      ensures Stores(before, i, Stored(rom, ps))
    {
      hide NextBlockAddr, IsLastParamBlock, IsNullBlock, ParameterAt, Stored, StoredTail, UnfoldsParams, Open, Closed,
           Stores;
      var k, p := 0, first;
      var paramHeader := rom(p);
      ghost var rest, done, pending := ps, [], Stored(rom, ps);
      StoredStep(rom, dfhAddr, p, rest);
      while !IsNullBlock(paramHeader)
        invariant paramHeader == rom(p) && UnfoldsParams(rom, dfhAddr, p, rest)
        invariant Open(before, i, done) && k == |done| && table.size == old(table.size)
        invariant Stored(rom, ps) == done + pending
        invariant pending == if k == 0 then Stored(rom, rest) else StoredTail(rom, rest)
        decreases rest
      {
        StoredStep(rom, dfhAddr, p, rest);
        var last;
        halted, last := StoreStep(i, k, p, before, done);
        done, pending := done + [ParameterAt(rom, p)], StoredTail(rom, rest.rest);
        if last {
          return;
        }
        rest := rest.rest;
        p, k := NextBlockAddr(rom, p), k + 1;
        paramHeader := rom(p);
      }
      StoredStep(rom, dfhAddr, p, rest);
      OpenStops(before, i, done);
      halted := false;
    }

    // Entry i has received the parameters and nothing else has changed.
    ghost predicate Stores(before: seq<Entry>, i: nat, params: seq<Parameter>)
      reads table
    {
      && table.Valid() && i < table.size && OnlyParams(before, table.Slots(), i)
      && EntrySettled(table.Slots()[i]) && View(table.Slots()[i]).parameters == params
    }

    lemma OpenStart(before: seq<Entry>, i: nat)
      requires table.Valid() && i < table.size && before == table.Slots()
      requires before[i].params.Null? && before[i].numParams == 0
      ensures Open(before, i, [])
    {
    }

    lemma OpenStops(before: seq<Entry>, i: nat, done: seq<Parameter>)
      requires Open(before, i, done)
      ensures Stores(before, i, if done == [] then [] else done + [ZERO_PARAMETER])
    {
      FillingStops(table.Slots()[i], done);
    }

    lemma ClosedStops(before: seq<Entry>, i: nat, done: seq<Parameter>)
      requires Closed(before, i, done)
      ensures Stores(before, i, done)
    {
    }

    // Fills the zero entry i for the header at dfhAddr; the parent is the marker on
    // top of the stack.
    method SetInterfaceProperties(i: nat, dfhAddr: Word, ghost ps: Params) returns (halted: bool)
      requires Valid() && stack.Live() != [] && i < table.size && table.Slots()[i] == ZERO_ENTRY
      requires if HasParams(CsrGroupSize(rom, dfhAddr)) then
               UnfoldsParams(rom, dfhAddr, FirstParamHeaderAddr(dfhAddr), ps)
               else ps.Stop?
      modifies table
      ensures !halted && table.Valid() && table.Settled() && table.size == old(table.size)
      ensures 0 <= i < |table.Slots()| && table.Slots() == old(table.Slots())[i := table.Slots()[i]]
      ensures View(table.Slots()[i]) == HeaderInfo(rom, dfhAddr, ps, stack.Live()[|stack.Live()| - 1])
    {
      hide Plus, InstanceId, GroupId, BaseAddress, HasParams, UnfoldsParams, Stored, EntrySettled,
           InterfaceInfoVec.Accounted;
      table.Put(i, table.Slots()[i].(base := BaseAddress(rom(Plus(dfhAddr, CSR_ADDRESS_OFFSET)), dfhAddr), dfl := true,
                                     guidH := rom(Plus(dfhAddr, GUID_H_OFFSET)),
                                     guidL := rom(Plus(dfhAddr, GUID_L_OFFSET)),
                                     instance := InstanceId(CsrGroupSize(rom, dfhAddr)),
                                     group := GroupId(CsrGroupSize(rom, dfhAddr)),
                                     parent := stack.Peek(), mmioOpened := false, interruptOpened := false));
      halted := SetParameterProperties(i, dfhAddr, ps);
    }

    // ----- the walk -----

    // The state of a pass: how far it has come, and the markers on the stack.
    ghost predicate At(g: Progress, marks: seq<int>)
      reads this, stack, table
    {
      && Valid() && stack.Live() == marks
      && table.size == g.size
      && match g
         case Counting(count, index, slots, _) =>
           scannedCount == count && interfaceIndex == index && table.Slots() == slots
         case Collecting(t, count, _) => scannedCount == count && Collected(t)
    }

    // Counts or records one header.
    method VisitHeader(dfhAddr: Word, collect: bool, ghost ps: Params, ghost g: Progress, ghost marks: seq<int>)
      returns (halted: bool)
      requires At(g, marks) && marks != [] && g.Collecting? == collect && Fits(g, 1)
      requires if HasParams(CsrGroupSize(rom, dfhAddr)) then
               UnfoldsParams(rom, dfhAddr, FirstParamHeaderAddr(dfhAddr), ps)
               else ps.Stop?
      modifies this, table
      ensures !halted
      ensures At(After(g, [HeaderInfo(rom, dfhAddr, ps, marks[|marks| - 1])]), marks)
    {
      hide Plus, HasParams, UnfoldsParams, HeaderInfo, InterfaceInfoVec.Accounted, EntryValid, EntrySettled, View;
      halted := false;
      if !collect {
        scannedCount := scannedCount + 1;
      } else {
        interfaceIndex := interfaceIndex + 1;
        ghost var before := table.Slots();
        halted := SetInterfaceProperties(interfaceIndex, dfhAddr, ps);
        CollectedExtends(g.t, before);
      }
    }

    lemma CollectedExtends(t: seq<Info>, before: seq<Entry>)
      requires table.Shaped() && |t| < table.size && interfaceIndex == |t|
      requires |before| == |table.Slots()| && table.Slots() == before[|t| := table.Slots()[|t|]]
      requires forall k :: 0 <= k < |t| ==> View(before[k]) == t[k]
      requires forall k :: |t| <= k < table.size ==> before[k] == ZERO_ENTRY
      ensures Collected(t + [View(table.Slots()[|t|])])
    {
    }

    // Counts or records the header at dfhAddr, follows its branches, then the rest
    // of its level; the end of the level drops the level's marker. Both passes append
    // the same listing: one its length to the counter, the other its entries.
    method DealWithInterface(dfhAddr: Word, collect: bool, ghost l: Level, ghost g: Progress, ghost marks: seq<int>)
      returns (status: Status)
      requires At(g, marks) && marks != [] && g.Collecting? == collect && Fits(g, Size(l))
      requires Unfolds(rom, dfhAddr, l)
      modifies this, stack, table
      ensures status == if |marks| + Nest(l) <= CAPACITY then Done else OutOfBounds
      ensures status == Done ==>
                At(After(g, Flatten(rom, l, marks[|marks| - 1], Next(g), Running)), marks[..|marks| - 1])
      decreases Weight(l), 0
    {
      MarksBounded(g, marks);
      ghost var parent := marks[|marks| - 1];
      LevelParts(rom, l, parent, g);
      hide NextHeaderAddr, HasParams, HeaderInfo, At, IsEol, UnfoldsParams, After, Next, Fits;
      hide Flatten, FlattenParams, FlattenTail, Nest, NestParams, NestTail, Weight, WeightParams;
      ghost var g1 := After(g, [HeaderInfo(rom, dfhAddr, l.params, parent)]);
      ghost var g2 := After(g1, FlattenParams(rom, l.params, Next(g), Next(g1), Running));
      TailParts(rom, l, parent, g1);
      TailParts(rom, l, parent, g2);
      var halted := VisitHeader(dfhAddr, collect, l.params, g, marks);
      assert !halted;
      status := Done;
      if HasParams(CsrGroupSize(rom, dfhAddr)) {
        status := ProcessParamList(dfhAddr, FirstParamHeaderAddr(dfhAddr), collect, l.params, Next(g), g1, marks);
        if status != Done {
          return;
        }
      }
      if !IsEol(DfhStart(rom, dfhAddr)) {
        status := DealWithInterface(NextHeaderAddr(rom, dfhAddr), collect, l.next.level, g2, marks);
      } else {
        halted := PopMarker(g2, marks);
        assert !halted;
      }
    }

    method PopMarker(ghost g: Progress, ghost marks: seq<int>) returns (halted: bool)
      requires At(g, marks) && marks != []
      modifies stack
      ensures !halted && At(g, marks[..|marks| - 1])
    {
      hide InterfaceInfoVec.Accounted, InterfaceInfoVec.Settled;
      halted := stack.Pop();
    }

    // Follows the branches of one parameter list, in order.
    method ProcessParamList(dfhAddr: Word, first: Word, collect: bool, ghost ps: Params, ghost owner: int,
                            ghost g: Progress, ghost marks: seq<int>)
      returns (status: Status)
      requires At(g, marks) && g.Collecting? == collect && Fits(g, SizeParams(ps))
      requires UnfoldsParams(rom, dfhAddr, first, ps)
      modifies this, stack, table
      ensures status == if |marks| + NestParams(ps) <= CAPACITY then Done else OutOfBounds
      ensures status == Done ==> At(After(g, FlattenParams(rom, ps, owner, Next(g), Running)), marks)
      decreases WeightParams(ps), 3
    {
      MarksBounded(g, marks);
      hide IsLastParamBlock, IsNullBlock, NextBlockAddr, ParamId, At, UnfoldsParams, UnfoldsBranch;
      hide FlattenParams, FlattenBranch, After, Next, Fits, NestParams, NestBranch, WeightParams;
      status := Done;
      var p := first;
      var paramHeader := rom(p);
      ghost var rest, now := ps, g;
      while !IsNullBlock(paramHeader)
        invariant paramHeader == rom(p) && UnfoldsParams(rom, dfhAddr, p, rest)
        invariant At(now, marks) && now.Collecting? == collect && Fits(now, SizeParams(rest))
        invariant After(g, FlattenParams(rom, ps, owner, Next(g), Running))
               == After(now, FlattenParams(rom, rest, owner, Next(now), Running))
        invariant |marks| + NestParams(ps) <= CAPACITY <==> |marks| + NestParams(rest) <= CAPACITY
        invariant WeightParams(rest) <= WeightParams(ps) && status == Done
        decreases WeightParams(rest)
      {
        UnfoldsStep(rom, dfhAddr, p, rest);
        BlockParts(rom, rest, owner, now);
        status := HandleWellKnownParamId(dfhAddr, p, ParamId(paramHeader), collect, rest.branch, owner, now, marks);
        if status != Done {
          return;
        }
        now := After(now, FlattenBranch(rom, rest.branch, owner, Next(now), Running));
        rest := rest.rest;
        if IsLastParamBlock(paramHeader) {
          break;
        }
        p := NextBlockAddr(rom, p);
        paramHeader := rom(p);
      }
      if IsNullBlock(paramHeader) {
        UnfoldsStep(rom, dfhAddr, p, rest);
      }
      StopParts(rom, owner, now);
    }

    lemma MarksBounded(g: Progress, marks: seq<int>)
      requires At(g, marks)
      ensures |marks| <= CAPACITY
      ensures g.Collecting? ==> interfaceIndex == Next(g) - 1
    {
    }

    // Any other id is ignored.
    method HandleWellKnownParamId(dfhAddr: Word, p: Word, paramId: Half, collect: bool, ghost b: Branch,
                                  ghost owner: int, ghost g: Progress, ghost marks: seq<int>)
      returns (status: Status)
      requires At(g, marks) && g.Collecting? == collect && Fits(g, SizeBranch(b))
      requires UnfoldsBranch(rom, dfhAddr, p, b) && paramId == ParamId(rom(p))
      modifies this, stack, table
      ensures status == if |marks| + NestBranch(b) <= CAPACITY then Done else OutOfBounds
      ensures status == Done ==> At(After(g, FlattenBranch(rom, b, owner, Next(g), Running)), marks)
      decreases WeightBranch(b), 2
    {
      MarksBounded(g, marks);
      hide ParamId, BranchTargetAt, Unfolds, At, Flatten;
      if paramId == BRANCH_PARAM_ID {
        status := HandleBranchParamId(dfhAddr, p, collect, b.level, g, marks);
      } else {
        AfterNothing(g);
        status := Done;
      }
    }

    // The marker pushed is the running index, whichever pass this is.
    method HandleBranchParamId(dfhAddr: Word, p: Word, collect: bool, ghost l: Level, ghost g: Progress,
                               ghost marks: seq<int>)
      returns (status: Status)
      requires At(g, marks) && g.Collecting? == collect && Fits(g, Size(l))
      requires Unfolds(rom, BranchTargetAt(rom, dfhAddr, p), l)
      modifies this, stack, table
      ensures status == if |marks| + 1 + Nest(l) <= CAPACITY then Done else OutOfBounds
      ensures status == Done ==> At(After(g, Flatten(rom, l, Next(g) - 1, Next(g), Running)), marks)
      decreases Weight(l), 1
    {
      MarksBounded(g, marks);
      hide BranchTargetAt, Unfolds, At, Flatten, Fits, Next, After;
      ghost var index := interfaceIndex;
      SameCount(rom, l, index, Next(g) - 1, g);
      var inBounds := PushMarker(interfaceIndex, g, marks);
      if !inBounds {
        return OutOfBounds;
      }
      status := DealWithInterface(BranchTargetAt(rom, dfhAddr, p), collect, l, g, marks + [index]);
      assert (marks + [index])[..|marks|] == marks;
    }

    method PushMarker(data: int, ghost g: Progress, ghost marks: seq<int>) returns (inBounds: bool)
      requires At(g, marks)
      modifies stack
      ensures inBounds <==> |marks| < CAPACITY
      ensures inBounds ==> At(g, marks + [data])
    {
      hide InterfaceInfoVec.Accounted, InterfaceInfoVec.Settled;
      inBounds := stack.Push(data);
    }

    // While counting, the parent of a level makes no difference.
    lemma SameCount(rom: Rom, l: Level, index: int, parent: int, g: Progress)
      requires g.Collecting? ==> index == parent
      ensures After(g, Flatten(rom, l, index, Next(g), Running)) == After(g, Flatten(rom, l, parent, Next(g), Running))
    {
    }

    // ----- the two passes -----

    method ScanTheNumInterfaces(firstDfhAddr: Word, ghost root: Level, ghost g: Progress) returns (status: Status)
      requires At(g, []) && g.Counting? && Unfolds(rom, firstDfhAddr, root)
      modifies this, stack, table
      ensures status == if 1 + Nest(root) <= CAPACITY then Done else OutOfBounds
      ensures status == Done ==> At(After(g, Flatten(rom, root, -1, Next(g), Running)), [])
    {
      hide At, Unfolds, Flatten, After, Next;
      var inBounds := PushMarker(-1, g, []);
      assert [] + [-1] == [-1] && [-1][..0] == [];
      status := DealWithInterface(firstDfhAddr, false, root, g, [-1]);
    }

    method DflCollectInterfacesInfo(firstDfhAddr: Word, ghost root: Level, ghost g: Progress) returns (status: Status)
      requires At(g, []) && g.Collecting? && g.t == [] && g.size == Size(root) && Unfolds(rom, firstDfhAddr, root)
      modifies this, stack, table
      ensures status == if 1 + Nest(root) <= CAPACITY then Done else OutOfBounds
      ensures status == Done ==> At(After(g, Flatten(rom, root, -1, Next(g), Running)), [])
    {
      hide At, Unfolds, Flatten, After, Next;
      var inBounds := PushMarker(-1, g, []);
      assert [] + [-1] == [-1] && [-1][..0] == [];
      ResizeToSame(g, [-1]);
      status := DealWithInterface(firstDfhAddr, true, root, g, [-1]);
    }

    // Resizing the table to its own size keeps it.
    method ResizeToSame(ghost g: Progress, ghost marks: seq<int>)
      requires At(g, marks) && g.Collecting? && g.t == []
      modifies table
      ensures At(g, marks)
    {
      hide InterfaceInfoVec.Accounted, EntryValid, EntrySettled, View;
      table.Resize(table.size);
    }

    // Whatever was scanned, opened or registered before, the table afterwards is the
    // listing of the ROM from the entry address, and nothing else is left allocated.
    // The scan stays inside the parent stack's allocation exactly when at most
    // CAPACITY lists are nested.
    method ScanMultiInterfaces(firstDfhAddr: Word, ghost root: Level) returns (status: Status)
      requires Valid() && stack.Live() == [] && Unfolds(rom, firstDfhAddr, root)
      modifies this, stack, table
      ensures status == if 1 + Nest(root) <= CAPACITY then Done else OutOfBounds
      ensures status == Done ==>
                && Valid() && stack.Live() == [] && stack.head == []
                && scannedCount == Size(root)
                && table.Contents() == Flatten(rom, root, -1, 0, Running)
    {
      hide At, Unfolds, Flatten, InterfaceInfoVec.Accounted, EntryValid, EntrySettled, View;
      scannedCount := 0;
      table.Resize(scannedCount);
      ghost var g := Counting(0, interfaceIndex, table.Slots(), 0);
      CountingStarts(g);
      status := ScanTheNumInterfaces(firstDfhAddr, root, g);
      if status == Done {
        CountingEnds(After(g, Flatten(rom, root, -1, Next(g), Running)));
        table.Resize(scannedCount);
        interfaceIndex := -1;
        g := Collecting([], scannedCount, table.size);
        CollectingStarts(g);
        status := DflCollectInterfacesInfo(firstDfhAddr, root, g);
        if status == Done {
          CollectingEnds(After(g, Flatten(rom, root, -1, Next(g), Running)));
          var halted := stack.Resize(0);
        }
      }
    }

    lemma CountingStarts(g: Progress)
      requires Valid() && stack.Live() == []
      requires g == Counting(scannedCount, interfaceIndex, table.Slots(), table.size)
      ensures At(g, [])
    {
    }

    lemma CountingEnds(g: Progress)
      requires At(g, []) && g.Counting?
      ensures Valid() && stack.Live() == [] && scannedCount == g.count && table.size == g.size
    {
    }

    lemma CollectingStarts(g: Progress)
      requires Valid() && stack.Live() == [] && interfaceIndex == -1
      requires g == Collecting([], scannedCount, table.size)
      requires forall k :: 0 <= k < table.size ==> table.Slots()[k] == ZERO_ENTRY
      ensures At(g, [])
    {
    }

    lemma CollectingEnds(g: Progress)
      requires At(g, []) && g.Collecting? && |g.t| == g.size
      ensures Valid() && stack.Live() == [] && scannedCount == g.count && table.Contents() == g.t
    {
      assert table.Contents()[..|g.t|] == table.Contents();
    }

    // The table part of fpga_platform_cleanup: every block is given back.
    method Cleanup()
      requires Valid()
      modifies table
      ensures Valid() && table.Contents() == [] && table.live == {}
    {
      if table.size > 0 {
        table.Resize(0);
      }
    }
  }

  // How far a pass has come. The counting pass keeps the index and the table as they
  // are; the collecting pass has filled the entries t.
  datatype Progress =
    | Counting(count: int, index: int, slots: seq<Entry>, size: nat)
    | Collecting(t: seq<Info>, count: int, size: nat)

  ghost function Next(g: Progress): int {
    match g
    case Counting(count, _, _, _) => count
    case Collecting(t, _, _) => |t|
  }

  ghost function After(g: Progress, part: seq<Info>): Progress {
    match g
    case Counting(count, index, slots, size) => Counting(count + |part|, index, slots, size)
    case Collecting(t, count, size) => Collecting(t + part, count, size)
  }

  // The table has room for n more entries.
  ghost predicate Fits(g: Progress, n: nat) {
    g.Collecting? ==> |g.t| + n <= g.size
  }

  // The listing of a level in the three parts it is walked in.
  lemma LevelParts(rom: Rom, l: Level, parent: int, g: Progress)
    requires Fits(g, Size(l))
    ensures var g1 := After(g, [HeaderInfo(rom, l.at, l.params, parent)]);
            var g2 := After(g1, FlattenParams(rom, l.params, Next(g), Next(g1), Running));
            && g1.Collecting? == g2.Collecting? == g.Collecting?
            && Fits(g, 1) && Fits(g1, SizeParams(l.params)) && Fits(g2, SizeTail(l.next))
            && After(g, Flatten(rom, l, parent, Next(g), Running))
               == After(g2, FlattenTail(rom, l.next, parent, Next(g2), Running))
  {
    hide HeaderInfo, FlattenParams, FlattenTail, After, Next, Fits;
    var head := [HeaderInfo(rom, l.at, l.params, parent)];
    var mid := FlattenParams(rom, l.params, Next(g), Next(g) + 1, Running);
    var tail := FlattenTail(rom, l.next, parent, Next(g) + 1 + |mid|, Running);
    AfterTwice(g, head, mid + tail);
    AfterTwice(After(g, head), mid, tail);
    assert head + mid + tail == head + (mid + tail);
  }

  // What is left after the parts: nothing, or a tail that is a level.
  lemma TailParts(rom: Rom, l: Level, parent: int, g: Progress)
    ensures Nest(l) == Max(NestParams(l.params), NestTail(l.next))
    ensures Weight(l) == 1 + WeightParams(l.params) + WeightTail(l.next)
    ensures l.params.Stop? ==>
              NestParams(l.params) == 0 && forall n, m :: After(g, FlattenParams(rom, l.params, n, m, Running)) == g
    ensures if l.next.EndOfLevel? then
              NestTail(l.next) == 0 && After(g, FlattenTail(rom, l.next, parent, Next(g), Running)) == g
            else
              && NestTail(l.next) == Nest(l.next.level) && WeightTail(l.next) == Weight(l.next.level)
              && SizeTail(l.next) == Size(l.next.level)
              && FlattenTail(rom, l.next, parent, Next(g), Running)
                  == Flatten(rom, l.next.level, parent, Next(g), Running)
  {
    AfterNothing(g);
  }

  // The listing of a non-empty parameter list in two parts.
  lemma BlockParts(rom: Rom, ps: Params, owner: int, g: Progress)
    requires ps.Block? && Fits(g, SizeParams(ps))
    ensures var g1 := After(g, FlattenBranch(rom, ps.branch, owner, Next(g), Running));
            && g1.Collecting? == g.Collecting?
            && Fits(g, SizeBranch(ps.branch)) && Fits(g1, SizeParams(ps.rest))
            && After(g, FlattenParams(rom, ps, owner, Next(g), Running))
               == After(g1, FlattenParams(rom, ps.rest, owner, Next(g1), Running))
    ensures NestParams(ps) == Max(NestBranch(ps.branch), NestParams(ps.rest))
    ensures WeightParams(ps) == 1 + WeightBranch(ps.branch) + WeightParams(ps.rest)
  {
    hide FlattenBranch, After, Next, Fits;
    AfterTwice(g, FlattenBranch(rom, ps.branch, owner, Next(g), Running),
               FlattenParams(rom, ps.rest, owner, Next(g) + SizeBranch(ps.branch), Running));
  }

  lemma StopParts(rom: Rom, owner: int, g: Progress)
    ensures After(g, FlattenParams(rom, Stop, owner, Next(g), Running)) == g && NestParams(Stop) == 0
  {
    AfterNothing(g);
  }

  // One step along a parameter list.
  lemma UnfoldsStep(rom: Rom, owner: Word, p: Word, ps: Params)
    requires UnfoldsParams(rom, owner, p, ps)
    ensures IsNullBlock(rom(p)) ==> ps.Stop?
    ensures !IsNullBlock(rom(p)) ==>
              && ps.Block? && UnfoldsBranch(rom, owner, p, ps.branch)
              && (if IsLastParamBlock(rom(p)) then ps.rest.Stop?
                  else UnfoldsParams(rom, owner, NextBlockAddr(rom, p), ps.rest))
  {
    hide Plus;
  }

  lemma AfterTwice(g: Progress, a: seq<Info>, b: seq<Info>)
    ensures After(After(g, a), b) == After(g, a + b) && Next(After(g, a)) == Next(g) + |a|
    ensures After(g, a).Collecting? == g.Collecting?
    ensures Fits(g, |a| + |b|) ==> Fits(g, |a|) && Fits(After(g, a), |b|)
  {
    if g.Collecting? {
      assert g.t + a + b == g.t + (a + b);
    }
  }

  lemma AfterNothing(g: Progress)
    ensures After(g, []) == g
  {
    if g.Collecting? {
      assert g.t + [] == g.t;
    }
  }

  // Nothing but the parameter array of entry i differs.
  ghost predicate OnlyParams(before: seq<Entry>, now: seq<Entry>, i: nat) {
    && i < |before| == |now|
    && now == before[i := before[i].(params := now[i].params, numParams := now[i].numParams)]
  }

  // The array holds the blocks in done, finished, and nothing else.
  ghost predicate Full(e: Entry, done: seq<Parameter>) {
    && e.params.At? && e.numParams == |e.params.value| == |done|
    && forall j :: 0 <= j < |done| ==> ParamSettled(e.params.value[j]) && ViewParam(e.params.value[j]) == done[j]
  }

  // The blocks in done are finished and, unless there is none, a cleared element
  // waits behind them.
  ghost predicate Filling(e: Entry, done: seq<Parameter>) {
    if done == [] then e.params.Null? && e.numParams == 0
    else Full(e, done + [ZERO_PARAMETER]) && e.params.value[|done|] == ZERO_PARAM_STRUCT
  }

  // The array holds the blocks in done and one more element to fill.
  ghost predicate Ready(e: Entry, done: seq<Parameter>) {
    && e.params.At? && e.numParams == |e.params.value| == |done| + 1 && !e.params.value[|done|].data.At?
    && forall j :: 0 <= j < |done| ==> ParamSettled(e.params.value[j]) && ViewParam(e.params.value[j]) == done[j]
  }

  lemma FillingReady(e: Entry, done: seq<Parameter>)
    requires Filling(e, done) && done != []
    ensures Ready(e, done)
  {
    assert forall j :: 0 <= j < |done| ==> (done + [ZERO_PARAMETER])[j] == done[j];
  }

  lemma ReadyFull(e: Entry, done: seq<Parameter>, q: ParamStruct)
    requires Ready(e, done) && ParamSettled(q)
    ensures Full(WithParam(e, |done|, q), done + [ViewParam(q)])
  {
  }

  // One step of the stored list; a non-final block is followed by another entry.
  lemma StoredStep(rom: Rom, owner: Word, p: Word, ps: Params)
    requires UnfoldsParams(rom, owner, p, ps)
    ensures IsNullBlock(rom(p)) ==> ps.Stop? && Stored(rom, ps) == [] && StoredTail(rom, ps) == [ZERO_PARAMETER]
    ensures !IsNullBlock(rom(p)) ==>
              && ps.Block? && StoredTail(rom, ps) == Stored(rom, ps)
              && (if IsLastParamBlock(rom(p)) then Stored(rom, ps) == [ParameterAt(rom, p)]
                  else
                    && Stored(rom, ps) == [ParameterAt(rom, p)] + StoredTail(rom, ps.rest)
                    && UnfoldsParams(rom, owner, NextBlockAddr(rom, p), ps.rest))
  {
    hide Plus, ParameterAt;
  }

  lemma FillingStops(e: Entry, done: seq<Parameter>)
    requires Filling(e, done)
    ensures View(e).parameters == if done == [] then [] else done + [ZERO_PARAMETER]
    ensures EntrySettled(e)
  {
  }

  lemma ZeroParamSettled()
    ensures ParamSettled(ZERO_PARAM_STRUCT) && ViewParam(ZERO_PARAM_STRUCT) == ZERO_PARAMETER
  {
  }

  // What is still to be stored after some block.
  ghost function StoredTail(rom: Rom, rest: Params): seq<Parameter> {
    if rest.Stop? then [ZERO_PARAMETER] else Stored(rom, rest)
  }

  lemma SameParam(slots: seq<Entry>, i: nat, j: nat)
    requires i < |slots| && j < |ParamsOf(slots[i])|
    ensures slots[i := WithParam(slots[i], j, ParamsOf(slots[i])[j])] == slots
  {
    assert slots[i].params.value[j := slots[i].params.value[j]] == slots[i].params.value;
  }

  lemma UpdateTwice(slots: seq<Entry>, i: nat, j: nat, p: ParamStruct, q: ParamStruct)
    requires i < |slots| && j < |ParamsOf(slots[i])|
    ensures var once := slots[i := WithParam(slots[i], j, p)];
            once[i := WithParam(once[i], j, q)] == slots[i := WithParam(slots[i], j, q)]
  {
    assert slots[i].params.value[j := p][j := q] == slots[i].params.value[j := q];
  }

  function WithWords(p: ParamStruct, words: seq<Word>): ParamStruct
    requires p.data.At?
  {
    p.(data := p.data.(value := words))
  }
}
