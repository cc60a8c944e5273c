/** What a scan enumerates: every way of following links from the entry header,
    once each, in the order of the ways. */
module DflPaths {
  import opened Words
  import opened DflCodec
  import opened DflTree
  import opened DflListing
  import opened Options

  // From a header: into the level that its block number k branches to, or along to
  // the next header of its level.
  datatype Step = Down(k: nat) | Along

  // ----- following links in the ROM -----

  // Block number k of the list at p, if the list has so many.
  function NthBlock(rom: Rom, p: Word, k: nat): Option<Word>
    decreases k
  {
    if IsNullBlock(rom(p)) then None
    else if k == 0 then Some(p)
    else if IsLastParamBlock(rom(p)) then None
    else NthBlock(rom, NextBlockAddr(rom, p), k - 1)
  }

  // The header a path leads to, if the links it takes are there.
  function Follow(rom: Rom, at: Word, path: seq<Step>): Option<Word>
    decreases |path|
  {
    if path == [] then Some(at)
    else
      match path[0]
      case Along => if IsEol(DfhStart(rom, at)) then None else Follow(rom, NextHeaderAddr(rom, at), path[1..])
      case Down(k) =>
        if !HasParams(CsrGroupSize(rom, at)) then None
        else
          match NthBlock(rom, FirstParamHeaderAddr(at), k)
          case None => None
          case Some(p) =>
            if ParamId(rom(p)) != 0xC then None else Follow(rom, BranchTargetAt(rom, at, p), path[1..])
  }

  // ----- the order of paths -----

  predicate StepBefore(s: Step, t: Step) {
    s.Down? && (t.Along? || s.k < t.k)
  }

  // A path comes before its continuations; branches come in order, and before the
  // next header.
  predicate Before(q: seq<Step>, r: seq<Step>)
    decreases |q|
  {
    r != [] && (q == [] || (if q[0] == r[0] then Before(q[1..], r[1..]) else StepBefore(q[0], r[0])))
  }

  lemma {:induction false} BeforeIrreflexive(q: seq<Step>)
    ensures !Before(q, q)
    decreases |q|
  {
    if q != [] {
      BeforeIrreflexive(q[1..]);
    }
  }

  // ----- the headers of a tree with the paths to them -----

  datatype Visit = Visit(path: seq<Step>, at: Word)

  function Prefix(s: Step, vs: seq<Visit>): (ws: seq<Visit>)
    ensures |ws| == |vs|
    ensures forall i :: 0 <= i < |vs| ==> ws[i] == Visit([s] + vs[i].path, vs[i].at)
  {
    seq(|vs|, i requires 0 <= i < |vs| => Visit([s] + vs[i].path, vs[i].at))
  }

  function Visits(l: Level): (vs: seq<Visit>)
    ensures |vs| == Size(l)
    decreases l
  {
    [Visit([], l.at)] + VisitsParams(l.params, 0) + VisitsTail(l.next)
  }

  // k is the number of the first block.
  function VisitsParams(ps: Params, k: nat): (vs: seq<Visit>)
    ensures |vs| == SizeParams(ps)
    decreases ps
  {
    if ps.Stop? then [] else VisitsBranch(ps.branch, k) + VisitsParams(ps.rest, k + 1)
  }

  function VisitsBranch(b: Branch, k: nat): (vs: seq<Visit>)
    ensures |vs| == SizeBranch(b)
    decreases b
  {
    if b.Plain? then [] else Prefix(Down(k), Visits(b.level))
  }

  function VisitsTail(t: Tail): (vs: seq<Visit>)
    ensures |vs| == SizeTail(t)
    decreases t
  {
    if t.EndOfLevel? then [] else Prefix(Along, Visits(t.level))
  }

  // ----- the order -----

  ghost predicate Sorted(vs: seq<Visit>) {
    forall i, j :: 0 <= i < j < |vs| ==> Before(vs[i].path, vs[j].path)
  }

  // All of vs go down first, by block k or a later one.
  ghost predicate GoDown(vs: seq<Visit>, k: nat) {
    forall i :: 0 <= i < |vs| ==> vs[i].path != [] && vs[i].path[0].Down? && vs[i].path[0].k >= k
  }

  lemma SortedConcat(vs: seq<Visit>, ws: seq<Visit>)
    requires Sorted(vs) && Sorted(ws)
    requires forall i, j :: 0 <= i < |vs| && 0 <= j < |ws| ==> Before(vs[i].path, ws[j].path)
    ensures Sorted(vs + ws)
  {
    hide Before;
  }

  lemma SortedPrefix(s: Step, vs: seq<Visit>)
    requires Sorted(vs)
    ensures Sorted(Prefix(s, vs))
  {
    forall i, j | 0 <= i < j < |vs|
      ensures Before([s] + vs[i].path, [s] + vs[j].path)
    {
      assert ([s] + vs[i].path)[1..] == vs[i].path && ([s] + vs[j].path)[1..] == vs[j].path;
    }
  }

  lemma {:induction false} VisitsSorted(l: Level)
    ensures Sorted(Visits(l))
    decreases l
  {
    var head, below, along := [Visit([], l.at)], VisitsParams(l.params, 0), VisitsTail(l.next);
    VisitsParamsSorted(l.params, 0);
    if l.next.NextHeader? {
      VisitsSorted(l.next.level);
      SortedPrefix(Along, Visits(l.next.level));
    }
    SortedConcat(head, below);
    SortedConcat(head + below, along);
  }

  lemma {:induction false} VisitsParamsSorted(ps: Params, k: nat)
    ensures Sorted(VisitsParams(ps, k)) && GoDown(VisitsParams(ps, k), k)
    decreases ps
  {
    if ps.Block? {
      if ps.branch.SubLevel? {
        VisitsSorted(ps.branch.level);
        SortedPrefix(Down(k), Visits(ps.branch.level));
      }
      VisitsParamsSorted(ps.rest, k + 1);
      hide Visits, VisitsParams;
      SortedConcat(VisitsBranch(ps.branch, k), VisitsParams(ps.rest, k + 1));
    }
  }

  // ----- each visit is a path of the ROM -----

  lemma {:induction false} VisitsLead(rom: Rom, at: Word, l: Level, v: Visit)
    requires Unfolds(rom, at, l) && v in Visits(l)
    ensures Follow(rom, at, v.path) == Some(v.at)
    decreases l
  {
    hide Plus, IsEol, HasParams, DfhStart, CsrGroupSize, NextHeaderAddr, FirstParamHeaderAddr, NthBlock,
         UnfoldsParams, VisitsParams, ParamId, BranchTargetAt;
    if v != Visit([], l.at) {
      if v in VisitsParams(l.params, 0) {
        var k, u := ParamVisitLeads(rom, at, FirstParamHeaderAddr(at), l.params, 0, v);
      } else {
        var u := Unprefix(Along, Visits(l.next.level), v);
        VisitsLead(rom, NextHeaderAddr(rom, at), l.next.level, u);
      }
    }
  }

  lemma Unprefix(s: Step, vs: seq<Visit>, v: Visit) returns (u: Visit)
    requires v in Prefix(s, vs)
    ensures u in vs && v == Visit([s] + u.path, u.at) && v.path[1..] == u.path
  {
    var i :| 0 <= i < |vs| && Prefix(s, vs)[i] == v;
    u := vs[i];
  }

  lemma {:induction false} ParamVisitLeads(rom: Rom, owner: Word, p: Word, ps: Params, from: nat, v: Visit)
    returns (k: nat, u: Visit)
    requires UnfoldsParams(rom, owner, p, ps) && v in VisitsParams(ps, from)
    ensures v == Visit([Down(from + k)] + u.path, u.at) && v.path[1..] == u.path
    ensures NthBlock(rom, p, k).Some?
    ensures var q := NthBlock(rom, p, k).value;
            ParamId(rom(q)) == 0xC && Follow(rom, BranchTargetAt(rom, owner, q), u.path) == Some(u.at)
    decreases ps
  {
    hide Plus, IsNullBlock, IsLastParamBlock, ParamId, NextBlockAddr, BranchTargetAt, Follow, Unfolds;
    if v in VisitsBranch(ps.branch, from) {
      k := 0;
      u := Unprefix(Down(from), Visits(ps.branch.level), v);
      VisitsLead(rom, BranchTargetAt(rom, owner, p), ps.branch.level, u);
    } else {
      k, u := ParamVisitLeads(rom, owner, NextBlockAddr(rom, p), ps.rest, from + 1, v);
      k := k + 1;
    }
  }

  // ----- and each path is visited -----

  lemma {:induction false} PathVisited(rom: Rom, at: Word, l: Level, path: seq<Step>)
    requires Unfolds(rom, at, l) && Follow(rom, at, path).Some?
    ensures Visit(path, Follow(rom, at, path).value) in Visits(l)
    decreases l
  {
    var v := Visit(path, Follow(rom, at, path).value);
    if path == [] {
      assert v == Visits(l)[0];
    } else if path[0].Along? {
      PathVisited(rom, NextHeaderAddr(rom, at), l.next.level, path[1..]);
      Prefixed(Along, Visits(l.next.level), path, v.at);
    } else {
      ParamPathVisited(rom, at, FirstParamHeaderAddr(at), l.params, 0, path[0].k, path);
    }
  }

  lemma Prefixed(s: Step, vs: seq<Visit>, path: seq<Step>, at: Word)
    requires path != [] && path[0] == s && Visit(path[1..], at) in vs
    ensures Visit(path, at) in Prefix(s, vs)
  {
    var i :| 0 <= i < |vs| && vs[i] == Visit(path[1..], at);
    assert [s] + path[1..] == path;
    assert Prefix(s, vs)[i] == Visit(path, at);
  }

  lemma {:induction false} ParamPathVisited(rom: Rom, owner: Word, p: Word, ps: Params, from: nat, k: nat,
                                            path: seq<Step>)
    requires UnfoldsParams(rom, owner, p, ps) && NthBlock(rom, p, k).Some?
    requires path != [] && path[0] == Down(from + k) && ParamId(rom(NthBlock(rom, p, k).value)) == 0xC
    requires Follow(rom, BranchTargetAt(rom, owner, NthBlock(rom, p, k).value), path[1..]).Some?
    ensures Visit(path, Follow(rom, BranchTargetAt(rom, owner, NthBlock(rom, p, k).value), path[1..]).value)
            in VisitsParams(ps, from)
    decreases ps
  {
    hide Plus, IsNullBlock, IsLastParamBlock, ParamId, NextBlockAddr, BranchTargetAt, Follow, Unfolds;
    if k == 0 {
      var target := BranchTargetAt(rom, owner, p);
      PathVisited(rom, target, ps.branch.level, path[1..]);
      Prefixed(Down(from), Visits(ps.branch.level), path, Follow(rom, target, path[1..]).value);
    } else {
      ParamPathVisited(rom, owner, NextBlockAddr(rom, p), ps.rest, from + 1, k - 1, path);
    }
  }

  // ----- the listing follows the visits -----

  // The parameter list of the header at an address; ParamsUnique says there is one.
  ghost predicate ListsAt(rom: Rom, at: Word, ps: Params) {
    if HasParams(CsrGroupSize(rom, at)) then UnfoldsParams(rom, at, FirstParamHeaderAddr(at), ps) else ps.Stop?
  }

  // Everything in the entry but its parent is read from the header at an address.
  ghost predicate ReadFrom(rom: Rom, e: Info, at: Word) {
    exists ps :: ListsAt(rom, at, ps) && e == HeaderInfo(rom, at, ps, e.parent)
  }

  ghost predicate AllReadFrom(rom: Rom, t: seq<Info>, vs: seq<Visit>) {
    |t| == |vs| && forall i :: 0 <= i < |t| ==> ReadFrom(rom, t[i], vs[i].at)
  }

  lemma ReadConcat(rom: Rom, t: seq<Info>, s: seq<Info>, vs: seq<Visit>, ws: seq<Visit>)
    requires AllReadFrom(rom, t, vs) && AllReadFrom(rom, s, ws)
    ensures AllReadFrom(rom, t + s, vs + ws)
  {
    hide ReadFrom;
  }

  lemma ReadPrefix(rom: Rom, t: seq<Info>, s: Step, vs: seq<Visit>)
    requires AllReadFrom(rom, t, vs)
    ensures AllReadFrom(rom, t, Prefix(s, vs))
  {
    hide ReadFrom;
  }

  lemma HeadReadFrom(rom: Rom, at: Word, l: Level, parent: int)
    requires Unfolds(rom, at, l)
    ensures AllReadFrom(rom, [HeaderInfo(rom, l.at, l.params, parent)], [Visit([], l.at)])
  {
    hide UnfoldsParams, HasParams, HeaderInfo;
    assert ListsAt(rom, at, l.params);
  }

  lemma {:induction false} ListingFollowsVisits(rom: Rom, at: Word, l: Level, parent: int, next: int, mode: Numbering)
    requires Unfolds(rom, at, l)
    ensures AllReadFrom(rom, Flatten(rom, l, parent, next, mode), Visits(l))
    decreases l
  {
    hide HeaderInfo, FlattenParams, VisitsParams, AllReadFrom, SizeParams, Size, UnfoldsParams, HasParams, IsEol,
         NextHeaderAddr, FirstParamHeaderAddr, DfhStart, CsrGroupSize;
    var head, mid := [HeaderInfo(rom, l.at, l.params, parent)], FlattenParams(rom, l.params, next, next + 1, mode);
    HeadReadFrom(rom, at, l, parent);
    NothingFollows(rom, next, mode);
    if HasParams(CsrGroupSize(rom, at)) {
      ParamsListingFollowsVisits(rom, at, FirstParamHeaderAddr(at), l.params, next, next + 1, mode, 0);
    }
    ReadConcat(rom, head, mid, [Visit([], l.at)], VisitsParams(l.params, 0));
    if l.next.NextHeader? {
      ListingFollowsVisits(rom, NextHeaderAddr(rom, at), l.next.level, parent, next + 1 + SizeParams(l.params), mode);
      ReadPrefix(rom, Flatten(rom, l.next.level, parent, next + 1 + SizeParams(l.params), mode), Along,
          Visits(l.next.level));
    }
    ReadConcat(rom, head + mid, FlattenTail(rom, l.next, parent, next + 1 + SizeParams(l.params), mode),
               [Visit([], l.at)] + VisitsParams(l.params, 0), VisitsTail(l.next));
  }

  lemma NothingFollows(rom: Rom, next: int, mode: Numbering)
    ensures AllReadFrom(rom, [], [])
    ensures FlattenParams(rom, Stop, next, next + 1, mode) == [] && VisitsParams(Stop, 0) == []
  {
  }

  lemma {:induction false} ParamsListingFollowsVisits(rom: Rom, at: Word, p: Word, ps: Params, owner: int, next: int,
                                                      mode: Numbering, k: nat)
    requires UnfoldsParams(rom, at, p, ps)
    ensures AllReadFrom(rom, FlattenParams(rom, ps, owner, next, mode), VisitsParams(ps, k))
    decreases ps
  {
    hide HeaderInfo, Flatten, Visits, AllReadFrom, Unfolds, IsNullBlock, IsLastParamBlock, ParamId, NextBlockAddr,
         BranchTargetAt;
    NothingFollows(rom, next - 1, mode);
    if ps.Block? {
      var rest := next + SizeBranch(ps.branch);
      assert UnfoldsBranch(rom, at, p, ps.branch);
      if ps.branch.SubLevel? {
        var parent := if mode == Running then next - 1 else owner;
        ListingFollowsVisits(rom, BranchTargetAt(rom, at, p), ps.branch.level, parent, next, mode);
        ReadPrefix(rom, Flatten(rom, ps.branch.level, parent, next, mode), Down(k), Visits(ps.branch.level));
      }
      if !IsLastParamBlock(rom(p)) {
        ParamsListingFollowsVisits(rom, at, NextBlockAddr(rom, p), ps.rest, owner, rest, mode, k + 1);
      }
      ReadConcat(rom, FlattenBranch(rom, ps.branch, owner, next, mode), FlattenParams(rom, ps.rest, owner, rest, mode),
                 VisitsBranch(ps.branch, k), VisitsParams(ps.rest, k + 1));
    }
  }

  // A scan lists, in the order of paths, the header that each path of links from the
  // entry leads to: as many entries as there are paths, so that a level reached in
  // several ways is listed once for each.
  lemma ScanEnumeratesPaths(rom: Rom, at: Word, l: Level, mode: Numbering)
    requires Unfolds(rom, at, l)
    ensures Sorted(Visits(l)) && |Visits(l)| == Size(l)
    ensures forall path :: Follow(rom, at, path).Some? <==> exists v :: v in Visits(l) && v.path == path
    ensures forall v :: v in Visits(l) ==> Follow(rom, at, v.path) == Some(v.at)
    ensures AllReadFrom(rom, Flatten(rom, l, -1, 0, mode), Visits(l))
  {
    hide Unfolds, Follow, Visits, Sorted, Flatten, AllReadFrom;
    VisitsSorted(l);
    ListingFollowsVisits(rom, at, l, -1, 0, mode);
    forall v | v in Visits(l)
      ensures Follow(rom, at, v.path) == Some(v.at)
    {
      VisitsLead(rom, at, l, v);
    }
    forall path | Follow(rom, at, path).Some?
      ensures exists v :: v in Visits(l) && v.path == path
    {
      PathVisited(rom, at, l, path);
      assert Visit(path, Follow(rom, at, path).value).path == path;
    }
  }

  // ----- parents -----

  // The path to the first header of the list that a path ends in.
  function FirstOf(path: seq<Step>): seq<Step>
    decreases |path|
  {
    if path == [] then []
    else if path[|path| - 1].Along? then FirstOf(path[..|path| - 1])
    else path
  }

  lemma {:induction false} FirstOfCons(s: Step, path: seq<Step>)
    ensures FirstOf([s] + path)
         == if FirstOf(path) != [] then [s] + FirstOf(path) else if s.Down? then [s] else []
    decreases |path|
  {
    var whole := [s] + path;
    if path == [] {
      assert whole == [s] && whole[..0] == [];
    } else if path[|path| - 1].Along? {
      FirstOfCons(s, path[..|path| - 1]);
      assert whole[..|whole| - 1] == [s] + path[..|path| - 1];
    }
  }

  // Entry i carries the index of the first member of its own list less one; the first
  // members of the outermost list carry the given parent.
  ghost predicate ParentFollows(t: seq<Info>, vs: seq<Visit>, i: nat, parent: int, next: int)
    requires i < |t| == |vs|
  {
    if FirstOf(vs[i].path) == [] then t[i].parent == parent
    else exists j :: 0 <= j < |vs| && vs[j].path == FirstOf(vs[i].path) && t[i].parent == next + j - 1
  }

  ghost predicate ParentsFollow(t: seq<Info>, vs: seq<Visit>, parent: int, next: int) {
    |t| == |vs| && forall i :: 0 <= i < |t| ==> ParentFollows(t, vs, i, parent, next)
  }

  lemma ParentsConcat(t: seq<Info>, s: seq<Info>, vs: seq<Visit>, ws: seq<Visit>, parent: int, next: int)
    requires ParentsFollow(t, vs, parent, next) && ParentsFollow(s, ws, parent, next + |t|)
    ensures ParentsFollow(t + s, vs + ws, parent, next)
  {
    hide FirstOf;
    forall i | 0 <= i < |t + s|
      ensures ParentFollows(t + s, vs + ws, i, parent, next)
    {
      if i < |t| {
        assert ParentFollows(t, vs, i, parent, next);
        if FirstOf(vs[i].path) != [] {
          var j :| 0 <= j < |vs| && vs[j].path == FirstOf(vs[i].path) && t[i].parent == next + j - 1;
          assert (vs + ws)[j] == vs[j];
        }
      } else {
        var k := i - |t|;
        assert ParentFollows(s, ws, k, parent, next + |t|);
        if FirstOf(ws[k].path) != [] {
          var j :| 0 <= j < |ws| && ws[j].path == FirstOf(ws[k].path) && s[k].parent == next + |t| + j - 1;
          assert (vs + ws)[|t| + j] == ws[j];
        }
      }
    }
  }

  // A list entered by a branch carries the index before its own first one; a list
  // continued keeps the parent it has.
  lemma ParentsPrefix(t: seq<Info>, s: Step, vs: seq<Visit>, parent: int, next: int, outer: int)
    requires ParentsFollow(t, vs, parent, next) && vs != [] && vs[0].path == []
    requires if s.Down? then parent == next - 1 else parent == outer
    ensures ParentsFollow(t, Prefix(s, vs), outer, next)
  {
    hide FirstOf;
    var ws := Prefix(s, vs);
    forall i | 0 <= i < |t|
      ensures ParentFollows(t, ws, i, outer, next)
    {
      FirstOfCons(s, vs[i].path);
      assert ParentFollows(t, vs, i, parent, next);
      if FirstOf(vs[i].path) != [] {
        var j :| 0 <= j < |vs| && vs[j].path == FirstOf(vs[i].path) && t[i].parent == next + j - 1;
        assert ws[j].path == FirstOf(ws[i].path);
      } else if s.Down? {
        assert ws[0].path == [s];
      }
    }
  }

  lemma {:induction false} ListingParents(rom: Rom, l: Level, parent: int, next: int)
    ensures ParentsFollow(Flatten(rom, l, parent, next, Running), Visits(l), parent, next)
    decreases l
  {
    hide HeaderInfo, FlattenParams, VisitsParams, SizeParams, Size, ParentsFollow, Prefix;
    var head, below := [HeaderInfo(rom, l.at, l.params, parent)], FlattenParams(rom, l.params, next, next + 1, Running);
    var after := next + 1 + SizeParams(l.params);
    HeadParent(rom, l, parent, next);
    BlocksParents(rom, l.params, next, next + 1, 0, parent);
    ParentsConcat(head, below, [Visit([], l.at)], VisitsParams(l.params, 0), parent, next);
    if l.next.NextHeader? {
      ListingParents(rom, l.next.level, parent, after);
      ParentsPrefix(Flatten(rom, l.next.level, parent, after, Running), Along, Visits(l.next.level), parent, after,
          parent);
    } else {
      NoParents(parent, after);
    }
    ParentsConcat(head + below, FlattenTail(rom, l.next, parent, after, Running),
                  [Visit([], l.at)] + VisitsParams(l.params, 0), VisitsTail(l.next), parent, next);
  }

  lemma HeadParent(rom: Rom, l: Level, parent: int, next: int)
    ensures ParentsFollow([HeaderInfo(rom, l.at, l.params, parent)], [Visit([], l.at)], parent, next)
  {
    hide HeaderInfo;
  }

  lemma NoParents(parent: int, next: int)
    ensures ParentsFollow([], [], parent, next)
  {
  }

  lemma {:induction false} BlocksParents(rom: Rom, ps: Params, owner: int, next: int, k: nat, outer: int)
    ensures ParentsFollow(FlattenParams(rom, ps, owner, next, Running), VisitsParams(ps, k), outer, next)
    decreases ps
  {
    hide Flatten, ParentsFollow, Prefix;
    NoParents(outer, next);
    if ps.Block? {
      if ps.branch.SubLevel? {
        ListingParents(rom, ps.branch.level, next - 1, next);
        ParentsPrefix(Flatten(rom, ps.branch.level, next - 1, next, Running), Down(k), Visits(ps.branch.level),
                      next - 1, next, outer);
      }
      var rest := next + SizeBranch(ps.branch);
      BlocksParents(rom, ps.rest, owner, rest, k + 1, outer);
      ParentsConcat(FlattenBranch(rom, ps.branch, owner, next, Running),
          FlattenParams(rom, ps.rest, owner, rest, Running),
                    VisitsBranch(ps.branch, k), VisitsParams(ps.rest, k + 1), outer, next);
    }
  }

  // In a whole scan every entry carries the index of the first member of its own list
  // less one: -1 in the root list, and for a branched list the index visited last.
  lemma ScanParents(rom: Rom, l: Level, i: nat)
    requires i < Size(l)
    ensures exists j :: 0 <= j < Size(l) && Visits(l)[j].path == FirstOf(Visits(l)[i].path)
                        && Flatten(rom, l, -1, 0, Running)[i].parent == j - 1
  {
    ListingParents(rom, l, -1, 0);
    assert ParentFollows(Flatten(rom, l, -1, 0, Running), Visits(l), i, -1, 0);
    assert Visits(l)[0].path == [];
    hide Visits, Flatten, FirstOf;
  }
}
