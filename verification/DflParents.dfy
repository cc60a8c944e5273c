/** What dfh_parent means: the parent links of a listing form a preorder forest,
    and they name the owners of branches exactly when no header has two. */
module DflParents {
  import opened Words
  import opened DflTree
  import opened DflListing

  // a is k or is reached from entry k by following parents.
  ghost predicate Above(t: seq<Info>, a: int, k: int)
    decreases k
  {
    a == k || (0 <= k < |t| && t[k].parent < k && Above(t, a, t[k].parent))
  }

  // Parents precede children (-1 for a root), and each parent lies on the ancestor
  // chain of the entry just before: the parent array of a preorder traversal.
  ghost predicate Preorder(t: seq<Info>) {
    forall k :: 0 <= k < |t| ==> -1 <= t[k].parent < k && Above(t, t[k].parent, k - 1)
  }

  lemma {:induction false} AboveTransitive(t: seq<Info>, a: int, b: int, k: int)
    requires Above(t, a, b) && Above(t, b, k)
    ensures Above(t, a, k)
    decreases k
  {
    if b != k {
      AboveTransitive(t, a, b, t[k].parent);
    }
  }

  lemma {:induction false} AboveExtends(t: seq<Info>, s: seq<Info>, a: int, k: int)
    requires Above(t, a, k)
    ensures Above(t + s, a, k)
    decreases k
  {
    if a != k {
      AboveExtends(t, s, a, t[k].parent);
    }
  }

  // The entries at or below any entry a fill one contiguous index range.
  lemma {:induction false} SubtreesContiguous(t: seq<Info>, a: int, m: int, k: int)
    requires Preorder(t) && 0 <= a <= m <= k < |t| && Above(t, a, k)
    ensures Above(t, a, m)
    decreases k
  {
    if m < k {
      if a < k {
        AboveTransitive(t, a, t[k].parent, k - 1);
      }
      SubtreesContiguous(t, a, m, k - 1);
    }
  }

  // ----- every listing is a preorder forest -----

  lemma {:induction false} LevelPreorder(rom: Rom, l: Level, parent: int, mode: Numbering, before: seq<Info>)
    requires Preorder(before) && Above(before, parent, |before| - 1) && -1 <= parent < |before|
    ensures var t := before + Flatten(rom, l, parent, |before|, mode);
            Preorder(t) && Above(t, parent, |t| - 1)
    decreases l
  {
    hide HeaderInfo, Preorder;
    var owner := |before|;
    var head := [HeaderInfo(rom, l.at, l.params, parent)];
    var t1 := before + head;
    PreorderExtends(before, head[0]);
    ParamsPreorder(rom, l.params, owner, mode, t1);
    var t2 := t1 + FlattenParams(rom, l.params, owner, |t1|, mode);
    assert t2[owner].parent == parent;
    AboveTransitive(t2, parent, owner, |t2| - 1);
    assert before + Flatten(rom, l, parent, owner, mode) == t2 + FlattenTail(rom, l.next, parent, |t2|, mode);
    if l.next.NextHeader? {
      LevelPreorder(rom, l.next.level, parent, mode, t2);
    } else {
      assert t2 + [] == t2;
    }
  }

  lemma {:induction false} ParamsPreorder(rom: Rom, ps: Params, owner: int, mode: Numbering, before: seq<Info>)
    requires Preorder(before) && Above(before, owner, |before| - 1) && 0 <= owner < |before|
    ensures var t := before + FlattenParams(rom, ps, owner, |before|, mode);
            Preorder(t) && Above(t, owner, |t| - 1)
    decreases ps
  {
    hide Preorder, Above, FlattenBranch, SizeBranch, SizeParams;
    if ps.Stop? {
      assert before + [] == before;
    } else {
      BranchPreorder(rom, ps.branch, owner, mode, before);
      var t := before + FlattenBranch(rom, ps.branch, owner, |before|, mode);
      ParamsPreorder(rom, ps.rest, owner, mode, t);
      assert before + FlattenParams(rom, ps, owner, |before|, mode)
          == t + FlattenParams(rom, ps.rest, owner, |t|, mode);
    }
  }

  lemma {:induction false} BranchPreorder(rom: Rom, b: Branch, owner: int, mode: Numbering, before: seq<Info>)
    requires Preorder(before) && Above(before, owner, |before| - 1) && 0 <= owner < |before|
    ensures var t := before + FlattenBranch(rom, b, owner, |before|, mode);
            Preorder(t) && Above(t, owner, |t| - 1)
    decreases b
  {
    hide Preorder, Flatten;
    var sub := FlattenBranch(rom, b, owner, |before|, mode);
    if b.SubLevel? {
      var parent := if mode == Running then |before| - 1 else owner;
      LevelPreorder(rom, b.level, parent, mode, before);
      AboveExtends(before, sub, owner, |before| - 1);
      AboveTransitive(before + sub, owner, parent, |before + sub| - 1);
    } else {
      assert before + sub == before;
    }
  }

  lemma PreorderExtends(t: seq<Info>, e: Info)
    requires Preorder(t) && -1 <= e.parent < |t| && Above(t, e.parent, |t| - 1)
    ensures Preorder(t + [e])
  {
    hide Above;
    forall k | 0 <= k <= |t|
      ensures Above(t + [e], (t + [e])[k].parent, k - 1)
    {
      AboveExtends(t, [e], (t + [e])[k].parent, k - 1);
    }
  }

  // A whole scan, under either numbering.
  lemma ScanPreorder(rom: Rom, l: Level, mode: Numbering)
    ensures Preorder(Flatten(rom, l, -1, 0, mode))
  {
    LevelPreorder(rom, l, -1, mode, []);
    assert [] + Flatten(rom, l, -1, 0, mode) == Flatten(rom, l, -1, 0, mode);
  }

  // ----- members of a level -----

  // Indices of the headers linked in one level, the first being at next.
  function Members(l: Level, next: int): set<int>
    decreases l
  {
    {next} + (if l.next.EndOfLevel? then {} else Members(l.next.level, next + 1 + SizeParams(l.params)))
  }

  // In the listing of a level whose parent comes before it, the entries that carry
  // that parent are exactly the level's own members; all others point inside.
  lemma {:induction false} MembersShareParent(rom: Rom, l: Level, parent: int, next: int, mode: Numbering, k: int)
    requires parent < next && 0 <= k < Size(l)
    ensures var p := Flatten(rom, l, parent, next, mode)[k].parent;
            && (next + k in Members(l, next) ==> p == parent)
            && (next + k !in Members(l, next) ==> next <= p < next + k)
    decreases l, k
  {
    hide HeaderInfo;
    var inner := SizeParams(l.params);
    if l.next.NextHeader? {
      MembersInRange(l.next.level, next + 1 + inner);
    }
    var head := [HeaderInfo(rom, l.at, l.params, parent)];
    var mid := FlattenParams(rom, l.params, next, next + 1, mode);
    var tail := FlattenTail(rom, l.next, parent, next + 1 + inner, mode);
    assert Flatten(rom, l, parent, next, mode) == head + mid + tail;
    if k == 0 {
      assert (head + mid + tail)[k] == head[0];
    } else if k <= inner {
      assert (head + mid + tail)[k] == mid[k - 1];
      assert next + k !in Members(l, next);
      ParamsParents(rom, l.params, next, next + 1, mode, k - 1);
    } else {
      assert (head + mid + tail)[k] == tail[k - 1 - inner];
      MembersShareParent(rom, l.next.level, parent, next + 1 + inner, mode, k - 1 - inner);
    }
  }

  lemma {:induction false} ParamsParents(rom: Rom, ps: Params, owner: int, next: int, mode: Numbering, k: int)
    requires owner < next && 0 <= k < SizeParams(ps)
    ensures owner <= FlattenParams(rom, ps, owner, next, mode)[k].parent < next + k
    decreases ps, k
  {
    var n := SizeBranch(ps.branch);
    if k < n {
      MembersShareParent(rom, ps.branch.level, if mode == Running then next - 1 else owner, next, mode, k);
    } else {
      ParamsParents(rom, ps.rest, owner, next + n, mode, k - n);
    }
  }

  lemma {:induction false} MembersInRange(l: Level, next: int)
    ensures forall i :: i in Members(l, next) ==> next <= i < next + Size(l)
    decreases l
  {
    if l.next.NextHeader? {
      MembersInRange(l.next.level, next + 1 + SizeParams(l.params));
    }
  }

  // ----- when the parent is the owner of the branch -----

  function BranchCount(ps: Params): nat {
    if ps.Stop? then 0 else (if ps.branch.SubLevel? then 1 else 0) + BranchCount(ps.rest)
  }

  // No header in the tree has two branch parameters.
  predicate AtMostOneBranch(l: Level)
    decreases l
  {
    && BranchCount(l.params) <= 1
    && SubLevelsHaveOneBranch(l.params)
    && (l.next.NextHeader? ==> AtMostOneBranch(l.next.level))
  }

  predicate SubLevelsHaveOneBranch(ps: Params)
    decreases ps
  {
    ps.Block? ==>
      && (ps.branch.SubLevel? ==> AtMostOneBranch(ps.branch.level))
      && SubLevelsHaveOneBranch(ps.rest)
  }

  lemma SameConcat(a: seq<Info>, b: seq<Info>, c: seq<Info>, d: seq<Info>)
    requires |a| == |c|
    ensures a + b == c + d <==> a == c && b == d
  {
    assert a == (a + b)[..|a|] && b == (a + b)[|a|..];
    assert c == (c + d)[..|a|] && d == (c + d)[|a|..];
  }

  lemma {:induction false} NumberingsAgree(rom: Rom, l: Level, parent: int, next: int)
    ensures Flatten(rom, l, parent, next, Running) == Flatten(rom, l, parent, next, Owner) <==> AtMostOneBranch(l)
    decreases l
  {
    hide HeaderInfo;
    var head := [HeaderInfo(rom, l.at, l.params, parent)];
    var after := next + 1 + SizeParams(l.params);
    var run := FlattenParams(rom, l.params, next, next + 1, Running);
    var own := FlattenParams(rom, l.params, next, next + 1, Owner);
    ParamsNumberingsAgree(rom, l.params, next, next + 1);
    SameConcat(head, run, head, own);
    SameConcat(head + run, FlattenTail(rom, l.next, parent, after, Running),
               head + own, FlattenTail(rom, l.next, parent, after, Owner));
    if l.next.NextHeader? {
      NumberingsAgree(rom, l.next.level, parent, after);
    }
  }

  // The running index is the owner's only until a first branch has been followed.
  lemma {:induction false} ParamsNumberingsAgree(rom: Rom, ps: Params, owner: int, next: int)
    requires owner < next
    ensures FlattenParams(rom, ps, owner, next, Running) == FlattenParams(rom, ps, owner, next, Owner)
            <==> SubLevelsHaveOneBranch(ps) && BranchCount(ps) <= if owner == next - 1 then 1 else 0
    decreases ps
  {
    hide Flatten;
    if ps.Block? {
      var rest := next + SizeBranch(ps.branch);
      ParamsNumberingsAgree(rom, ps.rest, owner, rest);
      SameConcat(FlattenBranch(rom, ps.branch, owner, next, Running), FlattenParams(rom, ps.rest, owner, rest, Running),
                 FlattenBranch(rom, ps.branch, owner, next, Owner), FlattenParams(rom, ps.rest, owner, rest, Owner));
      if ps.branch.SubLevel? {
        NumberingsAgree(rom, ps.branch.level, next - 1, next);
        FirstParent(rom, ps.branch.level, next - 1, next, Running);
        FirstParent(rom, ps.branch.level, owner, next, Owner);
      }
    }
  }

  lemma FirstParent(rom: Rom, l: Level, parent: int, next: int, mode: Numbering)
    ensures Flatten(rom, l, parent, next, mode)[0].parent == parent
  {
  }
}
