/** g_common_fpga_interface_info_vec: the hand-written vector of interface entries,
    each owning a parameter array whose elements own data blocks.

    A heap block is its content plus an identity drawn from a counter; live holds
    the identities that were allocated and not yet freed. */
module InterfaceTable {
  import opened Words
  import opened DflListing

  // Wild is the content of uninitialised memory.
  datatype Pointer<T> = Null | Wild | At(id: nat, value: T)

  datatype ParamStruct = ParamStruct(version: Half, id: Half, dataSize: Word, data: Pointer<seq<Word>>)

  datatype Entry = Entry(guidL: Word, guidH: Word, instance: Half, group: Half,
                         numParams: nat, params: Pointer<seq<ParamStruct>>, parent: int, dfl: bool,
                         base: Word, interrupt: Half, mmioOpened: bool, interruptOpened: bool,
                         interruptEnable: bool, isr: Word, isrContext: Word)

  const ZERO_PARAM_STRUCT := ParamStruct(0, 0, 0, Null)
  const ZERO_ENTRY := Entry(0, 0, 0, 0, 0, Null, 0, false, 0, 0, false, false, false, 0, 0)

  // ----- what an entry says -----

  function ViewParam(p: ParamStruct): Parameter {
    Parameter(p.version, p.id, if p.data.At? then p.data.value else [])
  }

  function ViewParams(ps: seq<ParamStruct>): (v: seq<Parameter>)
    ensures |v| == |ps|
    ensures forall j :: 0 <= j < |ps| ==> v[j] == ViewParam(ps[j])
  {
    seq(|ps|, j requires 0 <= j < |ps| => ViewParam(ps[j]))
  }

  function View(e: Entry): Info {
    Info(e.guidL, e.guidH, e.instance, e.group, if e.params.At? then ViewParams(e.params.value) else [],
         e.parent, e.dfl, e.base, e.interrupt, e.mmioOpened, e.interruptOpened,
         e.interruptEnable, e.isr, e.isrContext)
  }

  // ----- what an entry owns -----

  ghost function OwnedPointer<T>(p: Pointer<T>): multiset<nat> {
    if p.At? then multiset{p.id} else multiset{}
  }

  ghost function OwnedData(ps: seq<ParamStruct>): multiset<nat> {
    if ps == [] then multiset{} else OwnedPointer(ps[0].data) + OwnedData(ps[1..])
  }

  ghost function OwnedByEntry(e: Entry): multiset<nat> {
    if e.params.At? then multiset{e.params.id} + OwnedData(e.params.value) else multiset{}
  }

  ghost function Owned(es: seq<Entry>): multiset<nat> {
    if es == [] then multiset{} else OwnedByEntry(es[0]) + Owned(es[1..])
  }

  ghost predicate EntryValid(e: Entry) {
    if e.params.At? then |e.params.value| == e.numParams else e.params.Null? && e.numParams == 0
  }

  ghost predicate ParamSettled(p: ParamStruct) {
    if p.data.At? then p.dataSize == 8 * |p.data.value| else p.data.Null? && p.dataSize == 0
  }

  lemma ZeroEntryValid()
    ensures EntryValid(ZERO_ENTRY) && EntrySettled(ZERO_ENTRY) && View(ZERO_ENTRY) == ZERO_INFO
  {
  }

  // No pointer below the entry is left uninitialised.
  ghost predicate EntrySettled(e: Entry) {
    e.params.At? ==> forall j :: 0 <= j < |e.params.value| ==> ParamSettled(e.params.value[j])
  }

  lemma {:induction false} OwnedConcat(es: seq<Entry>, fs: seq<Entry>)
    ensures Owned(es + fs) == Owned(es) + Owned(fs)
  {
    hide OwnedByEntry;
    if es == [] {
      assert es + fs == fs;
    } else {
      assert (es + fs)[1..] == es[1..] + fs;
      OwnedConcat(es[1..], fs);
    }
  }

  // What is owned outside entry i, top being what the table itself owns.
  ghost function OwnedAround(top: multiset<nat>, es: seq<Entry>, i: nat): multiset<nat>
    requires i < |es|
  {
    top + Owned(es[..i]) + Owned(es[i + 1..])
  }

  lemma OwnedUpdate(top: multiset<nat>, es: seq<Entry>, i: nat, e: Entry)
    requires i < |es|
    ensures top + Owned(es[i := e]) == OwnedAround(top, es, i) + OwnedByEntry(e)
    ensures top + Owned(es) == OwnedAround(top, es, i) + OwnedByEntry(es[i])
  {
    hide OwnedByEntry, Owned;
    OwnedSplit(es, i);
    OwnedSplit(es[i := e], i);
    assert es[i := e][..i] == es[..i] && es[i := e][i + 1..] == es[i + 1..];
  }

  lemma OwnedSplit(es: seq<Entry>, i: nat)
    requires i < |es|
    ensures Owned(es) == Owned(es[..i]) + OwnedByEntry(es[i]) + Owned(es[i + 1..])
  {
    hide OwnedByEntry;
    assert es == es[..i] + es[i..] && es[i..][1..] == es[i + 1..];
    OwnedConcat(es[..i], es[i..]);
  }

  lemma {:induction false} OwnedDataConcat(ps: seq<ParamStruct>, qs: seq<ParamStruct>)
    ensures OwnedData(ps + qs) == OwnedData(ps) + OwnedData(qs)
  {
    hide OwnedPointer;
    if ps == [] {
      assert ps + qs == qs;
    } else {
      assert (ps + qs)[1..] == ps[1..] + qs;
      OwnedDataConcat(ps[1..], qs);
    }
  }

  lemma OwnedDataUpdate(ps: seq<ParamStruct>, j: nat, p: ParamStruct)
    requires j < |ps|
    ensures OwnedData(ps[j := p]) + OwnedPointer(ps[j].data) == OwnedData(ps) + OwnedPointer(p.data)
  {
    hide OwnedPointer, OwnedData;
    OwnedDataSplit(ps, j);
    OwnedDataSplit(ps[j := p], j);
    assert ps[j := p][..j] == ps[..j] && ps[j := p][j + 1..] == ps[j + 1..];
  }

  lemma OwnedDataSplit(ps: seq<ParamStruct>, j: nat)
    requires j < |ps|
    ensures OwnedData(ps) == OwnedData(ps[..j]) + OwnedPointer(ps[j].data) + OwnedData(ps[j + 1..])
  {
    hide OwnedPointer;
    assert ps == ps[..j] + ps[j..] && ps[j..][1..] == ps[j + 1..];
    OwnedDataConcat(ps[..j], ps[j..]);
  }

  function Zeros(n: nat): (es: seq<Entry>)
    ensures |es| == n && forall i :: 0 <= i < n ==> es[i] == ZERO_ENTRY
  {
    seq(n, _ => ZERO_ENTRY)
  }

  function ZeroParams(n: nat): (ps: seq<ParamStruct>)
    ensures |ps| == n && forall j :: 0 <= j < n ==> ps[j] == ZERO_PARAM_STRUCT
  {
    seq(n, _ => ZERO_PARAM_STRUCT)
  }

  lemma {:induction false} ZerosOwnNothing(es: seq<Entry>)
    requires forall i :: 0 <= i < |es| ==> es[i] == ZERO_ENTRY
    ensures Owned(es) == multiset{}
  {
    if es != [] {
      ZerosOwnNothing(es[1..]);
    }
  }

  lemma {:induction false} ZeroParamsOwnNothing(ps: seq<ParamStruct>)
    requires forall j :: 0 <= j < |ps| ==> ps[j] == ZERO_PARAM_STRUCT
    ensures OwnedData(ps) == multiset{}
  {
    if ps != [] {
      ZeroParamsOwnNothing(ps[1..]);
    }
  }

  lemma Regroup(top: multiset<nat>, a: multiset<nat>, p: multiset<nat>, b: multiset<nat>, q: multiset<nat>)
    requires a + p == b + q
    ensures (top + a) + p == (top + b) + q
    ensures p == q ==> a == b
  {
    assert (top + a) + p == top + (a + p) && (top + b) + q == top + (b + q);
    assert a == (a + p) - p && b == (b + q) - q;
  }

  lemma AddNothing(a: multiset<nat>, b: multiset<nat>)
    ensures a + b == a <==> b == multiset{}
  {
    assert b == (a + b) - a;
  }

  lemma FreedOnce(live: set<nat>, id: nat, rest: multiset<nat>)
    requires multiset(live) == rest + multiset{id}
    ensures id in live && multiset(live - {id}) == rest
  {
    assert multiset(live)[id] >= 1;
    assert multiset(live - {id}) == multiset(live) - multiset{id};
  }

  lemma NothingLive(live: set<nat>)
    requires multiset(live) == multiset{}
    ensures live == {}
  {
    assert forall id :: id in live ==> id in multiset(live);
  }

  lemma Allocated(live: set<nat>, id: nat)
    requires id !in live
    ensures multiset(live + {id}) == multiset(live) + multiset{id}
  {
  }

  // Moving a block: a fresh identity replaces the given one.
  lemma BlockMoved<T>(live: set<nat>, given: Pointer<T>, id: nat, rest: multiset<nat>)
    requires id !in live && multiset(live) == OwnedPointer(given) + rest
    ensures given.At? ==> given.id in live
    ensures multiset(live + {id} - if given.At? then {given.id} else {}) == multiset{id} + rest
  {
    Allocated(live, id);
    if given.At? {
      assert multiset(live + {id}) == (multiset{id} + rest) + multiset{given.id};
      FreedOnce(live + {id}, given.id, multiset{id} + rest);
      assert given.id in multiset(live);
    } else {
      assert live + {id} - {} == live + {id};
      assert OwnedPointer(given) + rest == rest;
    }
  }

  lemma OwnedHead(es: seq<Entry>, i: nat, kept: multiset<nat>)
    requires i < |es|
    ensures kept + Owned(es[i..]) == (kept + Owned(es[i + 1..])) + OwnedByEntry(es[i])
  {
    hide OwnedByEntry;
    assert es[i..][1..] == es[i + 1..];
  }

  class InterfaceInfoVec {
    var vec: Pointer<seq<Entry>>
    var reserved: nat
    var size: nat

    // The C heap, as far as this library's own blocks go.
    var nextId: nat
    ghost var live: set<nat>

    function Slots(): seq<Entry>
      reads this
    {
      if vec.At? then vec.value else []
    }

    // Each live block is reachable, and along exactly one pointer.
    ghost predicate Accounted()
      reads this
    {
      && multiset(live) == OwnedPointer(vec) + Owned(Slots())
      && forall id :: id in live ==> id < nextId
    }

    // Blocks that are live but no longer reachable.
    ghost predicate Leaks(lost: multiset<nat>)
      reads this
    {
      && multiset(live) == OwnedPointer(vec) + Owned(Slots()) + lost
      && forall id :: id in live ==> id < nextId
    }

    ghost predicate Shaped()
      reads this
    {
      && !vec.Wild? && (vec.Null? <==> reserved == 0)
      && size <= reserved == |Slots()|
      && (forall i :: 0 <= i < reserved ==> EntryValid(Slots()[i]))
      && (forall i :: size <= i < reserved ==> Slots()[i] == ZERO_ENTRY)
    }

    ghost predicate Valid()
      reads this
    {
      Accounted() && Shaped()
    }

    ghost predicate Settled()
      reads this
    {
      forall i :: 0 <= i < |Slots()| ==> EntrySettled(Slots()[i])
    }

    // Between calls an empty table has no block, not even reserved slots.
    ghost predicate Tidy()
      reads this
    {
      size == 0 ==> live == {}
    }

    // The table as the pure sequence its users see.
    ghost function Contents(): (t: seq<Info>)
      requires Shaped()
      reads this
      ensures |t| == size
    {
      seq(size, i requires 0 <= i < size && Shaped() reads this => View(Slots()[i]))
    }

    constructor ()
      ensures Valid() && Settled() && Contents() == [] && live == {}
    {
      vec, reserved, size := Null, 0, 0;
      nextId, live := 0, {};
    }

    // ----- heap -----

    method Malloc() returns (id: nat)
      modifies `nextId, `live
      ensures id == old(nextId) && nextId == id + 1 && live == old(live) + {id}
    {
      id := nextId;
      nextId := nextId + 1;
      live := live + {id};
    }

    // Only NULL or a live block may be freed.
    method Free<T>(p: Pointer<T>)
      requires p.Null? || (p.At? && p.id in live)
      modifies `live
      ensures live == if p.At? then old(live) - {p.id} else old(live)
    {
      if p.At? {
        live := live - {p.id};
      }
    }

    // ----- vector -----

    // free(parameters[j].data) for each parameter, then free(parameters).
    method FreeEntry(e: Entry, ghost kept: multiset<nat>)
      requires EntryValid(e) && EntrySettled(e)
      requires multiset(live) == kept + OwnedByEntry(e)
      modifies `live
      ensures live <= old(live) && multiset(live) == kept
    {
      var j := 0;
      while j < e.numParams
        invariant 0 <= j <= e.numParams && live <= old(live)
        invariant if e.params.At? then multiset(live) == (kept + multiset{e.params.id}) + OwnedData(e.params.value[j..])
                  else multiset(live) == kept
      {
        var ps := e.params.value;
        assert ps[j..][0] == ps[j] && ps[j..][1..] == ps[j + 1..];
        assert ParamSettled(ps[j]);
        ghost var rest := (kept + multiset{e.params.id}) + OwnedData(ps[j + 1..]);
        assert multiset(live) == rest + OwnedPointer(ps[j].data);
        if ps[j].data.At? {
          FreedOnce(live, ps[j].data.id, rest);
        }
        Free(ps[j].data);
        j := j + 1;
      }
      if e.params.At? {
        assert e.params.value[j..] == [];
        FreedOnce(live, e.params.id, kept);
      }
      Free(e.params);
    }

    method Reserve(n: nat)
      requires Valid() && (n < size ==> Settled())
      modifies this
      ensures Valid() && size == (if n < old(size) then n else old(size)) && reserved >= n
      ensures old(Settled()) ==> Settled()
      ensures n == 0 ==> vec.Null? && live == {}
      ensures forall i :: 0 <= i < size ==> Slots()[i] == old(Slots())[i]
    {
      hide Owned, EntryValid, EntrySettled;
      if n > reserved {
        Grow(n);
      } else {
        if n < size {
          Truncate(n);
        }
        if n == 0 {
          Release();
        }
      }
    }

    method Release()
      requires Valid() && size == 0
      modifies this
      ensures Valid() && Settled() && size == 0 && vec.Null? && live == {}
    {
      ZerosOwnNothing(Slots());
      if vec.At? {
        FreedOnce(live, vec.id, multiset{});
      } else {
        NothingLive(live);
      }
      Free(vec);
      vec, reserved, size := Null, 0, 0;
      NothingLive(live);
    }

    // realloc: the old block is given up and the added slots are cleared.
    method Grow(n: nat)
      requires Valid() && n > reserved
      modifies this
      ensures Valid() && size == old(size) && reserved == n
      ensures Slots() == old(Slots()) + Zeros(n - old(reserved))
      ensures old(Settled()) ==> Settled()
    {
      hide Owned, EntryValid;
      ZeroEntryValid();
      var slots, added := Slots(), Zeros(n - reserved);
      OwnedConcat(slots, added);
      ZerosOwnNothing(added);
      var given := vec;
      var id := Malloc();
      BlockMoved(old(live), given, id, Owned(slots));
      vec := At(id, slots + added);
      Free(given);
      reserved := n;
      assert live == old(live) + {id} - if given.At? then {given.id} else {};
      assert Owned(slots + added) == Owned(slots);
    }

    // Frees what the dropped entries own and clears them.
    method Truncate(n: nat)
      requires Valid() && Settled() && n < size
      modifies this
      ensures Valid() && Settled() && size == n && reserved == old(reserved)
      ensures Slots() == old(Slots())[..n] + Zeros(reserved - n)
    {
      hide EntryValid, EntrySettled, Owned, OwnedByEntry;
      ZeroEntryValid();
      ghost var kept := OwnedPointer(vec) + Owned(Slots()[..n]);
      FreeEntries(n, kept);
      vec := vec.(value := Slots()[..n] + Zeros(size - n) + Slots()[size..]);
      ghost var cleared := Zeros(size - n) + old(Slots())[size..];
      assert Slots() == old(Slots())[..n] + cleared;
      OwnedConcat(old(Slots())[..n], cleared);
      ZerosOwnNothing(cleared);
      size := n;
    }

    method FreeEntries(n: nat, ghost kept: multiset<nat>)
      requires Valid() && Settled() && n < size
      requires kept == OwnedPointer(vec) + Owned(Slots()[..n])
      modifies `live
      ensures live <= old(live) && multiset(live) == kept
    {
      hide EntryValid, EntrySettled, Owned, OwnedByEntry, OwnedPointer;
      assert Slots() == Slots()[..n] + Slots()[n..];
      OwnedConcat(Slots()[..n], Slots()[n..]);
      var i := n;
      while i < size
        invariant n <= i <= size && live <= old(live)
        invariant multiset(live) == kept + Owned(Slots()[i..])
      {
        OwnedHead(Slots(), i, kept);
        FreeEntry(Slots()[i], kept + Owned(Slots()[i + 1..]));
        i := i + 1;
      }
      ZerosOwnNothing(Slots()[i..]);
    }

    // The table is a pure sequence: the common prefix stays, new entries are zero.
    method Resize(n: nat)
      requires Valid() && (n < size ==> Settled())
      modifies this
      ensures Valid() && size == n
      ensures old(Settled()) ==> Settled()
      ensures forall i :: 0 <= i < n ==> Slots()[i] == if i < old(size) then old(Slots())[i] else ZERO_ENTRY
      ensures Contents() == old(Contents())[..if n < old(size) then n else old(size)]
                            + seq(if n < old(size) then 0 else n - old(size), _ => ZERO_INFO)
      ensures Tidy() && (n == 0 ==> vec.Null?)
    {
      hide Owned, EntryValid, EntrySettled, View;
      ZeroEntryValid();
      Reserve(n);
      size := n;
    }

    // ----- entries -----

    // Assigning plain fields of *at(i): the parameter array stays where it is.
    method Put(i: nat, e: Entry)
      requires Valid() && i < size
      requires e.params == Slots()[i].params && e.numParams == Slots()[i].numParams
      modifies `vec
      ensures Valid() && Slots() == old(Slots())[i := e]
    {
      hide Owned;
      OwnedUpdate(OwnedPointer(vec), Slots(), i, e);
      vec := vec.(value := vec.value[i := e]);
    }

    // First block of an entry: an array of one uninitialised element. What the entry
    // owned before is no longer reachable, so accounting survives exactly when it had
    // no array.
    method ParamBlockInit(i: nat)
      requires Valid() && i < size
      modifies this
      ensures Shaped() && Leaks(OwnedByEntry(old(Slots()[i]))) && size == old(size)
      ensures Valid() <==> old(Slots()[i]).params.Null?
      ensures 0 <= i < |Slots()|
      ensures var e := Slots()[i];
              && e.params.At? && |e.params.value| == 1 && e.params.value[0].data.Wild?
              && Slots() == old(Slots())[i := old(Slots())[i].(params := e.params, numParams := 1)]
    {
      hide Owned, OwnedByEntry, OwnedAround;
      var version: Half := *;
      var paramId: Half := *;
      var dataSize: Word := *;
      var id := Malloc();
      Allocated(old(live), id);
      var raw := ParamStruct(version, paramId, dataSize, Wild);
      var before := Slots()[i];
      ghost var around := OwnedAround(OwnedPointer(vec), Slots(), i);
      var e := before.(params := At(id, [raw]), numParams := 1);
      OwnedUpdate(OwnedPointer(vec), Slots(), i, e);
      FirstBlockOwned(e, id, raw);
      OwnsNothingIff(before);
      vec := vec.(value := vec.value[i := e]);
      assert multiset(live) == around + OwnedByEntry(before) + multiset{id};
      AddNothing(around + multiset{id}, OwnedByEntry(before));
    }

    // Grows the array with cleared elements. Shrinking is a run-time exception, and a
    // size of 0 frees the array alone: the data blocks of its elements leak, so heap
    // accounting survives exactly when there are none.
    method ParamBlockResize(i: nat, n: nat) returns (halted: bool)
      requires Valid() && i < size
      modifies this
      ensures halted <==> 0 < n < old(Slots()[i].numParams)
      ensures Shaped() && size == old(size) && 0 <= i < |Slots()|
      ensures n != 0 ==> Valid()
      ensures n == 0 ==> Leaks(OwnedData(old(ParamsOf(Slots()[i]))))
      ensures n == 0 ==> (Valid() <==> OwnedData(old(ParamsOf(Slots()[i]))) == multiset{})
      ensures halted ==> Slots() == old(Slots())
      ensures !halted ==>
                var e, before := Slots()[i], old(Slots()[i]);
                && e.numParams == n && Slots() == old(Slots())[i := before.(params := e.params, numParams := n)]
                && (if n == 0 then e.params.Null?
                    else e.params.At? && e.params.value == ParamsOf(before) + ZeroParams(n - before.numParams))
    {
      hide Owned, OwnedData, OwnedByEntry, OwnedAround, OwnedPointer;
      halted := false;
      ghost var data := OwnedData(ParamsOf(Slots()[i]));
      if n > Slots()[i].numParams {
        GrowParams(i, n);
      } else if n == 0 {
        FreeParams(i);
        AddNothing(OwnedPointer(vec) + Owned(Slots()), data);
      } else if n < Slots()[i].numParams {
        halted := true;
      }
    }

    method GrowParams(i: nat, n: nat)
      requires Valid() && i < size && n > Slots()[i].numParams
      modifies this
      ensures Valid() && size == old(size) && 0 <= i < |Slots()|
      ensures var e, before := Slots()[i], old(Slots()[i]);
              && Slots() == old(Slots())[i := before.(params := e.params, numParams := n)]
              && e.params.At? && e.params.value == ParamsOf(before) + ZeroParams(n - before.numParams)
    {
      hide Owned, OwnedData, OwnedByEntry, OwnedAround;
      var e := Slots()[i];
      ghost var around := OwnedAround(OwnedPointer(vec), Slots(), i);
      var id := Malloc();
      var grown := e.(params := At(id, ParamsOf(e) + ZeroParams(n - e.numParams)), numParams := n);
      GrownOwned(e, grown, id, n - e.numParams);
      OwnedUpdate(OwnedPointer(vec), Slots(), i, e);
      EntryOwns(e);
      Regroup(around, OwnedByEntry(e), multiset{}, OwnedPointer(e.params) + OwnedData(ParamsOf(e)), multiset{});
      assert live - {id} == old(live);
      ReplaceEntry(i, e.params, grown, id, around + OwnedData(ParamsOf(e)));
    }

    method FreeParams(i: nat)
      requires Valid() && i < size
      modifies this
      ensures Shaped() && size == old(size)
      ensures Leaks(OwnedData(old(ParamsOf(Slots()[i]))))
      ensures Slots() == old(Slots())[i := old(Slots()[i]).(params := Null, numParams := 0)]
    {
      hide Owned, OwnedData, OwnedByEntry, OwnedAround;
      var e := Slots()[i];
      ghost var around := OwnedAround(OwnedPointer(vec), Slots(), i);
      ghost var data := OwnedData(ParamsOf(e));
      var freed := e.(params := Null, numParams := 0);
      OwnedUpdate(OwnedPointer(vec), Slots(), i, freed);
      EntryOwns(freed);
      EntryOwns(e);
      if e.params.At? {
        FreedOnce(live, e.params.id, around + data);
      } else {
        NoData();
      }
      Free(e.params);
      vec := vec.(value := vec.value[i := freed]);
    }

    // The tail of a reallocation: the block given up is freed and entry i replaced.
    method ReplaceEntry(i: nat, given: Pointer<seq<ParamStruct>>, e: Entry, id: nat, ghost kept: multiset<nat>)
      requires Shaped() && i < size && EntryValid(e)
      requires id in live && (forall k :: k in live ==> k < nextId)
      requires !given.Wild?
      requires multiset(live - {id}) == OwnedPointer(given) + kept
      requires multiset{id} + kept == OwnedAround(OwnedPointer(vec), Slots(), i) + OwnedByEntry(e)
      modifies `vec, `live
      ensures Valid() && Slots() == old(Slots())[i := e]
    {
      hide Owned, OwnedData, OwnedByEntry, EntryValid, OwnedAround;
      assert live - {id} + {id} == live;
      BlockMoved(live - {id}, given, id, kept);
      OwnedUpdate(OwnedPointer(vec), Slots(), i, e);
      Free(given);
      assert live == old(live) - if given.At? then {given.id} else {};
      vec := vec.(value := vec.value[i := e]);
    }

    // A data block of n bytes with unspecified content; a size that is not a
    // multiple of 8 is a run-time exception. A block the element owned before is no
    // longer reachable.
    method ParamDataAllocate(i: nat, j: nat, n: Word) returns (halted: bool)
      requires Valid() && i < size && j < |ParamsOf(Slots()[i])|
      modifies this
      ensures halted <==> n % 8 != 0
      ensures Shaped() && size == old(size) && 0 <= i < |Slots()|
      ensures Valid() <==> halted || !old(ParamsOf(Slots()[i])[j]).data.At?
      ensures halted ==> Slots() == old(Slots())
      ensures !halted ==> Leaks(OwnedPointer(old(ParamsOf(Slots()[i])[j]).data))
      ensures !halted ==>
                && j < |ParamsOf(Slots()[i])|
                && var data := ParamsOf(Slots()[i])[j].data;
                && data.At? && |data.value| == n / 8
                && Slots() == old(Slots())[i := WithParam(old(Slots()[i]), j,
                                                          ParamsOf(old(Slots()[i]))[j].(data := data, dataSize := n))]
    {
      hide Owned, OwnedData, OwnedByEntry;
      halted := n % 8 != 0;
      if !halted {
        var block := new Word[n / 8];
        var id := Malloc();
        Allocated(old(live), id);
        var e := Slots()[i];
        var p := e.params.value[j].(data := At(id, block[..]), dataSize := n);
        ghost var around := OwnedAround(OwnedPointer(vec), Slots(), i);
        OwnedUpdate(OwnedPointer(vec), Slots(), i, WithParam(e, j, p));
        ParamOwned(e, j, p);
        ghost var lost := OwnedPointer(e.params.value[j].data);
        Regroup(around, OwnedByEntry(WithParam(e, j, p)), lost, OwnedByEntry(e), multiset{id});
        AddNothing(around + OwnedByEntry(WithParam(e, j, p)), lost);
        vec := vec.(value := vec.value[i := WithParam(e, j, p)]);
      }
    }

    // Assigning into an element of the parameter array, or into its data block.
    method PutParam(i: nat, j: nat, p: ParamStruct)
      requires Valid() && i < size && j < |ParamsOf(Slots()[i])|
      requires OwnedPointer(p.data) == OwnedPointer(ParamsOf(Slots()[i])[j].data)
      modifies `vec
      ensures Valid() && Slots() == old(Slots())[i := WithParam(old(Slots()[i]), j, p)]
    {
      hide Owned, OwnedData, OwnedByEntry;
      var e := Slots()[i];
      ParamOwned(e, j, p);
      Regroup(multiset{}, OwnedByEntry(WithParam(e, j, p)), OwnedPointer(p.data), OwnedByEntry(e),
          OwnedPointer(p.data));
      OwnedUpdate(OwnedPointer(vec), Slots(), i, WithParam(e, j, p));
      vec := vec.(value := vec.value[i := WithParam(e, j, p)]);
    }
  }

  function ParamsOf(e: Entry): seq<ParamStruct> {
    if e.params.At? then e.params.value else []
  }

  function WithParam(e: Entry, j: nat, p: ParamStruct): Entry
    requires j < |ParamsOf(e)|
  {
    e.(params := e.params.(value := e.params.value[j := p]))
  }

  lemma FirstBlockOwned(e: Entry, id: nat, raw: ParamStruct)
    requires e.params == At(id, [raw]) && raw.data.Wild?
    ensures OwnedByEntry(e) == multiset{id}
  {
    assert OwnedData([raw]) == OwnedPointer(raw.data) + OwnedData([]);
  }

  lemma ParamOwned(e: Entry, j: nat, p: ParamStruct)
    requires j < |ParamsOf(e)|
    ensures OwnedByEntry(WithParam(e, j, p)) + OwnedPointer(ParamsOf(e)[j].data)
            == OwnedByEntry(e) + OwnedPointer(p.data)
  {
    hide OwnedData, OwnedPointer;
    OwnedDataUpdate(e.params.value, j, p);
    Regroup(multiset{e.params.id}, OwnedData(e.params.value[j := p]), OwnedPointer(e.params.value[j].data),
            OwnedData(e.params.value), OwnedPointer(p.data));
  }

  lemma GrownOwned(e: Entry, grown: Entry, id: nat, added: nat)
    requires grown.params == At(id, ParamsOf(e) + ZeroParams(added))
    ensures OwnedByEntry(grown) == multiset{id} + OwnedData(ParamsOf(e))
  {
    OwnedDataConcat(ParamsOf(e), ZeroParams(added));
    ZeroParamsOwnNothing(ZeroParams(added));
  }

  lemma NoData()
    ensures OwnedData([]) == multiset{}
  {
  }

  lemma OwnsNothingIff(e: Entry)
    requires EntryValid(e)
    ensures OwnedByEntry(e) == multiset{} <==> e.params.Null?
  {
    if e.params.At? {
      assert e.params.id in OwnedByEntry(e);
    }
  }

  lemma EntryOwns(e: Entry)
    requires EntryValid(e)
    ensures OwnedByEntry(e) == OwnedPointer(e.params) + OwnedData(ParamsOf(e))
    ensures e.params.Null? ==> OwnedByEntry(e) == multiset{}
  {
  }
}
