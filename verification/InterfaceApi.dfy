/** The application's calls on the interface table: claims on interfaces, and the
    interrupt registration and enabling of the UIO platform. */
module InterfaceApi {
  import opened Words
  import opened DflTree
  import opened DflListing
  import opened InterfaceTable
  import opened ParentStack
  import opened DflWalker

  const INVALID_HANDLE := -1

  // sem_t, as far as a single thread uses it.
  class Semaphore {
    var value: nat

    constructor ()
      ensures value == 0
    {
      value := 0;
    }
  }

  // Assigning private fields of entry i.
  method Assign(table: InterfaceInfoVec, i: nat, e: Entry)
    requires table.Valid() && table.Settled() && i < table.size
    requires e.params == table.Slots()[i].params && e.numParams == table.Slots()[i].numParams
    modifies table`vec
    ensures table.Valid() && table.Settled()
    ensures table.Slots() == old(table.Slots())[i := e]
    ensures table.Contents() == old(table.Contents())[i := View(e)]
  {
    hide InterfaceInfoVec.Accounted, EntryValid, View;
    table.Put(i, e);
  }

  // fpga_open: an interface is handed out once until it is closed.
  method Open(table: InterfaceInfoVec, index: nat) returns (handle: int)
    requires table.Valid() && table.Settled()
    modifies table`vec
    ensures table.Valid() && table.Settled()
    ensures handle == if index < table.size && !old(table.Contents())[index].mmioOpened then index else -1
    ensures table.Contents() == if handle == -1 then old(table.Contents())
              else old(table.Contents())[index := old(table.Contents())[index].(mmioOpened := true)]
  {
    handle := INVALID_HANDLE;
    if index < table.size && !table.Slots()[index].mmioOpened {
      handle := index;
      Assign(table, index, table.Slots()[index].(mmioOpened := true));
    }
    hide InterfaceInfoVec.Accounted, EntryValid;
  }

  method Close(table: InterfaceInfoVec, index: nat)
    requires table.Valid() && table.Settled()
    modifies table`vec
    ensures table.Valid() && table.Settled()
    ensures table.Contents() == if index >= table.size then old(table.Contents())
              else old(table.Contents())[index := old(table.Contents())[index].(mmioOpened := false)]
  {
    if index < table.size {
      Assign(table, index, table.Slots()[index].(mmioOpened := false));
    }
    hide InterfaceInfoVec.Accounted, EntryValid;
  }

  method InterruptOpen(table: InterfaceInfoVec, index: nat) returns (handle: int)
    requires table.Valid() && table.Settled()
    modifies table`vec
    ensures table.Valid() && table.Settled()
    ensures handle == if index < table.size && !old(table.Contents())[index].interruptOpened then index
            else -1
    ensures table.Contents() == if handle == -1 then old(table.Contents())
              else old(table.Contents())[index := old(table.Contents())[index].(interruptOpened := true)]
  {
    handle := INVALID_HANDLE;
    if index < table.size && !table.Slots()[index].interruptOpened {
      handle := index;
      Assign(table, index, table.Slots()[index].(interruptOpened := true));
    }
    hide InterfaceInfoVec.Accounted, EntryValid;
  }

  method InterruptClose(table: InterfaceInfoVec, index: nat)
    requires table.Valid() && table.Settled()
    modifies table`vec
    ensures table.Valid() && table.Settled()
    ensures table.Contents() == if index >= table.size then old(table.Contents())
              else old(table.Contents())[index := old(table.Contents())[index].(interruptOpened := false)]
  {
    if index < table.size {
      Assign(table, index, table.Slots()[index].(interruptOpened := false));
    }
    hide InterfaceInfoVec.Accounted, EntryValid;
  }

  // A negative handle compares as a huge size_t and is rejected like one too large.
  predicate Handles(handle: int, size: nat) {
    0 <= handle < size
  }

  // fpga_register_isr: 1 when a routine was replaced, 0 when none was there.
  method RegisterIsr(table: InterfaceInfoVec, handle: int, isr: Word, context: Word) returns (ret: int)
    requires table.Valid() && table.Settled()
    modifies table`vec
    ensures table.Valid() && table.Settled()
    ensures ret == -1 <==> !(0 <= handle < table.size)
    ensures 0 <= handle < table.size ==> ret == if old(table.Contents())[handle].isr != 0 then 1 else 0
    ensures table.Contents() == if !(0 <= handle < table.size) then old(table.Contents())
              else old(table.Contents())[handle := old(table.Contents())[handle].(isr := isr, isrContext := context)]
  {
    ret := -1;
    if Handles(handle, table.size) {
      ret := 0;
      if table.Slots()[handle].isr != 0 {
        ret := 1;
      }
      Assign(table, handle, table.Slots()[handle].(isr := isr, isrContext := context));
    }
    hide InterfaceInfoVec.Accounted, EntryValid;
  }

  // fpga_enable_interrupt when no other thread touches the semaphore meanwhile.
  method EnableInterrupt(table: InterfaceInfoVec, sem: Semaphore, handle: int) returns (ret: int)
    requires table.Valid() && table.Settled()
    modifies table`vec, sem
    ensures table.Valid() && table.Settled()
    ensures ret == if 0 <= handle < table.size then 0 else -1
    ensures table.Contents() == if !(0 <= handle < table.size) then old(table.Contents())
              else old(table.Contents())[handle := old(table.Contents())[handle].(interruptEnable := true)]
    ensures sem.value == if 0 <= handle < table.size && old(sem.value) == 0 then 1 else old(sem.value)
  {
    ret := -1;
    if Handles(handle, table.size) {
      Assign(table, handle, table.Slots()[handle].(interruptEnable := true));
      var value := sem.value;
      if value <= 0 {
        sem.value := sem.value + 1;
      }
      ret := 0;
    }
    hide InterfaceInfoVec.Accounted, EntryValid;
  }

  method DisableInterrupt(table: InterfaceInfoVec, handle: int) returns (ret: int)
    requires table.Valid() && table.Settled()
    modifies table`vec
    ensures table.Valid() && table.Settled()
    ensures ret == if 0 <= handle < table.size then 0 else -1
    ensures table.Contents() == if !(0 <= handle < table.size) then old(table.Contents())
              else old(table.Contents())[handle := old(table.Contents())[handle].(interruptEnable := false)]
  {
    ret := -1;
    if Handles(handle, table.size) {
      Assign(table, handle, table.Slots()[handle].(interruptEnable := false));
      ret := 0;
    }
    hide InterfaceInfoVec.Accounted, EntryValid;
  }

  // ----- any session -----

  datatype Event =
    | Scan(rom: Rom, first: Word, root: Level)
    | OpenAt(index: nat) | CloseAt(index: nat) | InterruptOpenAt(index: nat) | InterruptCloseAt(index: nat)
    | Register(handle: int, isr: Word, context: Word) | Enable(handle: int) | Disable(handle: int)
    | Release

  // A scan that terminates inside the parent stack's allocation.
  ghost predicate Bounded(e: Event) {
    e.Scan? ==> Unfolds(e.rom, e.first, e.root) && 1 + Nest(e.root) <= CAPACITY
  }

  // A scan of another image over the same statics.
  method Rescan(w: Walker, rom: Rom, first: Word, ghost root: Level) returns (status: Status, v: Walker)
    requires w.Valid() && w.stack.Live() == [] && Unfolds(rom, first, root)
    modifies w.stack, w.table
    ensures fresh(v) && v.stack == w.stack && v.table == w.table
    ensures status == if 1 + Nest(root) <= CAPACITY then Done else OutOfBounds
    ensures status == Done ==>
              && v.Valid() && v.stack.Live() == []
              && v.table.Contents() == Flatten(rom, root, -1, 0, Running)
  {
    hide Unfolds, Flatten;
    v := new Walker.Facing(w, rom);
    status := v.ScanMultiInterfaces(first, root);
  }

  // What one call makes of the table.
  ghost function AfterEvent(t: seq<Info>, e: Event): seq<Info> {
    match e
    case Scan(rom, _, root) => Flatten(rom, root, -1, 0, Running)
    case OpenAt(index) => if index < |t| then t[index := t[index].(mmioOpened := true)] else t
    case CloseAt(index) => if index < |t| then t[index := t[index].(mmioOpened := false)] else t
    case InterruptOpenAt(index) => if index < |t| then t[index := t[index].(interruptOpened := true)] else t
    case InterruptCloseAt(index) => if index < |t| then t[index := t[index].(interruptOpened := false)] else t
    case Register(handle, isr, context) =>
      if 0 <= handle < |t| then t[handle := t[handle].(isr := isr, isrContext := context)] else t
    case Enable(handle) => if 0 <= handle < |t| then t[handle := t[handle].(interruptEnable := true)] else t
    case Disable(handle) => if 0 <= handle < |t| then t[handle := t[handle].(interruptEnable := false)] else t
    case Release => []
  }

  ghost function AfterEvents(t: seq<Info>, events: seq<Event>): seq<Info>
    decreases |events|
  {
    if events == [] then t else AfterEvents(AfterEvent(t, events[0]), events[1..])
  }

  // Opening what is open changes nothing.
  lemma OpenedTwice(t: seq<Info>, index: nat)
    ensures index < |t| && t[index].mmioOpened ==> AfterEvent(t, OpenAt(index)) == t
    ensures index < |t| && t[index].interruptOpened ==> AfterEvent(t, InterruptOpenAt(index)) == t
  {
  }

  // One call; v is the walker afterwards, which faces the image scanned last.
  method Perform(w: Walker, sem: Semaphore, e: Event) returns (v: Walker)
    requires w.Valid() && w.stack.Live() == [] && Bounded(e)
    modifies w, w.stack, w.table, sem
    ensures (v == w || fresh(v)) && v.stack == w.stack && v.table == w.table
    ensures v.Valid() && v.stack.Live() == []
    ensures v.table.Contents() == AfterEvent(old(w.table.Contents()), e)
    ensures e.Release? ==> v.table.live == {}
  {
    hide Unfolds, Flatten, InterfaceInfoVec.Accounted, InterfaceInfoVec.Shaped, InterfaceInfoVec.Settled,
         DfhParentStack.Valid;
    v := w;
    match e
    case Scan(rom, first, root) =>
      var status;
      status, v := Rescan(w, rom, first, root);
    case OpenAt(index) =>
      OpenedTwice(w.table.Contents(), index);
      var handle := Open(w.table, index);
    case CloseAt(index) => Close(w.table, index);
    case InterruptOpenAt(index) =>
      OpenedTwice(w.table.Contents(), index);
      var handle := InterruptOpen(w.table, index);
    case InterruptCloseAt(index) => InterruptClose(w.table, index);
    case Register(handle, isr, context) => var ret := RegisterIsr(w.table, handle, isr, context);
    case Enable(handle) => var ret := EnableInterrupt(w.table, sem, handle);
    case Disable(handle) => var ret := DisableInterrupt(w.table, handle);
    case Release => w.Cleanup();
  }

  // Every entry is a DFL one that nobody has opened, registered for or enabled.
  ghost predicate Unclaimed(t: seq<Info>) {
    forall k :: 0 <= k < |t| ==>
                  && t[k].dfl && !t[k].mmioOpened && !t[k].interruptOpened && !t[k].interruptEnable
                  && t[k].isr == 0 && t[k].isrContext == 0 && t[k].interrupt == 0
  }

  lemma {:induction false} ListingUnclaimed(rom: Rom, l: Level, parent: int, next: int)
    ensures Unclaimed(Flatten(rom, l, parent, next, Running))
    decreases l
  {
    hide Plus, Stored;
    ParamsUnclaimed(rom, l.params, next, next + 1);
    if l.next.NextHeader? {
      ListingUnclaimed(rom, l.next.level, parent, next + 1 + SizeParams(l.params));
    }
  }

  lemma {:induction false} ParamsUnclaimed(rom: Rom, ps: Params, owner: int, next: int)
    ensures Unclaimed(FlattenParams(rom, ps, owner, next, Running))
    decreases ps
  {
    if ps.Block? {
      if ps.branch.SubLevel? {
        ListingUnclaimed(rom, ps.branch.level, next - 1, next);
      }
      ParamsUnclaimed(rom, ps.rest, owner, next + SizeBranch(ps.branch));
    }
  }

  // Any sequence of calls; the table is what the calls make of it, one after another.
  method Session(w: Walker, sem: Semaphore, events: seq<Event>) returns (v: Walker)
    requires w.Valid() && w.stack.Live() == []
    requires forall e :: e in events ==> Bounded(e)
    modifies w, w.stack, w.table, sem
    ensures (v == w || fresh(v)) && v.stack == w.stack && v.table == w.table
    ensures v.Valid() && v.stack.Live() == []
    ensures v.table.Contents() == AfterEvents(old(w.table.Contents()), events)
  {
    hide Bounded, AfterEvent, InterfaceInfoVec.Accounted;
    v := w;
    assert events[0..] == events;
    for i := 0 to |events|
      invariant (v == w || fresh(v)) && v.stack == w.stack && v.table == w.table
      invariant v.Valid() && v.stack.Live() == []
      invariant AfterEvents(v.table.Contents(), events[i..]) == AfterEvents(old(w.table.Contents()), events)
    {
      assert events[i..][0] == events[i] && events[i..][1..] == events[i + 1..];
      v := Perform(v, sem, events[i]);
    }
  }

  // After any history, with scans of any images, a scan leaves a table that depends
  // on its own ROM and entry address alone; nothing scanned, opened, registered or
  // enabled before shows in it.
  method ScanAfterHistory(w: Walker, sem: Semaphore, events: seq<Event>, rom: Rom, first: Word, ghost root: Level)
    returns (status: Status)
    requires w.Valid() && w.stack.Live() == []
    requires forall e :: e in events ==> Bounded(e)
    requires Unfolds(rom, first, root)
    modifies w, w.stack, w.table, sem
    ensures status == if 1 + Nest(root) <= CAPACITY then Done else OutOfBounds
    ensures status == Done ==>
              && w.stack.Valid() && w.table.Valid() && w.table.Settled()
              && w.table.Contents() == Flatten(rom, root, -1, 0, Running) && Unclaimed(w.table.Contents())
  {
    hide Unfolds, Flatten, Bounded, AfterEvents;
    var v := Session(w, sem, events);
    status, v := Rescan(v, rom, first, root);
    ListingUnclaimed(rom, root, -1, 0);
  }
}
