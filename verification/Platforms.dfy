/** How the devmem and UIO platforms place a device in the address space of the
    process, where they start the scan, and how they report an address back. */
module Platforms {
  import opened Words
  import opened DflTree
  import opened DflListing
  import opened DflRelocation
  import opened InterfaceTable
  import opened ParentStack
  import opened DflWalker

  // ----- devmem -----

  const PAGE := 4096

  // start & ~MASK_4K_ADDR.
  function PageOffset(start: Word): Word {
    start % PAGE
  }

  // The process sees the device from mmapPtr on, beginning at start's page.
  function DevmemShift(mmapPtr: Word, start: Word): int {
    mmapPtr - (start - PageOffset(start))
  }

  function DevmemView(device: Rom, mmapPtr: Word, start: Word): Rom {
    Moved(device, DevmemShift(mmapPtr, start))
  }

  function DevmemFirstDfh(mmapPtr: Word, start: Word, entry: Word): Word {
    Plus(Plus(mmapPtr, (entry - start) % TWO_64), PageOffset(start))
  }

  function DevmemSingleBase(mmapPtr: Word, start: Word): Word {
    Plus(mmapPtr, PageOffset(start))
  }

  function DevmemDecode(mmapPtr: Word, start: Word, base: Word): Word {
    Plus(Plus(Plus(base, -(mmapPtr as int)), -(PageOffset(start) as int)), start)
  }

  // The window begins with the device's 4 KiB page that holds start, and a single
  // component lies as far into it as start into its page.
  lemma DevmemWindow(device: Rom, mmapPtr: Word, start: Word, d: nat)
    requires d < TWO_64
    ensures DevmemView(device, mmapPtr, start)(Plus(mmapPtr, d)) == device(Plus(start / 4096 * 4096, d))
    ensures DevmemSingleBase(mmapPtr, start) == Plus(mmapPtr, start - start / 4096 * 4096)
  {
    var page: Word := start / 4096 * 4096;
    assert DevmemShift(mmapPtr, start) == mmapPtr - page;
    hide Plus;
    PlusPlus(mmapPtr, d, page - mmapPtr);
    PlusSwap(mmapPtr, page, d - mmapPtr);
  }

  // devmem_validate_args; the sum is a size_t one.
  function DevmemValidateArgs(start: Word, span: Word, entry: Word, single: bool): (valid: bool)
    ensures valid <==> span > 0 && start > 0 && (single || (start <= entry < start + span && start + span < TWO_64))
  {
    var ret := span > 0 && start > 0;
    if !single && (entry < start || entry >= Plus(start, span)) then false else ret
  }

  // A window of the last page, and the entry address it starts with, are rejected: the
  // sum of start and span has wrapped to 0.
  lemma TopWindowRejected()
    ensures !DevmemValidateArgs(TWO_64 - PAGE, PAGE, TWO_64 - PAGE, false)
  {
  }

  // An accepted entry address is scanned from inside the window.
  lemma DevmemEntryInWindow(mmapPtr: Word, start: Word, span: Word, entry: Word)
    requires DevmemValidateArgs(start, span, entry, false)
    ensures 0 <= (DevmemFirstDfh(mmapPtr, start, entry) - DevmemSingleBase(mmapPtr, start)) % TWO_64 < span
  {
    assert (entry - start) % TWO_64 == entry - start < span;
    hide Plus, PageOffset;
    PlusPlus(mmapPtr, entry - start, PageOffset(start));
    Displacement(Plus(mmapPtr, PageOffset(start)), entry - start);
  }

  lemma Displacement(a: Word, d: int)
    requires 0 <= d < TWO_64
    ensures (Plus(a, d) - a) % TWO_64 == d
  {
    if a + d >= TWO_64 {
      assert Plus(a, d) == a + d - TWO_64;
    }
  }

  // ----- UIO -----

  function UioView(device: Rom, mmapPtr: Word): Rom {
    Moved(device, mmapPtr)
  }

  function UioFirstDfh(mmapPtr: Word, entry: Word): Word {
    Plus(mmapPtr, entry)
  }

  function UioDecode(mmapPtr: Word, base: Word): Word {
    Plus(base, -(mmapPtr as int))
  }

  // The window begins with the device's first byte.
  lemma UioWindow(device: Rom, mmapPtr: Word, a: Word)
    ensures UioView(device, mmapPtr)(Plus(mmapPtr, a)) == device(a)
  {
    PlusSwap(mmapPtr, a, 0);
    PlusInverse(a, mmapPtr);
    hide Plus;
  }

  // ----- what is reported does not depend on the mapping -----

  function DecodeBases(t: seq<Info>, decode: Word -> Word): (s: seq<Info>)
    ensures |s| == |t| && forall k :: 0 <= k < |t| ==> s[k] == t[k].(base := decode(t[k].base))
  {
    seq(|t|, k requires 0 <= k < |t| => t[k].(base := decode(t[k].base)))
  }

  // Undoing a displacement of every base.
  lemma DecodeUndoes(t: seq<Info>, s: seq<Info>, d: int, decode: Word -> Word)
    requires forall b: Word :: decode(b) == Plus(b, -d)
    ensures DecodeBases(s, decode) == t <==> s == ShiftBases(t, d)
  {
    hide Plus;
    forall k | 0 <= k < |t| && |s| == |t|
      ensures s[k].(base := decode(s[k].base)) == t[k] <==> s[k] == ShiftBase(t[k], d)
    {
      PlusInverse(t[k].base, d);
      PlusInverse(s[k].base, -d);
    }
    if s == ShiftBases(t, d) {
      assert forall k :: 0 <= k < |t| ==> DecodeBases(s, decode)[k] == t[k];
    }
    if DecodeBases(s, decode) == t {
      assert forall k :: 0 <= k < |t| ==> s[k] == ShiftBases(t, d)[k];
    }
  }

  // A displaced device is reported at its own addresses exactly when every register
  // block address is relative, or nothing was displaced.
  lemma DecodedListing(device: Rom, d: int, l: Level, decode: Word -> Word)
    requires forall b: Word :: decode(b) == Plus(b, -d)
    ensures DecodeBases(Flatten(Moved(device, d), Shift(l, d), -1, 0, Running), decode)
            == Flatten(device, l, -1, 0, Running)
            <==> RelativeCsrs(device, l) || d % TWO_64 == 0
  {
    hide Plus, Moved, Flatten, Shift;
    MovedListing(device, d, l, -1, 0, Running);
    DecodeUndoes(Flatten(device, l, -1, 0, Running), Flatten(Moved(device, d), Shift(l, d), -1, 0, Running), d, decode);
  }

  lemma DevmemArithmetic(mmapPtr: Word, start: Word, a: Word)
    ensures DevmemFirstDfh(mmapPtr, start, a) == Plus(a, DevmemShift(mmapPtr, start))
    ensures DevmemDecode(mmapPtr, start, a) == Plus(a, -DevmemShift(mmapPtr, start))
  {
    hide Plus, PageOffset;
    PlusPlus(a, -(mmapPtr as int), -(PageOffset(start) as int));
    PlusPlus(a, -(mmapPtr as int) - PageOffset(start), start);
    Wrapped(mmapPtr, a - start);
    PlusPlus(mmapPtr, a - start, PageOffset(start));
    PlusSwap(mmapPtr, a, PageOffset(start) - start);
  }

  lemma PlusSwap(a: Word, b: Word, d: int)
    ensures Plus(a, b + d) == Plus(b, a + d)
  {
  }

  // Reducing a displacement first makes no difference.
  lemma Wrapped(a: Word, d: int)
    ensures Plus(a, d % TWO_64) == Plus(a, d)
  {
    Cut(a + d, (a + d) / TWO_64, Plus(a, d), TWO_64);
    Cut(a + d % TWO_64, (a + d) / TWO_64 - d / TWO_64, Plus(a, d), TWO_64);
  }

  // The first header and a single component's base decode to what the user gave.
  lemma DevmemDecodesBack(mmapPtr: Word, start: Word, entry: Word)
    ensures DevmemDecode(mmapPtr, start, DevmemFirstDfh(mmapPtr, start, entry)) == entry
    ensures DevmemDecode(mmapPtr, start, DevmemSingleBase(mmapPtr, start)) == start
  {
    var d := DevmemShift(mmapPtr, start);
    DevmemArithmetic(mmapPtr, start, entry);
    DevmemArithmetic(mmapPtr, start, DevmemFirstDfh(mmapPtr, start, entry));
    PlusInverse(entry, d);
    DevmemArithmetic(mmapPtr, start, DevmemSingleBase(mmapPtr, start));
    PlusInverse(start, d);
    assert DevmemSingleBase(mmapPtr, start) == Plus(start, d);
  }

  // Wherever mmap puts the window: the walk unfolds the device's own tree exactly
  // when its branches are relative, and then reports the device's own listing
  // exactly when its register block addresses are relative too.
  lemma DevmemScanPlacementFree(device: Rom, mmapPtr: Word, start: Word, entry: Word, l: Level)
    requires Unfolds(device, entry, l)
    ensures var d, view := DevmemShift(mmapPtr, start), DevmemView(device, mmapPtr, start);
            && (Unfolds(view, DevmemFirstDfh(mmapPtr, start, entry), Shift(l, d))
                <==> RelativeBranches(device, l) || d % TWO_64 == 0)
            && (DecodeBases(Flatten(view, Shift(l, d), -1, 0, Running), b => DevmemDecode(mmapPtr, start, b))
                  == Flatten(device, l, -1, 0, Running)
                <==> RelativeCsrs(device, l) || d % TWO_64 == 0)
  {
    hide Plus, Moved, Flatten, Shift, Unfolds, DevmemDecode, DevmemFirstDfh, DevmemShift;
    var d := DevmemShift(mmapPtr, start);
    DevmemArithmetic(mmapPtr, start, entry);
    MovedUnfolds(device, d, entry, l);
    forall b: Word
      ensures DevmemDecode(mmapPtr, start, b) == Plus(b, -d)
    {
      DevmemArithmetic(mmapPtr, start, b);
    }
    DecodedListing(device, d, l, b => DevmemDecode(mmapPtr, start, b));
  }

  lemma UioScanPlacementFree(device: Rom, mmapPtr: Word, entry: Word, l: Level)
    requires Unfolds(device, entry, l)
    ensures UioDecode(mmapPtr, UioFirstDfh(mmapPtr, entry)) == entry
    ensures var view := UioView(device, mmapPtr);
            && (Unfolds(view, UioFirstDfh(mmapPtr, entry), Shift(l, mmapPtr))
                <==> RelativeBranches(device, l) || mmapPtr == 0)
            && (DecodeBases(Flatten(view, Shift(l, mmapPtr), -1, 0, Running), b => UioDecode(mmapPtr, b))
                  == Flatten(device, l, -1, 0, Running)
                <==> RelativeCsrs(device, l) || mmapPtr == 0)
  {
    hide Plus, Moved, Flatten, Shift, Unfolds;
    PlusSwap(mmapPtr, entry, 0);
    PlusInverse(entry, mmapPtr);
    MovedUnfolds(device, mmapPtr, entry, l);
    DecodedListing(device, mmapPtr, l, b => UioDecode(mmapPtr, b));
  }

  // ----- the scans -----

  // What both platforms do with one component: entry 0 gets its base and is unclaimed.
  method SingleScan(table: InterfaceInfoVec, base: Word)
    requires table.Valid() && table.Settled()
    modifies table
    ensures table.Valid() && table.Settled() && table.Tidy() && table.size == 1
    ensures table.Slots()[0] == (if old(table.size) > 0 then old(table.Slots()[0]) else ZERO_ENTRY)
                                .(base := base, mmioOpened := false, interruptOpened := false)
  {
    hide InterfaceInfoVec.Accounted, EntryValid;
    table.Resize(1);
    table.Put(0, table.Slots()[0].(base := base, mmioOpened := false, interruptOpened := false));
  }

  // The table of a walk is the device's own, decoded, for any tree the device has at
  // entry that is all relative.
  ghost predicate ReportsDevice(device: Rom, entry: Word, t: seq<Info>, decode: Word -> Word) {
    forall l :: Unfolds(device, entry, l) && RelativeBranches(device, l) && RelativeCsrs(device, l) ==>
                  DecodeBases(t, decode) == Flatten(device, l, -1, 0, Running)
  }

  // devmem_scan_interfaces: one component at start, or a walk from entry.
  method DevmemScanInterfaces(w: Walker, ghost device: Rom, mmapPtr: Word, start: Word, entry: Word, single: bool,
                              ghost root: Level)
    returns (status: Status)
    requires w.Valid() && w.stack.Live() == [] && w.rom == DevmemView(device, mmapPtr, start)
    requires !single ==> Unfolds(w.rom, DevmemFirstDfh(mmapPtr, start, entry), root)
    modifies w, w.stack, w.table
    ensures status == if single || 1 + Nest(root) <= CAPACITY then Done else OutOfBounds
    ensures status == Done ==> w.Valid() && w.stack.Live() == []
    ensures status == Done && !single ==>
              && w.table.Contents() == Flatten(w.rom, root, -1, 0, Running)
              && ReportsDevice(device, entry, w.table.Contents(), b => DevmemDecode(mmapPtr, start, b))
    ensures single ==> w.table.size == 1 && DevmemDecode(mmapPtr, start, w.table.Slots()[0].base) == start
  {
    hide DevmemDecode, ReportsDevice, Unfolds, Flatten;
    status := Done;
    if single {
      SingleScan(w.table, DevmemSingleBase(mmapPtr, start));
      DevmemDecodesBack(mmapPtr, start, entry);
    } else {
      DevmemReports(device, mmapPtr, start, entry, root);
      status := w.ScanMultiInterfaces(DevmemFirstDfh(mmapPtr, start, entry), root);
    }
  }

  lemma DevmemReports(device: Rom, mmapPtr: Word, start: Word, entry: Word, root: Level)
    requires Unfolds(DevmemView(device, mmapPtr, start), DevmemFirstDfh(mmapPtr, start, entry), root)
    ensures ReportsDevice(device, entry, Flatten(DevmemView(device, mmapPtr, start), root, -1, 0, Running),
                          b => DevmemDecode(mmapPtr, start, b))
  {
    var view, first := DevmemView(device, mmapPtr, start), DevmemFirstDfh(mmapPtr, start, entry);
    hide DevmemDecode, DevmemView, DevmemFirstDfh, Flatten, Unfolds;
    forall l | Unfolds(device, entry, l) && RelativeBranches(device, l) && RelativeCsrs(device, l)
      ensures DecodeBases(Flatten(view, root, -1, 0, Running), b => DevmemDecode(mmapPtr, start, b))
           == Flatten(device, l, -1, 0, Running)
    {
      DevmemScanPlacementFree(device, mmapPtr, start, entry, l);
      UnfoldingUnique(view, first, root, Shift(l, DevmemShift(mmapPtr, start)));
    }
  }

  // uio_scan_interfaces: likewise, with the device mapped from its beginning.
  method UioScanInterfaces(w: Walker, ghost device: Rom, mmapPtr: Word, start: Word, entry: Word, single: bool,
                           ghost root: Level)
    returns (status: Status)
    requires w.Valid() && w.stack.Live() == [] && w.rom == UioView(device, mmapPtr)
    requires !single ==> Unfolds(w.rom, UioFirstDfh(mmapPtr, entry), root)
    modifies w, w.stack, w.table
    ensures status == if single || 1 + Nest(root) <= CAPACITY then Done else OutOfBounds
    ensures status == Done ==> w.Valid() && w.stack.Live() == []
    ensures status == Done && !single ==>
              && w.table.Contents() == Flatten(w.rom, root, -1, 0, Running)
              && ReportsDevice(device, entry, w.table.Contents(), b => UioDecode(mmapPtr, b))
    ensures single ==> w.table.size == 1 && UioDecode(mmapPtr, w.table.Slots()[0].base) == start
  {
    hide ReportsDevice, Unfolds, Flatten;
    status := Done;
    if single {
      SingleScan(w.table, Plus(mmapPtr, start));
      PlusInverse(start, mmapPtr);
    } else {
      UioReports(device, mmapPtr, entry, root);
      status := w.ScanMultiInterfaces(UioFirstDfh(mmapPtr, entry), root);
    }
  }

  lemma UioReports(device: Rom, mmapPtr: Word, entry: Word, root: Level)
    requires Unfolds(UioView(device, mmapPtr), UioFirstDfh(mmapPtr, entry), root)
    ensures ReportsDevice(device, entry, Flatten(UioView(device, mmapPtr), root, -1, 0, Running),
            b => UioDecode(mmapPtr, b))
  {
    var view, first := UioView(device, mmapPtr), UioFirstDfh(mmapPtr, entry);
    hide UioDecode, UioView, UioFirstDfh, Flatten, Unfolds;
    forall l | Unfolds(device, entry, l) && RelativeBranches(device, l) && RelativeCsrs(device, l)
      ensures DecodeBases(Flatten(view, root, -1, 0, Running), b => UioDecode(mmapPtr, b))
              == Flatten(device, l, -1, 0, Running)
    {
      UioScanPlacementFree(device, mmapPtr, entry, l);
      UnfoldingUnique(view, first, root, Shift(l, mmapPtr));
    }
  }
}
