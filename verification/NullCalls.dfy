/** The interrupt thread reads the registered routine twice, to test it and to call
    it: when it calls NULL. */
module NullCalls {
  import opened Options
  import opened InterruptProtocol

  // ----- in a run -----

  // The thread moves before a routine is registered again.
  predicate MovesBeforeRestored(acts: seq<Action>) {
    acts != [] && acts[0] != Register(true) && (acts[0].Thread? || MovesBeforeRestored(acts[1..]))
  }

  // Some registration takes the routine away between the thread's test and its call,
  // and none puts one back before the call.
  predicate RevokedCall(s: State, acts: seq<Action>)
    decreases |acts|
  {
    && acts != [] && Next(s, acts[0]).Some?
    && ((acts[0] == Register(false) && s.thread.CallingIsr? && MovesBeforeRestored(acts[1..]))
        || RevokedCall(Next(s, acts[0]).value, acts[1..]))
  }

  // The same, or the routine is gone already.
  predicate Doomed(s: State, acts: seq<Action>) {
    RevokedCall(s, acts) || (s.thread.CallingIsr? && !s.isrSet && MovesBeforeRestored(acts))
  }

  lemma DoomedStep(s: State, acts: seq<Action>)
    requires Inv(s) && acts != [] && Next(s, acts[0]).Some?
    ensures var t := Next(s, acts[0]).value;
            t.thread.Crashed? || (Doomed(s, acts) <==> Doomed(t, acts[1..]))
    ensures Next(s, acts[0]).value.thread.Crashed? ==> Doomed(s, acts)
  {
    hide LockInv, SemInv;
    CallingStep(s, acts[0]);
    hide Next;
  }

  // How one step changes what the call depends on.
  lemma CallingStep(s: State, a: Action)
    requires Inv(s) && Next(s, a).Some?
    ensures var t := Next(s, a).value;
            && (t.thread.Crashed? <==> a.Thread? && s.thread.CallingIsr? && !s.isrSet)
            && (t.thread.CallingIsr? && !s.thread.CallingIsr? ==> t.isrSet)
            && (s.thread.CallingIsr? ==> t.isrSet == if a.Register? then a.nonNull else s.isrSet)
            && (s.thread.CallingIsr? ==> (t.thread.CallingIsr? <==> !a.Thread?))
  {
    hide LockInv, SemInv;
    if a.Continue? {
      AppKeepsThread(s);
    }
  }

  lemma {:induction false} DoomedIff(s: State, acts: seq<Action>)
    requires Inv(s) && !s.thread.Crashed? && Exec(s, acts).Some?
    ensures Exec(s, acts).value.thread.Crashed? <==> Doomed(s, acts)
    decreases |acts|
  {
    if acts != [] {
      hide Inv, Next, Doomed;
      DoomedStep(s, acts);
      InvKept(s, acts[0]);
      var t := Next(s, acts[0]).value;
      if t.thread.Crashed? {
        NothingAfterCrash(t, acts[1..]);
      } else {
        DoomedIff(t, acts[1..]);
      }
    }
  }

  lemma NothingAfterCrash(s: State, acts: seq<Action>)
    requires s.thread.Crashed? && Exec(s, acts).Some?
    ensures acts == []
  {
  }

  // A run ends in a call of NULL exactly when a registration took the routine away
  // from under the thread and the thread moved before another one.
  lemma NullCallIff(s: State, acts: seq<Action>)
    requires Initial(s) && Exec(s, acts).Some?
    ensures Exec(s, acts).value.thread.Crashed? <==> RevokedCall(s, acts)
  {
    DoomedIff(s, acts);
  }

  // ----- in terms of the application's calls -----

  function CallOf(a: Action): seq<Action> {
    if a.Thread? || a.Continue? then [] else [a]
  }

  function Calls(acts: seq<Action>): seq<Action> {
    if acts == [] then [] else CallOf(acts[0]) + Calls(acts[1..])
  }

  // The last call that registered anything registered a routine.
  predicate RoutineSet(calls: seq<Action>) {
    calls != [] &&
    var last := calls[|calls| - 1];
    if last.Register? then last.nonNull else RoutineSet(calls[..|calls| - 1])
  }

  // Call k replaces a routine by NULL in a session that has been enabled before.
  predicate Replaces(calls: seq<Action>, k: nat) {
    k < |calls| && calls[k] == Register(false)
    && RoutineSet(calls[..k]) && Enable in calls[..k] && Cleanup !in calls[..k]
  }

  ghost predicate Risky(calls: seq<Action>) {
    exists k: nat :: Replaces(calls, k)
  }

  // Some run with these calls, or with the first of them, ends in a call of NULL.
  ghost predicate CanCallNull(calls: seq<Action>) {
    exists s, acts :: Initial(s) && Exec(s, acts).Some? && Exec(s, acts).value.thread.Crashed? && Calls(acts) <= calls
  }

  lemma RiskyExtends(calls: seq<Action>, more: seq<Action>)
    requires Risky(calls)
    ensures Risky(calls + more)
  {
    var k: nat :| Replaces(calls, k);
    assert (calls + more)[..k] == calls[..k];
    assert Replaces(calls + more, k);
  }

  // What a state owes to the calls made so far.
  ghost predicate Owes(s: State, calls: seq<Action>) {
    && (Booting(s.app) ==> calls == [])
    && (!s.app.Boot? ==> s.isrSet == RoutineSet(calls))
    && (!s.app.Boot? && s.enabled ==> Enable in calls)
    && (InFlight(s.thread) == 1 ==> Enable in calls)
    && (s.app.Idle? || EnableBody(s.app) ==> Cleanup !in calls)
    && (s.thread.Crashed? || (s.thread.CallingIsr? && !s.isrSet) ==> Risky(calls))
  }

  lemma OwesKept(s: State, a: Action, calls: seq<Action>)
    requires Inv(s) && Owes(s, calls) && Next(s, a).Some?
    ensures Owes(Next(s, a).value, calls + CallOf(a))
  {
    if a.Thread? {
      assert calls + [] == calls;
      ThreadOwes(s, a.outcome, calls);
    } else if a.Continue? {
      assert calls + [] == calls;
      AppOwes(s, calls);
    } else {
      CallOwes(s, a, calls);
    }
  }

  lemma ThreadOwes(s: State, outcome: Outcome, calls: seq<Action>)
    requires Inv(s) && Owes(s, calls) && ThreadStep(s, outcome).Some?
    ensures Owes(ThreadStep(s, outcome).value, calls)
  {
    hide LockInv, SemInv, Risky, RoutineSet;
  }

  lemma AppOwes(s: State, calls: seq<Action>)
    requires Inv(s) && Owes(s, calls) && AppStep(s).Some? && !s.thread.Crashed?
    ensures Owes(AppStep(s).value, calls)
  {
    hide LockInv, SemInv, Risky;
    AppKeepsThread(s);
  }

  lemma CallOwes(s: State, a: Action, calls: seq<Action>)
    requires Inv(s) && Owes(s, calls) && Next(s, a).Some? && !a.Thread? && !a.Continue?
    ensures Owes(Next(s, a).value, calls + [a])
  {
    hide LockInv, SemInv, Risky;
    assert (calls + [a])[..|calls|] == calls;
    if Risky(calls) {
      RiskyExtends(calls, [a]);
    }
    if a == Register(false) && s.thread.CallingIsr? && s.isrSet {
      Replaced(calls);
    }
  }

  lemma Replaced(calls: seq<Action>)
    requires RoutineSet(calls) && Enable in calls && Cleanup !in calls
    ensures Risky(calls + [Register(false)])
  {
    assert (calls + [Register(false)])[..|calls|] == calls;
    assert Replaces(calls + [Register(false)], |calls|);
  }

  lemma {:induction false} OwesRun(s: State, acts: seq<Action>, calls: seq<Action>)
    requires Inv(s) && Owes(s, calls) && Exec(s, acts).Some?
    ensures Owes(Exec(s, acts).value, calls + Calls(acts))
    decreases |acts|
  {
    hide Inv, Owes, Next, CallOf;
    if acts == [] {
      assert calls + [] == calls;
    } else {
      OwesKept(s, acts[0], calls);
      InvKept(s, acts[0]);
      OwesRun(Next(s, acts[0]).value, acts[1..], calls + CallOf(acts[0]));
      assert calls + CallOf(acts[0]) + Calls(acts[1..]) == calls + Calls(acts);
    }
  }

  // ----- an interleaving for every risky sequence of calls -----

  ghost predicate ReachableBy(s: State, calls: seq<Action>) {
    exists s0, acts :: Initial(s0) && Exec(s0, acts) == Some(s) && Calls(acts) == calls
  }

  lemma {:induction false} CallsSnoc(acts: seq<Action>, a: Action)
    ensures Calls(acts + [a]) == Calls(acts) + CallOf(a)
    decreases |acts|
  {
    hide CallOf;
    if acts == [] {
      assert [a][1..] == [] && CallOf(a) + [] == [] + CallOf(a);
    } else {
      assert (acts + [a])[1..] == acts[1..] + [a];
      CallsSnoc(acts[1..], a);
      assert CallOf(acts[0]) + (Calls(acts[1..]) + CallOf(a)) == CallOf(acts[0]) + Calls(acts[1..]) + CallOf(a);
    }
  }

  lemma GoBy(s: State, a: Action, calls: seq<Action>) returns (t: State)
    requires ReachableBy(s, calls) && Next(s, a).Some?
    ensures t == Next(s, a).value && ReachableBy(t, calls + CallOf(a))
  {
    hide Next, CallOf;
    t := Next(s, a).value;
    var s0, acts :| Initial(s0) && Exec(s0, acts) == Some(s) && Calls(acts) == calls;
    ExecSnoc(s0, acts, a);
    CallsSnoc(acts, a);
  }

  // A step that is no call.
  lemma Quietly(s: State, a: Action, calls: seq<Action>) returns (t: State)
    requires ReachableBy(s, calls) && (a.Thread? || a.Continue?) && Next(s, a).Some?
    ensures t == Next(s, a).value && ReachableBy(t, calls)
  {
    hide Next;
    t := GoBy(s, a, calls);
    assert calls + [] == calls;
  }

  lemma Opened() returns (s: State)
    ensures ReachableBy(s, []) && s == State(Locking, Idle, Free, false, 0, 1, false, false)
  {
    hide ReachableBy, ThreadStep;
    s := State(NotCreated, Boot, Free, false, 0, 0, false, false);
    InitialBy(s);
    s := Quietly(s, Continue, []);
    s := Quietly(s, Continue, []);
    s := Quietly(s, Continue, []);
    s := Quietly(s, Continue, []);
  }

  lemma InitialBy(s: State)
    requires Initial(s)
    ensures ReachableBy(s, [])
  {
    hide Next;
    assert Exec(s, []) == Some(s) && Calls([]) == [];
  }

  // The application between calls, in a running session.
  predicate Settled(s: State, calls: seq<Action>) {
    s.app.Idle? && s.lock.Free? && !s.exitFlag && s.tableSize > 0 && s.isrSet == RoutineSet(calls)
  }

  // One call made to its end while the thread stands still.
  lemma CallAlone(s: State, c: Action, calls: seq<Action>) returns (t: State)
    requires ReachableBy(s, calls) && Settled(s, calls) && !s.thread.Crashed?
    requires c == Enable || c == Disable || c.Register?
    ensures ReachableBy(t, calls + [c]) && Settled(t, calls + [c]) && t.thread == s.thread
  {
    hide ReachableBy, ThreadStep;
    assert (calls + [c])[..|calls|] == calls;
    t := GoBy(s, c, calls);
    if c == Enable {
      t := Quietly(t, Continue, calls + [c]);
      t := Quietly(t, Continue, calls + [c]);
    }
  }

  predicate Simple(calls: seq<Action>) {
    forall c :: c in calls ==> c == Enable || c == Disable || c.Register?
  }

  lemma {:induction false} CallsAlone(s: State, calls: seq<Action>, more: seq<Action>) returns (t: State)
    requires ReachableBy(s, calls) && Settled(s, calls) && !s.thread.Crashed? && Simple(more)
    ensures ReachableBy(t, calls + more) && Settled(t, calls + more) && t.thread == s.thread
    decreases |more|
  {
    hide ReachableBy, Settled;
    if more == [] {
      t := s;
      assert calls + [] == calls;
    } else {
      assert more[0] in more;
      t := CallAlone(s, more[0], calls);
      t := CallsAlone(t, calls + [more[0]], more[1..]);
      assert calls + [more[0]] + more[1..] == calls + more;
    }
  }

  // An enable during which the thread runs from the top of its loop into the
  // iteration.
  lemma EnableObservedAt(s: State, calls: seq<Action>) returns (t: State)
    requires ReachableBy(s, calls) && Settled(s, calls) && s.thread.Locking?
    ensures ReachableBy(t, calls + [Enable]) && Settled(t, calls + [Enable]) && t.thread.Opening?
  {
    hide ReachableBy;
    assert (calls + [Enable])[..|calls|] == calls;
    t := GoBy(s, Enable, calls);
    t := Quietly(t, Thread(Succeeds), calls + [Enable]);
    t := Quietly(t, Thread(Succeeds), calls + [Enable]);
    t := Quietly(t, Thread(Succeeds), calls + [Enable]);
    t := Quietly(t, Thread(Succeeds), calls + [Enable]);
    t := Quietly(t, Continue, calls + [Enable]);
    t := Quietly(t, Continue, calls + [Enable]);
  }

  // From the iteration to the NULL call.
  lemma RevokeAndCall(s: State, calls: seq<Action>) returns (t: State)
    requires ReachableBy(s, calls) && Settled(s, calls) && s.thread.Opening? && RoutineSet(calls)
    ensures ReachableBy(t, calls + [Register(false)]) && t.thread.Crashed?
  {
    hide ReachableBy;
    t := Quietly(s, Thread(Succeeds), calls);
    t := Quietly(t, Thread(Succeeds), calls);
    t := Quietly(t, Thread(Succeeds), calls);
    t := Quietly(t, Thread(Succeeds), calls);
    t := GoBy(t, Register(false), calls);
    t := Quietly(t, Thread(Succeeds), calls + [Register(false)]);
  }

  lemma RiskyCanCallNull(calls: seq<Action>, k: nat)
    requires Replaces(calls, k) && Simple(calls[..k])
    ensures CanCallNull(calls)
  {
    hide ReachableBy, RoutineSet, Simple, CanCallNull;
    var some := calls[..k];
    var e :| 0 <= e < k && some[e] == Enable;
    SimpleParts(some, e);
    assert some[..e] + [Enable] + some[e + 1..] == some;
    var s := ReachCall(some[..e], some[e + 1..]);
    assert some + [Register(false)] == calls[..k + 1];
    CrashedBy(s, calls[..k + 1], calls);
  }

  // The thread stands still but for one iteration, entered during the given enable.
  lemma ReachCall(before: seq<Action>, after: seq<Action>) returns (s: State)
    requires Simple(before) && Simple(after) && RoutineSet(before + [Enable] + after)
    ensures ReachableBy(s, before + [Enable] + after + [Register(false)]) && s.thread.Crashed?
  {
    hide ReachableBy, Settled, RoutineSet, Simple;
    s := Opened();
    SettledAtFirst(s);
    s := CallsAlone(s, [], before);
    assert [] + before == before;
    s := EnableObservedAt(s, before);
    s := CallsAlone(s, before + [Enable], after);
    s := RevokeAndCall(s, before + [Enable] + after);
  }

  lemma SimpleParts(calls: seq<Action>, e: nat)
    requires Simple(calls) && e < |calls|
    ensures Simple(calls[..e]) && Simple(calls[e + 1..])
  {
    assert forall c :: c in calls[..e] ==> c in calls;
    assert forall c :: c in calls[e + 1..] ==> c in calls;
  }

  lemma SettledAtFirst(s: State)
    requires s == State(Locking, Idle, Free, false, 0, 1, false, false)
    ensures Settled(s, [])
  {
  }

  lemma CrashedBy(s: State, some: seq<Action>, calls: seq<Action>)
    requires ReachableBy(s, some) && s.thread.Crashed? && some <= calls
    ensures CanCallNull(calls)
  {
    var s0, acts :| Initial(s0) && Exec(s0, acts) == Some(s) && Calls(acts) == some;
  }

  // Some interleaving of the application's calls with the thread calls NULL exactly
  // when one of the calls, made after an enable, replaces a routine by NULL.
  lemma CanCallNullIff(calls: seq<Action>)
    requires forall a :: a in calls ==> !a.Thread? && !a.Continue?
    ensures CanCallNull(calls) <==> Risky(calls)
  {
    hide Risky, Exec, Replaces, RoutineSet;
    if CanCallNull(calls) {
      CrashWasRisky(calls);
    }
    if Risky(calls) {
      var k := FirstRisk(calls);
      RiskyCanCallNull(calls, k);
    }
  }

  lemma CrashWasRisky(calls: seq<Action>)
    requires CanCallNull(calls)
    ensures Risky(calls)
  {
    hide Risky, Exec, RoutineSet, Next;
    var s, acts :| Initial(s) && Exec(s, acts).Some? && Exec(s, acts).value.thread.Crashed? && Calls(acts) <= calls;
    InitialOwes(s);
    OwesRun(s, acts, []);
    assert [] + Calls(acts) == Calls(acts);
    RiskyExtends(Calls(acts), calls[|Calls(acts)|..]);
    assert Calls(acts) + calls[|Calls(acts)|..] == calls;
  }

  lemma InitialOwes(s: State)
    requires Initial(s)
    ensures Inv(s) && Owes(s, [])
  {
  }

  lemma FirstRisk(calls: seq<Action>) returns (k: nat)
    requires Risky(calls) && forall a :: a in calls ==> !a.Thread? && !a.Continue?
    ensures Replaces(calls, k) && Simple(calls[..k])
  {
    hide RoutineSet;
    k :| Replaces(calls, k);
    assert forall a :: a in calls[..k] ==> a in calls && a != Cleanup;
  }

  // ----- an instance -----

  lemma NullCallHappens() returns (s: State)
    ensures Reachable(s) && s.thread.Crashed?
  {
    var calls := [Register(true), Enable, Register(false)];
    assert RoutineSet(calls[..1]) && calls[..2][..1] == calls[..1] && calls[..2][1] == Enable;
    assert Replaces(calls, 2);
    CanCallNullIff(calls);
    var s0, acts :| Initial(s0) && Exec(s0, acts).Some? && Exec(s0, acts).value.thread.Crashed? && Calls(acts) <= calls;
    s := Exec(s0, acts).value;
    hide Exec, Calls;
  }
}
