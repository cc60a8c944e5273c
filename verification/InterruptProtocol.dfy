/** The UIO interrupt thread and the application thread that drives it, as a state
    machine whose steps are single accesses to shared state.

    The application enables, disables and registers for interface 0 and then cleans
    up, once. Each step of the interrupt thread carries the outcome of the system
    call it makes, if any; every interleaving and every outcome is a run. */
module InterruptProtocol {
  import opened Options

  // Where uio_interrupt_thread stands: the next thing it does. Reading holds the
  // read lock; Unlocking and Checking carry the local copy of the exit flag.
  datatype ThreadPc =
    | NotCreated
    | Locking
    | Reading
    | Unlocking(sawExit: bool)
    | Checking(sawExit: bool)
    | Opening | Arming | Polling | TestingIsr | CallingIsr | Closing
    | Waiting
    | Exited
    | Crashed // called a NULL interrupt service routine

  // Where the application thread stands. Got carries the semaphore value it read.
  datatype AppPc =
    | Boot | InitSem | InitFlags | Creating
    | Idle
    | EnableGet | EnablePost(got: nat)
    | CleanupLock | CleanupSet | CleanupUnlock | CleanupPost
    | Joining | FreeingTable | Finished

  datatype Lock = Free | ReadLocked | WriteLocked

  datatype State = State(thread: ThreadPc, app: AppPc, lock: Lock, exitFlag: bool, sem: nat,
                         tableSize: nat, enabled: bool, isrSet: bool)

  // A system call fails, succeeds, or (poll) times out.
  datatype Outcome = Fails | Succeeds | TimesOut

  datatype Action =
    | Thread(outcome: Outcome)
    | Enable | Disable | Register(nonNull: bool) | Cleanup // calls made when idle
    | Continue // the application's next step inside init or a call

  // ----- steps -----

  // None where the thread is blocked or gone.
  function ThreadStep(s: State, outcome: Outcome): Option<State> {
    match s.thread
    case Locking =>
      if outcome.Fails? then Some(s.(thread := Exited))
      else if s.lock.WriteLocked? then None
      else Some(s.(thread := Reading, lock := ReadLocked))
    case Reading => Some(s.(thread := Unlocking(s.exitFlag)))
    case Unlocking(sawExit) => Some(s.(thread := Checking(sawExit), lock := Free))
    case Checking(sawExit) =>
      Some(s.(thread := if sawExit then Exited else if s.enabled then Opening else Waiting))
    case Opening => Some(s.(thread := if outcome.Fails? then Exited else Arming))
    case Arming => Some(s.(thread := if outcome.Fails? then Exited else Polling))
    case Polling => Some(s.(thread := if outcome.Succeeds? then TestingIsr else Closing))
    case TestingIsr => Some(s.(thread := if s.isrSet then CallingIsr else Exited))
    case CallingIsr => Some(s.(thread := if s.isrSet then Closing else Crashed))
    case Closing => Some(s.(thread := Locking))
    case Waiting =>
      if outcome.Fails? then Some(s.(thread := Exited))
      else if s.sem == 0 then None
      else Some(s.(thread := Locking, sem := s.sem - 1))
    case _ => None
  }

  // The cleanup asks for the semaphore's value only if its unlock has failed: after
  // a successful one it compares the 0 it began with, and so always posts.
  function AppStep(s: State): Option<State> {
    match s.app
    case Boot => Some(s.(app := InitSem, tableSize := 1, enabled := false, isrSet := false))
    case InitSem => Some(s.(app := InitFlags, sem := 0))
    case InitFlags => Some(s.(app := Creating, exitFlag := false))
    case Creating => Some(s.(app := Idle, thread := Locking))
    case EnableGet => Some(s.(app := EnablePost(s.sem)))
    case EnablePost(got) => Some(s.(app := Idle, sem := if got <= 0 then s.sem + 1 else s.sem))
    case CleanupLock => if !s.lock.Free? then None else Some(s.(app := CleanupSet, lock := WriteLocked))
    case CleanupSet => Some(s.(app := CleanupUnlock, exitFlag := true))
    case CleanupUnlock => Some(s.(app := CleanupPost, lock := Free))
    case CleanupPost => Some(s.(app := Joining, sem := s.sem + 1))
    case Joining => if s.thread.Exited? then Some(s.(app := FreeingTable)) else None
    case FreeingTable => Some(s.(app := Finished, tableSize := 0))
    case _ => None
  }

  // The process ends with a crash: nobody moves after it.
  function Next(s: State, a: Action): Option<State> {
    if s.thread.Crashed? then None
    else
      match a
      case Thread(outcome) => ThreadStep(s, outcome)
      case Continue => AppStep(s)
      case Enable =>
        if !s.app.Idle? then None
        else if s.tableSize > 0 then Some(s.(app := EnableGet, enabled := true)) else Some(s)
      case Disable => if !s.app.Idle? then None else Some(if s.tableSize > 0 then s.(enabled := false) else s)
      case Register(nonNull) => if !s.app.Idle? then None
          else Some(if s.tableSize > 0 then s.(isrSet := nonNull) else s)
      case Cleanup => if !s.app.Idle? then None else Some(s.(app := CleanupLock))
  }

  // ----- runs -----

  predicate Initial(s: State) {
    s.thread.NotCreated? && s.app.Boot? && s.lock.Free? && s.tableSize == 0
  }

  function Exec(s: State, acts: seq<Action>): Option<State>
    decreases |acts|
  {
    if acts == [] then Some(s)
    else
      match Next(s, acts[0])
      case None => None
      case Some(u) => Exec(u, acts[1..])
  }

  ghost predicate Reachable(s: State) {
    exists s0, acts :: Initial(s0) && Exec(s0, acts) == Some(s)
  }

  // ----- the invariant -----

  predicate HoldsRead(pc: ThreadPc) {
    pc.Reading? || pc.Unlocking?
  }

  predicate HoldsWrite(pc: AppPc) {
    pc.CleanupSet? || pc.CleanupUnlock?
  }

  predicate ExitSet(pc: AppPc) {
    pc.CleanupUnlock? || pc.CleanupPost? || pc.Joining? || pc.FreeingTable? || pc.Finished?
  }

  predicate Booting(pc: AppPc) {
    pc.Boot? || pc.InitSem? || pc.InitFlags? || pc.Creating?
  }

  // Alive, and reads the interface table in some iteration.
  predicate Running(pc: ThreadPc) {
    !pc.NotCreated? && !pc.Exited? && !pc.Crashed?
  }

  // May block on the semaphore before it looks at the exit flag again.
  predicate Stale(pc: ThreadPc) {
    pc.Waiting? || (pc.Unlocking? && !pc.sawExit) || (pc.Checking? && !pc.sawExit)
  }

  predicate SawExit(pc: ThreadPc) {
    (pc.Unlocking? || pc.Checking?) && pc.sawExit
  }

  predicate Inv(s: State) {
    LockInv(s) && ControlInv(s) && SemInv(s)
  }

  predicate LockInv(s: State) {
    && (s.lock.ReadLocked? <==> HoldsRead(s.thread))
    && (s.lock.WriteLocked? <==> HoldsWrite(s.app))
  }

  // The thread lives within the session, the table outlives the thread, and the
  // exit flag is set during the session only by the cleanup.
  predicate ControlInv(s: State) {
    && (s.thread.NotCreated? <==> Booting(s.app))
    && (s.app.FreeingTable? || s.app.Finished? ==> s.thread.Exited?)
    && (s.app.Finished? ==> s.tableSize == 0)
    && (!s.app.Boot? && !s.app.Finished? ==> s.tableSize == 1)
    && (!Booting(s.app) ==> s.exitFlag == ExitSet(s.app))
    && (s.app.Creating? ==> !s.exitFlag)
    && (SawExit(s.thread) ==> s.exitFlag)
  }

  predicate EnableBody(pc: AppPc) {
    pc.EnableGet? || pc.EnablePost?
  }

  // The cleanup has posted.
  predicate Posted(pc: AppPc) {
    pc.Joining? || pc.FreeingTable? || pc.Finished?
  }

  // The semaphore is binary until the cleanup posts; the value an enable reads is an
  // upper bound until it is used; and a token waits for whoever would otherwise sleep
  // through an enable or an exit.
  predicate SemInv(s: State) {
    && (s.app.Boot? || s.app.InitSem? || s.sem <= if Posted(s.app) then 2 else 1)
    && (s.enabled && s.thread.Waiting? && !EnableBody(s.app) ==> s.sem >= 1)
    && match s.app
       case InitFlags => s.sem == 0
       case Creating => s.sem == 0
       case EnableGet => s.enabled
       case EnablePost(got) => s.enabled && s.sem <= got <= 1 && (s.thread.Waiting? ==> s.sem == got)
       case Joining => Stale(s.thread) ==> s.sem >= 1
       case _ => true
  }

  lemma LockKept(s: State, a: Action)
    requires LockInv(s) && Next(s, a).Some?
    requires ControlInv(s)
    ensures LockInv(Next(s, a).value)
  {
  }

  lemma AppKeepsThread(s: State)
    requires AppStep(s).Some?
    ensures s.app.Creating? || AppStep(s).value.thread == s.thread
    ensures s.app.Creating? ==> AppStep(s).value.thread == Locking
  {
  }

  // What one step of the thread can do to what the invariants speak of.
  lemma ThreadStepShape(s: State, outcome: Outcome)
    requires ThreadStep(s, outcome).Some?
    ensures var t := ThreadStep(s, outcome).value;
            && t.app == s.app && t.exitFlag == s.exitFlag && t.tableSize == s.tableSize && t.enabled == s.enabled
            && Running(s.thread) && !t.thread.NotCreated?
            && t.sem <= s.sem
            && (t.thread.Waiting? ==> t.sem == s.sem && Stale(s.thread) && !s.enabled)
            && (Stale(t.thread) ==> t.sem == s.sem && (Stale(s.thread) || !s.exitFlag))
            && (SawExit(t.thread) ==> SawExit(s.thread) || s.exitFlag)
  {
  }

  lemma ThreadKeepsControl(s: State, outcome: Outcome)
    requires ControlInv(s) && ThreadStep(s, outcome).Some?
    ensures ControlInv(ThreadStep(s, outcome).value)
  {
    ThreadStepShape(s, outcome);
    hide ThreadStep, SawExit, Booting, ExitSet, Stale;
    assert Running(s.thread) ==> !s.thread.NotCreated? && !s.thread.Exited?;
  }

  lemma AppKeepsControl(s: State)
    requires ControlInv(s) && !s.thread.Crashed? && AppStep(s).Some?
    ensures ControlInv(AppStep(s).value)
  {
    AppKeepsThread(s);
    assert Running(Locking) && !SawExit(Locking);
    hide Running, SawExit;
  }

  lemma ControlKept(s: State, a: Action)
    requires ControlInv(s) && Next(s, a).Some?
    ensures ControlInv(Next(s, a).value)
  {
    if a.Thread? {
      ThreadKeepsControl(s, a.outcome);
    } else if a.Continue? {
      AppKeepsControl(s);
    }
    hide ThreadStep, AppStep;
  }

  lemma ThreadKeepsSem(s: State, outcome: Outcome)
    requires ControlInv(s) && SemInv(s) && ThreadStep(s, outcome).Some?
    ensures SemInv(ThreadStep(s, outcome).value)
  {
    ThreadStepShape(s, outcome);
    assert Running(s.thread) && !Booting(s.app);
    hide ThreadStep, Stale, Running, SawExit;
  }

  lemma AppKeepsSem(s: State)
    requires SemInv(s) && !s.thread.Crashed? && AppStep(s).Some?
    requires Booting(s.app) ==> !s.thread.Waiting? && !Stale(s.thread)
    ensures SemInv(AppStep(s).value)
  {
    hide Stale;
    AppKeepsThread(s);
    LockingIsFresh();
  }

  lemma LockingIsFresh()
    ensures !Stale(Locking)
  {
  }

  lemma SemKept(s: State, a: Action)
    requires ControlInv(s) && SemInv(s) && Next(s, a).Some?
    ensures SemInv(Next(s, a).value)
  {
    if a.Thread? {
      ThreadKeepsSem(s, a.outcome);
    } else if a.Continue? {
      AppKeepsSem(s);
    }
    hide ThreadStep, AppStep, ControlInv;
  }

  lemma InvKept(s: State, a: Action)
    requires Inv(s) && Next(s, a).Some?
    ensures Inv(Next(s, a).value)
  {
    hide Next, LockInv, SemInv;
    LockKept(s, a);
    ControlKept(s, a);
    SemKept(s, a);
  }

  lemma {:induction false} InvRun(s: State, acts: seq<Action>)
    requires Inv(s) && Exec(s, acts).Some?
    ensures Inv(Exec(s, acts).value)
    decreases |acts|
  {
    hide Next, Inv;
    if acts != [] {
      InvKept(s, acts[0]);
      InvRun(Next(s, acts[0]).value, acts[1..]);
    }
  }

  lemma ReachableInv(s: State)
    requires Reachable(s)
    ensures Inv(s)
  {
    var s0, acts :| Initial(s0) && Exec(s0, acts) == Some(s);
    InvRun(s0, acts);
  }

  lemma {:induction false} ExecSnoc(s: State, acts: seq<Action>, a: Action)
    requires Exec(s, acts).Some?
    ensures Exec(s, acts + [a]) == Next(Exec(s, acts).value, a)
    decreases |acts|
  {
    hide Next;
    if acts == [] {
      assert [a][1..] == [];
    } else {
      assert (acts + [a])[1..] == acts[1..] + [a];
      ExecSnoc(Next(s, acts[0]).value, acts[1..], a);
    }
  }

  lemma Go(s: State, a: Action) returns (t: State)
    requires Reachable(s) && Next(s, a).Some?
    ensures t == Next(s, a).value && Reachable(t)
  {
    t := Next(s, a).value;
    var s0, acts :| Initial(s0) && Exec(s0, acts) == Some(s);
    ExecSnoc(s0, acts, a);
  }

  // The exit flag is never read while it is being written.
  lemma LockExclusive(s: State)
    requires Reachable(s)
    ensures !(HoldsRead(s.thread) && HoldsWrite(s.app))
  {
    ReachableInv(s);
  }

  // ----- a session -----

  lemma SessionOpened() returns (s: State)
    ensures Reachable(s) && s == State(Locking, Idle, Free, false, 0, 1, false, false)
  {
    var s0 := State(NotCreated, Boot, Free, false, 0, 0, false, false);
    assert Exec(s0, []) == Some(s0) && Initial(s0) && Reachable(s0);
    hide Reachable, ThreadStep;
    s := Go(s0, Continue);
    s := Go(s, Continue);
    s := Go(s, Continue);
    s := Go(s, Continue);
  }

  // A routine registered, the interrupt enabled, the thread about to start.
  lemma SessionEnabled() returns (s: State)
    ensures Reachable(s) && s == State(Locking, Idle, Free, false, 1, 1, true, true)
  {
    hide Reachable, ThreadStep;
    s := SessionOpened();
    s := Go(s, Register(true));
    s := Go(s, Enable);
    s := Go(s, Continue);
    s := Go(s, Continue);
  }

  // ----- wake-ups -----

  lemma SemaphoreBounded(s: State)
    requires Reachable(s) && !s.app.Boot? && !s.app.InitSem?
    ensures s.sem <= if Posted(s.app) then 2 else 1
  {
    ReachableInv(s);
  }

  // The cleanup's post keeps the semaphore binary exactly when every earlier token
  // has been taken.
  lemma CleanupPostBinaryIff(s: State)
    requires Reachable(s) && s.app.CleanupPost? && Next(s, Continue).Some?
    ensures Next(s, Continue).value.sem <= 1 <==> s.sem == 0
    ensures Next(s, Continue).value.sem <= 2
  {
    ReachableInv(s);
  }

  // Enabling and cleaning up before the thread takes its token makes two.
  lemma CleanupPostsTwice() returns (s: State)
    ensures Reachable(s) && s.app.Joining? && s.sem == 2
  {
    hide Reachable, ThreadStep;
    s := SessionEnabled();
    s := Go(s, Cleanup);
    s := Go(s, Continue);
    s := Go(s, Continue);
    s := Go(s, Continue);
    s := Go(s, Continue);
  }

  // Outside an enable call, a thread asleep while its interface is enabled has a
  // token to wake up on.
  lemma EnableNeverLost(s: State)
    requires Reachable(s) && !EnableBody(s.app)
    requires s.thread.Waiting? && s.enabled
    ensures s.sem >= 1
  {
    ReachableInv(s);
  }

  // After cleanup has set the exit flag and posted, the thread is never blocked.
  lemma NoLostShutdown(s: State, outcome: Outcome)
    requires Reachable(s) && s.app.Joining? && Running(s.thread)
    ensures ThreadStep(s, outcome).Some?
  {
    ReachableInv(s);
  }

  // ----- tokens -----

  predicate Posts(s: State, a: Action) {
    a.Continue? && ((s.app.EnablePost? && s.app.got == 0) || s.app.CleanupPost?)
  }

  // The thread wakes up.
  predicate Wakes(s: State, a: Action) {
    a.Thread? && s.thread.Waiting? && !a.outcome.Fails?
  }

  function PostCount(s: State, acts: seq<Action>): nat
    decreases |acts|
  {
    if acts == [] || Next(s, acts[0]).None? then 0
    else (if Posts(s, acts[0]) then 1 else 0) + PostCount(Next(s, acts[0]).value, acts[1..])
  }

  function WakeCount(s: State, acts: seq<Action>): nat
    decreases |acts|
  {
    if acts == [] || Next(s, acts[0]).None? then 0
    else (if Wakes(s, acts[0]) then 1 else 0) + WakeCount(Next(s, acts[0]).value, acts[1..])
  }

  // Each wake-up takes the token of one post, and what is left is the semaphore.
  lemma {:induction false} TokensConserved(s: State, acts: seq<Action>)
    requires !s.app.Boot? && !s.app.InitSem? && Exec(s, acts).Some?
    ensures s.sem + PostCount(s, acts) == WakeCount(s, acts) + Exec(s, acts).value.sem
    decreases |acts|
  {
    if acts != [] {
      TokenStep(s, acts[0]);
      hide Next, Posts, Wakes;
      TokensConserved(Next(s, acts[0]).value, acts[1..]);
    }
  }

  lemma TokenStep(s: State, a: Action)
    requires !s.app.Boot? && !s.app.InitSem? && Next(s, a).Some?
    ensures var t := Next(s, a).value;
            && !t.app.Boot? && !t.app.InitSem?
            && s.sem + (if Posts(s, a) then 1 else 0) == (if Wakes(s, a) then 1 else 0) + t.sem
  {
    if a.Thread? {
      ThreadTokens(s, a.outcome);
    } else if a.Continue? {
      AppTokens(s);
    }
    hide ThreadStep, AppStep;
  }

  lemma ThreadTokens(s: State, outcome: Outcome)
    requires ThreadStep(s, outcome).Some?
    ensures var t := ThreadStep(s, outcome).value;
            t.app == s.app && s.sem == t.sem + if Wakes(s, Thread(outcome)) then 1 else 0
  {
  }

  lemma AppTokens(s: State)
    requires AppStep(s).Some? && !s.app.Boot? && !s.app.InitSem?
    ensures var t := AppStep(s).value;
            !t.app.Boot? && !t.app.InitSem? && t.sem == s.sem + if Posts(s, Continue) then 1 else 0
  {
  }

  // ----- shutdown -----

  // Steps the thread has left once the exit flag is set.
  function ThreadRank(pc: ThreadPc): nat {
    match pc
    case Unlocking(sawExit) => if sawExit then 2 else 12
    case Checking(sawExit) => if sawExit then 1 else 11
    case Opening => 10
    case Arming => 9
    case Polling => 8
    case TestingIsr => 7
    case CallingIsr => 6
    case Closing => 5
    case Waiting => 5
    case Locking => 4
    case Reading => 3
    case _ => 0
  }

  function AppRank(pc: AppPc): nat {
    match pc
    case CleanupUnlock => 4
    case CleanupPost => 3
    case Joining => 2
    case FreeingTable => 1
    case _ => 0
  }

  lemma ThreadRankFalls(s: State, outcome: Outcome)
    requires s.exitFlag && ThreadStep(s, outcome).Some?
    ensures ThreadRank(ThreadStep(s, outcome).value.thread) < ThreadRank(s.thread)
  {
  }

  lemma ShutdownRankFalls(s: State, a: Action)
    requires s.exitFlag && ExitSet(s.app) && Next(s, a).Some?
    ensures var t := Next(s, a).value;
            && t.exitFlag && ExitSet(t.app)
            && ThreadRank(t.thread) + AppRank(t.app) < ThreadRank(s.thread) + AppRank(s.app)
  {
    if a.Thread? {
      ThreadRankFalls(s, a.outcome);
    }
    hide ThreadRank;
  }

  lemma {:induction false} ShutdownBounded(s: State, acts: seq<Action>)
    requires s.exitFlag && ExitSet(s.app) && Exec(s, acts).Some?
    ensures var t := Exec(s, acts).value;
            ExitSet(t.app) && |acts| + ThreadRank(t.thread) + AppRank(t.app) <= ThreadRank(s.thread) + AppRank(s.app)
    decreases |acts|
  {
    hide Next, ThreadRank, AppRank, ExitSet;
    if acts != [] {
      ShutdownRankFalls(s, acts[0]);
      ShutdownBounded(Next(s, acts[0]).value, acts[1..]);
    }
  }

  lemma ShutdownNotStuck(s: State)
    requires Inv(s) && ExitSet(s.app) && !s.app.Finished? && !s.thread.Crashed?
    ensures Next(s, Continue).Some? || Next(s, Thread(Succeeds)).Some?
  {
  }

  // From the moment the exit flag is set, every interleaving runs out of steps, and
  // one that has run out has joined the thread and freed the table.
  lemma ShutdownCompletes(s: State, acts: seq<Action>)
    requires Reachable(s) && ExitSet(s.app) && Exec(s, acts).Some?
    ensures |acts| <= 16
    ensures var t := Exec(s, acts).value;
            (forall a :: Next(t, a).None?) ==>
                (t.app.Finished? && t.thread.Exited? && t.tableSize == 0) || t.thread.Crashed?
  {
    ReachableInv(s);
    ShutdownBounded(s, acts);
    InvRun(s, acts);
    var t := Exec(s, acts).value;
    if forall a :: Next(t, a).None? {
      assert Next(t, Continue).None? && Next(t, Thread(Succeeds)).None?;
      if !t.thread.Crashed? && !t.app.Finished? {
        ShutdownNotStuck(t);
      }
    }
    hide Next, ThreadStep, AppStep;
  }

  // Nobody waits for a step that cannot come, in any phase of the session.
  lemma NoDeadlock(s: State)
    requires Reachable(s) && !s.app.Finished? && !s.thread.Crashed?
    ensures exists a :: Next(s, a).Some?
  {
    ReachableInv(s);
    if s.app.Idle? {
      assert Next(s, Disable).Some?;
    } else {
      assert Next(s, Continue).Some? || Next(s, Thread(Succeeds)).Some?;
    }
  }

  // ----- the interrupt service routine -----

  predicate CallsIsr(s: State, a: Action) {
    a.Thread? && s.thread.CallingIsr? && s.isrSet
  }

  // The thread reads interrupt_enable and finds it true.
  predicate Observes(s: State, a: Action) {
    a.Thread? && s.thread.Checking? && !s.thread.sawExit && s.enabled
  }

  function IsrCalls(s: State, acts: seq<Action>): nat
    decreases |acts|
  {
    if acts == [] || Next(s, acts[0]).None? then 0
    else (if CallsIsr(s, acts[0]) then 1 else 0) + IsrCalls(Next(s, acts[0]).value, acts[1..])
  }

  function Observations(s: State, acts: seq<Action>): nat
    decreases |acts|
  {
    if acts == [] || Next(s, acts[0]).None? then 0
    else (if Observes(s, acts[0]) then 1 else 0) + Observations(Next(s, acts[0]).value, acts[1..])
  }

  // In an iteration that observed the enable and has not called the routine yet.
  function InFlight(pc: ThreadPc): nat {
    if pc.Opening? || pc.Arming? || pc.Polling? || pc.TestingIsr? || pc.CallingIsr? then 1 else 0
  }

  lemma IsrStep(s: State, a: Action)
    requires Next(s, a).Some?
    ensures (if CallsIsr(s, a) then 1 else 0) + InFlight(Next(s, a).value.thread)
            <= InFlight(s.thread) + if Observes(s, a) then 1 else 0
  {
    if a.Continue? {
      AppKeepsThread(s);
      hide AppStep;
    }
  }

  // Each call of the routine uses up an iteration of its own that observed
  // interrupt_enable true.
  lemma {:induction false} IsrNeedsObservation(s: State, acts: seq<Action>)
    requires Exec(s, acts).Some?
    ensures IsrCalls(s, acts) + InFlight(Exec(s, acts).value.thread) <= InFlight(s.thread) + Observations(s, acts)
    decreases |acts|
  {
    hide Next, CallsIsr, Observes, InFlight;
    if acts != [] {
      IsrStep(s, acts[0]);
      IsrNeedsObservation(Next(s, acts[0]).value, acts[1..]);
    }
  }

  lemma IsrCallsObserved(s: State, acts: seq<Action>)
    requires Initial(s) && Exec(s, acts).Some?
    ensures IsrCalls(s, acts) <= Observations(s, acts)
  {
    IsrNeedsObservation(s, acts);
  }

  // poll reports an interrupt.
  predicate Signals(s: State, a: Action) {
    a.Thread? && s.thread.Polling? && a.outcome.Succeeds?
  }

  function Events(s: State, acts: seq<Action>): nat
    decreases |acts|
  {
    if acts == [] || Next(s, acts[0]).None? then 0
    else (if Signals(s, acts[0]) then 1 else 0) + Events(Next(s, acts[0]).value, acts[1..])
  }

  // An interrupt has been reported and its routine not called yet.
  function Pending(pc: ThreadPc): nat {
    if pc.TestingIsr? || pc.CallingIsr? then 1 else 0
  }

  lemma PendingStep(s: State, a: Action)
    requires Next(s, a).Some? && s.isrSet && !s.app.Boot? && a != Register(false)
    ensures var t := Next(s, a).value;
            && t.isrSet && !t.app.Boot?
            && (if CallsIsr(s, a) then 1 else 0) + Pending(t.thread)
               == (if Signals(s, a) then 1 else 0) + if s.app.Creating? && a.Continue? then 0 else Pending(s.thread)
  {
    if a.Continue? {
      AppKeepsThread(s);
    }
  }

  // The thread re-arms the interrupt.
  predicate Arms(s: State, a: Action) {
    a.Thread? && s.thread.Arming? && !a.outcome.Fails?
  }

  function Armings(s: State, acts: seq<Action>): nat
    decreases |acts|
  {
    if acts == [] || Next(s, acts[0]).None? then 0
    else (if Arms(s, acts[0]) then 1 else 0) + Armings(Next(s, acts[0]).value, acts[1..])
  }

  function Armed(pc: ThreadPc): nat {
    if pc.Polling? then 1 else 0
  }

  lemma ArmedStep(s: State, a: Action)
    requires Next(s, a).Some?
    ensures (if Signals(s, a) then 1 else 0) + Armed(Next(s, a).value.thread)
            <= Armed(s.thread) + if Arms(s, a) then 1 else 0
  {
    if a.Continue? {
      AppKeepsThread(s);
      hide AppStep;
    }
  }

  // Each reported interrupt uses up a re-arming of its own.
  lemma {:induction false} EventsArmed(s: State, acts: seq<Action>)
    requires Exec(s, acts).Some?
    ensures Events(s, acts) + Armed(Exec(s, acts).value.thread) <= Armed(s.thread) + Armings(s, acts)
    decreases |acts|
  {
    hide Next, Signals, Arms, Armed;
    if acts != [] {
      ArmedStep(s, acts[0]);
      EventsArmed(Next(s, acts[0]).value, acts[1..]);
    }
  }

  // The thread opens the device.
  predicate Opens(s: State, a: Action) {
    a.Thread? && s.thread.Opening? && !a.outcome.Fails?
  }

  // It closes it: at the end of an iteration, or before it stops inside one.
  predicate Closes(s: State, a: Action) {
    a.Thread? && (s.thread.Closing? || (s.thread.Arming? && a.outcome.Fails?) || (s.thread.TestingIsr? && !s.isrSet))
  }

  function Holds(pc: ThreadPc): nat {
    if pc.Arming? || pc.Polling? || pc.TestingIsr? || pc.CallingIsr? || pc.Closing? || pc.Crashed? then 1 else 0
  }

  function OpenCount(s: State, acts: seq<Action>): nat
    decreases |acts|
  {
    if acts == [] || Next(s, acts[0]).None? then 0
    else (if Opens(s, acts[0]) then 1 else 0) + OpenCount(Next(s, acts[0]).value, acts[1..])
  }

  function CloseCount(s: State, acts: seq<Action>): nat
    decreases |acts|
  {
    if acts == [] || Next(s, acts[0]).None? then 0
    else (if Closes(s, acts[0]) then 1 else 0) + CloseCount(Next(s, acts[0]).value, acts[1..])
  }

  lemma DeviceStep(s: State, a: Action)
    requires Inv(s) && Next(s, a).Some?
    ensures Holds(s.thread) + (if Opens(s, a) then 1 else 0)
         == (if Closes(s, a) then 1 else 0) + Holds(Next(s, a).value.thread)
  {
    if a.Continue? {
      AppKeepsThread(s);
      hide AppStep;
    }
  }

  // Whatever is opened is closed once, before it is opened again; a thread that has
  // stopped holds nothing.
  lemma {:induction false} DeviceClosed(s: State, acts: seq<Action>)
    requires Inv(s) && Exec(s, acts).Some?
    ensures Holds(s.thread) + OpenCount(s, acts) == CloseCount(s, acts) + Holds(Exec(s, acts).value.thread)
    ensures Exec(s, acts).value.thread.Exited? ==> Holds(Exec(s, acts).value.thread) == 0
    decreases |acts|
  {
    if acts != [] {
      DeviceStep(s, acts[0]);
      InvKept(s, acts[0]);
      hide Next, Inv, Opens, Closes;
      DeviceClosed(Next(s, acts[0]).value, acts[1..]);
    }
  }

  // While a routine stays registered, every reported interrupt is followed by
  // exactly one call of it: none is lost, repeated or made up.
  lemma {:induction false} EventsDelivered(s: State, acts: seq<Action>)
    requires Inv(s) && s.isrSet && !s.app.Boot?
    requires Exec(s, acts).Some? && Register(false) !in acts
    ensures IsrCalls(s, acts) + Pending(Exec(s, acts).value.thread) == Events(s, acts) + Pending(s.thread)
    decreases |acts|
  {
    if acts != [] {
      assert acts[0] in acts;
      PendingStep(s, acts[0]);
      InvKept(s, acts[0]);
      assert s.app.Creating? ==> Pending(s.thread) == 0;
      hide Next, CallsIsr, Signals, Pending, Inv;
      EventsDelivered(Next(s, acts[0]).value, acts[1..]);
    }
  }

  lemma StaysDisabled(s: State, a: Action)
    requires !s.enabled && !a.Enable? && Next(s, a).Some?
    ensures !Next(s, a).value.enabled && !Observes(s, a)
  {
  }

  lemma {:induction false} NothingObserved(s: State, acts: seq<Action>)
    requires !s.enabled && Enable !in acts && Exec(s, acts).Some?
    ensures Observations(s, acts) == 0
    decreases |acts|
  {
    hide Next, Observes;
    if acts != [] {
      assert acts[0] in acts;
      StaysDisabled(s, acts[0]);
      NothingObserved(Next(s, acts[0]).value, acts[1..]);
    }
  }

  // Between a disable and the next enable at most one call happens, and only when
  // the disable found an iteration under way.
  lemma AtMostOneIsrAfterDisable(s: State, acts: seq<Action>)
    requires !s.enabled && Enable !in acts && Exec(s, acts).Some?
    ensures IsrCalls(s, acts) <= InFlight(s.thread) <= 1
  {
    NothingObserved(s, acts);
    IsrNeedsObservation(s, acts);
  }

  // From a returned disable on, until the next enable.
  lemma AtMostOneIsrFromDisable(s: State, acts: seq<Action>)
    requires Reachable(s) && s.app.Idle? && Exec(s, [Disable] + acts).Some? && Enable !in acts
    ensures IsrCalls(s, [Disable] + acts) <= InFlight(s.thread) <= 1
  {
    ReachableInv(s);
    assert ([Disable] + acts)[1..] == acts;
    var t := Next(s, Disable).value;
    AtMostOneIsrAfterDisable(t, acts);
    hide Next, Inv;
  }

  // After the join the thread is gone, so nothing is called.
  lemma {:induction false} NoIsrAfterJoin(s: State, acts: seq<Action>)
    requires Reachable(s) && (s.app.FreeingTable? || s.app.Finished?)
    ensures IsrCalls(s, acts) == 0
    decreases |acts|
  {
    ReachableInv(s);
    if acts != [] && Next(s, acts[0]).Some? {
      var t := Go(s, acts[0]);
      NoIsrAfterJoin(t, acts[1..]);
    }
    hide Next;
  }

  // The table has an entry 0 whenever the thread looks at it.
  lemma TableReadsInBounds(s: State)
    requires Reachable(s)
    requires s.thread == Checking(false) || s.thread.TestingIsr? || s.thread.CallingIsr?
    ensures s.tableSize > 0
  {
    ReachableInv(s);
  }

  // Why a step of the thread is its last one: a failing lock, open, re-arming or wait,
  // an interrupt reported when no routine is registered, or the exit flag.
  predicate Stops(s: State, outcome: Outcome) {
    || (outcome.Fails? && (s.thread.Locking? || s.thread.Opening? || s.thread.Arming? || s.thread.Waiting?))
    || (s.thread.TestingIsr? && !s.isrSet)
    || (s.thread.Checking? && s.thread.sawExit)
  }

  lemma ThreadStopsIff(s: State, outcome: Outcome)
    requires ThreadStep(s, outcome).Some?
    ensures ThreadStep(s, outcome).value.thread.Exited? <==> Stops(s, outcome)
  {
  }

  // A poll that fails or times out ends the iteration and nothing else: the thread
  // closes the device and starts over.
  lemma QuietPollStartsOver(s: State, outcome: Outcome)
    requires s.thread.Polling? && !outcome.Succeeds?
    ensures var t := ThreadStep(s, outcome);
            t.Some? && ThreadStep(t.value, Succeeds) == Some(s.(thread := Locking))
  {
  }

  function StopSteps(s: State, acts: seq<Action>): nat
    decreases |acts|
  {
    if acts == [] || Next(s, acts[0]).None? then 0
    else (if acts[0].Thread? && Stops(s, acts[0].outcome) then 1 else 0) + StopSteps(Next(s, acts[0]).value, acts[1..])
  }

  // In every run the thread is stopped exactly when one of those steps has been taken.
  lemma StoppedIff(s: State, acts: seq<Action>)
    requires Initial(s) && Exec(s, acts).Some?
    ensures Exec(s, acts).value.thread.Exited? <==> StopSteps(s, acts) > 0
    ensures StopSteps(s, acts) <= 1
  {
    StopsCounted(s, acts);
  }

  lemma {:induction false} StopsCounted(s: State, acts: seq<Action>)
    requires Inv(s) && Exec(s, acts).Some?
    ensures (if s.thread.Exited? then 1 else 0) + StopSteps(s, acts)
            == if Exec(s, acts).value.thread.Exited? then 1 else 0
    decreases |acts|
  {
    if acts != [] {
      StopCounted(s, acts[0]);
      InvKept(s, acts[0]);
      hide Next, Inv, Stops;
      StopsCounted(Next(s, acts[0]).value, acts[1..]);
    }
  }

  lemma StopCounted(s: State, a: Action)
    requires Inv(s) && Next(s, a).Some?
    ensures (if s.thread.Exited? then 1 else 0) + (if a.Thread? && Stops(s, a.outcome) then 1 else 0)
         == if Next(s, a).value.thread.Exited? then 1 else 0
  {
    if a.Thread? {
      ThreadStopsIff(s, a.outcome);
    } else if a.Continue? {
      AppKeepsThread(s);
    }
    hide Stops;
  }

  // ----- an enable is acted on -----

  // No failing call, and the application neither disables nor cleans up.
  predicate Quiet(a: Action) {
    (a.Thread? && !a.outcome.Fails?) || a.Register?
  }

  function ThreadSteps(acts: seq<Action>): nat {
    if acts == [] then 0 else (if acts[0].Thread? then 1 else 0) + ThreadSteps(acts[1..])
  }

  // Steps before the thread reads interrupt_enable again.
  function ReadRank(pc: ThreadPc): nat {
    match pc
    case Opening => 10
    case Arming => 9
    case Polling => 8
    case TestingIsr => 7
    case CallingIsr => 6
    case Closing => 5
    case Waiting => 5
    case Locking => 4
    case Reading => 3
    case Unlocking(_) => 2
    case Checking(_) => 1
    case _ => 0
  }

  lemma QuietStep(s: State, a: Action)
    requires Inv(s) && s.app.Idle? && s.enabled && Quiet(a) && Next(s, a).Some?
    ensures var t := Next(s, a).value;
            && t.app.Idle? && t.enabled
            && (Observes(s, a) || !Running(t.thread)
                || (if a.Thread? then 1 else 0) + ReadRank(t.thread) <= ReadRank(s.thread))
  {
  }

  // Enabled and left alone, the thread is never blocked and comes closer to reading
  // interrupt_enable with each of its steps.
  lemma {:induction false} EnableObserved(s: State, acts: seq<Action>)
    requires Inv(s) && s.app.Idle? && s.enabled
    requires Exec(s, acts).Some? && forall a :: a in acts ==> Quiet(a)
    ensures var t := Exec(s, acts).value;
            && (Running(t.thread) ==> Next(t, Thread(Succeeds)).Some? && Next(t, Thread(TimesOut)).Some?)
            && (Running(t.thread) && Observations(s, acts) == 0 ==>
                  ThreadSteps(acts) + ReadRank(t.thread) <= ReadRank(s.thread) <= 10)
    decreases |acts|
  {
    if acts != [] {
      assert acts[0] in acts;
      QuietStep(s, acts[0]);
      InvKept(s, acts[0]);
      EnableObserved(Next(s, acts[0]).value, acts[1..]);
      if !Running(Next(s, acts[0]).value.thread) {
        StaysStopped(Next(s, acts[0]).value, acts[1..]);
      }
      hide Next, Quiet, Observes, ReadRank, Running, Inv;
    }
  }

  lemma StoppedStep(s: State, a: Action)
    requires Inv(s) && !Booting(s.app) && !Running(s.thread) && Next(s, a).Some?
    ensures !Booting(Next(s, a).value.app) && !Running(Next(s, a).value.thread)
  {
    hide LockInv, SemInv;
  }

  lemma {:induction false} StaysStopped(s: State, acts: seq<Action>)
    requires Inv(s) && !Booting(s.app) && Exec(s, acts).Some? && !Running(s.thread)
    ensures !Running(Exec(s, acts).value.thread)
    decreases |acts|
  {
    if acts != [] {
      InvKept(s, acts[0]);
      StoppedStep(s, acts[0]);
      hide Next, Running, Inv;
      StaysStopped(Next(s, acts[0]).value, acts[1..]);
    }
  }

  // Once an enable call has returned, and while nobody disables or cleans up, ten
  // steps of the thread contain one that observes the enable. It cannot have stopped
  // if a routine was registered and never taken away.
  lemma EnableAnswered(s: State, acts: seq<Action>)
    requires Reachable(s) && s.app.Idle? && s.enabled
    requires Exec(s, acts).Some? && (forall a :: a in acts ==> Quiet(a)) && ThreadSteps(acts) >= 10
    ensures Observations(s, acts) > 0 || !Running(Exec(s, acts).value.thread)
    ensures s.isrSet && Running(s.thread) && Register(false) !in acts ==> Observations(s, acts) > 0
  {
    ReachableInv(s);
    EnableObserved(s, acts);
    if s.isrSet && Running(s.thread) && Register(false) !in acts {
      RoutineKeepsRunning(s, acts);
    }
    assert Running(Exec(s, acts).value.thread) ==> ReadRank(Exec(s, acts).value.thread) >= 1;
    hide Next, Quiet, Observes, Inv;
  }

  // The same from the enable call itself, whatever the thread does during it.
  lemma EnableCallAnswered(s: State, body: seq<Action>, acts: seq<Action>)
    requires Reachable(s) && s.app.Idle? && Exec(s, [Enable] + body).Some?
    requires forall a :: a in body ==> a.Thread? || a.Continue?
    requires var t := Exec(s, [Enable] + body).value;
             t.app.Idle? && Exec(t, acts).Some? && (forall a :: a in acts ==> Quiet(a)) && ThreadSteps(acts) >= 10
    ensures var t := Exec(s, [Enable] + body).value;
            t.enabled && (Observations(t, acts) > 0 || !Running(Exec(t, acts).value.thread))
  {
    ReachableInv(s);
    assert ([Enable] + body)[1..] == body;
    var u := Next(s, Enable).value;
    InvKept(s, Enable);
    StaysEnabled(u, body);
    var t := Exec(u, body).value;
    InvRun(u, body);
    EnableObserved(t, acts);
    assert Running(Exec(t, acts).value.thread) ==> ReadRank(Exec(t, acts).value.thread) >= 1;
    hide Next, Quiet, Observes, Inv;
  }

  lemma {:induction false} StaysEnabled(s: State, acts: seq<Action>)
    requires s.enabled && !s.app.Boot? && Exec(s, acts).Some? && forall a :: a in acts ==> a.Thread? || a.Continue?
    ensures Exec(s, acts).value.enabled
    decreases |acts|
  {
    if acts != [] {
      assert acts[0] in acts;
      EnabledStep(s, acts[0]);
      hide Next;
      StaysEnabled(Next(s, acts[0]).value, acts[1..]);
    }
  }

  lemma EnabledStep(s: State, a: Action)
    requires s.enabled && !s.app.Boot? && (a.Thread? || a.Continue?) && Next(s, a).Some?
    ensures Next(s, a).value.enabled && !Next(s, a).value.app.Boot?
  {
  }

  lemma {:induction false} RoutineKeepsRunning(s: State, acts: seq<Action>)
    requires Inv(s) && s.app.Idle? && s.isrSet && Running(s.thread)
    requires Exec(s, acts).Some? && (forall a :: a in acts ==> Quiet(a)) && Register(false) !in acts
    ensures Running(Exec(s, acts).value.thread)
    decreases |acts|
  {
    if acts != [] {
      assert acts[0] in acts;
      InvKept(s, acts[0]);
      RunningStep(s, acts[0]);
      hide Next, Quiet, Running, Inv;
      RoutineKeepsRunning(Next(s, acts[0]).value, acts[1..]);
    }
  }

  lemma RunningStep(s: State, a: Action)
    requires Inv(s) && s.app.Idle? && s.isrSet && Running(s.thread)
    requires Quiet(a) && a != Register(false) && Next(s, a).Some?
    ensures var t := Next(s, a).value;
            t.app.Idle? && t.isrSet && Running(t.thread)
  {
    hide LockInv, SemInv;
  }
}
