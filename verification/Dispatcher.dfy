// The WaitSet dispatcher and the manager calls that use it
// (RtpDdsGateway/src/async/waitset_dispatcher.cpp, dds_manager.cpp, lines 68-131, and
// dds_manager_cleanup.cpp, lines 19-49), as atomic steps: a lock region is one step, except that a
// handler call has a beginning and an end.
module Dispatcher {

  datatype Mode = Listener | WaitSet

  // A status condition belongs to its holder; every request for a read condition makes a new one.
  datatype Cond = Status(holder: nat) | Read(holder: nat, nonce: nat) | Guard

  datatype Thread =
    | AtTop
    | Waiting
    | Woken(active: seq<Cond>)
    | Locking(active: seq<Cond>)
    | Calling(active: seq<Cond>)
    | Handling(holder: nat, active: seq<Cond>)
    | Exited

  predicate HasLock(t: Thread) { t.Calling? || t.Handling? }

  // What the thread that holds the manager's mutex is doing.
  datatype Main =
    | Idle
    | Registering(h: nat, monitored: bool)
    | RemovingData(h: nat)
    | Removing(h: nat)
    | Joining
    | DetachingMonitor
    | DetachingData
    | Destroying(restart: bool)

  // Live holders, with true for readers.
  datatype State = State(
    mode: Mode, running: bool, monitorHandlers: map<Cond, nat>, dataHandlers: map<Cond, nat>,
    monitorThread: Thread, dataThread: Thread, main: Main, live: map<nat, bool>)

  datatype Worker = Monitor | Data

  datatype Action =
    | Create(h: nat, reader: bool)
    | AttachMonitor(ok: bool)
    | AttachData(ok: bool, nonce: nat)
    | RemoveWriter(h: nat, detached: bool)
    | RemoveReader(h: nat, detached: bool)
    | DetachData(ok: bool, nonce: nat)
    | EraseRemoved
    | SetMode(mode: Mode)
    | ClearBegin
    | Join
    | DetachMonitors
    | DetachDatas
    | Destroy(h: nat)
    | ClearEnd
    | Check(w: Worker)
    | Wake(w: Worker, active: seq<Cond>)
    | TimeOut(w: Worker)
    | Recheck(w: Worker)
    | Lock(w: Worker)
    | CallNext(w: Worker)
    | Return(w: Worker)
    | Fail(w: Worker)

  function ThreadOf(s: State, w: Worker): Thread { if w == Monitor then s.monitorThread else s.dataThread }

  function HandlersOf(s: State, w: Worker): map<Cond, nat> {
    if w == Monitor then s.monitorHandlers else s.dataHandlers
  }

  function WithThread(s: State, w: Worker, t: Thread): State {
    if w == Monitor then s.(monitorThread := t) else s.(dataThread := t)
  }

  predicate Enabled(s: State, a: Action) {
    match a
    case Create(h, _) => s.main == Idle && h !in s.live
    case AttachMonitor(_) => s.main.Registering? && !s.main.monitored && !HasLock(s.monitorThread)
    case AttachData(_, _) => s.main.Registering? && s.main.monitored && !HasLock(s.dataThread)
    case RemoveWriter(h, _) => s.main == Idle && h in s.live && !s.live[h] && !HasLock(s.monitorThread)
    case RemoveReader(h, _) => s.main == Idle && h in s.live && s.live[h] && !HasLock(s.monitorThread)
    case DetachData(_, _) => s.main.RemovingData? && !HasLock(s.dataThread)
    case EraseRemoved => s.main.Removing?
    case SetMode(_) => s.main == Idle && s.live == map[]
    case ClearBegin => s.main == Idle
    case Join => s.main == Joining && s.monitorThread == Exited && s.dataThread == Exited
    case DetachMonitors => s.main == DetachingMonitor && !HasLock(s.monitorThread)
    case DetachDatas => s.main == DetachingData && !HasLock(s.dataThread)
    case Destroy(h) => s.main.Destroying? && h in s.live
    case ClearEnd => s.main.Destroying? && s.live == map[]
    case Check(w) => ThreadOf(s, w).AtTop?
    case Wake(w, _) => ThreadOf(s, w).Waiting?
    case TimeOut(w) => ThreadOf(s, w).Waiting?
    case Recheck(w) => ThreadOf(s, w).Woken?
    case Lock(w) => ThreadOf(s, w).Locking?
    case CallNext(w) => ThreadOf(s, w).Calling?
    case Return(w) => ThreadOf(s, w).Handling?
    case Fail(w) => HasLock(ThreadOf(s, w))
  }

  function Next(s: State, a: Action): State
    requires Enabled(s, a)
  {
    match a
    case Create(h, reader) =>
      var s' := s.(live := s.live[h := reader]);
      if s.mode == Listener then s' else s'.(main := Registering(h, false))
    case AttachMonitor(ok) =>
      var h := s.main.h;
      var s' := if ok then s.(monitorHandlers := s.monitorHandlers[Status(h) := h]) else s;
      s'.(main := if h in s.live && s.live[h] then Registering(h, true) else Idle)
    case AttachData(ok, nonce) =>
      var h := s.main.h;
      var s' := if ok then s.(dataHandlers := s.dataHandlers[Read(h, nonce) := h]) else s;
      s'.(main := Idle)
    case RemoveWriter(h, detached) =>
      var s' := if detached then s.(monitorHandlers := s.monitorHandlers - {Status(h)}) else s;
      s'.(main := Removing(h))
    case RemoveReader(h, detached) =>
      var s' := if detached then s.(monitorHandlers := s.monitorHandlers - {Status(h)}) else s;
      s'.(main := RemovingData(h))
    case DetachData(ok, nonce) =>
      var h := s.main.h;
      var s' := if ok then s.(dataHandlers := s.dataHandlers - {Read(h, nonce)}) else s;
      s'.(main := Removing(h))
    case EraseRemoved => s.(live := s.live - {s.main.h}, main := Idle)
    case SetMode(mode) => s.(mode := mode)
    case ClearBegin =>
      if s.mode == WaitSet then s.(running := false, main := Joining) else s.(main := Destroying(false))
    case Join => s.(main := DetachingMonitor)
    case DetachMonitors => s.(monitorHandlers := map[], main := DetachingData)
    case DetachDatas => s.(dataHandlers := map[], main := Destroying(true))
    case Destroy(h) => s.(live := s.live - {h})
    case ClearEnd =>
      if s.main.restart then s.(running := true, monitorThread := AtTop, dataThread := AtTop, main := Idle)
      else s.(main := Idle)
    case Check(w) => WithThread(s, w, if s.running then Waiting else Exited)
    case Wake(w, active) => WithThread(s, w, Woken(active))
    case TimeOut(w) => WithThread(s, w, AtTop)
    case Recheck(w) => WithThread(s, w, if s.running then Locking(ThreadOf(s, w).active) else Exited)
    case Lock(w) => WithThread(s, w, Calling(ThreadOf(s, w).active))
    case CallNext(w) =>
      var active := ThreadOf(s, w).active;
      if active == [] then WithThread(s, w, AtTop)
      else if active[0] == Guard || active[0] !in HandlersOf(s, w) then WithThread(s, w, Calling(active[1..]))
      else WithThread(s, w, Handling(HandlersOf(s, w)[active[0]], active[1..]))
    case Return(w) => WithThread(s, w, Calling(ThreadOf(s, w).active))
    case Fail(w) => WithThread(s, w, AtTop)
  }

  function Initial(mode: Mode): State { State(mode, true, map[], map[], AtTop, AtTop, Idle, map[]) }

  // ---------- The invariant ----------

  // A handler is the holder its condition belongs to; the data thread's handlers are readers.
  ghost predicate Refs(s: State) {
    && (forall c :: c in s.monitorHandlers ==> c == Status(s.monitorHandlers[c]) && s.monitorHandlers[c] in s.live)
    && (forall c :: c in s.dataHandlers ==> s.dataHandlers[c] in s.live && s.live[s.dataHandlers[c]])
  }

  ghost predicate Calls(s: State) {
    && (s.monitorThread.Handling? ==> s.monitorThread.holder in s.live)
    && (s.dataThread.Handling? ==> s.dataThread.holder in s.live && s.live[s.dataThread.holder])
  }

  // No handler is registered or being called.
  predicate Quiescent(s: State) {
    && s.monitorHandlers == map[] && s.dataHandlers == map[]
    && !s.monitorThread.Handling? && !s.dataThread.Handling?
  }

  predicate Stopped(s: State) { !s.running && s.monitorThread == Exited && s.dataThread == Exited }

  // The thread neither has nor calls a handler of this holder.
  predicate MonitorFree(s: State, h: nat) {
    Status(h) !in s.monitorHandlers && (s.monitorThread.Handling? ==> s.monitorThread.holder != h)
  }

  predicate DataFree(s: State, h: nat) {
    && (forall c :: c in s.dataHandlers ==> s.dataHandlers[c] != h)
    && (s.dataThread.Handling? ==> s.dataThread.holder != h)
  }

  ghost predicate MainOk(s: State) {
    match s.main
    case Idle => s.running
    case Registering(h, _) => s.running && h in s.live && s.mode == WaitSet && (s.main.monitored ==> s.live[h])
    case RemovingData(h) => s.running && h in s.live && s.live[h] && MonitorFree(s, h)
    case Removing(h) => s.running && h in s.live && MonitorFree(s, h) && DataFree(s, h)
    case Joining => !s.running && s.mode == WaitSet
    case DetachingMonitor => Stopped(s) && s.mode == WaitSet
    case DetachingData => Stopped(s) && s.mode == WaitSet && s.monitorHandlers == map[]
    case Destroying(restart) => Quiescent(s) && if restart then Stopped(s) else s.running
  }

  ghost predicate Inv(s: State) {
    Refs(s) && Calls(s) && (s.mode == Listener ==> Quiescent(s)) && MainOk(s)
  }

  // A removal leaves no handler of its holder behind: the detach succeeds, with the very condition
  // that was registered, or there was nothing to detach.
  predicate Safe(s: State, a: Action) {
    match a
    case RemoveWriter(h, detached) => detached || Status(h) !in s.monitorHandlers
    case RemoveReader(h, detached) => detached || Status(h) !in s.monitorHandlers
    case DetachData(ok, nonce) =>
      s.main.RemovingData? ==>
        forall c :: c in s.dataHandlers && s.dataHandlers[c] == s.main.h ==> ok && c == Read(s.main.h, nonce)
    case _ => true
  }

  // A run: what was done, and the states before and after each step.
  ghost predicate IsRun(mode: Mode, states: seq<State>, actions: seq<Action>) {
    && |states| == |actions| + 1 && states[0] == Initial(mode)
    && forall i :: 0 <= i < |actions| ==> Enabled(states[i], actions[i]) && states[i + 1] == Next(states[i], actions[i])
  }

  // ---------- Steps keep the invariant ----------

  lemma CreationKeeps(s: State, a: Action)
    requires Inv(s) && Enabled(s, a) && (a.Create? || a.AttachMonitor? || a.AttachData? || a.SetMode?)
    ensures Inv(Next(s, a))
  {
  }

  lemma RemovalKeeps(s: State, a: Action)
    requires Inv(s) && Enabled(s, a) && Safe(s, a)
    requires a.RemoveWriter? || a.RemoveReader? || a.DetachData? || a.EraseRemoved?
    ensures Inv(Next(s, a))
  {
  }

  lemma ClearKeeps(s: State, a: Action)
    requires Inv(s) && Enabled(s, a)
    requires a.ClearBegin? || a.Join? || a.DetachMonitors? || a.DetachDatas? || a.Destroy? || a.ClearEnd?
    ensures Inv(Next(s, a))
  {
  }

  // A thread that runs may move on, and into a handler only through its map.
  lemma ThreadMoves(s: State, w: Worker, t: Thread, c: Cond)
    requires Inv(s) && ThreadOf(s, w) != Exited
    requires t.Handling? ==> c in HandlersOf(s, w) && t.holder == HandlersOf(s, w)[c]
    ensures Inv(WithThread(s, w, t))
  {
    if w == Monitor {
      assert s.monitorThread != Exited;
    } else {
      assert s.dataThread != Exited;
    }
  }

  lemma ThreadKeeps(s: State, a: Action)
    requires Inv(s) && Enabled(s, a)
    requires a.Check? || a.Wake? || a.TimeOut? || a.Recheck? || a.Lock? || a.CallNext? || a.Return? || a.Fail?
    ensures Inv(Next(s, a))
  {
    hide Inv, HandlersOf;
    var w, c := a.w, Guard;
    match a {
      case Check(_) => ThreadMoves(s, w, if s.running then Waiting else Exited, c);
      case Wake(_, active) => ThreadMoves(s, w, Woken(active), c);
      case TimeOut(_) => ThreadMoves(s, w, AtTop, c);
      case Recheck(_) => ThreadMoves(s, w, if s.running then Locking(ThreadOf(s, w).active) else Exited, c);
      case Lock(_) => ThreadMoves(s, w, Calling(ThreadOf(s, w).active), c);
      case CallNext(_) =>
        var active := ThreadOf(s, w).active;
        ThreadMoves(s, w, AtTop, c);
        if active != [] {
          ThreadMoves(s, w, Calling(active[1..]), c);
          if active[0] in HandlersOf(s, w) {
            ThreadMoves(s, w, Handling(HandlersOf(s, w)[active[0]], active[1..]), active[0]);
          }
        }
      case Return(_) => ThreadMoves(s, w, Calling(ThreadOf(s, w).active), c);
      case Fail(_) => ThreadMoves(s, w, AtTop, c);
    }
  }

  lemma StepKeeps(s: State, a: Action)
    requires Inv(s) && Enabled(s, a) && Safe(s, a)
    ensures Inv(Next(s, a))
  {
    hide Next, Enabled, Inv, Safe;
    if a.Create? || a.AttachMonitor? || a.AttachData? || a.SetMode? { CreationKeeps(s, a); }
    else if a.RemoveWriter? || a.RemoveReader? || a.DetachData? || a.EraseRemoved? { RemovalKeeps(s, a); }
    else if a.ClearBegin? || a.Join? || a.DetachMonitors? || a.DetachDatas? || a.Destroy? || a.ClearEnd? {
      ClearKeeps(s, a);
    }
    else { ThreadKeeps(s, a); }
  }

  ghost predicate SafeRun(mode: Mode, states: seq<State>, actions: seq<Action>) {
    IsRun(mode, states, actions) && forall i :: 0 <= i < |actions| ==> Safe(states[i], actions[i])
  }

  // Over all interleavings: every registered handler, and every handler being called, belongs to a
  // holder that has not been destroyed; in Listener mode there are none.
  lemma NoStaleHandler(mode: Mode, states: seq<State>, actions: seq<Action>, n: nat)
    requires SafeRun(mode, states, actions) && n < |states|
    ensures Refs(states[n]) && Calls(states[n]) && (states[n].mode == Listener ==> Quiescent(states[n]))
  {
    RunInv(mode, states, actions, n);
    hide Refs, Calls, Quiescent, MainOk;
  }

  lemma {:induction false} RunInv(mode: Mode, states: seq<State>, actions: seq<Action>, n: nat)
    requires SafeRun(mode, states, actions) && n < |states|
    ensures Inv(states[n])
  {
    hide Next, Enabled, Inv, Safe;
    if n == 0 {
      InitialOk(mode);
    } else {
      RunInv(mode, states, actions, n - 1);
      StepKeeps(states[n - 1], actions[n - 1]);
    }
  }

  lemma InitialOk(mode: Mode)
    ensures Inv(Initial(mode))
  {
  }

  // And each removal has to be safe: erasing the holder after one that is not leaves a handler of it behind.
  lemma RemovalSafe(s: State, h: nat, detached: bool)
    requires Inv(s) && Enabled(s, RemoveWriter(h, detached))
    ensures var s' := Next(s, RemoveWriter(h, detached));
            Refs(Next(s', EraseRemoved)) <==> Safe(s, RemoveWriter(h, detached))
  {
  }

  lemma ReaderRemovalSafe(s: State, h: nat, detached: bool, ok: bool, nonce: nat)
    requires Inv(s) && Enabled(s, RemoveReader(h, detached)) && !HasLock(s.dataThread)
    ensures var s' := Next(s, RemoveReader(h, detached));
            Enabled(s', DetachData(ok, nonce)) &&
            var s'' := Next(s', DetachData(ok, nonce));
            Refs(Next(s'', EraseRemoved)) <==> Safe(s, RemoveReader(h, detached)) && Safe(s', DetachData(ok, nonce))
  {
    var s' := Next(s, RemoveReader(h, detached));
    var s'' := Next(s', DetachData(ok, nonce));
    var t := Next(s'', EraseRemoved);
    assert s'.dataHandlers == s.dataHandlers && s''.monitorHandlers == s'.monitorHandlers;
    if Refs(t) {
      forall c | c in s.dataHandlers && s.dataHandlers[c] == h ensures ok && c == Read(h, nonce) {
        assert c !in t.dataHandlers;
      }
    }
  }

  // ---------- A stop gets its join ----------

  function StepsLeft(t: Thread): nat {
    match t
    case Exited => 0
    case AtTop => 1
    case Waiting => 2
    case Woken(_) => 1
    case Locking(active) => 3 + 2 * |active|
    case Calling(active) => 2 + 2 * |active|
    case Handling(_, active) => 3 + 2 * |active|
  }

  function Left(s: State): nat { StepsLeft(s.monitorThread) + StepsLeft(s.dataThread) }

  // While the manager waits for its threads only they, and the join, can go on.
  lemma OnlyThreads(s: State, a: Action)
    requires s.main == Joining && Enabled(s, a) && a != Join
    ensures a.Check? || a.Wake? || a.TimeOut? || a.Recheck? || a.Lock? || a.CallNext? || a.Return? || a.Fail?
  {
  }

  lemma MoveSooner(s: State, w: Worker, t: Thread)
    requires StepsLeft(t) < StepsLeft(ThreadOf(s, w))
    ensures var s' := WithThread(s, w, t); Left(s') < Left(s) && s'.running == s.running && s'.main == s.main
  {
  }

  // Once running is cleared and the manager waits for its threads, whatever is done brings their exit
  // closer, whichever thread does it.
  lemma AllSooner(s: State, a: Action)
    requires !s.running && s.main == Joining && Enabled(s, a) && a != Join
    ensures var s' := Next(s, a); Left(s') < Left(s) && !s'.running && s'.main == Joining
  {
    hide Left, HandlersOf, WithThread;
    OnlyThreads(s, a);
    var t := ThreadOf(s, a.w);
    match a {
      case Check(w) => MoveSooner(s, w, Exited);
      case Wake(w, active) => MoveSooner(s, w, Woken(active));
      case TimeOut(w) => MoveSooner(s, w, AtTop);
      case Recheck(w) => MoveSooner(s, w, Exited);
      case Lock(w) => MoveSooner(s, w, Calling(t.active));
      case CallNext(w) =>
        if t.active == [] {
          MoveSooner(s, w, AtTop);
        } else {
          MoveSooner(s, w, Calling(t.active[1..]));
          if t.active[0] in HandlersOf(s, w) {
            MoveSooner(s, w, Handling(HandlersOf(s, w)[t.active[0]], t.active[1..]));
          }
        }
      case Return(w) => MoveSooner(s, w, Calling(t.active));
      case Fail(w) => MoveSooner(s, w, AtTop);
    }
  }

  ghost predicate CanGoOn(s: State) { exists a :: Enabled(s, a) }

  // And there is always something to do.
  lemma NotStuck(s: State)
    requires !s.running && s.main == Joining
    ensures CanGoOn(s)
    ensures Left(s) == 0 ==> Enabled(s, Join)
  {
    var own := (t: Thread, w: Worker) =>
      match t
      case AtTop => Check(w)
      case Waiting => TimeOut(w)
      case Woken(_) => Recheck(w)
      case Locking(_) => Lock(w)
      case Calling(_) => CallNext(w)
      case Handling(_, _) => Return(w)
      case Exited => Join;
    if s.monitorThread != Exited {
      assert Enabled(s, own(s.monitorThread, Monitor));
    } else if s.dataThread != Exited {
      assert Enabled(s, own(s.dataThread, Data));
    } else {
      assert Enabled(s, Join);
    }
  }

  lemma StepOf(mode: Mode, states: seq<State>, actions: seq<Action>, i: nat)
    requires SafeRun(mode, states, actions) && i + 1 < |states|
    ensures |states| == |actions| + 1 && Enabled(states[i], actions[i]) && states[i + 1] == Next(states[i], actions[i])
  {
    hide Enabled, Next, Safe;
  }

  lemma JoiningStopped(s: State)
    requires Inv(s) && s.main == Joining
    ensures !s.running
  {
    hide Refs, Calls, Quiescent;
  }

  // The join that a clear waits for is reached however the threads interleave: from the clear on, a run
  // takes at most the threads' remaining steps before it, is never stuck, and in the end can only join.
  lemma {:induction false} JoinReached(mode: Mode, states: seq<State>, actions: seq<Action>, m: nat, n: nat)
    requires SafeRun(mode, states, actions) && m <= n < |states| && states[m].main == Joining
    requires forall i :: m <= i < n ==> actions[i] != Join
    ensures states[n].main == Joining && CanGoOn(states[n])
    ensures n - m <= Left(states[m]) - Left(states[n])
    ensures n - m == Left(states[m]) ==> Enabled(states[n], Join)
    decreases n
  {
    hide Enabled, Next, Left, Inv, SafeRun, CanGoOn;
    if m < n {
      JoinReached(mode, states, actions, m, n - 1);
      RunInv(mode, states, actions, n - 1);
      JoiningStopped(states[n - 1]);
      StepOf(mode, states, actions, n - 1);
      AllSooner(states[n - 1], actions[n - 1]);
    }
    RunInv(mode, states, actions, n);
    JoiningStopped(states[n]);
    NotStuck(states[n]);
  }

  // ---------- The dispatcher object ----------

  function HandlerFor(c: Cond, handlers: map<Cond, nat>): seq<nat> {
    if c != Guard && c in handlers then [handlers[c]] else []
  }

  // The handlers one wake-up calls, in order.
  function HandlersFor(active: seq<Cond>, handlers: map<Cond, nat>): seq<nat> {
    if active == [] then [] else HandlerFor(active[0], handlers) + HandlersFor(active[1..], handlers)
  }

  lemma {:induction false} HandlersForLast(active: seq<Cond>, c: Cond, handlers: map<Cond, nat>)
    ensures HandlersFor(active + [c], handlers) == HandlersFor(active, handlers) + HandlerFor(c, handlers)
  {
    hide HandlerFor;
    if active == [] {
      assert active + [c] == [c] && [c][1..] == [];
    } else {
      assert (active + [c])[1..] == active[1..] + [c];
      HandlersForLast(active[1..], c, handlers);
    }
  }

  // The holder of each active condition that is registered and no guard is called once, in their
  // order, and nobody else: at lists the places of those conditions.
  ghost predicate CalledInOrder(active: seq<Cond>, handlers: map<Cond, nat>, called: seq<nat>) {
    exists at: seq<nat> :: Places(active, handlers, at) && CallsAt(active, handlers, at, called)
  }

  predicate Places(active: seq<Cond>, handlers: map<Cond, nat>, at: seq<nat>) {
    && (forall n, m :: 0 <= n < m < |at| ==> at[n] < at[m])
    && (forall n :: 0 <= n < |at| ==> at[n] < |active|)
    && forall i :: 0 <= i < |active| ==> (i in at <==> active[i] != Guard && active[i] in handlers)
  }

  predicate CallsAt(active: seq<Cond>, handlers: map<Cond, nat>, at: seq<nat>, called: seq<nat>) {
    && |called| == |at|
    && forall n :: 0 <= n < |at| ==>
         at[n] < |active| && active[at[n]] in handlers && called[n] == handlers[active[at[n]]]
  }

  lemma {:induction false} HandlersExactly(active: seq<Cond>, handlers: map<Cond, nat>)
    ensures CalledInOrder(active, handlers, HandlersFor(active, handlers))
    decreases |active|
  {
    hide HandlersFor, CalledInOrder, HandlerFor;
    if active == [] {
      NoHandlers(handlers);
    } else {
      var n := |active| - 1;
      assert active == active[..n] + [active[n]];
      HandlersForLast(active[..n], active[n], handlers);
      HandlersExactly(active[..n], handlers);
      OneMoreCalled(active[..n], active[n], handlers, HandlersFor(active[..n], handlers));
    }
  }

  lemma OneMoreCalled(active: seq<Cond>, c: Cond, handlers: map<Cond, nat>, called: seq<nat>)
    requires CalledInOrder(active, handlers, called)
    ensures CalledInOrder(active + [c], handlers, called + HandlerFor(c, handlers))
  {
    hide Places, CallsAt;
    var at: seq<nat> :| Places(active, handlers, at) && CallsAt(active, handlers, at, called);
    PlacesMore(active, c, handlers, at);
    CallsMore(active, c, handlers, at, called);
    assert called + [] == called;
  }

  lemma PlacesMore(active: seq<Cond>, c: Cond, handlers: map<Cond, nat>, at: seq<nat>)
    requires Places(active, handlers, at)
    ensures Places(active + [c], handlers, if c != Guard && c in handlers then at + [|active|] else at)
  {
  }

  lemma CallsMore(active: seq<Cond>, c: Cond, handlers: map<Cond, nat>, at: seq<nat>, called: seq<nat>)
    requires CallsAt(active, handlers, at, called)
    ensures CallsAt(active + [c], handlers, at, called)
    ensures c in handlers ==> CallsAt(active + [c], handlers, at + [|active|], called + [handlers[c]])
  {
  }

  lemma NoHandlers(handlers: map<Cond, nat>)
    ensures HandlersFor([], handlers) == [] && CalledInOrder([], handlers, [])
  {
    assert Places([], handlers, []) && CallsAt([], handlers, [], []);
  }

  // Its methods are the steps of the state machine that touch its fields.
  class WaitSetDispatcher {
    var running: bool
    var monitorHandlers: map<Cond, nat>
    var dataHandlers: map<Cond, nat>
    var attached: set<Cond>

    predicate Shows(s: State)
      reads this
    {
      running == s.running && monitorHandlers == s.monitorHandlers && dataHandlers == s.dataHandlers
    }

    constructor ()
      ensures forall mode :: Shows(Initial(mode))
    {
      running, monitorHandlers, dataHandlers, attached := true, map[], map[], {Guard};
    }

    method Start(ghost s: State)
      requires Shows(s) && Enabled(s, ClearEnd) && s.main.restart
      modifies this
      ensures Shows(Next(s, ClearEnd))
    {
      if running { return; }
      running := true;
    }

    method Stop(ghost s: State)
      requires Shows(s) && Enabled(s, ClearBegin) && s.mode == WaitSet
      modifies this
      ensures Shows(Next(s, ClearBegin))
    {
      if !running { return; }
      running := false;
    }

    method AttachMonitorOf(h: nat, ok: bool, ghost s: State)
      requires Shows(s) && Enabled(s, AttachMonitor(ok)) && s.main.h == h
      modifies this
      ensures Shows(Next(s, AttachMonitor(ok)))
    {
      if !ok { return; }
      attached := attached + {Status(h)};
      monitorHandlers := monitorHandlers[Status(h) := h];
    }

    method AttachDataOf(h: nat, ok: bool, nonce: nat, ghost s: State)
      requires Shows(s) && Enabled(s, AttachData(ok, nonce)) && s.main.h == h
      modifies this
      ensures Shows(Next(s, AttachData(ok, nonce)))
    {
      if !ok { return; }
      attached := attached + {Read(h, nonce)};
      dataHandlers := dataHandlers[Read(h, nonce) := h];
    }

    // The first step of removing a writer or a reader.
    method DetachMonitorOf(h: nat, ok: bool, ghost s: State)
      requires Shows(s) && (Enabled(s, RemoveWriter(h, ok)) || Enabled(s, RemoveReader(h, ok)))
      modifies this
      ensures Enabled(s, RemoveWriter(h, ok)) ==> Shows(Next(s, RemoveWriter(h, ok)))
      ensures Enabled(s, RemoveReader(h, ok)) ==> Shows(Next(s, RemoveReader(h, ok)))
    {
      if !ok { return; }
      attached := attached - {Status(h)};
      monitorHandlers := monitorHandlers - {Status(h)};
    }

    method DetachDataOf(h: nat, ok: bool, nonce: nat, ghost s: State)
      requires Shows(s) && Enabled(s, DetachData(ok, nonce)) && s.main.h == h
      modifies this
      ensures Shows(Next(s, DetachData(ok, nonce)))
    {
      if !ok { return; }
      attached := attached - {Read(h, nonce)};
      dataHandlers := dataHandlers - {Read(h, nonce)};
    }

    // Detaching a condition may fail; the handlers are dropped all the same.
    method DetachAll(failing: set<Cond>, ghost s: State)
      requires Shows(s) && Enabled(s, DetachMonitors)
      requires Enabled(Next(s, DetachMonitors), DetachDatas)
      modifies this
      ensures Shows(Next(Next(s, DetachMonitors), DetachDatas))
      ensures attached == old(attached) - ((old(monitorHandlers) + old(dataHandlers)).Keys - failing)
    {
      DetachEach(monitorHandlers.Keys, failing);
      monitorHandlers := map[];
      DetachEach(dataHandlers.Keys, failing);
      dataHandlers := map[];
    }

    method DetachEach(conditions: set<Cond>, failing: set<Cond>)
      modifies this`attached
      ensures attached == old(attached) - (conditions - failing)
    {
      var left := conditions;
      while left != {}
        invariant left <= conditions
        invariant attached == old(attached) - (conditions - left - failing)
        decreases |left|
      {
        var c :| c in left;
        left := left - {c};
        if c !in failing { attached := attached - {c}; }
      }
    }

    // The body of a thread loop after it has taken the lock.
    method CallHandlers(w: Worker, active: seq<Cond>) returns (called: seq<nat>)
      ensures called == HandlersFor(active, if w == Monitor then monitorHandlers else dataHandlers)
      ensures CalledInOrder(active, if w == Monitor then monitorHandlers else dataHandlers, called)
    {
      hide CalledInOrder;
      var handlers := if w == Monitor then monitorHandlers else dataHandlers;
      called := [];
      for i := 0 to |active|
        invariant called == HandlersFor(active[..i], handlers)
      {
        HandlersForLast(active[..i], active[i], handlers);
        assert active[..i] + [active[i]] == active[..i + 1];
        if active[i] != Guard && active[i] in handlers { called := called + [handlers[active[i]]]; }
      }
      assert active[..|active|] == active;
      HandlersExactly(active, handlers);
    }
  }
}
