// What one wake-up of a dispatcher thread handles, however the other threads interleave with it
// (RtpDdsGateway/src/async/waitset_dispatcher.cpp, lines 142-206).
module DispatcherServing {
  import opened Dispatcher

  // ---------- Stages of a clear ----------

  // The threads have left once a clear is past its join.
  predicate StageOk(s: State) {
    match s.main
    case Joining => !s.running
    case DetachingMonitor => Stopped(s)
    case DetachingData => Stopped(s)
    case Destroying(restart) => if restart then Stopped(s) else s.running
    case _ => s.running
  }

  lemma StageKept(s: State, a: Action)
    requires StageOk(s) && Enabled(s, a)
    ensures StageOk(Next(s, a))
  {
    hide Enabled, Next, StageOk;
    if ByThread(a) { StageByThread(s, a); } else { StageByManager(s, a); }
  }

  predicate ByThread(a: Action) {
    a.Check? || a.Wake? || a.TimeOut? || a.Recheck? || a.Lock? || a.CallNext? || a.Return? || a.Fail?
  }

  lemma StageByManager(s: State, a: Action)
    requires StageOk(s) && Enabled(s, a) && !ByThread(a)
    ensures StageOk(Next(s, a))
  {
    hide HandlersOf, ThreadOf, WithThread, HasLock;
  }

  // A thread's step changes that thread alone, and only one that has not left.
  lemma ThreadStep(s: State, a: Action)
    requires Enabled(s, a) && ByThread(a)
    ensures Next(s, a) == WithThread(s, a.w, ThreadOf(Next(s, a), a.w)) && ThreadOf(s, a.w) != Exited
  {
    hide WithThread, ThreadOf, HandlersOf;
    match a {
      case Check(w) => OwnThread(s, w, if s.running then Waiting else Exited);
      case Wake(w, active) => OwnThread(s, w, Woken(active));
      case TimeOut(w) => OwnThread(s, w, AtTop);
      case Recheck(w) => OwnThread(s, w, if s.running then Locking(ThreadOf(s, w).active) else Exited);
      case Lock(w) => OwnThread(s, w, Calling(ThreadOf(s, w).active));
      case CallNext(w) =>
        var active := ThreadOf(s, w).active;
        OwnThread(s, w, AtTop);
        if active != [] {
          OwnThread(s, w, Calling(active[1..]));
          if active[0] in HandlersOf(s, w) { OwnThread(s, w, Handling(HandlersOf(s, w)[active[0]], active[1..])); }
        }
      case Return(w) => OwnThread(s, w, Calling(ThreadOf(s, w).active));
      case Fail(w) => OwnThread(s, w, AtTop);
    }
  }

  lemma OwnThread(s: State, w: Worker, t: Thread)
    ensures ThreadOf(WithThread(s, w, t), w) == t && HandlersOf(WithThread(s, w, t), w) == HandlersOf(s, w)
  {
  }

  lemma StageByThread(s: State, a: Action)
    requires StageOk(s) && Enabled(s, a) && ByThread(a)
    ensures StageOk(Next(s, a))
  {
    hide Next, Enabled, ByThread;
    ThreadStep(s, a);
  }

  lemma {:induction false} StageOnRuns(mode: Mode, states: seq<State>, actions: seq<Action>, n: nat)
    requires IsRun(mode, states, actions) && n < |states|
    ensures StageOk(states[n])
  {
    hide Enabled, Next, StageOk;
    if n == 0 {
      assert StageOk(Initial(mode)) by { StageStart(mode); }
    } else {
      StageOnRuns(mode, states, actions, n - 1);
      StageKept(states[n - 1], actions[n - 1]);
    }
  }

  lemma StageStart(mode: Mode)
    ensures StageOk(Initial(mode))
  {
  }

  // ---------- A thread that holds its lock ----------

  predicate Own(a: Action, w: Worker) { a == CallNext(w) || a == Return(w) || a == Fail(w) }

  lemma ManagerLeaves(s: State, a: Action, w: Worker)
    requires StageOk(s) && Enabled(s, a) && HasLock(ThreadOf(s, w)) && !ByThread(a)
    ensures var s' := Next(s, a); ThreadOf(s', w) == ThreadOf(s, w) && HandlersOf(s', w) == HandlersOf(s, w)
  {
    hide WithThread;
  }

  lemma OtherThreadLeaves(s: State, a: Action, w: Worker)
    requires Enabled(s, a) && HasLock(ThreadOf(s, w)) && ByThread(a) && !Own(a, w)
    ensures var s' := Next(s, a); ThreadOf(s', w) == ThreadOf(s, w) && HandlersOf(s', w) == HandlersOf(s, w)
  {
    hide Next;
    ThreadStep(s, a);
  }

  // Nobody else touches it or its handlers.
  lemma OthersLeave(s: State, a: Action, w: Worker)
    requires StageOk(s) && Enabled(s, a) && HasLock(ThreadOf(s, w)) && !Own(a, w)
    ensures var s' := Next(s, a); ThreadOf(s', w) == ThreadOf(s, w) && HandlersOf(s', w) == HandlersOf(s, w)
  {
    hide Enabled, Next, StageOk, Own, HasLock, ThreadOf, HandlersOf;
    if ByThread(a) { OtherThreadLeaves(s, a, w); } else { ManagerLeaves(s, a, w); }
  }

  // It can always go on by itself, and comes closer to its end by doing so.
  lemma GoesOn(s: State, w: Worker)
    requires HasLock(ThreadOf(s, w))
    ensures var a := if ThreadOf(s, w).Calling? then CallNext(w) else Return(w);
            Enabled(s, a) && StepsLeft(ThreadOf(Next(s, a), w)) < StepsLeft(ThreadOf(s, w))
  {
  }

  // The holders whose handlers thread w entered between the states m and n.
  function Handled(states: seq<State>, actions: seq<Action>, w: Worker, m: nat, n: nat): seq<nat>
    requires m <= n < |states| && |states| == |actions| + 1
  {
    if n == m then []
    else
      Handled(states, actions, w, m, n - 1) +
      if actions[n - 1] == CallNext(w) && ThreadOf(states[n], w).Handling? then [ThreadOf(states[n], w).holder] else []
  }

  lemma HandledMore(mode: Mode, states: seq<State>, actions: seq<Action>, w: Worker, m: nat, n: nat)
    requires IsRun(mode, states, actions) && m < n < |states|
    ensures var s, a := states[n - 1], actions[n - 1];
            && Enabled(s, a) && states[n] == Next(s, a)
            && Handled(states, actions, w, m, n) == Handled(states, actions, w, m, n - 1) +
                 if a == CallNext(w) && ThreadOf(Next(s, a), w).Handling? then [ThreadOf(Next(s, a), w).holder] else []
  {
    hide Enabled, Next;
  }

  // k conditions are done, of handlers that have not changed.
  ghost predicate Served(s: State, w: Worker, active: seq<Cond>, handlers: map<Cond, nat>, k: nat, called: seq<nat>) {
    && k <= |active| && called == HandlersFor(active[..k], handlers)
    && match ThreadOf(s, w)
       case AtTop => k == |active|
       case Calling(rest) => rest == active[k..] && HandlersOf(s, w) == handlers
       case Handling(_, rest) => rest == active[k..] && HandlersOf(s, w) == handlers
       case _ => false
  }

  lemma ServedCall(s: State, w: Worker, active: seq<Cond>, handlers: map<Cond, nat>, k: nat, called: seq<nat>)
    requires Served(s, w, active, handlers, k, called) && ThreadOf(s, w).Calling?
    ensures var s' := Next(s, CallNext(w));
            var more := if ThreadOf(s', w).Handling? then [ThreadOf(s', w).holder] else [];
            if k == |active| then Served(s', w, active, handlers, k, called + more)
            else Served(s', w, active, handlers, k + 1, called + more)
  {
    hide WithThread, ThreadOf, HandlersOf, HandlersFor;
    assert called + [] == called;
    OwnThread(s, w, AtTop);
    if k < |active| {
      assert active[..k] + [active[k]] == active[..k + 1] && active[k..][1..] == active[k + 1..];
      HandlersForLast(active[..k], active[k], handlers);
      OwnThread(s, w, Calling(active[k + 1..]));
      if active[k] in handlers { OwnThread(s, w, Handling(handlers[active[k]], active[k + 1..])); }
    }
  }

  lemma ServedStep(s: State, a: Action, w: Worker, active: seq<Cond>, handlers: map<Cond, nat>, k: nat,
                   called: seq<nat>)
    requires Served(s, w, active, handlers, k, called) && HasLock(ThreadOf(s, w))
    requires StageOk(s) && Enabled(s, a) && a != Fail(w)
    ensures var s' := Next(s, a);
            var more := if a == CallNext(w) && ThreadOf(s', w).Handling? then [ThreadOf(s', w).holder] else [];
            Served(s', w, active, handlers, k, called + more) ||
            (k < |active| && Served(s', w, active, handlers, k + 1, called + more))
  {
    hide StageOk;
    assert called + [] == called;
    if a == CallNext(w) {
      ServedCall(s, w, active, handlers, k, called);
    } else if a != Return(w) {
      OthersLeave(s, a, w);
    }
  }

  lemma {:induction false} Serving(mode: Mode, states: seq<State>, actions: seq<Action>, w: Worker, m: nat, n: nat)
    requires IsRun(mode, states, actions) && m <= n < |states| && ThreadOf(states[m], w).Calling?
    requires forall i :: m <= i < n ==> actions[i] != Fail(w) && HasLock(ThreadOf(states[i], w))
    ensures exists k ::
      Served(states[n], w, ThreadOf(states[m], w).active, HandlersOf(states[m], w), k,
             Handled(states, actions, w, m, n))
    decreases n
  {
    hide Enabled, Next, StageOk, Served, HasLock;
    var active, handlers := ThreadOf(states[m], w).active, HandlersOf(states[m], w);
    if n == m {
      ServedNone(states[m], w);
      assert Served(states[n], w, active, handlers, 0, Handled(states, actions, w, m, n));
    } else {
      Serving(mode, states, actions, w, m, n - 1);
      var k: nat :| Served(states[n - 1], w, active, handlers, k, Handled(states, actions, w, m, n - 1));
      StageOnRuns(mode, states, actions, n - 1);
      HandledMore(mode, states, actions, w, m, n);
      ServedStep(states[n - 1], actions[n - 1], w, active, handlers, k, Handled(states, actions, w, m, n - 1));
    }
  }

  lemma ServedNone(s: State, w: Worker)
    requires ThreadOf(s, w).Calling?
    ensures Served(s, w, ThreadOf(s, w).active, HandlersOf(s, w), 0, [])
  {
    assert ThreadOf(s, w).active[..0] == [];
  }

  // A thread that takes its lock with some active conditions and comes back to its loop without an
  // exception has handled exactly the holders registered for them when it took the lock, in order,
  // whatever else was done meanwhile.
  lemma ServedExactly(mode: Mode, states: seq<State>, actions: seq<Action>, w: Worker, m: nat, n: nat)
    requires IsRun(mode, states, actions) && m <= n < |states| && ThreadOf(states[m], w).Calling?
    requires forall i :: m <= i < n ==> actions[i] != Fail(w) && HasLock(ThreadOf(states[i], w))
    requires ThreadOf(states[n], w) == AtTop
    ensures CalledInOrder(ThreadOf(states[m], w).active, HandlersOf(states[m], w), Handled(states, actions, w, m, n))
  {
    var active, handlers := ThreadOf(states[m], w).active, HandlersOf(states[m], w);
    Serving(mode, states, actions, w, m, n);
    var k: nat :| Served(states[n], w, active, handlers, k, Handled(states, actions, w, m, n));
    assert active[..|active|] == active;
    HandlersExactly(active, handlers);
    hide IsRun, CalledInOrder, HandlersFor;
  }

  // ---------- From waking up to the lock ----------

  predicate Midway(t: Thread) { t.Woken? || t.Locking? }

  lemma MidwayOwn(s: State, a: Action)
    requires Enabled(s, a) && ByThread(a) && Midway(ThreadOf(s, a.w))
    ensures var t := ThreadOf(Next(s, a), a.w);
            t.Woken? || t.Locking? || t.Calling? ==> t.active == ThreadOf(s, a.w).active
  {
    hide HandlersOf, WithThread, ThreadOf;
    var t := ThreadOf(s, a.w);
    if a.Recheck? { OwnThread(s, a.w, if s.running then Locking(t.active) else Exited); }
    if a.Lock? { OwnThread(s, a.w, Calling(t.active)); }
  }

  lemma MidwayByThread(s: State, a: Action, w: Worker)
    requires Enabled(s, a) && Midway(ThreadOf(s, w)) && ByThread(a)
    ensures var t := ThreadOf(Next(s, a), w);
            t.Woken? || t.Locking? || t.Calling? ==> t.active == ThreadOf(s, w).active
  {
    hide Next, Enabled, Midway;
    ThreadStep(s, a);
    if a.w == w { MidwayOwn(s, a); }
  }

  lemma MidwayByManager(s: State, a: Action, w: Worker)
    requires StageOk(s) && Enabled(s, a) && Midway(ThreadOf(s, w)) && !ByThread(a)
    ensures ThreadOf(Next(s, a), w) == ThreadOf(s, w)
  {
    hide WithThread, HasLock;
  }

  function Go(s: State, a: Action): State { if Enabled(s, a) then Next(s, a) else s }

  // While the dispatcher runs a thread at the top of its loop gets to its lock in four steps; once it
  // is stopped it leaves wherever it tests the flag.
  lemma OneRound(s: State, w: Worker, active: seq<Cond>)
    requires ThreadOf(s, w) == AtTop
    ensures s.running ==> Go(Go(Go(Go(s, Check(w)), Wake(w, active)), Recheck(w)), Lock(w)) ==
                          WithThread(s, w, Calling(active))
    ensures !s.running ==> Go(s, Check(w)) == WithThread(s, w, Exited)
    ensures !s.running ==> Go(WithThread(s, w, Woken(active)), Recheck(w)) == WithThread(s, w, Exited)
  {
    if s.running {
      assert Go(s, Check(w)) == WithThread(s, w, Waiting);
      assert Go(WithThread(s, w, Waiting), Wake(w, active)) == WithThread(s, w, Woken(active));
      assert Go(WithThread(s, w, Woken(active)), Recheck(w)) == WithThread(s, w, Locking(active));
    }
  }

  // A thread takes its lock with the conditions it was woken for.
  lemma {:induction false} ActiveKept(mode: Mode, states: seq<State>, actions: seq<Action>, w: Worker,
                                      active: seq<Cond>, i: nat, m: nat)
    requires IsRun(mode, states, actions) && i < m < |states| && actions[i] == Wake(w, active)
    requires forall j :: i < j < m ==> Midway(ThreadOf(states[j], w))
    ensures var t := ThreadOf(states[m], w); t.Woken? || t.Locking? || t.Calling? ==> t.active == active
    decreases m
  {
    hide Enabled, Next, ThreadOf;
    var s, a := states[m - 1], actions[m - 1];
    if m == i + 1 {
      JustWoken(s, w, active);
    } else {
      ActiveKept(mode, states, actions, w, active, i, m - 1);
      StageOnRuns(mode, states, actions, m - 1);
      if ByThread(a) { MidwayByThread(s, a, w); } else { MidwayByManager(s, a, w); }
    }
  }

  lemma JustWoken(s: State, w: Worker, active: seq<Cond>)
    requires Enabled(s, Wake(w, active))
    ensures ThreadOf(Next(s, Wake(w, active)), w) == Woken(active)
  {
  }

  // ---------- From attaching to being called ----------

  // The step registers condition c with thread w.
  predicate Registers(s: State, a: Action, w: Worker, c: Cond) {
    s.main.Registering? &&
    match a
    case AttachMonitor(ok) => ok && w == Monitor && c == Status(s.main.h)
    case AttachData(ok, nonce) => ok && w == Data && c == Read(s.main.h, nonce)
    case _ => false
  }

  // The step asks for c to be detached.
  predicate Unregisters(s: State, a: Action, w: Worker, c: Cond) {
    match a
    case RemoveWriter(h, _) => w == Monitor && c == Status(h)
    case RemoveReader(h, _) => w == Monitor && c == Status(h)
    case DetachData(_, nonce) => s.main.RemovingData? && w == Data && c == Read(s.main.h, nonce)
    case DetachMonitors => w == Monitor
    case DetachDatas => w == Data
    case _ => false
  }

  predicate Registered(s: State, w: Worker, c: Cond) {
    && (if w == Monitor then c.Status? else c.Read?)
    && c in HandlersOf(s, w) && HandlersOf(s, w)[c] == c.holder
  }

  lemma NowRegistered(s: State, a: Action, w: Worker, c: Cond)
    requires Enabled(s, a) && Registers(s, a, w, c)
    ensures Registered(Next(s, a), w, c)
  {
  }

  lemma ThreadRegistered(s: State, a: Action, w: Worker, c: Cond)
    requires Enabled(s, a) && Registered(s, w, c) && ByThread(a)
    ensures Registered(Next(s, a), w, c)
  {
    hide Next, Enabled, ByThread;
    ThreadStep(s, a);
  }

  lemma ManagerRegistered(s: State, a: Action, w: Worker, c: Cond)
    requires Enabled(s, a) && Registered(s, w, c) && !ByThread(a) && !Unregisters(s, a, w, c)
    ensures Registered(Next(s, a), w, c)
  {
    hide WithThread, ThreadOf, HasLock;
  }

  lemma StillRegistered(s: State, a: Action, w: Worker, c: Cond)
    requires Enabled(s, a) && Registered(s, w, c) && !Unregisters(s, a, w, c)
    ensures Registered(Next(s, a), w, c)
  {
    hide Enabled, Next, Registered, Unregisters;
    if ByThread(a) { ThreadRegistered(s, a, w, c); } else { ManagerRegistered(s, a, w, c); }
  }

  lemma {:induction false} RegisteredUntil(mode: Mode, states: seq<State>, actions: seq<Action>, w: Worker, c: Cond,
                                           i: nat, m: nat)
    requires IsRun(mode, states, actions) && i < m < |states| && Registers(states[i], actions[i], w, c)
    requires forall j :: i < j < m ==> !Unregisters(states[j], actions[j], w, c)
    ensures Registered(states[m], w, c)
    decreases m
  {
    hide Enabled, Next, Registered, Unregisters, Registers;
    if m == i + 1 {
      NowRegistered(states[i], actions[i], w, c);
    } else {
      RegisteredUntil(mode, states, actions, w, c, i, m - 1);
      StillRegistered(states[m - 1], actions[m - 1], w, c);
    }
  }

  // A holder whose condition was attached and not asked to be detached since is called whenever that
  // condition is active.
  lemma AttachedCalled(mode: Mode, states: seq<State>, actions: seq<Action>, w: Worker, c: Cond,
                       i: nat, m: nat, n: nat)
    requires IsRun(mode, states, actions) && i < m <= n < |states| && Registers(states[i], actions[i], w, c)
    requires forall j :: i < j < m ==> !Unregisters(states[j], actions[j], w, c)
    requires ThreadOf(states[m], w).Calling? && c in ThreadOf(states[m], w).active
    requires forall j :: m <= j < n ==> actions[j] != Fail(w) && HasLock(ThreadOf(states[j], w))
    requires ThreadOf(states[n], w) == AtTop
    ensures c.Status? || c.Read?
    ensures c.holder in Handled(states, actions, w, m, n)
  {
    var active, handlers := ThreadOf(states[m], w).active, HandlersOf(states[m], w);
    var called := Handled(states, actions, w, m, n);
    RegisteredUntil(mode, states, actions, w, c, i, m);
    ServedExactly(mode, states, actions, w, m, n);
    hide IsRun, Handled, Unregisters, Registers;
    var at: seq<nat> :| Places(active, handlers, at) && CallsAt(active, handlers, at, called);
    var x :| 0 <= x < |active| && active[x] == c;
    assert x in at;
    var y :| 0 <= y < |at| && at[y] == x;
    assert called[y] == c.holder;
  }

  // ---------- The manager's calls, undisturbed ----------

  predicate Free(s: State) { !HasLock(s.monitorThread) && !HasLock(s.dataThread) }

  // In WaitSet mode a creation goes on to register the new holder, and in Listener mode it does not.
  lemma CreationAttaches(s: State, h: nat, reader: bool, nonce: nat)
    requires Enabled(s, Create(h, reader)) && Free(s)
    ensures var t := Go(s, Create(h, reader));
            var u := Go(t, AttachMonitor(true));
            var made := s.(live := s.live[h := reader]);
            if s.mode == Listener then t == made
            else if !reader then u == made.(monitorHandlers := s.monitorHandlers[Status(h) := h])
            else Go(u, AttachData(true, nonce)) ==
                 made.(monitorHandlers := s.monitorHandlers[Status(h) := h],
                       dataHandlers := s.dataHandlers[Read(h, nonce) := h])
  {
    var t := Go(s, Create(h, reader));
    if s.mode == WaitSet {
      var u := Go(t, AttachMonitor(true));
      assert u.main == if reader then Registering(h, true) else Idle;
      assert u.monitorHandlers == s.monitorHandlers[Status(h) := h];
    }
  }

  // The mode changes exactly while there is no holder.
  lemma ModeChanges(s: State, mode: Mode)
    ensures Go(s, SetMode(mode)) == if s.main == Idle && s.live == map[] then s.(mode := mode) else s
  {
  }

  // A removal unregisters its holder and takes it away.
  lemma RemovalDetaches(s: State, h: nat, nonce: nat)
    requires s.main == Idle && h in s.live && Free(s)
    ensures var gone := s.(live := s.live - {h}, monitorHandlers := s.monitorHandlers - {Status(h)});
            if s.live[h] then
              Go(Go(Go(s, RemoveReader(h, true)), DetachData(true, nonce)), EraseRemoved) ==
              gone.(dataHandlers := s.dataHandlers - {Read(h, nonce)})
            else Go(Go(s, RemoveWriter(h, true)), EraseRemoved) == gone
  {
    if s.live[h] {
      var t := Go(s, RemoveReader(h, true));
      assert t == s.(monitorHandlers := s.monitorHandlers - {Status(h)}, main := RemovingData(h));
      var u := Go(t, DetachData(true, nonce));
      assert u == t.(dataHandlers := s.dataHandlers - {Read(h, nonce)}, main := Removing(h));
    } else {
      var t := Go(s, RemoveWriter(h, true));
      assert t == s.(monitorHandlers := s.monitorHandlers - {Status(h)}, main := Removing(h));
    }
  }

  // A clear in WaitSet mode, once its threads have left, drops every handler, and when its last holder is
  // gone it starts the threads again.
  lemma ClearRestarts(s: State)
    requires s.main == Joining && s.monitorThread == Exited && s.dataThread == Exited
    ensures Go(Go(Go(s, Join), DetachMonitors), DetachDatas) ==
            s.(monitorHandlers := map[], dataHandlers := map[], main := Destroying(true))
    ensures Go(s.(live := map[], main := Destroying(true)), ClearEnd) ==
            s.(live := map[], running := true, monitorThread := AtTop, dataThread := AtTop, main := Idle)
  {
    var t := Go(s, Join);
    assert t == s.(main := DetachingMonitor);
    assert Go(t, DetachMonitors) == s.(monitorHandlers := map[], main := DetachingData);
  }
}
