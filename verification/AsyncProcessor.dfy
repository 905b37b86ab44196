// The bounded event queue and its worker (RtpDdsGateway/src/async/async_event_processor.cpp, lines
// 24-111, and include/async/async_event_processor.hpp, lines 94-137). Each lock region is one step, but
// for the worker's wait, which tests its predicate and then blocks; what is done without the lock,
// clearing the flag and notifying, is a step each.
module AsyncProcessor {
  import opened Wrappers

  datatype Kind = Sample | Command | Error

  // A posted closure, told apart by the order of its post.
  datatype Job = Job(id: nat, kind: Kind)

  datatype Config = Config(maxQueue: nat, drainStop: bool)

  // Parking: the worker has found nothing to do and still holds the lock. Blocked: it waits to be notified.
  datatype Worker = NotStarted | Looping | Parking | Blocked | Executing(job: Job) | Exited

  // stopping: a stop has cleared running and has yet to notify; ringing: how many posters have left the
  // lock and have yet to notify. The last five fields are history: posts under way and made, jobs
  // accepted, executed and dropped.
  datatype State = State(
    running: bool, stopping: bool, ringing: nat, worker: Worker, queue: seq<Job>, maxDepth: nat,
    enqSample: nat, enqCmd: nat, enqErr: nat, execJobs: nat, dropCount: nat,
    posting: multiset<Job>, posts: seq<Job>, accepted: seq<Job>, executed: seq<Job>, dropped: seq<Job>)

  datatype Action =
    | Start
    | Clear
    | Notify
    | Post(kind: Kind)
    | Enqueue(job: Job)
    | Ring
    | Test
    | Block
    | Stray
    | Take
    | Finish

  function Initial(): State {
    State(false, false, 0, NotStarted, [], 0, 0, 0, 0, 0, 0, multiset{}, [], [], [], [])
  }

  // start is not called again before a stop has joined the worker. A condition variable may also wake
  // its waiter unasked, which is what Stray does.
  predicate Enabled(s: State, a: Action) {
    match a
    case Start => s.running || s.worker == NotStarted || (s.worker == Exited && !s.stopping)
    case Clear => true
    case Notify => s.stopping
    case Post(_) => true
    case Enqueue(job) => job in s.posting && s.worker != Parking
    case Ring => s.ringing > 0
    case Test => s.worker == Looping && s.running && s.queue == []
    case Block => s.worker == Parking
    case Stray => s.worker == Blocked
    case Take => s.worker == Looping && (!s.running || s.queue != [])
    case Finish => s.worker.Executing?
  }

  // A notification reaches the worker only if it is waiting.
  function Woken(w: Worker): Worker { if w == Blocked then Looping else w }

  function Next(s: State, c: Config, a: Action): State
    requires Enabled(s, a)
  {
    match a
    case Start => if s.running then s else s.(running := true, worker := Looping)
    case Clear => if s.running then s.(running := false, stopping := true) else s
    case Notify => s.(stopping := false, worker := Woken(s.worker))
    case Ring => s.(ringing := s.ringing - 1, worker := Woken(s.worker))
    case Test => s.(worker := Parking)
    case Block => s.(worker := Blocked)
    case Stray => s.(worker := Looping)
    case Post(kind) =>
      var job := Job(|s.posts|, kind);
      s.(posting := s.posting + multiset{job}, posts := s.posts + [job],
         enqSample := s.enqSample + (if kind == Sample then 1 else 0),
         enqCmd := s.enqCmd + (if kind == Command then 1 else 0),
         enqErr := s.enqErr + (if kind == Error then 1 else 0))
    case Enqueue(job) =>
      var s' := s.(posting := s.posting - multiset{job});
      if |s.queue| >= c.maxQueue then s'.(dropCount := s.dropCount + 1, dropped := s.dropped + [job])
      else s'.(queue := s.queue + [job], accepted := s.accepted + [job], ringing := s.ringing + 1,
               maxDepth := if |s.queue| + 1 > s.maxDepth then |s.queue| + 1 else s.maxDepth)
    case Take =>
      if s.queue == [] then s.(worker := Exited)
      else if !s.running && !c.drainStop then
        s.(worker := Exited, queue := [], dropCount := s.dropCount + |s.queue|, dropped := s.dropped + s.queue)
      else s.(worker := Executing(s.queue[0]), queue := s.queue[1..])
    case Finish => s.(worker := Looping, execJobs := s.execJobs + 1, executed := s.executed + [s.worker.job])
  }

  function InFlight(s: State): seq<Job> { if s.worker.Executing? then [s.worker.job] else [] }

  // ---------- Conservation ----------

  // Every post is in exactly one place.
  ghost predicate Conserved(s: State) {
    s.posting + multiset(s.queue) + multiset(InFlight(s)) + multiset(s.executed) + multiset(s.dropped)
    == multiset(s.posts)
  }

  predicate Counted(s: State, c: Config) {
    && s.enqSample + s.enqCmd + s.enqErr == |s.posts|
    && s.execJobs == |s.executed| && s.dropCount == |s.dropped|
    && |s.queue| <= s.maxDepth <= c.maxQueue
  }

  // Posts carry their own number.
  predicate NumberedPosts(s: State) {
    forall i :: 0 <= i < |s.posts| ==> s.posts[i].id == i
  }

  type Bag = multiset<Job>

  // A job moves from one place to another.
  lemma Regroup(p: Bag, x: Bag, q: Bag, i: Bag, e: Bag, d: Bag)
    ensures (p + x) + q + i + e + d == p + (q + x) + i + e + d
    ensures (p + x) + q + i + e + d == p + q + i + e + (d + x)
    ensures (p + x) + q + i + e + d == (p + q + i + e + d) + x
    ensures p + (x + q) + multiset{} + e + d == p + q + x + e + d
    ensures p + q + x + e + d == p + q + multiset{} + (e + x) + d
  {
  }

  lemma PostFacts(s: State, c: Config, kind: Kind)
    ensures var s' := Next(s, c, Post(kind));
            var job := Job(|s.posts|, kind);
            && s'.posting == s.posting + multiset{job} && s'.posts == s.posts + [job] && s'.queue == s.queue
            && s'.executed == s.executed && s'.dropped == s.dropped && InFlight(s') == InFlight(s)
  {
  }

  lemma PostConserved(s: State, c: Config, kind: Kind)
    requires Conserved(s)
    ensures Conserved(Next(s, c, Post(kind)))
  {
    hide Next, InFlight;
    PostFacts(s, c, kind);
    var job := Job(|s.posts|, kind);
    assert multiset(s.posts + [job]) == multiset(s.posts) + multiset{job};
    Regroup(s.posting, multiset{job}, multiset(s.queue), multiset(InFlight(s)), multiset(s.executed),
            multiset(s.dropped));
  }

  lemma EnqueueFacts(s: State, c: Config, job: Job)
    requires Enabled(s, Enqueue(job))
    ensures var s' := Next(s, c, Enqueue(job));
            && s'.posting == s.posting - multiset{job} && InFlight(s') == InFlight(s)
            && s'.executed == s.executed && s'.posts == s.posts
            && if |s.queue| >= c.maxQueue then
                 s'.queue == s.queue && s'.dropped == s.dropped + [job] && s'.accepted == s.accepted
               else s'.queue == s.queue + [job] && s'.dropped == s.dropped && s'.accepted == s.accepted + [job]
  {
  }

  lemma EnqueueConserved(s: State, c: Config, job: Job)
    requires Conserved(s) && Enabled(s, Enqueue(job))
    ensures Conserved(Next(s, c, Enqueue(job)))
  {
    hide Next, InFlight;
    EnqueueFacts(s, c, job);
    var rest := s.posting - multiset{job};
    assert s.posting == rest + multiset{job};
    var q, d := multiset(s.queue), multiset(s.dropped);
    Regroup(rest, multiset{job}, q, multiset(InFlight(s)), multiset(s.executed), d);
    assert multiset(s.dropped + [job]) == d + multiset{job} && multiset(s.queue + [job]) == q + multiset{job};
  }

  lemma TakeFacts(s: State, c: Config)
    requires Enabled(s, Take)
    ensures var s' := Next(s, c, Take);
            && s'.posting == s.posting && s'.executed == s.executed && s'.posts == s.posts && InFlight(s) == []
            && if s'.worker == Exited then
                 s'.queue == [] && s'.dropped == s.dropped + s.queue && InFlight(s') == []
               else
                 && s.queue != [] && s'.queue == s.queue[1..] && s'.dropped == s.dropped
                 && InFlight(s') == [s.queue[0]]
  {
    assert s.dropped + [] == s.dropped;
  }

  lemma TakeConserved(s: State, c: Config)
    requires Conserved(s) && Enabled(s, Take)
    ensures Conserved(Next(s, c, Take))
  {
    hide Next, Enabled, InFlight;
    TakeFacts(s, c);
    var p, q, e, d, s' := s.posting, multiset(s.queue), multiset(s.executed), multiset(s.dropped), Next(s, c, Take);
    if s'.worker == Exited {
      assert multiset(s.dropped + s.queue) == d + q;
      Regroup(p, q, multiset{}, multiset{}, e, d);
    } else {
      var first, rest := multiset([s.queue[0]]), multiset(s.queue[1..]);
      assert s.queue == [s.queue[0]] + s.queue[1..];
      assert q == first + rest;
      Regroup(p, first, rest, multiset{}, e, d);
    }
  }

  lemma FinishFacts(s: State, c: Config)
    requires s.worker.Executing?
    ensures var s' := Next(s, c, Finish);
            && InFlight(s) == [s.worker.job] && InFlight(s') == [] && s'.executed == s.executed + [s.worker.job]
            && s'.posting == s.posting && s'.queue == s.queue && s'.dropped == s.dropped && s'.posts == s.posts
            && s'.running == s.running && s'.worker == Looping
  {
  }

  lemma FinishConserved(s: State, c: Config)
    requires Conserved(s) && s.worker.Executing?
    ensures Conserved(Next(s, c, Finish))
  {
    hide Next, InFlight;
    FinishFacts(s, c);
    var x := multiset([s.worker.job]);
    assert multiset(s.executed + [s.worker.job]) == multiset(s.executed) + x;
    Regroup(s.posting, x, multiset(s.queue), multiset{}, multiset(s.executed), multiset(s.dropped));
  }

  lemma OtherFacts(s: State, c: Config, a: Action)
    requires Enabled(s, a) && !a.Post? && !a.Enqueue? && !a.Take? && !a.Finish?
    ensures var s' := Next(s, c, a);
            && s'.posting == s.posting && s'.queue == s.queue && InFlight(s') == InFlight(s)
            && s'.executed == s.executed && s'.dropped == s.dropped && s'.posts == s.posts
  {
  }

  lemma OtherConserved(s: State, c: Config, a: Action)
    requires Conserved(s) && Enabled(s, a) && !a.Post? && !a.Enqueue? && !a.Take? && !a.Finish?
    ensures Conserved(Next(s, c, a))
  {
    hide Next, Enabled, InFlight;
    OtherFacts(s, c, a);
  }

  lemma MovesConserved(s: State, c: Config, a: Action)
    requires Conserved(s) && Enabled(s, a)
    ensures Conserved(Next(s, c, a))
  {
    hide Conserved, Next;
    match a
    case Post(kind) => PostConserved(s, c, kind);
    case Enqueue(job) => EnqueueConserved(s, c, job);
    case Take => TakeConserved(s, c);
    case Finish => FinishConserved(s, c);
    case _ => OtherConserved(s, c, a);
  }

  lemma StaysCounted(s: State, c: Config, a: Action)
    requires Counted(s, c) && Enabled(s, a)
    ensures Counted(Next(s, c, a), c)
  {
  }

  lemma StaysNumbered(s: State, c: Config, a: Action)
    requires NumberedPosts(s) && Enabled(s, a)
    ensures NumberedPosts(Next(s, c, a))
  {
    assert Next(s, c, a).posts == if a.Post? then s.posts + [Job(|s.posts|, a.kind)] else s.posts;
    hide Next, Enabled;
  }

  lemma MovesCounted(s: State, c: Config, a: Action)
    requires Counted(s, c) && NumberedPosts(s) && Enabled(s, a)
    ensures Counted(Next(s, c, a), c) && NumberedPosts(Next(s, c, a))
  {
    hide Next, Enabled, Counted, NumberedPosts;
    StaysCounted(s, c, a);
    StaysNumbered(s, c, a);
  }

  lemma {:induction false} PostOnce(posts: seq<Job>, j: nat)
    requires forall i :: 0 <= i < |posts| ==> posts[i].id == i
    requires j < |posts|
    ensures multiset(posts)[posts[j]] == 1
    decreases |posts|
  {
    var n := |posts| - 1;
    assert posts == posts[..n] + [posts[n]];
    if j < n {
      PostOnce(posts[..n], j);
    } else {
      assert posts[n] !in multiset(posts[..n]);
    }
  }

  // So a job is in the hands of its poster, queued, in flight, executed or dropped, and only one of them.
  lemma OnePlace(s: State, j: nat)
    requires Conserved(s) && NumberedPosts(s) && j < |s.posts|
    ensures var job := s.posts[j];
            s.posting[job] + multiset(s.queue)[job] + multiset(InFlight(s))[job] + multiset(s.executed)[job]
              + multiset(s.dropped)[job] == 1
  {
    PostOnce(s.posts, j);
    var job := s.posts[j];
    assert (s.posting + multiset(s.queue) + multiset(InFlight(s)) + multiset(s.executed) +
             multiset(s.dropped))[job] == 1;
  }

  // ---------- Order ----------

  // accepted without the jobs that a stop without draining threw away.
  function Surviving(accepted: seq<Job>, dropped: seq<Job>): seq<Job> {
    if accepted == [] then []
    else (if accepted[0] in dropped then [] else [accepted[0]]) + Surviving(accepted[1..], dropped)
  }

  // Jobs run in the order in which they were accepted.
  predicate InOrder(s: State) {
    s.executed + InFlight(s) + s.queue == Surviving(s.accepted, s.dropped)
  }

  lemma {:induction false} SurvivingConcat(a: seq<Job>, b: seq<Job>, d: seq<Job>)
    ensures Surviving(a + b, d) == Surviving(a, d) + Surviving(b, d)
    decreases a
  {
    if a == [] {
      assert a + b == b;
    } else {
      assert (a + b)[1..] == a[1..] + b;
      SurvivingConcat(a[1..], b, d);
    }
  }

  // More drops: what survives is what survives of the survivors.
  lemma {:induction false} SurvivingTwice(a: seq<Job>, d: seq<Job>, e: seq<Job>)
    ensures Surviving(a, d + e) == Surviving(Surviving(a, d), e)
    decreases a
  {
    if a != [] {
      SurvivingTwice(a[1..], d, e);
      var head := if a[0] in d then [] else [a[0]];
      SurvivingConcat(head, Surviving(a[1..], d), e);
    }
  }

  lemma {:induction false} SurvivingAll(a: seq<Job>, d: seq<Job>)
    requires forall j :: j in a ==> j !in d
    ensures Surviving(a, d) == a
    decreases a
  {
    if a != [] { SurvivingAll(a[1..], d); }
  }

  lemma {:induction false} SurvivingNone(a: seq<Job>, d: seq<Job>)
    requires forall j :: j in a ==> j in d
    ensures Surviving(a, d) == []
    decreases a
  {
    if a != [] { SurvivingNone(a[1..], d); }
  }

  lemma Elsewhere(s: State, job: Job)
    requires Conserved(s) && NumberedPosts(s) && job in s.posts
    ensures s.posting[job] + multiset(s.queue)[job] + multiset(InFlight(s))[job] + multiset(s.executed)[job]
              + multiset(s.dropped)[job] == 1
  {
    var j :| 0 <= j < |s.posts| && s.posts[j] == job;
    OnePlace(s, j);
  }

  lemma Posted(s: State, job: Job)
    requires Conserved(s)
    requires job in s.posting || job in s.queue || job in InFlight(s) || job in s.executed || job in s.dropped
    ensures job in s.posts
  {
    var m := s.posting + multiset(s.queue) + multiset(InFlight(s)) + multiset(s.executed) + multiset(s.dropped);
    assert job in m;
    assert job in multiset(s.posts);
  }

  lemma EnqueueInOrder(s: State, c: Config, job: Job)
    requires InOrder(s) && Conserved(s) && NumberedPosts(s) && Enabled(s, Enqueue(job))
    ensures InOrder(Next(s, c, Enqueue(job)))
  {
    hide Surviving;
    Posted(s, job);
    Elsewhere(s, job);
    hide Conserved, NumberedPosts;
    if |s.queue| >= c.maxQueue {
      SurvivingTwice(s.accepted, s.dropped, [job]);
      var kept := Surviving(s.accepted, s.dropped);
      forall j | j in kept ensures j !in [job] {}
      SurvivingAll(kept, [job]);
    } else {
      SurvivingConcat(s.accepted, [job], s.dropped);
      SurvivingAll([job], s.dropped);
      assert s.executed + InFlight(s) + (s.queue + [job]) == s.executed + InFlight(s) + s.queue + [job];
    }
  }

  lemma DiscardInOrder(s: State)
    requires InOrder(s) && Conserved(s) && NumberedPosts(s) && s.worker == Looping
    ensures Surviving(s.accepted, s.dropped + s.queue) == s.executed
  {
    hide Surviving;
    SurvivingTwice(s.accepted, s.dropped, s.queue);
    forall j | j in s.executed ensures j !in s.queue {
      Posted(s, j);
      Elsewhere(s, j);
    }
    assert s.executed + InFlight(s) + s.queue == s.executed + s.queue;
    SurvivingConcat(s.executed, s.queue, s.queue);
    SurvivingAll(s.executed, s.queue);
    SurvivingNone(s.queue, s.queue);
  }

  lemma TakeInOrder(s: State, c: Config)
    requires InOrder(s) && Conserved(s) && NumberedPosts(s) && Enabled(s, Take)
    ensures InOrder(Next(s, c, Take))
  {
    hide Surviving, Conserved, NumberedPosts;
    if s.queue != [] {
      DiscardInOrder(s);
      assert s.executed + [s.queue[0]] + s.queue[1..] == s.executed + [] + s.queue;
      assert s.executed + [] + [] == s.executed;
    }
  }

  lemma MovesInOrder(s: State, c: Config, a: Action)
    requires InOrder(s) && Conserved(s) && NumberedPosts(s) && Enabled(s, a)
    ensures InOrder(Next(s, c, a))
  {
    hide Surviving, Conserved, NumberedPosts;
    match a
    case Enqueue(job) => EnqueueInOrder(s, c, job);
    case Take => TakeInOrder(s, c);
    case Finish => assert s.executed + [s.worker.job] + [] + s.queue == s.executed + [s.worker.job] + s.queue;
    case _ =>
  }

  // ---------- Runs ----------

  // A worker about to wait has seen an empty queue, and whoever has filled it since is yet to notify.
  predicate Heard(s: State) {
    (s.worker == Parking ==> s.queue == []) && (s.worker == Blocked && s.queue != [] ==> s.ringing > 0)
  }

  ghost predicate Inv(s: State, c: Config) {
    Conserved(s) && Counted(s, c) && NumberedPosts(s) && InOrder(s) && Heard(s)
  }

  predicate IsRun(c: Config, states: seq<State>, actions: seq<Action>) {
    && |states| == |actions| + 1 && states[0] == Initial()
    && forall i :: 0 <= i < |actions| ==>
         Enabled(states[i], actions[i]) && states[i + 1] == Next(states[i], c, actions[i])
  }

  lemma InitialOk(c: Config)
    ensures Inv(Initial(), c)
  {
  }

  lemma MovesHeard(s: State, c: Config, a: Action)
    requires Heard(s) && Enabled(s, a)
    ensures Heard(Next(s, c, a))
  {
  }

  lemma StepKeeps(s: State, c: Config, a: Action)
    requires Inv(s, c) && Enabled(s, a)
    ensures Inv(Next(s, c, a), c)
  {
    hide Conserved, Counted, NumberedPosts, InOrder, Heard, Next, Enabled;
    MovesHeard(s, c, a);
    MovesConserved(s, c, a);
    MovesCounted(s, c, a);
    MovesInOrder(s, c, a);
  }

  lemma {:induction false} RunKeeps(c: Config, states: seq<State>, actions: seq<Action>, n: nat)
    requires IsRun(c, states, actions) && n < |states|
    ensures Inv(states[n], c)
  {
    hide Inv, Next, Enabled;
    if n == 0 {
      InitialOk(c);
    } else {
      RunKeeps(c, states, actions, n - 1);
      StepKeeps(states[n - 1], c, actions[n - 1]);
    }
  }

  // Every post is accounted for by the counters, the queue, the worker and the posters.
  lemma TotalsHold(s: State, c: Config)
    requires Inv(s, c)
    ensures s.enqSample + s.enqCmd + s.enqErr == |s.posting| + |s.queue| + |InFlight(s)| + s.execJobs + s.dropCount
  {
    hide InOrder, NumberedPosts, InFlight;
    assert |s.posting + multiset(s.queue) + multiset(InFlight(s)) + multiset(s.executed) + multiset(s.dropped)|
        == |multiset(s.posts)|;
  }

  lemma TotalsOnRuns(c: Config, states: seq<State>, actions: seq<Action>, n: nat)
    requires IsRun(c, states, actions) && n < |states|
    ensures var s := states[n];
            && s.enqSample + s.enqCmd + s.enqErr == |s.posting| + |s.queue| + |InFlight(s)| + s.execJobs + s.dropCount
            && |s.queue| <= s.maxDepth <= c.maxQueue
  {
    RunKeeps(c, states, actions, n);
    hide IsRun, InOrder, NumberedPosts, InFlight, Conserved;
    TotalsHold(states[n], c);
  }

  // On every run each post is in exactly one place, and jobs run in the order of their acceptance.
  lemma PostsOnRuns(c: Config, states: seq<State>, actions: seq<Action>, n: nat, j: nat)
    requires IsRun(c, states, actions) && n < |states| && j < |states[n].posts|
    ensures var s, job := states[n], states[n].posts[j];
            && s.posting[job] + multiset(s.queue)[job] + multiset(InFlight(s))[job] + multiset(s.executed)[job]
                 + multiset(s.dropped)[job] == 1
            && s.executed + InFlight(s) + s.queue == Surviving(s.accepted, s.dropped)
  {
    RunKeeps(c, states, actions, n);
    hide IsRun, Counted, Surviving;
    OnePlace(states[n], j);
  }

  // Nothing that has been accepted is lost to a stop that drains.
  predicate DropsRefused(s: State) {
    forall j :: j in s.accepted ==> j !in s.dropped
  }

  lemma {:induction false} DrainDropsNone(c: Config, states: seq<State>, actions: seq<Action>, n: nat)
    requires IsRun(c, states, actions) && n < |states| && c.drainStop
    ensures DropsRefused(states[n])
    decreases n
  {
    hide Inv;
    if n > 0 {
      DrainDropsNone(c, states, actions, n - 1);
      RunKeeps(c, states, actions, n - 1);
      KeepsRefused(states[n - 1], c, actions[n - 1]);
    }
  }

  // With drain_stop only an enqueue drops anything.
  lemma DrainDrops(s: State, c: Config, a: Action)
    requires Enabled(s, a) && c.drainStop && !a.Enqueue?
    ensures Next(s, c, a).dropped == s.dropped && Next(s, c, a).accepted == s.accepted
  {
    assert s.dropped + [] == s.dropped;
  }

  lemma KeepsRefused(s: State, c: Config, a: Action)
    requires Inv(s, c) && Enabled(s, a) && c.drainStop && DropsRefused(s)
    ensures DropsRefused(Next(s, c, a))
  {
    hide Conserved, NumberedPosts, InOrder, Counted, Heard, Next;
    if a.Enqueue? {
      Posted(s, a.job);
      Elsewhere(s, a.job);
      NotAccepted(s, a.job);
      EnqueueFacts(s, c, a.job);
    } else {
      DrainDrops(s, c, a);
    }
  }

  // A job still being posted has not been accepted.
  lemma NotAccepted(s: State, job: Job)
    requires Conserved(s) && NumberedPosts(s) && InOrder(s) && DropsRefused(s) && job in s.posting
    ensures job !in s.accepted
  {
    hide Surviving;
    Posted(s, job);
    Elsewhere(s, job);
    hide Conserved, NumberedPosts;
    SurvivingAll(s.accepted, s.dropped);
    assert s.accepted == s.executed + InFlight(s) + s.queue;
  }

  // With drain_stop the executed jobs, the one in flight and the queue are exactly the accepted
  // jobs in acceptance order, so a worker about to leave has run them all.
  lemma DrainRunsAll(c: Config, states: seq<State>, actions: seq<Action>, n: nat)
    requires IsRun(c, states, actions) && n < |states| && c.drainStop
    ensures var s := states[n];
            && s.executed + InFlight(s) + s.queue == s.accepted
            && (Enabled(s, Take) && Next(s, c, Take).worker == Exited ==> s.executed == s.accepted)
  {
    hide Surviving;
    RunKeeps(c, states, actions, n);
    DrainDropsNone(c, states, actions, n);
    var s := states[n];
    hide IsRun, Conserved, Counted, NumberedPosts;
    SurvivingAll(s.accepted, s.dropped);
    if s.worker == Looping && s.queue == [] { assert s.executed + [] + [] == s.executed; }
  }

  // ---------- The worker leaves ----------

  predicate Working(w: Worker) { w == Looping || w.Executing? }

  // The worker's own next step, once stop has been called.
  function WorkerStep(s: State, c: Config): State
    requires !s.running && Working(s.worker)
  {
    if s.worker == Looping then Next(s, c, Take) else Next(s, c, Finish)
  }

  function StepsLeft(s: State): nat {
    2 * |s.queue| + match s.worker
                    case Exited => 0
                    case Looping => 1
                    case Parking => 3
                    case _ => 2
  }

  // The worker alone, from a stop to its exit.
  function Leave(s: State, c: Config): (r: State)
    requires !s.running && (Working(s.worker) || s.worker == Exited)
    ensures r.worker == Exited
    decreases StepsLeft(s)
  {
    if s.worker == Exited then s else Leave(WorkerStep(s, c), c)
  }

  // What the worker makes of the jobs in hand and in the queue.
  ghost predicate Drained(s: State, c: Config, last: State) {
    && last.queue == []
    && last.executed == s.executed + InFlight(s) + (if c.drainStop then s.queue else [])
    && last.dropped == s.dropped + (if c.drainStop then [] else s.queue)
  }

  lemma DrainedExit(s: State, c: Config)
    requires !s.running && s.worker == Looping && Next(s, c, Take).worker == Exited
    ensures Drained(s, c, Next(s, c, Take))
  {
    assert s.executed + [] + [] == s.executed && s.dropped + [] == s.dropped;
  }

  lemma DrainedTake(s: State, c: Config, last: State)
    requires !s.running && s.worker == Looping && Next(s, c, Take).worker != Exited
    requires Drained(Next(s, c, Take), c, last)
    ensures c.drainStop && Working(Next(s, c, Take).worker) && Drained(s, c, last)
  {
    assert s.queue == [s.queue[0]] + s.queue[1..];
    assert s.executed + [s.queue[0]] + s.queue[1..] == s.executed + [] + s.queue;
  }

  lemma DrainedFinish(s: State, c: Config, last: State)
    requires s.worker.Executing? && Drained(Next(s, c, Finish), c, last)
    ensures Drained(s, c, last)
  {
    hide Next, InFlight;
    FinishFacts(s, c);
    assert s.executed + [s.worker.job] + [] == s.executed + [s.worker.job];
  }

  lemma WorkerGoesOn(s: State, c: Config)
    requires !s.running && Working(s.worker)
    ensures var s' := WorkerStep(s, c);
            !s'.running && (Working(s'.worker) || s'.worker == Exited) && StepsLeft(s') < StepsLeft(s)
  {
  }

  // A worker that is not at its wait does get there, and with drain_stop it has run everything on the way.
  lemma {:induction false} LeaveDrains(s: State, c: Config)
    requires !s.running && Working(s.worker)
    ensures Drained(s, c, Leave(s, c))
    decreases StepsLeft(s)
  {
    hide Drained, StepsLeft, Next;
    var s' := WorkerStep(s, c);
    WorkerGoesOn(s, c);
    if s'.worker == Exited {
      ExitsByTaking(s, c);
      DrainedExit(s, c);
    } else {
      LeaveDrains(s', c);
      if s.worker == Looping { DrainedTake(s, c, Leave(s', c)); } else { DrainedFinish(s, c, Leave(s', c)); }
    }
  }

  lemma ExitsByTaking(s: State, c: Config)
    requires !s.running && Working(s.worker) && WorkerStep(s, c).worker == Exited
    ensures s.worker == Looping && Leave(s, c) == Next(s, c, Take)
  {
  }

  // What is left to do once no call comes in any more: jobs still with their posters, notifications, and
  // the worker's steps.
  function Left(s: State): nat { 4 * |s.posting| + s.ringing + (if s.stopping then 1 else 0) + StepsLeft(s) }

  // What must happen, unlike an unasked wake-up.
  predicate Due(a: Action) {
    a.Notify? || a.Enqueue? || a.Ring? || a.Test? || a.Block? || a.Take? || a.Finish?
  }

  // No call comes in.
  predicate Winding(a: Action) { Due(a) || a.Stray? }

  predicate Halting(s: State) { !s.running && s.worker != NotStarted }

  lemma Handed(posting: Bag, job: Job)
    requires job in posting
    ensures |posting - multiset{job}| == |posting| - 1
  {
    assert posting == (posting - multiset{job}) + multiset{job};
  }

  // Each step brings the end closer, whoever takes it.
  lemma WindsDown(s: State, c: Config, a: Action)
    requires Halting(s) && Winding(a) && Enabled(s, a)
    ensures Left(Next(s, c, a)) < Left(s) && Halting(Next(s, c, a))
  {
    if a.Enqueue? { Handed(s.posting, a.job); }
  }

  // Nobody is left to do anything: posters and notifiers are done.
  predicate Settled(s: State) { s.posting == multiset{} && s.ringing == 0 && !s.stopping }

  // The worker waits for a notification that nobody will send.
  predicate Stuck(s: State) { Halting(s) && Settled(s) && s.worker == Blocked }

  // There is a step due until all are done and the worker has left, or is stuck.
  lemma WindsOn(s: State)
    requires Halting(s)
    ensures (exists a :: Due(a) && Enabled(s, a)) <==> !(Settled(s) && s.worker == Exited) && !Stuck(s)
  {
    if s.worker == Parking {
      assert Due(Block) && Enabled(s, Block);
    } else if s.posting != multiset{} {
      var job :| job in s.posting;
      assert Due(Enqueue(job)) && Enabled(s, Enqueue(job));
    } else if s.ringing > 0 {
      assert Due(Ring) && Enabled(s, Ring);
    } else if s.stopping {
      assert Due(Notify) && Enabled(s, Notify);
    } else if s.worker == Looping {
      assert Due(Take) && Enabled(s, Take);
    } else if s.worker.Executing? {
      assert Due(Finish) && Enabled(s, Finish);
    }
  }

  // ---------- A missed wake-up ----------

  // Where some steps lead, if each can be taken.
  function AfterAll(s: State, c: Config, actions: seq<Action>): Option<State>
    decreases |actions|
  {
    if actions == [] then Some(s)
    else if Enabled(s, actions[0]) then AfterAll(Next(s, c, actions[0]), c, actions[1..])
    else None
  }

  // The stop clears running and notifies between the worker's test and its wait. Nothing but an unasked
  // wake-up gets it out of there, so the stop that joins it does not come back.
  lemma MissedWakeUp(c: Config)
    ensures var s := AfterAll(Initial(), c, [Start, Test, Clear, Notify, Block]);
            && s.Some? && Stuck(s.value) && !Enabled(s.value, Start)
            && forall a :: Winding(a) && Enabled(s.value, a) ==> a == Stray
  {
    hide AfterAll;
    var s1 := Next(Initial(), c, Start);
    var s2 := Next(s1, c, Test);
    var s3 := Next(s2, c, Clear);
    var s4 := Next(s3, c, Notify);
    var r4 := [Block] + [];
    var r3 := [Notify] + r4;
    var r2 := [Clear] + r3;
    var r1 := [Test] + r2;
    assert [Start] + r1 == [Start, Test, Clear, Notify, Block];
    OneAction(Initial(), c, Start, r1);
    OneAction(s1, c, Test, r2);
    OneAction(s2, c, Clear, r3);
    OneAction(s3, c, Notify, r4);
    OneAction(s4, c, Block, []);
    NoAction(Next(s4, c, Block), c);
  }

  lemma NoAction(s: State, c: Config)
    ensures AfterAll(s, c, []) == Some(s)
  {
  }

  lemma OneAction(s: State, c: Config, a: Action, rest: seq<Action>)
    requires Enabled(s, a)
    ensures AfterAll(s, c, [a] + rest) == AfterAll(Next(s, c, a), c, rest)
  {
    hide Enabled, Next;
    assert ([a] + rest)[1..] == rest;
  }

  // The worker is at its wait, and what is still to come may all come too early or be no notification:
  // no post that the queue accepts is under way, and nobody is yet to notify a worker that waits already.
  predicate MayStick(s: State, c: Config) {
    && (s.posting == multiset{} || c.maxQueue == 0)
    && (s.worker == Parking || (s.worker == Blocked && s.ringing == 0 && !s.stopping))
  }

  // Where it may not stick it never will.
  lemma StaysSafe(s: State, c: Config, a: Action)
    requires Inv(s, c) && Halting(s) && Winding(a) && Enabled(s, a) && !MayStick(s, c)
    ensures !MayStick(Next(s, c, a), c)
  {
    hide Conserved, NumberedPosts, InOrder;
  }

  predicate AllDue(actions: seq<Action>) { forall i :: 0 <= i < |actions| ==> Due(actions[i]) }

  // The next step on a way to being stuck: notifications while the worker holds the lock, then the wait,
  // then the posts that are dropped.
  lemma StickingStep(s: State, c: Config) returns (a: Action)
    requires Halting(s) && MayStick(s, c) && !Stuck(s)
    ensures Due(a) && Enabled(s, a) && MayStick(Next(s, c, a), c)
  {
    if s.worker == Parking {
      return if s.stopping then Notify else if s.ringing > 0 then Ring else Block;
    } else {
      var job :| job in s.posting;
      return Enqueue(job);
    }
  }

  lemma {:induction false} WayToStick(s: State, c: Config) returns (actions: seq<Action>)
    requires Halting(s) && MayStick(s, c)
    ensures AllDue(actions) && AfterAll(s, c, actions).Some? && Stuck(AfterAll(s, c, actions).value)
    decreases Left(s)
  {
    hide Enabled, Next, Left, MayStick, Due, Stuck;
    if Stuck(s) {
      actions := [];
    } else {
      var a := StickingStep(s, c);
      WindsDown(s, c, a);
      var rest := WayToStick(Next(s, c, a), c);
      OneAction(s, c, a, rest);
      actions := [a] + rest;
    }
  }

  lemma {:induction false} NoWayToStick(s: State, c: Config, actions: seq<Action>)
    requires Inv(s, c) && Halting(s) && !MayStick(s, c) && AllDue(actions) && AfterAll(s, c, actions).Some?
    ensures !Stuck(AfterAll(s, c, actions).value)
    decreases |actions|
  {
    hide Inv, Enabled, Next, Left, Due;
    if actions == [] {
      hide AfterAll;
    } else {
      hide MayStick;
      StaysSafe(s, c, actions[0]);
      StepKeeps(s, c, actions[0]);
      WindsDown(s, c, actions[0]);
      NoWayToStick(Next(s, c, actions[0]), c, actions[1..]);
    }
  }

  ghost predicate CanStick(s: State, c: Config) {
    exists actions :: AllDue(actions) && AfterAll(s, c, actions).Some? && Stuck(AfterAll(s, c, actions).value)
  }

  // Once running is cleared, some order of what is left to do leaves the worker waiting for good if and
  // only if it may stick.
  lemma SticksExactly(s: State, c: Config)
    requires Inv(s, c) && Halting(s)
    ensures CanStick(s, c) <==> MayStick(s, c)
  {
    hide Inv, Halting, MayStick, Stuck, AllDue, AfterAll;
    if MayStick(s, c) {
      var actions := WayToStick(s, c);
    } else {
      forall actions | AllDue(actions) && AfterAll(s, c, actions).Some? ensures !Stuck(AfterAll(s, c, actions).value) {
        NoWayToStick(s, c, actions);
      }
    }
  }

  lemma {:induction false} AfterHalts(s: State, c: Config, actions: seq<Action>)
    requires Halting(s) && AllDue(actions) && AfterAll(s, c, actions).Some?
    ensures var end := AfterAll(s, c, actions).value; Halting(end) && |actions| + Left(end) <= Left(s)
    decreases |actions|
  {
    hide Enabled, Next, Left, Due, Halting;
    if actions != [] {
      WindsDown(s, c, actions[0]);
      AfterHalts(Next(s, c, actions[0]), c, actions[1..]);
    }
  }

  ghost predicate Finished(s: State) { forall a :: Due(a) ==> !Enabled(s, a) }

  ghost predicate AlwaysLeaves(s: State, c: Config) {
    forall actions :: AllDue(actions) && AfterAll(s, c, actions).Some? && Finished(AfterAll(s, c, actions).value) ==>
      AfterAll(s, c, actions).value.worker == Exited
  }

  // Every order of what is left to do ends, after no more steps than are left; and in every one the worker
  // leaves if and only if it may not stick.
  lemma LeavesExactly(s: State, c: Config)
    requires Inv(s, c) && Halting(s)
    ensures AlwaysLeaves(s, c) <==> !MayStick(s, c)
    ensures forall actions :: AllDue(actions) && AfterAll(s, c, actions).Some? ==> |actions| <= Left(s)
  {
    hide Inv, Halting, MayStick, Stuck, AllDue, AfterAll, Left, Finished, Settled;
    forall actions | AllDue(actions) && AfterAll(s, c, actions).Some?
      ensures |actions| <= Left(s)
      ensures var end := AfterAll(s, c, actions).value;
              (Finished(end) <==> (Settled(end) && end.worker == Exited) || Stuck(end)) && Halting(end)
    {
      AfterHalts(s, c, actions);
      FinishedHow(AfterAll(s, c, actions).value);
    }
    SticksExactly(s, c);
    if MayStick(s, c) {
      var actions := WayToStick(s, c);
      StuckWaits(AfterAll(s, c, actions).value);
    }
  }

  lemma FinishedHow(s: State)
    requires Halting(s)
    ensures Finished(s) <==> (Settled(s) && s.worker == Exited) || Stuck(s)
  {
    hide Due, Enabled, Settled, Stuck;
    WindsOn(s);
  }

  lemma StuckWaits(s: State)
    requires Stuck(s)
    ensures s.worker != Exited
  {
  }

  // At the clear itself that is a worker between its test and its wait, with no post under way that the
  // queue will accept.
  lemma SticksAtClear(s: State, c: Config)
    requires Inv(s, c) && s.running && s.worker != NotStarted
    ensures CanStick(Next(s, c, Clear), c) <==> s.worker == Parking && (s.posting == multiset{} || c.maxQueue == 0)
  {
    StepKeeps(s, c, Clear);
    hide Inv, CanStick;
    SticksExactly(Next(s, c, Clear), c);
  }

  lemma RunStep(c: Config, states: seq<State>, actions: seq<Action>, i: nat)
    requires IsRun(c, states, actions) && i + 1 < |states|
    ensures |states| == |actions| + 1 && Enabled(states[i], actions[i])
    ensures states[i + 1] == Next(states[i], c, actions[i])
  {
    hide Next, Enabled;
  }

  // However the posters still at work, the stop and the worker interleave once running is cleared, all is
  // done within the steps left. The worker has left by then, unless it may have stuck from the start. A
  // stop that drains loses no accepted job: what the worker has not run is in the queue.
  lemma {:induction false} ExitReached(c: Config, states: seq<State>, actions: seq<Action>, m: nat, n: nat)
    requires IsRun(c, states, actions) && m <= n < |states| && Halting(states[m])
    requires forall i :: m <= i < n ==> Winding(actions[i])
    ensures var s := states[n];
            && Halting(s) && n - m <= Left(states[m]) - Left(s)
            && ((exists a :: Due(a) && Enabled(s, a)) <==> !(Settled(s) && s.worker == Exited) && !Stuck(s))
            && (!MayStick(states[m], c) ==> !MayStick(s, c) && !Stuck(s))
            && (c.drainStop && s.worker == Exited ==> s.executed + s.queue == s.accepted)
    decreases n
  {
    hide IsRun, Next, Enabled, Left, Winding, Due, Inv, Settled;
    RunKeeps(c, states, actions, n);
    if m < n {
      ExitReached(c, states, actions, m, n - 1);
      RunStep(c, states, actions, n - 1);
      RunKeeps(c, states, actions, n - 1);
      WindsDown(states[n - 1], c, actions[n - 1]);
      if !MayStick(states[m], c) { StaysSafe(states[n - 1], c, actions[n - 1]); }
    }
    WindsOn(states[n]);
    StuckMaySo(states[n], c);
    if c.drainStop {
      DrainRunsAll(c, states, actions, n);
      if states[n].worker == Exited { NoneInFlight(states[n]); }
    }
  }

  lemma StuckMaySo(s: State, c: Config)
    ensures Stuck(s) ==> MayStick(s, c)
  {
  }

  lemma NoneInFlight(s: State)
    requires !s.worker.Executing?
    ensures s.executed + InFlight(s) + s.queue == s.executed + s.queue
  {
    assert s.executed + [] == s.executed;
  }

  lemma LeavesEmpty(s: State, c: Config, a: Action)
    requires Enabled(s, a) && s.worker != Exited && Next(s, c, a).worker == Exited
    ensures a == Take && Next(s, c, a).queue == [] && Next(s, c, a).accepted == s.accepted
  {
  }

  // When a worker that drains leaves it has run every job accepted so far; one accepted later stays queued.
  lemma LeavesDone(c: Config, states: seq<State>, actions: seq<Action>, n: nat)
    requires IsRun(c, states, actions) && n + 1 < |states| && c.drainStop
    requires states[n].worker != Exited && states[n + 1].worker == Exited
    ensures states[n + 1].queue == [] && states[n + 1].executed == states[n + 1].accepted
  {
    hide IsRun, Next, Enabled;
    RunStep(c, states, actions, n);
    LeavesEmpty(states[n], c, actions[n]);
    DrainRunsAll(c, states, actions, n + 1);
    NoneInFlight(states[n + 1]);
    assert states[n + 1].executed + [] == states[n + 1].executed;
  }

  // ---------- The processor object ----------

  datatype Stats = Stats(enqSample: nat, enqCmd: nat, enqErr: nat, execJobs: nat, dropped: nat, maxDepth: nat,
                         curDepth: nat)

  // Its methods are the steps of the state machine that touch its fields.
  class AsyncEventProcessor {
    const config: Config
    var queue: seq<Job>
    var running: bool
    var waiting: bool
    var maxDepth: nat
    var statsEnqSample: nat
    var statsEnqCmd: nat
    var statsEnqErr: nat
    var statsExec: nat
    var statsDrop: nat

    predicate Shows(s: State)
      reads this
    {
      && queue == s.queue && running == s.running && maxDepth == s.maxDepth && (waiting <==> s.worker == Blocked)
      && statsEnqSample == s.enqSample && statsEnqCmd == s.enqCmd && statsEnqErr == s.enqErr
      && statsExec == s.execJobs && statsDrop == s.dropCount
    }

    constructor (c: Config)
      ensures Shows(Initial()) && config == c
    {
      config, queue, running, waiting, maxDepth := c, [], false, false, 0;
      statsEnqSample, statsEnqCmd, statsEnqErr, statsExec, statsDrop := 0, 0, 0, 0, 0;
    }

    method StartWorker(ghost s: State)
      requires Shows(s) && Enabled(s, Start)
      modifies this
      ensures Shows(Next(s, config, Start))
    {
      if running { return; }
      running := true;
    }

    // Clears the flag, without the lock. The call that does so goes on to notify and to join.
    method StopWorker(ghost s: State) returns (own: bool)
      requires Shows(s)
      modifies this
      ensures Shows(Next(s, config, Clear)) && own == old(running)
      ensures own ==> Enabled(Next(s, config, Clear), Notify)
    {
      if !running { return false; }
      running := false;
      return true;
    }

    // notify_all by a stop, notify_one by a poster: whoever waits waits no more.
    method NotifyAll(ghost s: State)
      requires Shows(s) && Enabled(s, Notify)
      modifies this
      ensures Shows(Next(s, config, Notify))
    {
      waiting := false;
    }

    method NotifyOne(ghost s: State)
      requires Shows(s) && Enabled(s, Ring)
      modifies this
      ensures Shows(Next(s, config, Ring))
    {
      waiting := false;
    }

    // The counter moves before the job reaches the queue.
    method PostEvent(kind: Kind, ghost s: State)
      requires Shows(s)
      modifies this
      ensures Shows(Next(s, config, Post(kind)))
    {
      match kind
      case Sample => statsEnqSample := statsEnqSample + 1;
      case Command => statsEnqCmd := statsEnqCmd + 1;
      case Error => statsEnqErr := statsEnqErr + 1;
    }

    // The locked part. A poster whose job is dropped does not notify.
    method EnqueueJob(job: Job, ghost s: State) returns (notify: bool)
      requires Shows(s) && Enabled(s, Enqueue(job))
      modifies this
      ensures Shows(Next(s, config, Enqueue(job))) && notify == (|old(queue)| < config.maxQueue)
      ensures notify ==> Enabled(Next(s, config, Enqueue(job)), Ring)
    {
      if |queue| >= config.maxQueue {
        statsDrop := statsDrop + 1;
        return false;
      }
      queue := queue + [job];
      if |queue| > maxDepth { maxDepth := |queue|; }
      return true;
    }

    // The wait's predicate, under the lock. Where it fails the worker is about to block.
    method Ready(ghost s: State) returns (ready: bool)
      requires Shows(s) && s.worker == Looping
      ensures if ready then Enabled(s, Take) else Enabled(s, Test) && Shows(Next(s, config, Test))
    {
      return !running || queue != [];
    }

    method Wait(ghost s: State)
      requires Shows(s) && Enabled(s, Block)
      modifies this
      ensures Shows(Next(s, config, Block))
    {
      waiting := true;
    }

    // The locked part of the loop. No job: the worker leaves.
    method TakeJob(ghost s: State) returns (job: Option<Job>)
      requires Shows(s) && Enabled(s, Take)
      modifies this
      ensures Shows(Next(s, config, Take))
      ensures Next(s, config, Take).worker == match job case None => Exited case Some(j) => Executing(j)
    {
      if !running && queue == [] { return None; }
      if !running && !config.drainStop && queue != [] {
        statsDrop := statsDrop + |queue|;
        queue := [];
        return None;
      }
      job := Some(queue[0]);
      queue := queue[1..];
    }

    // After the job has run, whether or not it threw.
    method FinishJob(ghost s: State)
      requires Shows(s) && Enabled(s, Finish)
      modifies this
      ensures Shows(Next(s, config, Finish))
    {
      statsExec := statsExec + 1;
    }

    // Whenever it is taken, the snapshot adds up but for the jobs in the hands of posters and worker.
    method GetStats(ghost s: State) returns (st: Stats)
      requires Shows(s) && Inv(s, config)
      ensures st == Stats(s.enqSample, s.enqCmd, s.enqErr, s.execJobs, s.dropCount, s.maxDepth, |s.queue|)
      ensures st.enqSample + st.enqCmd + st.enqErr
           == st.curDepth + st.execJobs + st.dropped + |s.posting| + |InFlight(s)|
      ensures st.curDepth == |s.queue| <= st.maxDepth <= config.maxQueue
    {
      TotalsHold(s, config);
      return Stats(statsEnqSample, statsEnqCmd, statsEnqErr, statsExec, statsDrop, maxDepth, |queue|);
    }
  }
}
