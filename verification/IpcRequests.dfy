// Request accounting from delivery to reply (RtpDdsGateway/src/ipc_adapter.cpp, lines 83-116 and
// 321-654, over the event queue of async_event_processor.cpp).
module IpcRequests {
  import opened Wrappers
  import opened JsonTypes
  import opened AsyncProcessor
  import opened IpcDispatch
  import opened IpcLaws

  // A REQ frame as delivered; its body is None when it is not CBOR. job: the command posted for it.
  datatype Request = Request(corr: nat, body: Option<Json>, job: Option<nat>)

  // A RSP frame, with the request it was sent for.
  datatype Frame = Frame(request: nat, corr: nat, response: Response)

  // owner: which request a command job was posted for.
  datatype System = System(proc: State, requests: seq<Request>, owner: map<nat, nat>, sent: seq<Frame>)

  // outcome: what came of the manager call a command makes when it runs, or of printing its data before.
  datatype Step =
    | Deliver(corr: nat, body: Option<Json>, sink: bool)
    | Inside(a: Action)
    | Execute(outcome: Result)

  predicate CanStep(s: System, e: Step) {
    match e
    case Deliver(_, _, _) => true
    case Inside(a) => !a.Finish? && a != Post(Command) && Enabled(s.proc, a)
    case Execute(_) => s.proc.worker.Executing?
                       && (s.proc.worker.job.kind == Command ==> Known(s, s.proc.worker.job.id))
  }

  predicate Known(s: System, id: nat) { id in s.owner && s.owner[id] < |s.requests| }

  function After(s: System, c: Config, e: Step): System
    requires CanStep(s, e)
  {
    match e
    case Deliver(corr, body, sink) =>
      var i := |s.requests|;
      if sink then
        var id := |s.proc.posts|;
        s.(proc := Next(s.proc, c, Post(Command)), requests := s.requests + [Request(corr, body, Some(id))],
           owner := s.owner[id := i])
      else
        s.(requests := s.requests + [Request(corr, body, None)],
           sent := s.sent + [Frame(i, corr, IpcDispatch.Error(7))])
    case Inside(a) => s.(proc := Next(s.proc, c, a))
    case Execute(outcome) =>
      var job := s.proc.worker.job;
      var s' := s.(proc := Next(s.proc, c, Finish));
      if job.kind != Command then s'
      else
        var i := s.owner[job.id];
        s'.(sent := s.sent + [Frame(i, s.requests[i].corr, Answer(s.requests[i].body, outcome))])
  }

  function AtRest(): System { System(Initial(), [], map[], []) }

  // ---------- The invariant ----------

  // How many replies have gone out for a request.
  function Replies(sent: seq<Frame>, i: nat): nat {
    if sent == [] then 0 else (if sent[0].request == i then 1 else 0) + Replies(sent[1..], i)
  }

  lemma {:induction false} RepliesMore(sent: seq<Frame>, f: Frame, i: nat)
    ensures Replies(sent + [f], i) == Replies(sent, i) + (if f.request == i then 1 else 0)
  {
    if sent == [] {
      assert sent + [f] == [f] && [f][1..] == [];
    } else {
      assert (sent + [f])[1..] == sent[1..] + [f];
      RepliesMore(sent[1..], f, i);
    }
  }

  // The replies a request must have had by now: one if it was refused at once or its job has run.
  function Owed(s: System, i: nat): nat
    requires i < |s.requests|
  {
    match s.requests[i].job
    case None => 1
    case Some(id) => if id < |s.proc.posts| then multiset(s.proc.executed)[s.proc.posts[id]] else 0
  }

  ghost predicate Owning(s: System) {
    && (forall i :: 0 <= i < |s.requests| && s.requests[i].job.Some? ==>
          var id := s.requests[i].job.value;
          id < |s.proc.posts| && s.proc.posts[id].kind == Command && id in s.owner && s.owner[id] == i)
    && (forall id :: id in s.owner ==> s.owner[id] < |s.requests| && s.requests[s.owner[id]].job == Some(id))
    && (forall id :: 0 <= id < |s.proc.posts| && s.proc.posts[id].kind == Command ==> id in s.owner)
  }

  ghost predicate Replied(s: System) {
    forall i :: 0 <= i < |s.requests| ==> Replies(s.sent, i) == Owed(s, i)
  }

  // A reply goes to its own request; one that was refused at once gets the error for that.
  predicate Fitting(q: Request, f: Frame) {
    f.corr == q.corr && (q.job.None? ==> f.response == IpcDispatch.Error(7))
  }

  ghost predicate Faithful(s: System) {
    forall k :: 0 <= k < |s.sent| ==>
      s.sent[k].request < |s.requests| && Fitting(s.requests[s.sent[k].request], s.sent[k])
  }

  ghost predicate SystemInv(s: System, c: Config) {
    Inv(s.proc, c) && Owning(s) && Replied(s) && Faithful(s)
  }

  // ---------- Steps ----------

  lemma NoneBeyond(s: System, i: nat)
    requires Faithful(s) && i >= |s.requests|
    ensures Replies(s.sent, i) == 0
  {
    NoneFor(s.sent, i);
  }

  lemma {:induction false} NoneFor(sent: seq<Frame>, i: nat)
    requires forall k :: 0 <= k < |sent| ==> sent[k].request != i
    ensures Replies(sent, i) == 0
  {
    if sent != [] { NoneFor(sent[1..], i); }
  }

  // A job posted just now has not run.
  lemma NewJobIdle(s: State, c: Config, kind: Kind)
    requires Inv(s, c)
    ensures multiset(s.executed)[Job(|s.posts|, kind)] == 0
  {
    var job := Job(|s.posts|, kind);
    hide Counted, InOrder;
    if job in s.executed { Posted(s, job); }
    hide Conserved;
    assert job !in s.posts;
  }

  // A step of the queue neither posts a command nor runs one.
  lemma InsideFacts(s: State, c: Config, a: Action)
    requires Enabled(s, a) && !a.Finish? && a != Post(Command)
    ensures var s' := Next(s, c, a);
            && s'.executed == s.executed && s.posts <= s'.posts
            && forall i :: |s.posts| <= i < |s'.posts| ==> s'.posts[i].kind != Command
  {
  }

  // More posts, none of them a command, leave ownership as it is.
  lemma PostsKeepOwning(s: System, s': System)
    requires Owning(s) && s'.requests == s.requests && s'.owner == s.owner && s.proc.posts <= s'.proc.posts
    requires forall i :: |s.proc.posts| <= i < |s'.proc.posts| ==> s'.proc.posts[i].kind != Command
    ensures Owning(s')
  {
  }

  lemma OwedKept(s: System, s': System)
    requires Owning(s) && Replied(s) && s.proc.posts <= s'.proc.posts && s'.proc.executed == s.proc.executed
    requires s'.requests == s.requests && s'.sent == s.sent
    ensures Replied(s')
  {
    hide Replies;
    forall i | 0 <= i < |s.requests| ensures Owed(s', i) == Owed(s, i) {}
    forall i | 0 <= i < |s.requests| ensures Replies(s'.sent, i) == Owed(s', i) {
      assert Replies(s.sent, i) == Owed(s, i);
    }
  }

  lemma InsideKeeps(s: System, c: Config, e: Step)
    requires SystemInv(s, c) && e.Inside? && CanStep(s, e)
    ensures SystemInv(After(s, c, e), c)
  {
    hide Inv, Owning, Replied, Fitting, Next;
    StepKeeps(s.proc, c, e.a);
    InsideFacts(s.proc, c, e.a);
    PostsKeepOwning(s, After(s, c, e));
    OwedKept(s, After(s, c, e));
  }

  // A request that could not be posted: answered at once.
  lemma RefuseKeeps(s: System, c: Config, e: Step)
    requires SystemInv(s, c) && e.Deliver? && !e.sink
    ensures SystemInv(After(s, c, e), c)
  {
    hide Inv, Answer, Replies;
    var s', n := After(s, c, e), |s.requests|;
    var f := Frame(n, e.corr, IpcDispatch.Error(7));
    NoneBeyond(s, n);
    forall i | 0 <= i < |s'.requests| ensures Replies(s'.sent, i) == Owed(s', i) {
      RepliesMore(s.sent, f, i);
      if i < n { assert s'.requests[i] == s.requests[i] && Replies(s.sent, i) == Owed(s, i); }
    }
    hide Owed;
    assert Owning(s') && Faithful(s');
  }

  lemma AcceptOwns(s: System, c: Config, e: Step)
    requires Owning(s) && e.Deliver? && e.sink
    ensures Owning(After(s, c, e))
  {
    PostFacts(s.proc, c, Command);
    hide Next;
  }

  lemma OwedSame(s: System, s': System, i: nat)
    requires i < |s.requests| <= |s'.requests| && s'.requests[i] == s.requests[i] && s'.proc.executed == s.proc.executed
    requires s.proc.posts <= s'.proc.posts && (s.requests[i].job.Some? ==> s.requests[i].job.value < |s.proc.posts|)
    ensures Owed(s', i) == Owed(s, i)
  {
  }

  lemma OwedNone(s: System, i: nat, id: nat)
    requires i < |s.requests| && s.requests[i].job == Some(id) && id < |s.proc.posts|
    requires multiset(s.proc.executed)[s.proc.posts[id]] == 0
    ensures Owed(s, i) == 0
  {
  }

  lemma AcceptReplied(s: System, c: Config, e: Step)
    requires Inv(s.proc, c) && Owning(s) && Replied(s) && Faithful(s) && e.Deliver? && e.sink
    ensures Replied(After(s, c, e))
  {
    var s', n := After(s, c, e), |s.requests|;
    PostFacts(s.proc, c, Command);
    NewJobIdle(s.proc, c, Command);
    NoneBeyond(s, n);
    hide Next, Inv, Replies, Faithful, Owed;
    OwedNone(s', n, |s.proc.posts|);
    forall i | 0 <= i < |s'.requests| ensures Replies(s'.sent, i) == Owed(s', i) {
      if i < n {
        assert Replies(s.sent, i) == Owed(s, i);
        OwedSame(s, s', i);
      }
    }
  }

  lemma AcceptKeeps(s: System, c: Config, e: Step)
    requires SystemInv(s, c) && e.Deliver? && e.sink
    ensures SystemInv(After(s, c, e), c)
  {
    hide Inv, Owning, Replied, Next, Fitting;
    StepKeeps(s.proc, c, Post(Command));
    AcceptOwns(s, c, e);
    AcceptReplied(s, c, e);
  }

  lemma CountMore(q: seq<Job>, j: Job, k: Job)
    ensures multiset(q + [j])[k] == multiset(q)[k] + (if j == k then 1 else 0)
  {
    assert multiset(q + [j]) == multiset(q) + multiset{j};
  }

  // The command in flight is owned by the request it was posted for.
  lemma FlightOwned(s: System, c: Config)
    requires Inv(s.proc, c) && Owning(s) && s.proc.worker.Executing?
    ensures var job := s.proc.worker.job;
            && job.id < |s.proc.posts| && s.proc.posts[job.id] == job
            && (job.kind == Command ==> Known(s, job.id) && s.requests[s.owner[job.id]].job == Some(job.id))
            && (job.kind != Command ==>
                  forall i :: 0 <= i < |s.requests| && s.requests[i].job.Some? ==> s.requests[i].job.value != job.id)
  {
    hide Counted, InOrder;
    var job := s.proc.worker.job;
    Posted(s.proc, job);
    hide Conserved;
    var j :| 0 <= j < |s.proc.posts| && s.proc.posts[j] == job;
  }

  lemma ExecuteReplied(s: System, c: Config, e: Step)
    requires SystemInv(s, c) && e.Execute? && CanStep(s, e)
    ensures Replied(After(s, c, e))
  {
    var s', job := After(s, c, e), s.proc.worker.job;
    FinishFacts(s.proc, c);
    FlightOwned(s, c);
    hide Next, Inv, Replies, Fitting, Answer;
    forall i | 0 <= i < |s.requests| ensures Replies(s'.sent, i) == Owed(s', i) {
      assert Replies(s.sent, i) == Owed(s, i);
      if s.requests[i].job.Some? { CountMore(s.proc.executed, job, s.proc.posts[s.requests[i].job.value]); }
      if job.kind == Command { RepliesMore(s.sent, s'.sent[|s.sent|], i); }
    }
  }

  lemma ExecuteFaithful(s: System, c: Config, e: Step)
    requires SystemInv(s, c) && e.Execute? && CanStep(s, e)
    ensures Faithful(After(s, c, e))
  {
    FlightOwned(s, c);
    hide Next, Inv, Answer, Replied;
  }

  lemma ExecuteKeeps(s: System, c: Config, e: Step)
    requires SystemInv(s, c) && e.Execute? && CanStep(s, e)
    ensures SystemInv(After(s, c, e), c)
  {
    StepKeeps(s.proc, c, Finish);
    FinishFacts(s.proc, c);
    ExecuteReplied(s, c, e);
    ExecuteFaithful(s, c, e);
    hide Inv, Replied, Faithful, Next;
    PostsKeepOwning(s, After(s, c, e));
  }

  // ---------- Runs ----------

  predicate IsSystemRun(c: Config, states: seq<System>, steps: seq<Step>) {
    && |states| == |steps| + 1 && states[0] == AtRest()
    && forall i :: 0 <= i < |steps| ==> CanStep(states[i], steps[i]) && states[i + 1] == After(states[i], c, steps[i])
  }

  lemma StartOk(c: Config)
    ensures SystemInv(AtRest(), c)
  {
    InitialOk(c);
    hide Inv;
  }

  lemma {:induction false} SystemKeeps(c: Config, states: seq<System>, steps: seq<Step>, n: nat)
    requires IsSystemRun(c, states, steps) && n < |states|
    ensures SystemInv(states[n], c)
  {
    hide SystemInv, After, CanStep;
    if n == 0 {
      StartOk(c);
    } else {
      var s, e := states[n - 1], steps[n - 1];
      SystemKeeps(c, states, steps, n - 1);
      if e.Inside? { InsideKeeps(s, c, e); }
      else if e.Execute? { ExecuteKeeps(s, c, e); }
      else if e.sink { AcceptKeeps(s, c, e); }
      else { RefuseKeeps(s, c, e); }
    }
  }

  // A command about to be executed always has its request: replying cannot fail for want of one.
  lemma CommandsKnown(c: Config, states: seq<System>, steps: seq<Step>, n: nat)
    requires IsSystemRun(c, states, steps) && n < |states| && states[n].proc.worker.Executing?
    ensures forall outcome :: CanStep(states[n], Execute(outcome))
  {
    SystemKeeps(c, states, steps, n);
    FlightOwned(states[n], c);
    hide Inv, Owning, Replied, Faithful;
  }

  // Each delivered request is in exactly one state: with its poster, queued, being processed, dropped
  // and counted, or answered by exactly one reply; the first four have had no reply.
  lemma OneReplyEach(c: Config, states: seq<System>, steps: seq<Step>, n: nat, i: nat)
    requires IsSystemRun(c, states, steps) && n < |states| && i < |states[n].requests|
    ensures var s := states[n];
            match s.requests[i].job
            case None => Replies(s.sent, i) == 1
            case Some(id) =>
              id < |s.proc.posts| &&
              var job := s.proc.posts[id];
              && s.proc.posting[job] + multiset(s.proc.queue)[job] + multiset(InFlight(s.proc))[job]
                   + multiset(s.proc.dropped)[job] + Replies(s.sent, i) == 1
              && (Replies(s.sent, i) == 1 <==> job in s.proc.executed)
  {
    SystemKeeps(c, states, steps, n);
    var s := states[n];
    hide IsSystemRun, Faithful, Replies, Counted, InOrder;
    assert Replies(s.sent, i) == Owed(s, i);
    if s.requests[i].job.Some? { OnePlace(s.proc, s.requests[i].job.value); }
  }

  // Step m runs job id, and its manager call comes out as r.
  predicate Ran(states: seq<System>, steps: seq<Step>, m: nat, id: nat, r: Result) {
    && m < |steps| && m < |states| && steps[m] == Execute(r)
    && states[m].proc.worker.Executing? && states[m].proc.worker.job.id == id
  }

  lemma OnwardStep(s: System, c: Config, e: Step)
    requires CanStep(s, e)
    ensures var s' := After(s, c, e);
            && s.requests <= s'.requests && s.sent <= s'.sent
            && s.proc.posts <= s'.proc.posts && s.proc.executed <= s'.proc.executed
  {
    hide Answer;
  }

  // Nothing recorded is taken back.
  lemma {:induction false} Onward(c: Config, states: seq<System>, steps: seq<Step>, m: nat, n: nat)
    requires IsSystemRun(c, states, steps) && m <= n < |states|
    ensures states[m].requests <= states[n].requests && states[m].sent <= states[n].sent
    ensures states[m].proc.posts <= states[n].proc.posts && states[m].proc.executed <= states[n].proc.executed
    decreases n
  {
    hide After, CanStep;
    if m < n {
      Onward(c, states, steps, m, n - 1);
      OnwardStep(states[n - 1], c, steps[n - 1]);
    }
  }

  // The one reply a step can add, and what it answers.
  lemma NewReply(s: System, c: Config, e: Step)
    requires SystemInv(s, c) && CanStep(s, e) && |After(s, c, e).sent| > |s.sent|
    ensures var s' := After(s, c, e);
            && s'.sent == s.sent + [s'.sent[|s.sent|]]
            && s'.sent[|s.sent|].request < |s'.requests|
            && match s'.requests[s'.sent[|s.sent|].request].job
               case None => true
               case Some(id) =>
                 && e.Execute? && s.proc.worker.Executing? && s.proc.worker.job.id == id
                 && s'.sent[|s.sent|].response == Answer(s'.requests[s'.sent[|s.sent|].request].body, e.outcome)
  {
    if e.Execute? { FlightOwned(s, c); }
    hide Inv, Replied, Faithful, Answer, Next;
  }

  // Every reply that was not a refusal comes from the step that ran its request's job, and is the
  // answer to what that step's manager call came out as.
  lemma {:induction false} ReplyOrigin(c: Config, states: seq<System>, steps: seq<Step>, n: nat, k: nat)
    requires IsSystemRun(c, states, steps) && n < |states| && k < |states[n].sent|
    ensures var s, f := states[n], states[n].sent[k];
            f.request < |s.requests| &&
            (s.requests[f.request].job.Some? ==>
               exists m: nat, r :: m < n && Ran(states, steps, m, s.requests[f.request].job.value, r)
                              && f.response == Answer(s.requests[f.request].body, r))
    decreases n
  {
    hide After, CanStep, Answer, SystemInv;
    SystemKeeps(c, states, steps, n);
    if n > 0 {
      var before, s, e := states[n - 1], states[n], steps[n - 1];
      SystemKeeps(c, states, steps, n - 1);
      Onward(c, states, steps, n - 1, n);
      if k < |before.sent| {
        ReplyOrigin(c, states, steps, n - 1, k);
        var f := s.sent[k];
        if s.requests[f.request].job.Some? {
          var m: nat, r :| m < n - 1 && Ran(states, steps, m, before.requests[f.request].job.value, r)
                      && f.response == Answer(before.requests[f.request].body, r);
        }
      } else {
        NewReply(before, c, e);
        assert k == |before.sent|;
        var f := s.sent[k];
        if s.requests[f.request].job.Some? {
          assert Ran(states, steps, n - 1, s.requests[f.request].job.value, e.outcome);
        }
      }
    }
  }

  lemma RanExecuted(s: System, c: Config, e: Step, id: nat)
    requires SystemInv(s, c) && CanStep(s, e) && e.Execute? && s.proc.worker.Executing? && s.proc.worker.job.id == id
    ensures id < |s.proc.posts| && s.proc.posts[id] == s.proc.worker.job
    ensures s.proc.posts[id] in After(s, c, e).proc.executed
  {
    FlightOwned(s, c);
    FinishFacts(s.proc, c);
    hide Next, Inv, Replied, Faithful, Answer;
  }

  lemma NotAgain(s: System, c: Config, id: nat)
    requires SystemInv(s, c) && s.proc.worker.Executing? && s.proc.worker.job.id == id
    ensures id < |s.proc.posts| && s.proc.posts[id] !in s.proc.executed
  {
    FlightOwned(s, c);
    OnePlace(s.proc, id);
    hide Owning, Replied, Faithful, Conserved, Counted, InOrder;
  }

  // A job runs at most once.
  lemma RanOnce(c: Config, states: seq<System>, steps: seq<Step>, m: nat, r: Result, m': nat, r': Result, id: nat)
    requires IsSystemRun(c, states, steps) && Ran(states, steps, m, id, r) && Ran(states, steps, m', id, r') && m <= m'
    ensures m == m' && r == r'
  {
    hide After, CanStep, SystemInv;
    if m < m' {
      SystemKeeps(c, states, steps, m);
      SystemKeeps(c, states, steps, m');
      RanExecuted(states[m], c, steps[m], id);
      NotAgain(states[m'], c, id);
      Onward(c, states, steps, m, m');
      Onward(c, states, steps, m + 1, m');
    }
  }

  // Every reply carries its request's corr_id. Without a sink it is error 7; otherwise it is the
  // answer to the outcome of the very call that was made for it, and says ok exactly when that call
  // achieved what was asked.
  lemma RepliesFit(c: Config, states: seq<System>, steps: seq<Step>, n: nat, k: nat, m: nat, r: Result)
    requires IsSystemRun(c, states, steps) && n < |states| && k < |states[n].sent|
    ensures var s, f := states[n], states[n].sent[k];
            && f.request < |s.requests| && f.corr == s.requests[f.request].corr
            && match s.requests[f.request].job
               case None => f.response == IpcDispatch.Error(7)
               case Some(id) =>
                 Ran(states, steps, m, id, r) ==>
                   && f.response == Answer(s.requests[f.request].body, r)
                   && (f.response.ok <==> Achieved(s.requests[f.request].body, r))
  {
    SystemKeeps(c, states, steps, n);
    ReplyOrigin(c, states, steps, n, k);
    var s, f := states[n], states[n].sent[k];
    hide Owning, Replied, Inv, Answer, Achieved, After, CanStep;
    assert Fitting(s.requests[f.request], f);
    if s.requests[f.request].job.Some? && Ran(states, steps, m, s.requests[f.request].job.value, r) {
      var id := s.requests[f.request].job.value;
      var m': nat, r' :| m' < n && Ran(states, steps, m', id, r')
                               && f.response == Answer(s.requests[f.request].body, r');
      if m <= m' { RanOnce(c, states, steps, m, r, m', r', id); } else { RanOnce(c, states, steps, m', r', m, r, id); }
      OkMeansAchieved(s.requests[f.request].body, r);
    }
  }
}
