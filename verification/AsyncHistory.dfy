// What each counter of the event queue says about the run so far
// (RtpDdsGateway/include/async/async_event_processor.hpp, lines 94-137).
module AsyncHistory {
  import opened AsyncProcessor

  // How often an action was done among the first n.
  function Times(actions: seq<Action>, a: Action, n: nat): nat
    requires n <= |actions|
  {
    if n == 0 then 0 else Times(actions, a, n - 1) + (if actions[n - 1] == a then 1 else 0)
  }

  // How many jobs an action drops: the job that finds the queue full, or the queue that a worker leaves
  // behind without draining it.
  function DroppedBy(s: State, c: Config, a: Action): nat {
    match a
    case Enqueue(_) => if |s.queue| == c.maxQueue then 1 else 0
    case Take => if !s.running && !c.drainStop then |s.queue| else 0
    case _ => 0
  }

  function Drops(c: Config, states: seq<State>, actions: seq<Action>, n: nat): nat
    requires n <= |actions| <= |states|
  {
    if n == 0 then 0 else Drops(c, states, actions, n - 1) + DroppedBy(states[n - 1], c, actions[n - 1])
  }

  // The greatest length of the queue in the states up to n.
  predicate Deepest(states: seq<State>, n: nat, depth: nat)
    requires n < |states|
  {
    (forall i :: 0 <= i <= n ==> |states[i].queue| <= depth) && exists i :: 0 <= i <= n && |states[i].queue| == depth
  }

  lemma CountersStep(s: State, c: Config, a: Action)
    requires Enabled(s, a) && |s.queue| <= c.maxQueue
    ensures var s' := Next(s, c, a);
            && s'.enqSample == s.enqSample + (if a == Post(Sample) then 1 else 0)
            && s'.enqCmd == s.enqCmd + (if a == Post(Command) then 1 else 0)
            && s'.enqErr == s.enqErr + (if a == Post(Error) then 1 else 0)
            && s'.execJobs == s.execJobs + (if a == Finish then 1 else 0)
            && s'.dropCount == s.dropCount + DroppedBy(s, c, a)
  {
  }

  lemma DepthStep(s: State, c: Config, a: Action)
    requires Enabled(s, a) && |s.queue| <= s.maxDepth
    ensures var s' := Next(s, c, a);
            s'.maxDepth == if |s'.queue| > s.maxDepth then |s'.queue| else s.maxDepth
  {
  }

  lemma DeepestMore(states: seq<State>, n: nat, depth: nat)
    requires 0 < n < |states| && Deepest(states, n - 1, depth)
    ensures Deepest(states, n, if |states[n].queue| > depth then |states[n].queue| else depth)
  {
  }

  lemma Within(s: State, c: Config)
    requires Inv(s, c)
    ensures |s.queue| <= s.maxDepth <= c.maxQueue && s.execJobs == |s.executed| && s.dropCount == |s.dropped|
  {
    hide Conserved, NumberedPosts, InOrder, Heard;
  }

  // After any run each counter is the number of its own events: the posts of each kind, the jobs
  // executed, the jobs dropped, and the greatest length the queue has had.
  lemma {:induction false} CountersOnRuns(c: Config, states: seq<State>, actions: seq<Action>, n: nat)
    requires IsRun(c, states, actions) && n < |states|
    ensures var s := states[n];
            && s.enqSample == Times(actions, Post(Sample), n)
            && s.enqCmd == Times(actions, Post(Command), n)
            && s.enqErr == Times(actions, Post(Error), n)
            && s.execJobs == Times(actions, Finish, n) == |s.executed|
            && s.dropCount == Drops(c, states, actions, n) == |s.dropped|
            && Deepest(states, n, s.maxDepth)
  {
    hide Enabled, Next, Inv, DroppedBy, Deepest;
    RunKeeps(c, states, actions, n);
    Within(states[n], c);
    if n == 0 {
      StartsDeepest(c, states, actions);
    } else {
      CountersOnRuns(c, states, actions, n - 1);
      RunKeeps(c, states, actions, n - 1);
      Within(states[n - 1], c);
      CountersStep(states[n - 1], c, actions[n - 1]);
      DepthStep(states[n - 1], c, actions[n - 1]);
      DeepestMore(states, n, states[n - 1].maxDepth);
    }
  }

  lemma StartsDeepest(c: Config, states: seq<State>, actions: seq<Action>)
    requires IsRun(c, states, actions)
    ensures Deepest(states, 0, states[0].maxDepth)
  {
    hide Enabled, Next;
  }
}
