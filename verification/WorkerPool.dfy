// The worker pool at the grain of its critical sections and condition-variable actions.
module WorkerPool {

  // A worker is blocked in wait(), awake (about to test the predicate), running the job at
  // some position of the dequeue order, or has returned from its loop.
  datatype State<!J> = State(
    queue: seq<J>,
    stopping: bool,
    notifies: nat,            // submitters between their push and their notify_one
    notifyAll: bool,          // the destructor has set stopping_ but not yet notified
    blocked: set<nat>,
    awake: set<nat>,
    running: map<nat, nat>,
    exited: set<nat>,
    // history
    submitted: seq<J>,
    started: seq<J>,
    finished: set<nat>        // positions of `started` whose task has returned or thrown
  )

  function Initial<J>(workers: set<nat>): State<J> {
    State([], false, 0, false, {}, workers, map[], {}, [], [], {})
  }

  function Workers<J>(s: State<J>): set<nat> {
    s.blocked + s.awake + s.running.Keys + s.exited
  }

  // submit() throws once the pool is stopping.
  function Submit<J>(s: State<J>, job: J): State<J>
    requires !s.stopping
  {
    s.(queue := s.queue + [job], submitted := s.submitted + [job], notifies := s.notifies + 1)
  }

  // notify_one wakes one blocked worker; with nobody blocked it is lost.
  predicate MayNotify<J>(s: State<J>, worker: nat) {
    s.notifies > 0 && (worker in s.blocked || s.blocked == {})
  }

  function NotifyOne<J>(s: State<J>, worker: nat): State<J>
    requires MayNotify(s, worker)
  {
    if s.blocked == {} then s.(notifies := s.notifies - 1)
    else s.(notifies := s.notifies - 1, blocked := s.blocked - {worker}, awake := s.awake + {worker})
  }

  function SpuriousWake<J>(s: State<J>, worker: nat): State<J>
    requires worker in s.blocked
  {
    s.(blocked := s.blocked - {worker}, awake := s.awake + {worker})
  }

  // The predicate of wait() fails: release the lock and sleep.
  function Block<J>(s: State<J>, worker: nat): State<J>
    requires worker in s.awake && s.queue == [] && !s.stopping
  {
    s.(awake := s.awake - {worker}, blocked := s.blocked + {worker})
  }

  function Exit<J>(s: State<J>, worker: nat): State<J>
    requires worker in s.awake && s.queue == [] && s.stopping
  {
    s.(awake := s.awake - {worker}, exited := s.exited + {worker})
  }

  function Take<J>(s: State<J>, worker: nat): State<J>
    requires worker in s.awake && s.queue != []
  {
    s.(queue := s.queue[1..], awake := s.awake - {worker},
       running := s.running[worker := |s.started|], started := s.started + [s.queue[0]])
  }

  // The task returned or threw; either way the worker goes back to its loop.
  function Finish<J>(s: State<J>, worker: nat): State<J>
    requires worker in s.running
  {
    s.(running := s.running - {worker}, awake := s.awake + {worker}, finished := s.finished + {s.running[worker]})
  }

  function Stop<J>(s: State<J>): State<J> {
    s.(stopping := true, notifyAll := true)
  }

  function NotifyAll<J>(s: State<J>): State<J>
    requires s.notifyAll
  {
    s.(notifyAll := false, awake := s.awake + s.blocked, blocked := {})
  }

  // One atomic action of a submitter, a worker or the destructor.
  datatype Action<!J> =
    | DoSubmit(job: J)
    | DoNotifyOne(worker: nat)
    | DoSpuriousWake(worker: nat)
    | DoBlock(worker: nat)
    | DoExit(worker: nat)
    | DoTake(worker: nat)
    | DoFinish(worker: nat)
    | DoStop
    | DoNotifyAll

  predicate Enabled<J>(s: State<J>, a: Action<J>) {
    match a
    case DoSubmit(_) => !s.stopping
    case DoNotifyOne(worker) => MayNotify(s, worker)
    case DoSpuriousWake(worker) => worker in s.blocked
    case DoBlock(worker) => worker in s.awake && s.queue == [] && !s.stopping
    case DoExit(worker) => worker in s.awake && s.queue == [] && s.stopping
    case DoTake(worker) => worker in s.awake && s.queue != []
    case DoFinish(worker) => worker in s.running
    case DoStop => true
    case DoNotifyAll => s.notifyAll
  }

  function Apply<J>(s: State<J>, a: Action<J>): State<J>
    requires Enabled(s, a)
  {
    match a
    case DoSubmit(job) => Submit(s, job)
    case DoNotifyOne(worker) => NotifyOne(s, worker)
    case DoSpuriousWake(worker) => SpuriousWake(s, worker)
    case DoBlock(worker) => Block(s, worker)
    case DoExit(worker) => Exit(s, worker)
    case DoTake(worker) => Take(s, worker)
    case DoFinish(worker) => Finish(s, worker)
    case DoStop => Stop(s)
    case DoNotifyAll => NotifyAll(s)
  }

  // Each of the n dequeued tasks is running in exactly one worker or finished, not both.
  ghost predicate RunOnce(running: map<nat, nat>, n: nat, finished: set<nat>) {
    && (forall w <- running :: running[w] < n && running[w] !in finished)
    && (forall v, w :: v in running && w in running && running[v] == running[w] ==> v == w)
    && (forall p <- finished :: p < n)
    && (forall p: nat | p < n :: p in finished || exists w :: w in running && running[w] == p)
  }

  // Each worker is in one place, and submitted = finished + running + queued, in order.
  ghost predicate Conserved<J>(s: State<J>) {
    && s.blocked !! s.awake && s.blocked !! s.running.Keys && s.blocked !! s.exited
    && s.awake !! s.running.Keys && s.awake !! s.exited && s.running.Keys !! s.exited
    && s.submitted == s.started + s.queue
    && RunOnce(s.running, |s.started|, s.finished)
  }

  // A worker sleeps only if every queued task already has a notify or an awake worker of
  // its own on the way; shutdown leaves nobody asleep.
  ghost predicate NoLostNotify<J>(s: State<J>) {
    && (s.blocked == {} || |s.queue| <= s.notifies + |s.awake|)
    && (s.exited != {} ==> s.stopping && s.queue == [])
    && (s.stopping && !s.notifyAll ==> s.blocked == {})
    && (s.notifyAll ==> s.stopping)
  }

  ghost predicate Inv<J>(s: State<J>) {
    Conserved(s) && NoLostNotify(s)
  }

  lemma StartRuns(running: map<nat, nat>, n: nat, finished: set<nat>, worker: nat)
    requires RunOnce(running, n, finished) && worker !in running
    ensures RunOnce(running[worker := n], n + 1, finished)
  {
    var running' := running[worker := n];
    forall p: nat | p < n + 1 ensures p in finished || exists w :: w in running' && running'[w] == p {
      if p == n {
        assert running'[worker] == p;
      } else if p !in finished {
        var w :| w in running && running[w] == p;
        assert running'[w] == p;
      }
    }
  }

  lemma FinishRuns(running: map<nat, nat>, n: nat, finished: set<nat>, worker: nat)
    requires RunOnce(running, n, finished) && worker in running
    ensures RunOnce(running - {worker}, n, finished + {running[worker]})
  {
    var running' := running - {worker};
    forall p: nat | p < n ensures p in finished + {running[worker]} || exists w :: w in running' && running'[w] == p {
      if p !in finished && p != running[worker] {
        var w :| w in running && running[w] == p;
        assert running'[w] == p;
      }
    }
  }

  lemma ActionConserves<J>(s: State<J>, a: Action<J>)
    requires Conserved(s) && Enabled(s, a)
    ensures Conserved(Apply(s, a))
  {
    hide RunOnce;
    match a
    case DoTake(worker) =>
      assert s.queue == [s.queue[0]] + s.queue[1..];
      StartRuns(s.running, |s.started|, s.finished, worker);
    case DoFinish(worker) => FinishRuns(s.running, |s.started|, s.finished, worker);
    case DoSubmit(job) => assert Submit(s, job).submitted == s.started + (s.queue + [job]);
    case _ =>
  }

  lemma ActionKeepsWorkers<J>(s: State<J>, a: Action<J>)
    requires Enabled(s, a)
    ensures Workers(Apply(s, a)) == Workers(s)
    ensures s.started <= Apply(s, a).started && s.submitted <= Apply(s, a).submitted
    ensures s.finished <= Apply(s, a).finished
  {
  }

  lemma ActionKeepsInv<J>(s: State<J>, a: Action<J>)
    requires Inv(s) && Enabled(s, a)
    ensures Inv(Apply(s, a))
  {
    ActionConserves(s, a);
  }

  // A task never waits while a worker sleeps and nothing is on its way to wake one.
  lemma QueuedTaskIsServed<J>(s: State<J>)
    requires Inv(s) && Workers(s) != {} && s.queue != []
    ensures s.notifies > 0 || s.awake != {} || s.running != map[]
    ensures s.notifies > 0 || s.awake != {} || s.running.Keys == Workers(s)
  {
    if s.notifies == 0 && s.awake == {} {
      assert s.blocked == {} && s.exited == {};
      assert Workers(s) == s.running.Keys;
    }
  }

  // --- runs -----------------------------------------------------------------------------

  ghost predicate IsRun<J>(s: State<J>, actions: seq<Action<J>>)
    decreases |actions|
  {
    actions == [] || (Enabled(s, actions[0]) && IsRun(Apply(s, actions[0]), actions[1..]))
  }

  ghost function After<J>(s: State<J>, actions: seq<Action<J>>): State<J>
    requires IsRun(s, actions)
    decreases |actions|
  {
    if actions == [] then s else After(Apply(s, actions[0]), actions[1..])
  }

  lemma {:induction false} RunKeepsInv<J>(s: State<J>, actions: seq<Action<J>>)
    requires Inv(s) && IsRun(s, actions)
    ensures Inv(After(s, actions)) && Workers(After(s, actions)) == Workers(s)
    decreases |actions|
  {
    hide Inv, Workers, Apply, Enabled;
    if actions != [] {
      ActionKeepsInv(s, actions[0]);
      ActionKeepsWorkers(s, actions[0]);
      RunKeepsInv(Apply(s, actions[0]), actions[1..]);
    }
  }

  lemma InitialInv<J>(workers: set<nat>)
    ensures Inv(Initial<J>(workers)) && Workers(Initial<J>(workers)) == workers
  {
  }

  // When the destructor's joins return, every task ever accepted has run exactly once, in
  // the order of submission, whatever was thrown and however the threads interleaved.
  lemma JoinedMeansAllRan<J>(workers: set<nat>, actions: seq<Action<J>>)
    requires workers != {} && IsRun(Initial(workers), actions)
    requires After(Initial(workers), actions).exited == workers
    ensures var s := After(Initial(workers), actions);
      s.started == s.submitted && forall p: nat :: p in s.finished <==> p < |s.submitted|
  {
    InitialInv<J>(workers);
    RunKeepsInv(Initial(workers), actions);
    var s := After(Initial(workers), actions);
    hide IsRun, After;
    assert s.running == map[];
    assert s.started + [] == s.started;
  }

  // --- shutdown -------------------------------------------------------------------------

  // What is left to do once the pool is stopping.
  function Left<J>(s: State<J>): nat {
    3 * |s.queue| + 2 * |s.running.Keys| + 2 * |s.blocked| + |s.awake| + s.notifies + if s.notifyAll then 1 else 0
  }

  // The destructor stops only once.
  predicate IsStep<J>(s: State<J>, a: Action<J>) {
    Enabled(s, a) && !a.DoStop?
  }

  lemma WorkerMoves(from: set<nat>, to: set<nat>, worker: nat)
    requires worker in from && worker !in to
    ensures |from - {worker}| == |from| - 1 && |to + {worker}| == |to| + 1
  {
  }

  lemma AllMove(from: set<nat>, to: set<nat>)
    requires from !! to
    ensures |to + from| == |to| + |from|
  {
  }

  lemma WakeIsLess<J>(s: State<J>, worker: nat)
    requires worker in s.blocked && worker !in s.awake
    ensures Left(SpuriousWake(s, worker)) < Left(s)
    ensures s.notifies > 0 ==> Left(NotifyOne(s, worker)) < Left(s)
  {
    WorkerMoves(s.blocked, s.awake, worker);
  }

  lemma TakeIsLess<J>(s: State<J>, worker: nat)
    requires worker in s.awake && worker !in s.running && s.queue != []
    ensures Left(Take(s, worker)) < Left(s)
  {
    WorkerMoves(s.awake, s.running.Keys, worker);
    assert Take(s, worker).running.Keys == s.running.Keys + {worker};
  }

  lemma FinishIsLess<J>(s: State<J>, worker: nat)
    requires worker in s.running && worker !in s.awake
    ensures Left(Finish(s, worker)) < Left(s)
  {
    WorkerMoves(s.running.Keys, s.awake, worker);
    assert Finish(s, worker).running.Keys == s.running.Keys - {worker};
  }

  lemma ExitIsLess<J>(s: State<J>, worker: nat)
    requires worker in s.awake && s.queue == [] && s.stopping
    ensures Left(Exit(s, worker)) < Left(s)
  {
    WorkerMoves(s.awake, {}, worker);
  }

  lemma NotifyAllIsLess<J>(s: State<J>)
    requires s.notifyAll && s.blocked !! s.awake
    ensures Left(NotifyAll(s)) < Left(s)
  {
    AllMove(s.blocked, s.awake);
  }

  lemma Apart<J>(s: State<J>, worker: nat)
    requires Inv(s)
    ensures worker in s.awake ==> worker !in s.running && worker !in s.blocked
    ensures s.blocked !! s.awake
  {
  }

  // No schedule keeps a stopping pool busy for ever.
  lemma ShutdownTerminates<J>(s: State<J>, a: Action<J>)
    requires Inv(s) && s.stopping && IsStep(s, a)
    ensures Apply(s, a).stopping && Left(Apply(s, a)) < Left(s)
  {
    hide Inv, Left;
    match a
    case DoNotifyOne(worker) =>
      Apart(s, worker);
      if s.blocked != {} { WakeIsLess(s, worker); } else { LostNotifyIsLess(s); }
    case DoSpuriousWake(worker) => Apart(s, worker); WakeIsLess(s, worker);
    case DoExit(worker) => ExitIsLess(s, worker);
    case DoTake(worker) => Apart(s, worker); TakeIsLess(s, worker);
    case DoFinish(worker) => Apart(s, worker); FinishIsLess(s, worker);
    case DoNotifyAll => Apart(s, 0); NotifyAllIsLess(s);
    case _ =>
  }

  lemma LostNotifyIsLess<J>(s: State<J>)
    requires s.notifies > 0
    ensures Left(s.(notifies := s.notifies - 1)) < Left(s)
  {
  }

  // And none can stop it short: until the last worker has left its loop, somebody can move.
  lemma ShutdownGoesOn<J>(s: State<J>)
    requires Inv(s) && s.stopping && s.exited != Workers(s)
    ensures exists a :: IsStep(s, a)
  {
    hide RunOnce;
    if s.notifyAll {
      assert IsStep(s, DoNotifyAll);
    } else if s.running != map[] {
      var w :| w in s.running;
      assert IsStep(s, DoFinish(w));
    } else {
      assert s.blocked == {};
      var w :| w in s.awake;
      assert IsStep(s, if s.queue == [] then DoExit(w) else DoTake(w));
    }
  }
}
