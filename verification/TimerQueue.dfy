// The timer queue of src/net/TimerQueue.cpp. The priority queue is its multiset of timers;
// its top is any timer that expires no later than the others.
module TimerQueues {
  import opened TcpProtocol
  import LoopQueue
  import opened Server
  import opened ServerProof
  import opened ServerTheorems

  const NANOSECONDS_PER_MILLISECOND := 1_000_000
  const INT_MAX := 0x7FFF_FFFF

  function CeilMilliseconds(nanoseconds: nat): nat {
    (nanoseconds + NANOSECONDS_PER_MILLISECOND - 1) / NANOSECONDS_PER_MILLISECOND
  }

  // How long epoll_wait may sleep. It never sleeps past the first timer by a whole
  // millisecond, and a wait that was not cut off at INT_MAX ends with a timer due, so the
  // loop does not spin towards it.
  method MillisecondsUntilNextTimer(timers: multiset<Timer>, now: int) returns (wait: int)
    ensures wait == -1 <==> timers == multiset{}
    ensures -1 <= wait <= INT_MAX
    ensures wait == 0 <==> exists t <- timers :: t.expires <= now
    ensures wait > 0 ==> forall t <- timers :: now + (wait - 1) * NANOSECONDS_PER_MILLISECOND < t.expires
    ensures 0 <= wait < INT_MAX ==> exists t <- timers :: t.expires <= now + wait * NANOSECONDS_PER_MILLISECOND
  {
    if timers == multiset{} {
      return -1;
    }
    ghost var top' := TopExists(timers);
    var top :| top in timers && forall t <- timers :: top.expires <= t.expires;
    if top.expires <= now {
      wait := 0;
      assert top.expires <= now + wait * NANOSECONDS_PER_MILLISECOND;
      return;
    }
    var remaining := CeilMilliseconds(top.expires - now);
    CeilBounds(top.expires - now);
    wait := if remaining >= INT_MAX then INT_MAX else remaining;
    assert wait < INT_MAX ==> top.expires <= now + wait * NANOSECONDS_PER_MILLISECOND;
  }

  lemma CeilBounds(n: nat)
    requires n > 0
    ensures var c := CeilMilliseconds(n);
      c > 0 && (c - 1) * NANOSECONDS_PER_MILLISECOND < n <= c * NANOSECONDS_PER_MILLISECOND
  {
  }

  // runExpiredTimers(now), run by the loop thread between two dispatches; `delays` says how
  // much time each callback finds passed when it reads the clock. The callbacks re-arm
  // timers in the queue being drained, yet the loop ends, and when it does nothing is due
  // and no connection is open that had been idle for the whole timeout.
  method RunExpiredTimers(s: Sys, delays: seq<nat>) returns (s': Sys)
    requires Reachable(s) && s.loop.phase.RunningTimers? && s.idleTimeout > 0
    ensures Reachable(s') && s'.loop == s.loop
    ensures forall t <- s'.timers :: t.expires > s.loop.phase.now
    ensures forall k <- s'.conns :: s'.conns[k].fd >= 0 && Idle(s'.conns[k]) ==>
      k in s'.quietSince && s'.quietSince[k] + s'.idleTimeout > s.loop.phase.now
  {
    hide Reachable, Apply, Enabled, Work;
    s' := s;
    var left := delays;
    while true
      invariant Reachable(s') && s'.loop == s.loop && s'.idleTimeout == s.idleTimeout
      decreases Work(s'.timers, s'.conns, s.loop.phase.now)
    {
      if s'.timers == multiset{} {
        break;
      }
      ghost var top' := TopExists(s'.timers);
      var top :| top in s'.timers && forall t <- s'.timers :: top.expires <= t.expires;
      if top.expires > s.loop.phase.now {
        break;
      }
      var now := s'.clock + if left == [] then 0 else left[0];
      if left != [] { left := left[1..]; }
      PopOne(s', top, now);
      s' := Apply(s', PopTimer(top, now));
    }
    NothingOverdue(s');
  }

  lemma PopOne(s: Sys, top: Timer, now: int)
    requires Reachable(s) && s.loop.phase.RunningTimers? && s.idleTimeout > 0
    requires IsTop(s.timers, top) && top.expires <= s.loop.phase.now && s.clock <= now
    ensures Enabled(s, PopTimer(top, now))
    ensures var s' := Apply(s, PopTimer(top, now));
      && Reachable(s') && s'.loop == s.loop && s'.idleTimeout == s.idleTimeout
      && Work(s'.timers, s'.conns, s.loop.phase.now) < Work(s.timers, s.conns, s.loop.phase.now)
  {
    assert !s.crashed && !s.pool.stopping by { ReachableInv(s); }
    hide Work, Reachable, CloseIfIdle;
    StepReachable(s, PopTimer(top, now));
    TimersTerminate(s, top, now);
  }

  lemma NothingOverdue(s: Sys)
    requires Reachable(s) && s.loop.phase.RunningTimers? && forall t <- s.timers :: t.expires > s.loop.phase.now
    ensures forall k <- s.conns :: s.conns[k].fd >= 0 && Idle(s.conns[k]) ==>
      k in s.quietSince && s.quietSince[k] + s.idleTimeout > s.loop.phase.now
  {
    assert !s.crashed && !s.pool.stopping by { ReachableInv(s); }
    hide Reachable;
    forall k | k in s.conns && s.conns[k].fd >= 0 && Idle(s.conns[k])
      ensures k in s.quietSince && s.quietSince[k] + s.idleTimeout > s.loop.phase.now
    {
      TimersLeaveNoneQuiet(s, k);
    }
  }
}
