// The objects a connection shares with its loop and with the workers.
module EventLoops {
  import opened TcpProtocol
  import opened Server
  import LoopQueue

  // src/net/EventLoop.cpp. `hand` follows the atomic actions of the hand-off queue; other
  // threads run their own between any two of them, see LoopQueue.dfy.
  class EventLoop {
    var quitting: bool
    var channels: map<int, Channel>
    var timers: multiset<Timer>
    var pendingTasks: seq<Task>
    var wakeupCounter: nat
    ghost var hand: LoopQueue.State<Task>

    ghost predicate Valid()
      reads this
    {
      && hand.quit == quitting && hand.pending == pendingTasks && hand.counter == wakeupCounter
      && wakeupCounter <= LoopQueue.EVENTFD_MAX
    }

    constructor ()
      ensures Valid() && channels == map[] && timers == multiset{} && hand == LoopQueue.Initial()
    {
      quitting, channels, timers, pendingTasks, wakeupCounter := false, map[], multiset{}, [], 0;
      hand := LoopQueue.Initial();
    }

    // epoll_ctl(ADD) throws for a registered descriptor, epoll_ctl(MOD) for any other.
    method AddChannel(fd: int, channel: Channel)
      requires fd !in channels
      modifies this`channels
      ensures channels == old(channels)[fd := channel]
    {
      channels := channels[fd := channel];
    }

    method UpdateChannel(fd: int, channel: Channel)
      requires fd in channels
      modifies this`channels
      ensures channels == old(channels)[fd := channel]
    {
      channels := channels[fd := channel];
    }

    method RemoveChannel(fd: int) returns (removed: bool)
      modifies this`channels
      ensures removed == (fd in old(channels))
      ensures channels == old(channels) - {fd}
    {
      if fd !in channels {
        return false;
      }
      channels := channels - {fd};
      return true;
    }

    method RunAt(timer: Timer)
      modifies this`timers
      ensures timers == old(timers) + multiset{timer}
    {
      timers := timers + multiset{timer};
    }

    // write(2) on the eventfd adds one, or finds the counter full and answers EAGAIN; an
    // interrupted write changes nothing and is retried.
    method Wakeup()
      requires Valid() && hand.writers > 0
      modifies this`wakeupCounter, this`hand
      ensures Valid() && hand == LoopQueue.Signal(old(hand))
    {
      if wakeupCounter < LoopQueue.EVENTFD_MAX {
        wakeupCounter := wakeupCounter + 1;
      }
      hand := LoopQueue.Signal(hand);
    }

    method QueueInLoop(task: Task)
      requires Valid()
      modifies this`pendingTasks, this`wakeupCounter, this`hand
      ensures Valid() && hand == LoopQueue.Signal(LoopQueue.Push(old(hand), task))
      ensures pendingTasks == old(pendingTasks) + [task] && wakeupCounter > 0
    {
      pendingTasks := pendingTasks + [task];
      hand := LoopQueue.Push(hand, task);
      Wakeup();
    }

    method Quit()
      requires Valid()
      modifies this`quitting, this`wakeupCounter, this`hand
      ensures Valid() && hand == LoopQueue.Signal(LoopQueue.RequestQuit(old(hand))) && wakeupCounter > 0
    {
      quitting := true;
      hand := LoopQueue.RequestQuit(hand);
      Wakeup();
    }

    // handleWakeup() up to its swap: the tasks it goes on to run, in order.
    method TakeTasks() returns (tasks: seq<Task>)
      requires Valid() && LoopQueue.AtWakeup(hand)
      modifies this`pendingTasks, this`wakeupCounter, this`hand
      ensures Valid() && wakeupCounter == 0
      ensures old(wakeupCounter) == 0 ==>
        tasks == [] && pendingTasks == old(pendingTasks) && hand == LoopQueue.ReadCounter(old(hand))
      ensures old(wakeupCounter) > 0 ==>
        tasks == old(pendingTasks) && pendingTasks == [] && hand == LoopQueue.Swap(LoopQueue.ReadCounter(old(hand)))
    {
      if wakeupCounter == 0 {
        hand := LoopQueue.ReadCounter(hand);
        return [];
      }
      wakeupCounter := 0;
      hand := LoopQueue.ReadCounter(hand);
      tasks := pendingTasks;
      pendingTasks := [];
      hand := LoopQueue.Swap(hand);
    }
  }

  // The queue of src/concurrency/WorkerPool.cpp; its threads are in WorkerPool.dfy.
  class TaskQueue {
    var tasks: seq<Job>
    var stopping: bool

    constructor ()
      ensures tasks == [] && !stopping
    {
      tasks, stopping := [], false;
    }

    // submit() throws once the pool is stopping.
    method Submit(task: Job) returns (accepted: bool)
      modifies this`tasks
      ensures accepted == !stopping
      ensures tasks == if accepted then old(tasks) + [task] else old(tasks)
    {
      if stopping {
        return false;
      }
      tasks := tasks + [task];
      return true;
    }

    // One critical section of workerLoop(): sleep, leave the loop, or take the oldest task.
    method Take() returns (task: Option<Job>, exit: bool)
      modifies this`tasks
      ensures exit == (stopping && old(tasks) == [])
      ensures task.Some? <==> old(tasks) != []
      ensures old(tasks) == (if task.Some? then [task.value] else []) + tasks
    {
      if tasks == [] {
        return None, stopping;
      }
      task := Some(tasks[0]);
      tasks := tasks[1..];
      exit := false;
    }
  }
}
