# CppSearchServer, modelled and proved in Dafny

The repository is an HTTP search server: event loops own connections and frame requests out of
their bytes, a pool of workers answers them, the answers come from an in-memory inverted index
behind a two-level cache. The model follows the code branch by branch, and the main results hold
for every run, every input and every interleaving.

## How it is built

**The asynchronous connection protocol.** `TcpProtocol.dfy` says what one callback of a
connection does, as functions over values: the connection, the channel table and timers of its
loop, and the jobs it submits. `TcpConnection.dfy`, `Buffer.dfy` and `EventLoop.dfy` are the
objects of the source with their fields and loops; every method is proved to compute exactly those
functions. `LoopQueue.dfy` and `WorkerPool.dfy` are the hand-off queue and the pool at the grain
of their atomic actions. `Server.dfy` composes one I/O loop, all its connections, the workers, any
number of other threads and a nondeterministic kernel into one transition system: `recv` returns
any chunk, end of file, EINTR, EAGAIN or an error; `send` takes any prefix; descriptors are closed
and reused by anybody; a handler completes when it likes, as often as it likes, also late; time
only grows. A closure becomes the data it captured. `ServerProof.dfy` proves one inductive
invariant over all labels, `ServerTheorems.dfy` reads off what the server promises,
`ServerProgress.dfy` measures how far an awaited answer still is, and `TimerQueue.dfy` runs the
draining loop of the timer queue as a step sequence of that system. `SocketEffects.dfy` and
`ServerEffects.dfy` say what a step does to a connection in terms of the kernel's answers alone:
which bytes move, and exactly when and why the connection closes. `ServerActivity.dfy` ties the idle
timers to the bytes that really moved.

**The search engine.** `Tokenizer.dfy`, `InvertedIndex.dfy` and `SearchService.dfy` are the loops
over text, postings and hash maps, walked in any order, proved to return the brute-force answer,
best first in the fields of its results; `Ranking.dfy` says what a score rewards.
`MarkdownChunker.dfy` is the line-driven machine; `ChunkerTheorems.dfy` says what it keeps of text,
ids, words and sources, `ChunkerText.dfy` what its text functions compute. `Outline.dfy` compares its heading stack with the enclosing headings, and
`HeadingPaths.dfy` reads the heading path of every chunk off the lines of the document.

**The caches.** `KeyList.dfy` is a doubly linked list of real nodes, `LruCache.dfy` the map and
list over it, both proved to be the recency sequence of `LruSpec.dfy`; `LruRuns.dfy` has the laws
of whole runs. `SearchCache.dfy` is one thread's view of the two levels, `CacheRuns.dfy` any number
of threads, instances and foreign writers around one Redis.

**The HTTP layer and the whole.** `UrlCodec.dfy`, `HttpRequest.dfy`, `HttpMessage.dfy`,
`HttpResponse.dfy` and `Json.dfy` pair the parsers and printers with their inverses.
`SearchApplication.dfy` is the request handler, and `Routes.dfy` what a GET request is answered by its
path, parameters and headers. `ServiceRuns.dfy` interleaves the server with its
handlers and the caches behind them, step by step: a completion carries what the handler makes of
its request, answers to queries come out of the caches, and a handler that throws completes with a
server error. `ClientView.dfy` shows what a client sees of such a run: it reads its byte stream as
HTTP responses and finds exactly the answers to its own requests, in their order.

A `char` stands for a byte. Clock readings, the kernel's answers, Redis replies and the order of
hash containers are parameters or nondeterministic choices. Scores are reals and the weight of a
term is any function of its frequency, its posting count and the corpus size, so that "whatever
the order of summation" is a statement about the real-valued score; `Ranking.TfIdf` is the weight of
the source, for any increasing logarithm.

## What the proofs found

- A document whose text before its first heading ends in a word, directly followed under that
  heading by a line that starts in a word, has those two words indexed as one: the flush that
  keeps the text drops its newline. `WordsKeptExactly` says this is the only way to lose a word,
  `GluedExample` is an instance; up to white space no text is ever lost (`ChunksKeepText`).
- A chunk need not carry the path of the headings that enclose it. The code files a heading one
  below its predecessor, or at its own level if that is less deep, and forgets the level: a later
  heading closes it only if it is no deeper than that place. A path is right exactly when every
  heading that is still on the stack, unless it has no text, has not been closed by one of its own
  level or above (`Filed`, a condition on levels and empty headings alone; `PathExactly`,
  `ChunksFiledExactly`). `MisfiledDocument` is a document of four lines whose chunk says "A > B > C"
  where the outline says "A > C". The stack is the outline all along exactly when no heading that
  closes another is more than one level below the other's parents (`StacksAgreeExactly`); documents
  that skip no level are always fine (`FittingLevelsFile`).
- A cached answer can be as old, counted from the put that computed it, as both times to live
  together, plus the time from that put to the store in Redis and the time from a Redis reply to
  the clock reading of the L1 refill, minus two ticks. The bound is attained, and "younger than the
  two times to live" holds on every run exactly when those two lags take at most one tick together
  (`StalenessBound`, `BoundIsAttained`, `TwoTtlBoundExactly`).
- A request with two spellings of `Connection` that disagree is kept alive or closed depending on
  the order of a hash map, and in no other case (`CloseIsDeterminedExactly`). `AmbiguousRequest` is
  such a request; one that spells the name in at most one way has one outcome
  (`OneSpellingOneOutcome`).
- A response of no bytes is no activity: a connection that sent its last bytes long after its last
  request and was then answered with nothing is closed by a timer that counts from before
  (`EmptyResponseIsNoActivity`). Whenever the last response had bytes, a timer closes an idle
  connection neither before nor after the timeout has passed since bytes last moved
  (`ServerActivity.NeverClosedTooEarly`, `NeverClosedTooLate`); the responses of this server always
  have some (`NotClosedEarly`, `NotClosedLate`).
- The branch of `handleWakeup` that finds the eventfd empty is dead (`LoopQueue.ActionKeepsInv`),
  and no `epoll_ctl` call of the loop thread can ever fail (`StaleEventsReachNobody`).

## Model

| member | source | states |
|---|---|---|
| ClientView.ClientReadsAnswers | src/main.cpp:102-133 | end to end, in every run of server, handlers and caches together: the bytes on a connection read back, by Content-Length, as exactly permitted answers to its own first requests in order (a server error only where the handling of that request has thrown); unsent bytes only cut the list; `Connection: close` stands in the last answer exactly when the connection closes after it |
| ClientView.ClientIsServed | src/net/TcpConnection.cpp:102-161 | in the same runs, a client that sends well-formed requests gets the n-th answer to its n-th request, and after a close by neither error nor demand it has read one answer to each |
| ClientView.SearchIsAnswered | src/search/SearchApplication.cpp:128-145 | when nothing throws, the answer a client reads to a search is the JSON of the brute-force top ten, through every cache |
| ClientView.GetIsAnswered | src/search/SearchApplication.cpp:112-147 | in the same runs, the n-th answer read is the right one for the path, parameters and headers of the n-th request if that is a GET request, or a server error if its handling has thrown; it says to close if the only `Connection` header does, in any case, and is then the last, and it does not if none does |
| ClientView.NotClosedEarly | src/net/TcpConnection.cpp:214-230 | in the same runs, a timer closes only its own connection and only when the timeout has passed since bytes of it were last received or sent |
| ClientView.NotClosedLate | src/net/TimerQueue.cpp:28-34 | in the same runs, when a drain ends, bytes of every open idle connection have moved less than the timeout ago |
| ServiceRuns.ProducedIsPermitted | src/main.cpp:110-123 | what the handler produces, with answers from the caches, is an answer the request may be given: metrics and every other branch, with a close flag from the request's own headers |
| ServiceRuns.CompletedIsAnswer | src/main.cpp:111-131 | a completion carries such an answer, or a server error if the handling has thrown |
| ServiceRuns.RunsAreHandled | src/main.cpp:102-133 | in every interleaving of server and caches all completions carry a permitted answer, or a server error where the handling has thrown |
| ServerTheorems.ResponsesInOrder | src/net/TcpConnection.cpp:240-296 | sent bytes plus buffered bytes are one response per finished request, in dispatch order, each issued by a run of that very request |
| ServerTheorems.RequestsRunOnce | src/net/TcpConnection.cpp:278-295 | only a started run of a request can answer it, and no request is ever started twice |
| ServerTheorems.StreamIsFunctionOfRequests | src/main.cpp:102-133 | with a deterministic handler the client's stream is a function of the bytes it sent |
| ServerTheorems.RequestsIndependentOfFragments | src/net/TcpConnection.cpp:62-69 | received bytes are the dispatched requests followed by the input buffer, and the requests are the front of the stream's unique split, however recv cut it |
| ServerTheorems.EqualBytesEqualRequests | src/net/TcpConnection.cpp:265-269 | two connections in two runs with comparable input have comparable request lists |
| ServerTheorems.NothingIsStranded | src/net/TcpConnection.cpp:88-99 | flags, buffers and epoll mask of an open connection agree, complete input or a half-close is being acted on, and the awaited answer is queued, in work, on its way back or was given up by the handler |
| ServerTheorems.CloseNeverTruncates | src/net/TcpConnection.cpp:134-175 | a close no socket error forced drops no response byte and, unless the last response asked for it, no complete request; unregister then close, once each |
| ServerTheorems.CloseIsAnnounced | src/net/TcpConnection.cpp:257-259 | a connection closes after a response exactly when that response asked for it, and then it is the last one taken |
| ServerTheorems.CloseResponseIsLast | src/net/TcpConnection.cpp:141-149 | after a response that asks to close nothing more is dispatched or answered, whatever step follows |
| ServerTheorems.ClosedStaysClosed | src/net/TcpConnection.cpp:167-175 | no step changes a closed connection |
| ServerTheorems.StaleEventsReachNobody | src/net/EventLoop.cpp:113-121 | a reported event meets the connection it was reported for or nobody although descriptors are reused; the loop thread never fails in epoll_ctl; open connections have different descriptors |
| ServerTheorems.OneTimerEach | src/net/TcpConnection.cpp:202-230 | every open connection has exactly one pending timer |
| ServerTheorems.TimerClosesItsOwn | src/net/TcpConnection.cpp:214-230 | a timer closes only its own connection, only when that is idle and the timeout has passed since the activity it remembers |
| ServerTheorems.TimersLeaveNoneQuiet | src/net/TimerQueue.cpp:28-34 | when a drain ends, no open connection has been idle without marked activity for the timeout |
| ServerTheorems.IdleConnectionIsClosedInTime | src/net/TcpConnection.cpp:214-230 | a connection idle since time a does not survive the first drain at or after a plus the timeout |
| ServerTheorems.TimersTerminate | src/net/TimerQueue.cpp:28-34 | each popped timer leaves less weighted work although callbacks push new timers into the queue being drained |
| ServerTheorems.OthersLeaveTimersAlone | src/net/EventLoop.cpp:96-106 | no other thread can add timer work during a drain |
| ServerTheorems.NoWakeupIsLost | src/net/EventLoop.cpp:88-165 | executed tasks are a prefix of push order; a sleeping loop with tasks or a quit pending has its wakeup under way; a queued job has every worker busy or a wake on its way |
| ServerEffects.BrokenSocketIsClosed | src/net/TcpConnection.cpp:62-132 | over all steps of all runs: an open connection is closed for a socket error in exactly the steps in which epoll reports an error, recv fails behind data and interruptions only, or send fails before it has taken all there is |
| ServerEffects.EventStep | src/net/EventLoop.cpp:113-121 | a reported event moves exactly the bytes the kernel's answers deliver and take, and closes its connection exactly when the socket breaks, a response that says so is out, or the peer has finished and nothing is left to do; it marks activity once for bytes received and once for bytes sent, unless the buffer drained into the next request; no other connection changes |
| ServerEffects.ResponseStep | src/net/TcpConnection.cpp:240-261 | the response to the current request goes out as far as the kernel takes it, with the same closing conditions and marks; a late, repeated or foreign completion changes no connection |
| ServerEffects.EstablishStep | src/net/TcpConnection.cpp:38-56 | an accepted descriptor becomes an idle connection without a past, registered for reading only, with one check when the timeout has passed; the others stay as they are |
| SocketEffects.RecvLoop | src/net/TcpConnection.cpp:62-86 | the loop delivers the data before the first answer that is neither data nor an interruption; it breaks, or sees the peer finish, by that answer |
| SocketEffects.SendLoop | src/net/TcpConnection.cpp:105-132 | the loop sends the smaller of what waits and what the answers before the first refusal have room for, and breaks only if that refusal is a failure with bytes still to send |
| SocketEffects.EventDoes | src/net/Channel.cpp:51-68 | bytes moved, flags, next request and cause of closing of one event, from the kernel's answers alone |
| SocketEffects.ResponseDoes | src/net/TcpConnection.cpp:240-261 | the same for a response |
| SocketEffects.EventMarked | src/net/TcpConnection.cpp:88-159 | which events mark activity, and at which clock reading |
| SocketEffects.ResponseMarked | src/net/TcpConnection.cpp:116-159 | which responses mark activity |
| ServerActivity.NeverClosedTooEarly | src/net/TcpConnection.cpp:153-158 | a timer closes a connection only if it is idle and the timeout has passed since the last callback that received or sent bytes of it, unless its last response was empty |
| ServerActivity.NeverClosedTooLate | src/net/TimerQueue.cpp:28-34 | when a drain ends, bytes of every open idle connection have moved less than the timeout ago, unless its last response was empty |
| ServerActivity.EmptyResponseIsNoActivity | src/net/TcpConnection.cpp:156-159 | a response of no bytes leaves a connection idle and its last activity where it was |
| ServerProgress.IsSomewhere | src/net/TcpConnection.cpp:271-295 | an awaited answer has its job in the pool or its response in the loop |
| ServerProgress.AnswerComesNearer | src/net/EventLoop.cpp:88-165 | no step of any thread raises the rank of an awaited answer (place in the pool queue and workers not looking for a job, then handler, then wakeup, then distance in the loop and timers to drain), and a step that helps lowers it |
| ServerProgress.SomebodyHelps | src/concurrency/WorkerPool.cpp:50-75 | while the loop runs, some worker, notifier, handler, producer or the loop thread can always take a step that helps |
| ServerProof.StepKeepsInv | src/net/TcpConnection.cpp:58-296 | every atomic action of loop, workers, producers and kernel keeps the global invariant |
| ServerProof.RunKeepsInv | src/net/TcpConnection.cpp:58-296 | every run from a state inside the global invariant ends inside it |
| ServerProof.InitialInv | src/main.cpp:97-100 | the server starts inside the invariant, with any workers and timeout |
| TcpProtocol.ProcessRequestKeeps | src/net/TcpConnection.cpp:265-296 | cutting off and submitting a request keeps byte accounting and the flags |
| TcpProtocol.HandleReadKeeps | src/net/TcpConnection.cpp:58-100 | a read callback under any recv script keeps the connection invariant and stays within its frame |
| TcpProtocol.HandleReadWhileReady | src/net/TcpConnection.cpp:92-99 | reading never touches a response that waits to be sent |
| TcpProtocol.HandleWriteKeeps | src/net/TcpConnection.cpp:102-161 | a write callback under any send script keeps the connection invariant and stays within its frame |
| TcpProtocol.FinishRequestKeeps | src/net/TcpConnection.cpp:240-261 | a completion, be it current, late or repeated, keeps the connection invariant and stays within its frame |
| TcpProtocol.CloseIfIdleKeeps | src/net/TcpConnection.cpp:214-230 | an idle timer of any generation keeps the connection invariant and stays within its frame |
| TcpProtocol.HandleEventKeeps | src/net/Channel.cpp:51-68 | any event keeps the connection invariant, and no channel update meets an unregistered descriptor |
| TcpProtocol.HandleEventSaysNoMore | src/net/TcpConnection.cpp:134-154 | a connection told to close takes on nothing more in any event |
| Framing.FrameEnd | src/net/TcpConnection.cpp:232-234 | behind the first blank line, or 0 exactly when there is none |
| Framing.CutIsFrame | src/net/TcpConnection.cpp:265-269 | what is cut off is a frame: one terminator, at its end |
| Framing.SplitAfterFrames | src/net/TcpConnection.cpp:265-269 | frames taken from the front are the front of the reference split |
| Framing.SplitIsUnique | src/net/TcpConnection.cpp:265-269 | the split is the only way to write a stream as frames and a remainder without terminator |
| Framing.SplitCovers | src/net/TcpConnection.cpp:265-269 | the split loses nothing |
| Framing.SplitOfMore | src/net/TcpConnection.cpp:232-234 | later bytes never change earlier frames, also when a terminator straddles two reads |
| TcpConnections.TcpConnection.constructor | src/net/TcpConnection.cpp:16-36 | the fresh state |
| TcpConnections.TcpConnection.Establish | src/net/TcpConnection.cpp:38-56 | registers for reading and arms the first timer, as the protocol function says |
| TcpConnections.TcpConnection.ReceiveAll | src/net/TcpConnection.cpp:62-86 | the recv loop delivers exactly the script's bytes up to its first final answer |
| TcpConnections.TcpConnection.HandleRead | src/net/TcpConnection.cpp:58-100 | the whole new state of connection, loop and pool is that of the protocol function |
| TcpConnections.TcpConnection.AfterReceive | src/net/TcpConnection.cpp:88-99 | what follows the recv loop: the whole new state is that of the protocol function |
| TcpConnections.TcpConnection.SendAll | src/net/TcpConnection.cpp:105-132 | the send loop sends exactly the prefix the script takes and reports why it ended |
| TcpConnections.TcpConnection.AfterSend | src/net/TcpConnection.cpp:134-159 | what follows a drained send loop: the whole new state is that of the protocol function, which marks activity and closes as the theorems of ServerActivity and ServerEffects say |
| TcpConnections.TcpConnection.HandleWrite | src/net/TcpConnection.cpp:102-161 | the whole new state is that of the protocol function, which closes a broken socket as BrokenSocketIsClosed says |
| TcpConnections.TcpConnection.ProcessRequest | src/net/TcpConnection.cpp:265-296 | cuts one frame, numbers it and submits it, as the protocol function says |
| TcpConnections.TcpConnection.FinishRequest | src/net/TcpConnection.cpp:240-261 | ignores closed, idle and outdated targets, else appends and writes, as the protocol function says |
| TcpConnections.TcpConnection.CloseIfIdle | src/net/TcpConnection.cpp:214-230 | re-arms or closes, as the protocol function says |
| TcpConnections.TcpConnection.Close | src/net/TcpConnection.cpp:167-175 | unregister, close, forget, once |
| TcpConnections.TcpConnection.MarkActivity | src/net/TcpConnection.cpp:197-200 | new activity time and generation, nothing else |
| TcpConnections.TcpConnection.ScheduleIdleCheck | src/net/TcpConnection.cpp:202-212 | one more timer with the current generation |
| TcpConnections.TcpConnection.EnableWriting | src/net/TcpConnection.cpp:177-185 | arms EPOLLOUT of its own channel only |
| TcpConnections.TcpConnection.DisableWriting | src/net/TcpConnection.cpp:187-195 | disarms EPOLLOUT of its own channel only |
| TcpConnections.TcpConnection.HasCompleteRequest | src/net/TcpConnection.cpp:232-234 | true exactly when a terminator is buffered |
| TcpConnections.TcpConnection.IsIdle | src/net/TcpConnection.cpp:236-238 | the executable test is the predicate of the proofs |
| TcpConnections.TcpConnection.HandleEvent | src/net/Channel.cpp:51-68 | error first, then read, then write, as the protocol function says |
| Buffers.Buffer.Append | src/net/Buffer.cpp:19-21 | appends at the end |
| Buffers.Buffer.Retrieve | src/net/Buffer.cpp:23-27 | drops exactly the given number of bytes from the front, or all |
| Buffers.Buffer.RetrieveAll | src/net/Buffer.cpp:29-31 | leaves nothing |
| EventLoops.EventLoop.constructor | src/net/EventLoop.cpp:26-48 | no channels, timers or tasks, the counter at zero |
| EventLoops.EventLoop.AddChannel | src/net/EventLoop.cpp:62-65 | registers one descriptor |
| EventLoops.EventLoop.UpdateChannel | src/net/EventLoop.cpp:67-69 | changes one registered mask |
| EventLoops.EventLoop.RemoveChannel | src/net/EventLoop.cpp:71-78 | unregisters, or finds nothing to do |
| EventLoops.EventLoop.RunAt | src/net/EventLoop.cpp:80-82 | adds one timer |
| EventLoops.EventLoop.Wakeup | src/net/EventLoop.cpp:123-138 | one signal of the hand-off machine, also with the counter full |
| EventLoops.EventLoop.QueueInLoop | src/net/EventLoop.cpp:88-94 | push then signal of the hand-off machine; the counter ends positive |
| EventLoops.EventLoop.Quit | src/net/EventLoop.cpp:108-111 | quit then signal |
| EventLoops.EventLoop.TakeTasks | src/net/EventLoop.cpp:140-160 | reads the counter and swaps out all tasks in order, or none on EAGAIN |
| EventLoops.TaskQueue.Submit | src/concurrency/WorkerPool.cpp:39-48 | accepts at the back unless stopping |
| EventLoops.TaskQueue.Take | src/concurrency/WorkerPool.cpp:53-65 | sleep, exit, or take the front |
| LoopQueue.ActionKeepsInv | src/net/EventLoop.cpp:88-165 | every atomic action keeps the hand-off invariant and the execution order; the EAGAIN read is dead |
| LoopQueue.TasksProgress | src/net/EventLoop.cpp:96-165 | every loop step brings each pushed task closer to its one execution, and no producer takes it away |
| WorkerPool.ActionKeepsInv | src/concurrency/WorkerPool.cpp:27-75 | every action keeps: submitted = finished + running + queued, workers in one place, no lost notify |
| WorkerPool.QueuedTaskIsServed | src/concurrency/WorkerPool.cpp:15-17 | a queued task never waits for a sleeping worker with nothing on its way to wake it |
| WorkerPool.RunKeepsInv | src/concurrency/WorkerPool.cpp:50-75 | every run keeps the pool invariant, throwing tasks included, and loses no worker |
| WorkerPool.JoinedMeansAllRan | src/concurrency/WorkerPool.cpp:27-37 | when the destructor has joined, every accepted task has run exactly once, in order |
| WorkerPool.ShutdownTerminates | src/concurrency/WorkerPool.cpp:27-37 | every step of a stopping pool leaves less to do |
| WorkerPool.ShutdownGoesOn | src/concurrency/WorkerPool.cpp:50-65 | until all workers have left, some step is possible |
| TimerQueues.MillisecondsUntilNextTimer | src/net/TimerQueue.cpp:11-26 | how long to sleep: -1, 0 and INT_MAX exactly when due, never a whole millisecond past the first timer, never waking just short of it |
| TimerQueues.RunExpiredTimers | src/net/TimerQueue.cpp:28-34 | the drain terminates, runs nothing early, leaves nothing due and no connection idle for too long |
| LruRuns.RunKeepsInv | src/search/LruCache.cc:18-61 | over any run: unique keys, bounded size, recency order, latest values, exact counters, every missing key accounted for |
| LruRuns.HitIsLatestPut | src/search/LruCache.cc:18-38 | a hit is the latest put of its key, younger than the time to live, which hits do not extend |
| LruRuns.YoungAndRecentHits | src/search/LruCache.cc:40-61 | a young enough value misses only after capacity other keys were touched |
| LruRuns.EvictsLeastRecent | src/search/LruCache.cc:55-60 | an eviction takes exactly the least recently touched key, never the one just put |
| LruRuns.StatsAddUp | src/search/LruCache.cc:22-59 | gets = hits + misses, inserting puts = size + evictions + expirations |
| LruSpec.WithoutMembers | src/search/LruCache.cc:27-33 | erasing a key forgets that key only |
| LruCaches.LruCache.constructor | src/search/LruCache.cc:8-16 | empty, for positive capacity and time to live |
| LruCaches.LruCache.Get | src/search/LruCache.cc:18-38 | map and linked list together do what a get on the recency sequence does |
| LruCaches.LruCache.Expire | src/search/LruCache.cc:27-33 | the get of an expired key forgets it in map and list and counts a miss and an expiration |
| LruCaches.LruCache.Put | src/search/LruCache.cc:40-61 | map and linked list together do what a put on the recency sequence does |
| LruCaches.LruCache.Insert | src/search/LruCache.cc:51-60 | the put of a new key, with its eviction, is that of the recency sequence |
| LruCaches.LruCache.EvictOldest | src/search/LruCache.cc:55-60 | drops the last item, and its key from the map |
| KeyLists.KeyList.PushFront | src/search/LruCache.cc:51 | a fresh node in front, links consistent |
| KeyLists.KeyList.Erase | src/search/LruCache.cc:28 | unlinks one node in place, all other links kept |
| KeyLists.KeyList.MoveToFront | src/search/LruCache.cc:35 | relinks one node in front |
| KeyLists.KeyList.PopBack | src/search/LruCache.cc:58 | unlinks the last node |
| SearchCaches.ThreadState.constructor | src/search/SearchCache.cc:20-26 | an empty L1 per thread and instance |
| SearchCaches.ThreadState.Get | src/search/SearchCache.cc:52-72 | L1, then Redis with refill, in each mode |
| SearchCaches.ThreadState.Put | src/search/SearchCache.cc:74-86 | stores in L1 unless disabled, and in the two-level mode hands key, value and time to live to Redis |
| SearchCaches.StoreThenLookUp | src/search/SearchCache.cc:52-86 | what was just stored is found until its time to live is over, then what Redis replies where there is one; a disabled cache finds nothing |
| SearchCaches.RefillThenLookUp | src/search/SearchCache.cc:62-71 | what Redis replied is found in L1 from then on, for the time to live there |
| CacheRuns.KeysAreInjective | src/search/SearchApplication.cpp:16-18 | different queries have different cache keys |
| CacheRuns.CachingIsTransparent | src/search/SearchCache.cc:42-86 | over any run of any threads, instances and modes each caller gets what it would compute without a cache |
| CacheRuns.StalenessBound | src/search/SearchCache.cc:52-86 | how old a cached answer can be, since the put that computed it |
| CacheRuns.BoundIsAttained | src/search/SearchCache.cc:67-71 | a run in which it is that old |
| CacheRuns.TwoTtlBoundExactly | src/search/SearchCache.cc:67-86 | the two times to live bound that age on all runs iff the lags of store and refill take at most one tick together |
| CacheRuns.RunKeepsInv | src/search/SearchCache.cc:42-86 | every entry of every L1 and of Redis holds the answer to the query of its key, and dies in time |
| CacheRuns.StepsAreLookUp | src/search/SearchCache.cc:52-72 | the interleaved steps of a get are the get of the single-threaded object |
| CacheRuns.ComputeIsStore | src/search/SearchCache.cc:74-82 | the interleaved steps of a put change the L1 as the put of the single-threaded object does |
| SearchApplications.SearchApplication.MakeService | src/search/SearchApplication.cpp:100-109 | the index filled behind the service's back agrees with its documents |
| SearchApplications.SearchApplication.constructor | src/search/SearchApplication.cpp:98-110 | serves the loaded documents with an empty cache |
| SearchApplications.SearchApplication.HandleRequest | src/search/SearchApplication.cpp:112-145 | every branch answers what the uncached application may answer, and the caches stay sound |
| SearchApplications.SearchApplication.AnswerQuery | src/search/SearchApplication.cpp:134-144 | cached or not, the JSON of the brute-force top ten |
| SearchApplications.SearchApplication.ComputeAndStore | src/search/SearchApplication.cpp:140-142 | computes that JSON and stores it on both levels, which stay sound |
| SearchApplications.LookUpIsSound | src/search/SearchApplication.cpp:134-138 | what a sound cache finds is the answer to this query |
| SearchApplications.StoreIsSound | src/search/SearchApplication.cpp:140-142 | storing an answer under its own key keeps the cache sound |
| Tokenizer.Tokenize | src/search/Tokenizer.cpp:25-47 | the maximal runs of token characters in lower case |
| Tokenizer.AnalyzeTerms | src/search/Tokenizer.cpp:49-61 | the tokens that are not stop words, in order |
| Tokenizer.TokensAcrossSeparator | src/search/Tokenizer.cpp:36-39 | no token reaches across a separator |
| Tokenizer.TokensIgnoreCase | src/search/Tokenizer.cpp:29-34 | letter case is invisible |
| Tokenizer.TokenCharacters | src/search/Tokenizer.cpp:10-13 | words are made of letters, digits, '+' and '_' |
| Tokenizer.TokensOfWords | src/search/Tokenizer.cpp:25-47 | a word and the text behind a separator give the word in lower case and the tokens of that text |
| Tokenizer.StopWordsVanish | src/search/Tokenizer.cpp:15-21 | nineteen words vanish, all others stay as often as they occur |
| InvertedIndexes.InvertedIndex.AddChunk | src/search/InvertedIndex.cpp:7-19 | the index of one more chunk, whatever the hash order |
| InvertedIndexes.InvertedIndex.CountTerms | src/search/InvertedIndex.cpp:8-12 | exact frequencies |
| InvertedIndexes.InvertedIndex.FindTerm | src/search/InvertedIndex.cpp:21-28 | the postings of the term; found exactly when some chunk contains it |
| InvertedIndexes.PostingsAreExact | src/search/InvertedIndex.cpp:13-17 | one entry per containing chunk, with its exact frequency, and no others |
| InvertedIndexes.CountIsMultiplicity | src/search/InvertedIndex.cpp:8-12 | a frequency is the multiplicity of the term among the terms of the chunk |
| SearchServices.RanksHigherIsStrictTotal | src/search/SearchService.cpp:17-25 | irreflexive, transitive, total on different chunks |
| SearchServices.TopIsUnique | src/search/SearchService.cpp:81-86 | there is one ranked list of the best k, so neither hash order nor sorting algorithm can be seen |
| SearchServices.ScorePick | src/search/SearchService.cpp:48-64 | a score is the same in any order of summation |
| SearchServices.BruteForceIsBestFirst | src/search/SearchService.cpp:17-25 | in the fields of the results: more matched terms first, then the higher score, then the lower id; a matching chunk is left out only when k others come before it |
| SearchServices.RankingIsRanked | src/search/SearchService.cpp:66-86 | the brute-force list is ranked and holds exactly the chunks that share a term |
| SearchServices.SearchService.constructor | src/search/SearchService.cpp:31-36 | finds every chunk by its id |
| SearchServices.SearchService.Aggregate | src/search/SearchService.cpp:43-64 | exact match counts and scores for each candidate, whatever the order of terms |
| SearchServices.SearchService.CountTerm | src/search/SearchService.cpp:48-64 | one more term counted for exactly the chunks that contain it |
| SearchServices.SearchService.Collect | src/search/SearchService.cpp:66-79 | the candidates as results |
| SearchServices.SearchService.Search | src/search/SearchService.cpp:38-89 | the first min(k, n) of the brute-force ranking of all chunks, best first by matched terms, score and id |
| Ranking.TermScoreMeaning | src/search/SearchService.cpp:54-64 | a term is weighed by its multiplicity in the chunk, the number of chunks that contain it and the number of all chunks |
| Ranking.MatchedMeaning | src/search/SearchService.cpp:48-61 | the matched terms of a chunk are the query terms among its own |
| Ranking.MoreOccurrencesWeighMore | src/search/SearchService.cpp:62-63 | with the source's weight and any increasing logarithm, more occurrences score higher |
| Ranking.RarerTermsWeighMore | src/search/SearchService.cpp:54-56 | and so does a term that fewer chunks contain |
| Ranking.OneTermQuery | src/search/SearchService.cpp:38-89 | a query of one term finds the chunks that contain it, those with more occurrences first, earlier chunks first among equals, up to k |
| MarkdownChunker.ComputeHeadingLevel | src/search/MarkdownChunker.cpp:10-21 | 1 to 6 for a heading line, else 0 |
| MarkdownChunker.ComputeTrim | src/search/MarkdownChunker.cpp:23-35 | white space removed at both ends |
| ChunkerText.TrimMeaning | src/search/MarkdownChunker.cpp:23-35 | trimming leaves what stands between the white space at both ends |
| ChunkerText.HasMiddle | src/search/MarkdownChunker.cpp:23-35 | every text has such a middle, so that fixes trimming |
| ChunkerText.HeadingLevelExactly | src/search/MarkdownChunker.cpp:10-21 | a line is a heading of a level iff it starts with that many hash signs, one to six, and a blank |
| ChunkerText.TitleOfFile | src/search/MarkdownChunker.cpp:52-60 | the title of a path is the file name without directory and last extension |
| ChunkerText.TitleWithoutExtension | src/search/MarkdownChunker.cpp:52-60 | and the whole file name where it has no dot, whatever dots the directory has |
| MarkdownChunker.ComputeJoinHeadings | src/search/MarkdownChunker.cpp:37-50 | the non-empty headings joined |
| MarkdownChunker.FlushCurrent | src/search/MarkdownChunker.cpp:75-89 | closes a chunk or keeps trimmed text that has no heading yet, as the machine does of which ChunksKeepSource and ChunkPaths speak |
| MarkdownChunker.TakeLine | src/search/MarkdownChunker.cpp:92-108 | one turn of the line loop is one step of the machine |
| MarkdownChunker.ChunkMarkdown | src/search/MarkdownChunker.cpp:66-126 | the loop computes the machine's chunks |
| ChunkerTheorems.ChunksKeepText | src/search/MarkdownChunker.cpp:66-126 | up to white space the chunks hold exactly the lines that are not headings, in order |
| ChunkerTheorems.ChunksAreNumbered | src/search/MarkdownChunker.cpp:81 | consecutive ids from the first, and no empty chunk |
| ChunkerTheorems.ChunksKeepSource | src/search/MarkdownChunker.cpp:83-84 | every chunk carries the path and the category of its document |
| ChunkerTheorems.LoadTraces | src/search/DocumentLoader.cpp:37-58 | the chunks of each file stand behind those of the files before it, are cut from its content, and carry its path and category |
| ChunkerTheorems.StepsNumberChunks | src/search/MarkdownChunker.cpp:100-104 | the stack is never deeper than the last heading's level, nor than 6 |
| ChunkerTheorems.LoadDocuments | src/search/DocumentLoader.cpp:30-59 | ids are positions across files, hence distinct |
| HeadingPaths.StepsKeepStack | src/search/MarkdownChunker.cpp:100-104 | the heading list of the machine is the stack of the outline theorems |
| HeadingPaths.StepsKeepTitle | src/search/MarkdownChunker.cpp:105-107 | the title is the text of the last heading of level 1, or empty when there was none |
| Outlines.StackMeaning | src/search/MarkdownChunker.cpp:101-104 | the code's stack holds exactly the headings that no later one reaches the depth of |
| Outlines.OutlineMeaning | src/search/MarkdownChunker.cpp:100-104 | the reference outline holds exactly the headings that no later one of their own level or above has closed |
| Outlines.PathExactly | src/search/MarkdownChunker.cpp:37-50 | the code writes the path of the enclosing headings iff every stacked heading with a text is open |
| Outlines.StacksAgreeExactly | src/search/MarkdownChunker.cpp:100-104 | the stack is the outline after every heading iff no heading that closes another is more than one level below the other's parents |
| Outlines.NoSkipsFiles | src/search/MarkdownChunker.cpp:100-104 | where no level is skipped, every stacked heading is open |
| HeadingPaths.StepsKeepBody | src/search/MarkdownChunker.cpp:75-98 | the buffer holds the text of the section, and above the second heading also what precedes the first |
| HeadingPaths.ChunkPaths | src/search/MarkdownChunker.cpp:75-125 | which chunks a document has, where each ends, its text, its title (the last level-1 heading above its end) and its heading path (that of the stack there), or the file's title for both without any heading |
| HeadingPaths.ChunksFiledExactly | src/search/MarkdownChunker.cpp:75-104 | all chunks carry the path of their enclosing headings iff every section with text is filed, a condition on heading levels and empty headings |
| HeadingPaths.FittingLevelsFile | src/search/MarkdownChunker.cpp:75-104 | in a document whose levels fit, or that skips none, every chunk carries the path of its enclosing headings |
| HeadingPaths.LinesRead | src/search/MarkdownChunker.cpp:90-92 | a document is read line by line, as it was written |
| HeadingPaths.MisfiledChunk | src/search/MarkdownChunker.cpp:75-104 | a family of documents whose one chunk is filed under a heading that had been closed |
| HeadingPaths.MisfiledDocument | src/search/MarkdownChunker.cpp:75-104 | one of them: its chunk carries "A > B > C" where the enclosing headings are "A > C" |
| ChunkerTheorems.TokensOfJoin | src/search/MarkdownChunker.cpp:95-96 | joining texts joins their words, except that two halves become one |
| ChunkerTheorems.WordsKeptExactly | src/search/MarkdownChunker.cpp:75-79 | the chunks keep all words iff no text before the first heading runs into the line below it |
| ChunkerTheorems.GluedExample | src/search/MarkdownChunker.cpp:75-79 | a three-line document whose chunks hold fewer words than its lines |
| UrlCodec.ComputeUrlDecode | src/http/HttpRequest.cpp:20-49 | the decoding loop |
| UrlCodec.DecodesExactly | src/http/HttpRequest.cpp:20-49 | decoding yields a text iff the input encodes it, by any encoder |
| UrlCodec.DecodingNeverLengthens | src/http/HttpRequest.cpp:20-49 | the result is no longer than the input |
| UrlCodec.HexDigits | src/http/HttpRequest.cpp:7-18 | hexadecimal digits of either case have their value |
| UrlCodec.ParseQueryString | src/http/HttpRequest.cpp:51-78 | the cursor loop |
| UrlCodec.FirstWinsMeaning | src/http/HttpRequest.cpp:68 | a key has the value of its first pair |
| UrlCodec.QueryRoundTrip | src/http/HttpRequest.cpp:51-78 | any encoding of any pairs parses to the first-wins map |
| UrlCodec.ItemMeaning | src/http/HttpRequest.cpp:60-69 | an item without '=' or without a key is ignored; any other is refused iff its key or its value is an encoding of nothing |
| UrlCodec.QueryRefused | src/http/HttpRequest.cpp:51-78 | a query is refused iff one of its items is |
| UrlCodec.QueryMeaning | src/http/HttpRequest.cpp:51-78 | encoded pairs among any ignored items parse to the first-wins map |
| UrlCodec.PercentEncodes | src/http/HttpRequest.cpp:20-49 | every byte string has an encoding, without any separator in it |
| UrlCodec.SerializedRoundTrip | src/http/HttpRequest.cpp:51-78 | every list of pairs with non-empty keys, serialized and parsed, gives its first-wins map |
| HttpRequests.ComputeParseRequest | src/http/HttpRequest.cpp:99-158 | the parser with all its rejections |
| HttpRequests.ComputeTakeHeader | src/http/HttpRequest.cpp:139-154 | one header line |
| HttpRequests.RequestLineRefused | src/http/HttpRequest.cpp:106-116 | a request line is refused iff it has fewer than two spaces |
| HttpRequests.HeaderRefused | src/http/HttpRequest.cpp:143-146 | a header line is refused iff it has no name before a ':' |
| HttpRequests.HeaderTaken | src/http/HttpRequest.cpp:148-154 | any blanks before the value are skipped, and the first header of a name counts |
| HttpRequests.FramerAndParserAgree | src/http/HttpRequest.cpp:133-157 | on a frame the parser never runs out of line ends; it rejects what is written or stops at the blank line |
| HttpRequests.QueryReachesHandler | src/http/HttpRequest.cpp:121-132 | the parameters a client encoded arrive |
| HttpRequests.FindHeader | src/http/HttpRequest.cpp:168-175 | some header of that name, or none exactly when there is none |
| HttpRequests.ShouldCloseConnection | src/http/HttpRequest.cpp:177-180 | a decision some hash order leads to; CloseMeaning says which there are |
| HttpRequests.CloseMeaning | src/http/HttpRequest.cpp:168-180 | the connection may be closed iff a header that is `connection` in lower case has a value that is `close` in lower case, and kept iff one has another value or there is none |
| HttpRequests.EqualLower | src/http/HttpRequest.cpp:80-93 | two names are equal ignoring case iff they are equal in lower case |
| HttpRequests.CloseIsDeterminedExactly | src/http/HttpRequest.cpp:168-180 | the decision depends on that order iff two spellings disagree |
| HttpRequests.OneSpellingOneOutcome | src/http/HttpRequest.cpp:168-180 | with at most one spelling of the name there is one decision |
| HttpMessages.AmbiguousRequest | src/http/HttpRequest.cpp:168-180 | the bytes of a request that is framed and accepted and may be decided both ways |
| HttpMessages.MessageIsFrame | src/net/TcpConnection.cpp:265-269 | a well-formed message head is exactly one frame |
| HttpMessages.HeadersRoundTrip | src/http/HttpRequest.cpp:133-156 | the header loop reads back all headers that were written |
| HttpMessages.SectionAccepted | src/http/HttpRequest.cpp:133-157 | a header section is accepted iff each line has a name before a ':' and none breaks off; the reason of each refusal |
| HttpMessages.RequestAccepted | src/http/HttpRequest.cpp:99-158 | a request with a query is accepted iff no item of the query is malformed, each line below the first is a header line, and none breaks off |
| HttpMessages.NoRequestLineExactly | src/http/HttpRequest.cpp:100-103 | there is no request line iff there is no line end |
| HttpMessages.RequestRoundTrip | src/http/HttpRequest.cpp:99-158 | method, path, parameters and headers of every well-formed request are recovered, with a query or without |
| HttpMessages.PairsArrive | src/http/HttpRequest.cpp:99-158 | any list of pairs can be sent as the query of a request, and is what arrives |
| HttpResponses.ResponseRoundTrip | src/http/HttpResponse.cpp:7-17 | a client recovers a response and where it ends, whatever body and followers |
| HttpResponses.StreamRoundTrip | src/http/HttpResponse.cpp:7-17 | a client recovers every response of a pipelined stream |
| HttpResponses.ReadStreamOfMore | src/http/HttpResponse.cpp:13 | bytes under way never change what has been read |
| HttpResponses.ConstantsAreClean | src/http/HttpResponse.cpp:23-44 | no status or type the server uses can break a line |
| Routes.HeadersDecide | src/http/HttpRequest.cpp:177-180 | over the headers as a client writes them: the answer says to close if they all ask for it and some do, in any case of name and value, and keeps the connection if none does |
| Routes.EmplaceAllMeaning | src/http/HttpRequest.cpp:154 | a name has the value of one of its headers, and one that was there before keeps its own |
| Routes.RightAnswer | src/search/SearchApplication.cpp:112-147 | over the bytes of a GET request: status, type and body by path and first `q`, a search with the JSON of at most ten chunks, best first, and the close flag by the headers |
| Routes.OthersRefused | src/search/SearchApplication.cpp:114-116 | everything else is refused with status 400 and keeps the connection |
| Json.ComputeEscapeJson | src/search/SearchApplication.cpp:19-55 | the escaping loop |
| Json.EscapeRoundTrip | src/search/SearchApplication.cpp:19-55 | a JSON reader recovers the bytes and stops at the literal's own closing quote |
| Json.EscapedIsPrintable | src/search/SearchApplication.cpp:45-50 | no byte below 0x20 is printed |
| Json.EscapedHasNoBareQuote | src/search/SearchApplication.cpp:23-28 | a reader finds no end inside the escaped text |
| Json.ComputeToJson | src/search/SearchApplication.cpp:65-89 | the printing loop |
| Json.DocumentRoundTrip | src/search/SearchApplication.cpp:57-89 | a JSON reader recovers the query and every field of every result, numbers included, in order; of the text the first 240 bytes |
| Json.DecimalRoundTrip | src/search/SearchApplication.cpp:75-86 | the digits of an id or a count read back as that number |

## Left out

- Sockets, epoll, the accept loop and the argument parsing of `src/main.cpp`: system calls; their
  possible answers are what the environment of `Server.dfy` chooses from.
- The blocking path of `src/main.cpp` (`extractPath`, `route`, `writeAll`, `handleClient`,
  `serveForever`): the running server does not use it.
- `src/search/RedisClient.cc`: calls into hiredis. Redis is a map with an expiry per key that may
  miss and may refuse.
- The directory walk of `src/search/DocumentLoader.cpp`: the files are an input.
- `src/observability/RequestLatency.cpp` and the timing pointers of a connection: counters without
  influence on control flow; the answer to `/metrics` is any JSON body.
- `src/net/EventLoopGroup.cc` and `src/net/EventLoopThread.cpp`: round robin and thread start. One
  I/O loop is modelled; other loops appear as descriptors of the process and jobs of the pool.
- IEEE doubles, the values of `log` and `log1p`, the digits of a score, locales other than C, and
  the wrap-around of 64-bit counters.
- The insides of `std::priority_queue`, `std::sort`, `std::partial_sort`, `std::unordered_map` and
  `std::string_view::find`: modelled by their contracts. `SearchServices.SortTop` selects repeatedly, `IsTop` is
  all its callers use.
- Tasks and callbacks that throw inside the loop thread, and a connection whose handler throws from
  `submit` because the pool is stopping: in `src/main.cpp` the pool outlives the loop. The pool's
  destructor is proved in `WorkerPool.dfy`, on its own.
- The lifetime of objects behind `shared_ptr` and `weak_ptr`: a connection that is gone is one that
  is closed, for which every callback does nothing.
- LruCaches.LruCache.Get: does not model the mutex; a cache belongs to one thread.
- SearchApplications.SearchApplication.HandleRequest: one thread and one snapshot of Redis; the interleaving of threads, and
  the time to live in Redis, are in `CacheRuns.dfy` and `ServiceRuns.dfy`. It takes for granted that everybody who writes
  to the shared Redis serves the same documents, as `CacheRuns.Sound` spells out.
- TimerQueues.RunExpiredTimers: takes a positive idle timeout, as `src/main.cpp` passes one; with a zero timeout the
  loop would re-arm a busy connection's timer for ever.
- ServerProgress.SomebodyHelps: that the operating system schedules every thread, and that a handler completes, is
  not part of the model; nor is a loop that has been told to quit.
