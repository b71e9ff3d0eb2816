// The server of Server.dfy with the handler of src/main.cpp behind it: completions carry what
// the handler makes of their request, and answers to queries come out of the caches of
// CacheRuns.dfy, all interleaved step by step.
module ServiceRuns {
  import opened TcpProtocol
  import opened Server
  import ServerProof
  import opened ServerTheorems
  import opened HttpRequests
  import opened HttpResponses
  import opened SearchApplications
  import CacheRuns

  // The documents served, the caches in front of them, and which of the cache instances is
  // that of this server.
  datatype Setting = Setting(corpus: Corpus, world: CacheRuns.World, instance: nat)

  ghost predicate ServesCorpus(g: Setting) {
    && CacheRuns.Sound(g.world) && g.instance in g.world.configs
    && forall query :: g.world.answer(g.instance, query) == JsonFor(g.corpus, query)
  }

  // `thrown` collects the jobs whose handling has thrown.
  datatype Service = Service(server: Sys, caches: CacheRuns.Sys, thrown: set<Job>)

  function Started(workers: set<nat>, idleTimeout: int, start: int): Service {
    Service(Server.Initial(workers, idleTimeout, start), CacheRuns.Initial(), {})
  }

  // A cache lookup or a computation for the query has come to its end.
  ghost predicate Found(g: Setting, caches: CacheRuns.Sys, query: string, json: string) {
    exists reply <- caches.replies :: reply.instance == g.instance && reply.query == query && reply.value == json
  }

  ghost predicate Produces(g: Setting, caches: CacheRuns.Sys, raw: string, r: Response) {
    var parsed := ParseRequest(raw);
    if AsksForMetrics(parsed) then IsMetrics(parsed.request, r)
    else if !parsed.Accepted? || parsed.request.method_ != "GET" then
      r == BadRequest("Only complete GET requests are supported\n", false)
    else
      && MayClose(parsed.request.headers, r.close)
      && match SearchQuery(parsed.request)
         case Some(query) => Found(g, caches, query, r.body) && r == OkJson(r.body, r.close)
         case None => r == PlainAnswer(parsed.request, r.close)
  }

  function ResultOf(r: Response): ResponseResult {
    ResponseResult(Text(r), r.close)
  }

  // The handler completes with what it produces, or from a catch branch with a server error.
  ghost predicate Completes(g: Setting, caches: CacheRuns.Sys, job: Job, result: ResponseResult, throws: bool)
    requires job.Serve?
  {
    if throws then result == ResultOf(InternalServerError(true))
    else exists r :: Produces(g, caches, job.request, r) && result == ResultOf(r)
  }

  datatype Step = ServerStep(l: Server.Label, throws: bool) | CacheStep(c: CacheRuns.Label)

  ghost predicate Enabled(g: Setting, s: Service, step: Step) {
    match step
    case ServerStep(l, throws) =>
      && Server.Enabled(s.server, l)
      && (l.Complete? ==> Completes(g, s.caches, s.server.pool.started[l.position], l.result, throws))
    case CacheStep(c) => CacheRuns.Enabled(g.world, s.caches, c)
  }

  ghost function Apply(g: Setting, s: Service, step: Step): Service
    requires Enabled(g, s, step)
  {
    match step
    case ServerStep(l, throws) =>
      Service(Server.Apply(s.server, l), s.caches,
              if l.Complete? && throws then s.thrown + {s.server.pool.started[l.position]} else s.thrown)
    case CacheStep(c) => s.(caches := CacheRuns.Apply(g.world, s.caches, c))
  }

  ghost predicate IsRun(g: Setting, s: Service, steps: seq<Step>)
    decreases |steps|
  {
    steps == [] || (Enabled(g, s, steps[0]) && IsRun(g, Apply(g, s, steps[0]), steps[1..]))
  }

  ghost function After(g: Setting, s: Service, steps: seq<Step>): Service
    requires IsRun(g, s, steps)
    decreases |steps|
  {
    if steps == [] then s else After(g, Apply(g, s, steps[0]), steps[1..])
  }

  // --- what every run keeps -----------------------------------------------------------------

  // The text of a permitted response, or of a server error where the handler has thrown, and
  // whether that response says to close.
  ghost predicate IsAnswerTo(corpus: Corpus, thrown: set<Job>, job: Job, result: ResponseResult)
    requires job.Serve?
  {
    exists r :: result == ResultOf(r) && IsResponseFor(corpus, thrown, job, r)
  }

  ghost predicate IsResponseFor(corpus: Corpus, thrown: set<Job>, job: Job, r: Response)
    requires job.Serve?
  {
    Permitted(corpus, job.request, r) || (job in thrown && r == InternalServerError(true))
  }

  ghost predicate Handled(s: Service, corpus: Corpus) {
    forall issue <- s.server.issued :: issue.job.Serve? ==> IsAnswerTo(corpus, s.thrown, issue.job, issue.result)
  }

  ghost predicate Inv(g: Setting, s: Service) {
    Reachable(s.server) && CacheRuns.Inv(g.world, s.caches) && Handled(s, g.corpus)
  }

  // What comes out of the caches is the answer computed without them.
  lemma FoundIsAnswer(g: Setting, caches: CacheRuns.Sys, query: string, json: string)
    requires ServesCorpus(g) && CacheRuns.Inv(g.world, caches) && Found(g, caches, query, json)
    ensures json == JsonFor(g.corpus, query)
  {
    hide JsonFor;
    var reply :| reply in caches.replies && reply.instance == g.instance && reply.query == query && reply.value == json;
    assert CacheRuns.ReplyOk(g.world, reply);
  }

  lemma ProducedIsPermitted(g: Setting, caches: CacheRuns.Sys, raw: string, r: Response)
    requires ServesCorpus(g) && CacheRuns.Inv(g.world, caches) && Produces(g, caches, raw, r)
    ensures Permitted(g.corpus, raw, r)
  {
    hide JsonFor, ParseRequest, MayClose, ServesCorpus, CacheRuns.Inv, PlainAnswer, Found, IsMetrics;
    var parsed := ParseRequest(raw);
    if parsed.Accepted? && SearchQuery(parsed.request).Some? && Found(g, caches, SearchQuery(parsed.request).value, r.body) {
      FoundIsAnswer(g, caches, SearchQuery(parsed.request).value, r.body);
    }
  }

  lemma CompletedIsAnswer(g: Setting, s: Service, job: Job, result: ResponseResult, throws: bool)
    requires ServesCorpus(g) && CacheRuns.Inv(g.world, s.caches)
    requires job.Serve? && Completes(g, s.caches, job, result, throws)
    ensures IsAnswerTo(g.corpus, if throws then s.thrown + {job} else s.thrown, job, result)
  {
    hide Produces, Permitted, Text, CacheRuns.Inv, ServesCorpus;
    if throws {
      assert IsResponseFor(g.corpus, s.thrown + {job}, job, InternalServerError(true));
    } else {
      var r :| Produces(g, s.caches, job.request, r) && result == ResultOf(r);
      ProducedIsPermitted(g, s.caches, job.request, r);
      assert IsResponseFor(g.corpus, s.thrown, job, r);
    }
  }

  lemma ThrownGrows(corpus: Corpus, thrown: set<Job>, thrown': set<Job>, job: Job, result: ResponseResult)
    requires job.Serve? && IsAnswerTo(corpus, thrown, job, result) && thrown <= thrown'
    ensures IsAnswerTo(corpus, thrown', job, result)
  {
    hide Permitted, Text;
    var r :| result == ResultOf(r) && IsResponseFor(corpus, thrown, job, r);
    assert IsResponseFor(corpus, thrown', job, r);
  }

  // Only completions issue results.
  lemma IssuedBy(s: Sys, l: Server.Label)
    requires Server.Enabled(s, l)
    ensures l.Complete? ==>
      && l.position < |s.pool.started| && s.pool.started[l.position].Serve?
      && Server.Apply(s, l).issued == s.issued + {Issue(s.pool.started[l.position], l.result)}
    ensures !l.Complete? ==> Server.Apply(s, l).issued == s.issued
  {
    hide HandleEvent, FinishRequest, CloseIfIdle, HandleRead, MayWrite, Idle;
  }

  lemma ServerStepHandles(g: Setting, s: Service, l: Server.Label, throws: bool)
    requires ServesCorpus(g) && Inv(g, s) && Enabled(g, s, ServerStep(l, throws))
    ensures Handled(Apply(g, s, ServerStep(l, throws)), g.corpus)
  {
    var s' := Apply(g, s, ServerStep(l, throws));
    IssuedBy(s.server, l);
    if l.Complete? {
      CompletedIsAnswer(g, s, s.server.pool.started[l.position], l.result, throws);
    }
    hide ServesCorpus, Reachable, CacheRuns.Inv, IsAnswerTo, Server.Enabled, Server.Apply, Completes;
    forall issue | issue in s'.server.issued && issue.job.Serve?
      ensures IsAnswerTo(g.corpus, s'.thrown, issue.job, issue.result)
    {
      if issue in s.server.issued {
        ThrownGrows(g.corpus, s.thrown, s'.thrown, issue.job, issue.result);
      }
    }
  }

  lemma StepKeepsInv(g: Setting, s: Service, step: Step)
    requires ServesCorpus(g) && Inv(g, s) && Enabled(g, s, step)
    ensures Inv(g, Apply(g, s, step))
  {
    hide Reachable, CacheRuns.Inv, Server.Enabled, Server.Apply, CacheRuns.Enabled, CacheRuns.Apply, Completes, CacheRuns.Sound;
    match step
    case ServerStep(l, throws) =>
      StepReachable(s.server, l);
      ServerStepHandles(g, s, l, throws);
    case CacheStep(c) => CacheRuns.StepKeepsInv(g.world, s.caches, c);
  }

  lemma {:induction false} RunKeepsInv(g: Setting, s: Service, steps: seq<Step>)
    requires ServesCorpus(g) && Inv(g, s) && IsRun(g, s, steps)
    ensures Inv(g, After(g, s, steps))
    decreases |steps|
  {
    hide ServesCorpus, Inv, Enabled, Apply;
    if steps != [] {
      StepKeepsInv(g, s, steps[0]);
      RunKeepsInv(g, Apply(g, s, steps[0]), steps[1..]);
    }
  }

  lemma StartedInv(g: Setting, workers: set<nat>, idleTimeout: int, start: int)
    requires workers != {}
    ensures Inv(g, Started(workers, idleTimeout, start))
  {
    StartReachable(workers, idleTimeout, start);
    hide Reachable;
  }

  lemma StartReachable(workers: set<nat>, idleTimeout: int, start: int)
    requires workers != {}
    ensures Reachable(Server.Initial(workers, idleTimeout, start))
  {
    var s := Server.Initial(workers, idleTimeout, start);
    assert ServerProof.IsRun(s, []) && ServerProof.After(s, []) == s;
  }

  // A state some run of the service leads to.
  ghost predicate Occurs(g: Setting, s: Service) {
    exists workers: set<nat>, idleTimeout, start, steps ::
      workers != {} && IsRun(g, Started(workers, idleTimeout, start), steps)
      && s == After(g, Started(workers, idleTimeout, start), steps)
  }

  // In every run each completion carries an answer its request may be given: the handler's
  // caches, workers and exceptions change nothing about that.
  lemma RunsAreHandled(g: Setting, s: Service)
    requires ServesCorpus(g) && Occurs(g, s)
    ensures Reachable(s.server) && Handled(s, g.corpus)
  {
    var workers: set<nat>, idleTimeout, start, steps :|
      workers != {} && IsRun(g, Started(workers, idleTimeout, start), steps)
      && s == After(g, Started(workers, idleTimeout, start), steps);
    hide ServesCorpus, Reachable, CacheRuns.Inv, Handled, IsRun, After, Started;
    StartedInv(g, workers, idleTimeout, start);
    RunKeepsInv(g, Started(workers, idleTimeout, start), steps);
  }
}
