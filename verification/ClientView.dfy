// From the bytes a client sends to the responses it reads: the connection protocol, the
// HTTP layer, the caches and the search engine put together.
module ClientView {
  import opened Framing
  import opened TcpProtocol
  import opened Server
  import LoopQueue
  import opened ServerTheorems
  import ServerActivity
  import HttpRequests
  import opened HttpResponses
  import opened SearchApplications
  import opened ServiceRuns
  import UrlCodec
  import HttpMessages
  import InvertedIndexes
  import Routes

  // The n-th response is one that the n-th request of connection k may be given.
  ghost predicate Answers(corpus: Corpus, thrown: set<Job>, k: nat, requests: seq<string>, rs: seq<Response>) {
    && |rs| <= |requests|
    && forall i :: 0 <= i < |rs| ==> IsResponseFor(corpus, thrown, Serve(k, i + 1, requests[i]), rs[i])
  }

  ghost predicate EachAnswered(corpus: Corpus, thrown: set<Job>, k: nat, requests: seq<string>, answered: seq<ResponseResult>) {
    && |answered| <= |requests|
    && forall i :: 0 <= i < |answered| ==> IsAnswerTo(corpus, thrown, Serve(k, i + 1, requests[i]), answered[i])
  }

  function Results(rs: seq<Response>): (results: seq<ResponseResult>)
    ensures |results| == |rs|
  {
    seq(|rs|, i requires 0 <= i < |rs| => ResultOf(rs[i]))
  }

  lemma ResponsesAreClean(corpus: Corpus, thrown: set<Job>, job: Job, r: Response)
    requires job.Serve? && IsResponseFor(corpus, thrown, job, r)
    ensures Clean(r)
  {
    hide Permitted, Clean;
    ConstantsAreClean("", true);
    if Permitted(corpus, job.request, r) {
      PermittedIsClean(corpus, job.request, r);
    }
  }

  lemma {:induction false} Parsed(corpus: Corpus, thrown: set<Job>, k: nat, requests: seq<string>, answered: seq<ResponseResult>)
      returns (rs: seq<Response>)
    requires EachAnswered(corpus, thrown, k, requests, answered)
    ensures answered == Results(rs) && Answers(corpus, thrown, k, requests, rs) && forall r <- rs :: Clean(r)
    decreases |answered|
  {
    hide IsResponseFor, ResultOf, Clean;
    if answered == [] {
      rs := [];
    } else {
      var n := |answered| - 1;
      forall i | 0 <= i < n ensures IsAnswerTo(corpus, thrown, Serve(k, i + 1, requests[i]), answered[..n][i]) {
        assert answered[..n][i] == answered[i];
      }
      var before := Parsed(corpus, thrown, k, requests, answered[..n]);
      assert IsAnswerTo(corpus, thrown, Serve(k, n + 1, requests[n]), answered[n]);
      var r :| answered[n] == ResultOf(r) && IsResponseFor(corpus, thrown, Serve(k, n + 1, requests[n]), r);
      ResponsesAreClean(corpus, thrown, Serve(k, n + 1, requests[n]), r);
      rs := before + [r];
      assert answered == answered[..n] + [answered[n]] && Results(rs) == Results(before) + [answered[n]];
    }
  }

  lemma IssuesAnswer(
    issued: set<Issue>, corpus: Corpus, thrown: set<Job>, k: nat, requests: seq<string>, answered: seq<ResponseResult>)
    requires forall issue <- issued :: issue.job.Serve? ==> IsAnswerTo(corpus, thrown, issue.job, issue.result)
    requires |answered| <= |requests|
    requires forall i :: 0 <= i < |answered| ==> Issue(Serve(k, i + 1, requests[i]), answered[i]) in issued
    ensures EachAnswered(corpus, thrown, k, requests, answered)
  {
    hide IsAnswerTo;
    forall i | 0 <= i < |answered| ensures IsAnswerTo(corpus, thrown, Serve(k, i + 1, requests[i]), answered[i]) {
      var issue := Issue(Serve(k, i + 1, requests[i]), answered[i]);
      assert issue in issued && issue.job.Serve?;
    }
  }

  lemma IssuesHandled(s: Service, corpus: Corpus)
    requires Handled(s, corpus)
    ensures forall issue <- s.server.issued :: issue.job.Serve? ==> IsAnswerTo(corpus, s.thrown, issue.job, issue.result)
  {
  }

  lemma RunsAnswer(s: Service, k: nat, corpus: Corpus)
    requires Reachable(s.server) && k in s.server.conns && Handled(s, corpus)
    ensures var c := s.server.conns[k];
      c.sent + c.output == Concat(Responses(c.answered)) && EachAnswered(corpus, s.thrown, k, c.dispatched, c.answered)
  {
    var c := s.server.conns[k];
    hide *;
    IssuesHandled(s, corpus);
    ResponsesInOrder(s.server, k);
    IssuesAnswer(s.server.issued, corpus, s.thrown, k, c.dispatched, c.answered);
  }

  // In every run, whatever the interleaving, fragmentation, cache state and number of
  // completions, a client that reads its stream as HTTP responses finds exactly the answers
  // to its own first requests, in their order; what has not yet been sent only cuts the list.
  lemma ClientReadsAnswers(g: Setting, s: Service, k: nat) returns (rs: seq<Response>)
    requires ServesCorpus(g) && Occurs(g, s) && k in s.server.conns
    ensures var c := s.server.conns[k];
      && |rs| == |c.answered| && Answers(g.corpus, s.thrown, k, c.dispatched, rs)
      && ReadStream(c.sent + c.output) == rs && ReadStream(c.sent) <= rs
      && ClosesWith(c, rs)
  {
    hide *;
    RunsAreHandled(g, s);
    RunsAnswer(s, k, g.corpus);
    CloseIsAnnounced(s.server, k);
    var c := s.server.conns[k];
    rs := Parsed(g.corpus, s.thrown, k, c.dispatched, c.answered);
    TextsOfResults(rs);
    StreamRoundTrip(rs);
    ReadStreamOfMore(c.sent, c.output);
    ClosesAsAnnounced(c, rs);
  }

  // "Connection: close" stands in the last response or in none, and only then does the
  // connection close after it.
  ghost predicate ClosesWith(c: Conn, rs: seq<Response>) {
    && (c.closeAfterResponse <==> rs != [] && rs[|rs| - 1].close)
    && (forall i :: 0 <= i < |rs| - 1 ==> !rs[i].close)
  }

  lemma ClosesAsAnnounced(c: Conn, rs: seq<Response>)
    requires ClosesLast(c) && c.answered == Results(rs)
    ensures ClosesWith(c, rs)
  {
    hide Text;
    forall i | 0 <= i < |rs| - 1 ensures !rs[i].close {
      assert !c.answered[i].closeAfter;
    }
  }

  lemma TextsOfResults(rs: seq<Response>)
    ensures Responses(Results(rs)) == Texts(rs) && |Results(rs)| == |rs|
  {
    hide Text;
  }

  lemma SplitOfRequests(requests: seq<string>)
    requires forall f <- requests :: IsFrame(f)
    ensures Split(Concat(requests)) == requests
  {
    SplitAfterFrames(requests, "");
    assert Concat(requests) + "" == Concat(requests);
    assert !HasComplete("") && requests + [] == requests;
  }

  // Received bytes that are the front of a stream of requests hold the front of the requests.
  lemma FrontOfRequests(requests: seq<string>, received: string)
    requires (forall f <- requests :: IsFrame(f)) && received <= Concat(requests)
    ensures Split(received) <= requests
  {
    SplitOfRequests(requests);
    hide Split, IsFrame, Concat;
    var rest := Concat(requests)[|received|..];
    assert received + rest == Concat(requests);
    SplitOfMore(received, rest);
  }

  ghost predicate ClosedInPeace(c: Conn) {
    c.fd < 0 && c.cause.Some? && c.cause.value != SocketError
  }

  lemma PeacefulClose(s: Sys, k: nat)
    requires Reachable(s) && k in s.conns && ClosedInPeace(s.conns[k])
    ensures var c := s.conns[k];
      && c.output == "" && |c.answered| == |c.dispatched|
      && (!c.closeAfterResponse ==> c.dispatched == Split(c.received))
  {
    CloseNeverTruncates(s, k);
    ResponsesInOrder(s, k);
    assert |s.conns[k].sent + s.conns[k].output| == |s.conns[k].sent|;
  }

  // A client that sends well-formed requests gets them handled one for one: the n-th response
  // it reads answers its n-th request. If all its bytes arrived and the connection was closed
  // by neither an error nor a response that said so, it has read an answer to each of them.
  lemma ClientIsServed(g: Setting, s: Service, k: nat, requests: seq<string>) returns (rs: seq<Response>)
    requires ServesCorpus(g) && Occurs(g, s) && k in s.server.conns
    requires (forall f <- requests :: IsFrame(f)) && s.server.conns[k].received <= Concat(requests)
    ensures var c := s.server.conns[k];
      && Answers(g.corpus, s.thrown, k, requests, rs) && ReadStream(c.sent) <= rs && ClosesWith(c, rs)
      && (ClosedInPeace(c) ==> ReadStream(c.sent) == rs)
      && (ClosedInPeace(c) && !c.closeAfterResponse && c.received == Concat(requests) ==> |rs| == |requests|)
  {
    var c := s.server.conns[k];
    hide *;
    rs := ClientReadsAnswers(g, s, k);
    RunsAreHandled(g, s);
    FrontOfRequests(requests, c.received);
    SplitOfRequests(requests);
    RequestsIndependentOfFragments(s.server, k);
    FrontOfAll(c.dispatched, Split(c.input), Split(c.received), requests);
    AnswersOfMore(g.corpus, s.thrown, k, c.dispatched, requests, rs);
    if ClosedInPeace(c) {
      PeacefulClose(s.server, k);
      assert c.sent + "" == c.sent;
    }
  }

  lemma FrontOfAll(a: seq<string>, b: seq<string>, whole: seq<string>, more: seq<string>)
    requires whole == a + b && whole <= more
    ensures a <= more
  {
  }

  lemma AnswersOfMore(corpus: Corpus, thrown: set<Job>, k: nat, dispatched: seq<string>, requests: seq<string>, rs: seq<Response>)
    requires Answers(corpus, thrown, k, dispatched, rs) && dispatched <= requests
    ensures Answers(corpus, thrown, k, requests, rs)
  {
    hide IsResponseFor;
  }

  // When nothing throws, a search is answered with the JSON of the brute-force ranking, on
  // every connection and through every cache.
  lemma SearchIsAnswered(g: Setting, s: Service, k: nat, requests: seq<string>, i: nat) returns (rs: seq<Response>)
    requires ServesCorpus(g) && Occurs(g, s) && k in s.server.conns && s.thrown == {}
    requires (forall f <- requests :: IsFrame(f)) && s.server.conns[k].received <= Concat(requests)
    requires i < |requests| && IsSearch(requests[i])
    ensures ReadStream(s.server.conns[k].sent) <= rs
    ensures i < |rs| ==> rs[i] == OkJson(JsonFor(g.corpus, QueryOf(requests[i])), rs[i].close)
  {
    hide *;
    rs := ClientIsServed(g, s, k, requests);
    if i < |rs| {
      AnswerAt(g.corpus, s.thrown, k, requests, rs, i);
      SearchPermitted(g.corpus, Serve(k, i + 1, requests[i]), rs[i]);
    }
  }

  lemma AnswerAt(corpus: Corpus, thrown: set<Job>, k: nat, requests: seq<string>, rs: seq<Response>, i: nat)
    requires Answers(corpus, thrown, k, requests, rs) && i < |rs|
    ensures i < |requests| && IsResponseFor(corpus, thrown, Serve(k, i + 1, requests[i]), rs[i])
  {
    hide IsResponseFor;
  }

  lemma SearchPermitted(corpus: Corpus, job: Job, r: Response)
    requires job.Serve? && IsSearch(job.request) && IsResponseFor(corpus, {}, job, r)
    ensures r == OkJson(JsonFor(corpus, QueryOf(job.request)), r.close)
  {
    hide JsonFor, HttpRequests.ParseRequest, HttpRequests.MayClose;
  }

  predicate IsSearch(raw: string) {
    var parsed := HttpRequests.ParseRequest(raw);
    parsed.Accepted? && parsed.request.method_ == "GET" && SearchQuery(parsed.request).Some?
  }

  function QueryOf(raw: string): string
    requires IsSearch(raw)
  {
    SearchQuery(HttpRequests.ParseRequest(raw).request).value
  }

  // A GET request is answered by its path, parameters and headers, or with a server error if
  // its handling has thrown; an answer that says to close the connection is the last one, and
  // the connection closes after it.
  lemma GetIsAnswered(g: Setting, s: Service, k: nat, requests: seq<string>, i: nat,
                      path: string, pairs: seq<UrlCodec.Pair>, headers: seq<HttpMessages.Header>)
      returns (rs: seq<Response>)
    requires ServesCorpus(g) && Occurs(g, s) && k in s.server.conns && InvertedIndexes.DistinctIds(g.corpus.chunks)
    requires (forall f <- requests :: IsFrame(f)) && s.server.conns[k].received <= Concat(requests)
    requires i < |requests| && Routes.IsGet(requests[i], path, pairs, headers)
    ensures ReadStream(s.server.conns[k].sent) <= rs
    ensures i < |rs| ==>
      var (r, job) := (rs[i], Serve(k, i + 1, requests[i]));
      && (Routes.IsRightAnswer(g.corpus, path, pairs, headers, r) || (job in s.thrown && Routes.IsServerError(r)))
      && (Routes.AsksToClose(headers) ==> r.close)
      && (Routes.NeverAsksToClose(headers) && job !in s.thrown ==> !r.close)
      && (r.close ==> i == |rs| - 1 && s.server.conns[k].closeAfterResponse)
      && (!r.close && i == |rs| - 1 ==> !s.server.conns[k].closeAfterResponse)
  {
    hide *;
    rs := ClientIsServed(g, s, k, requests);
    if i < |rs| {
      var (r, job) := (rs[i], Serve(k, i + 1, requests[i]));
      AnswerAt(g.corpus, s.thrown, k, requests, rs, i);
      RightOrThrown(g.corpus, s.thrown, job, r);
      if Permitted(g.corpus, job.request, r) {
        Routes.RightAnswer(g.corpus, requests[i], path, pairs, headers, r);
        RightSaysClose(g.corpus, path, pairs, headers, r);
      }
      LastCloses(s.server.conns[k], rs, i);
    }
  }

  lemma RightOrThrown(corpus: Corpus, thrown: set<Job>, job: Job, r: Response)
    requires job.Serve? && IsResponseFor(corpus, thrown, job, r)
    ensures Permitted(corpus, job.request, r) || (job in thrown && Routes.IsServerError(r) && r.close)
  {
    Routes.ServerError();
    hide Permitted, Routes.IsServerError;
  }

  lemma RightSaysClose(corpus: Corpus, path: string, pairs: seq<UrlCodec.Pair>, headers: seq<HttpMessages.Header>, r: Response)
    requires Routes.IsRightAnswer(corpus, path, pairs, headers, r)
    ensures (Routes.AsksToClose(headers) ==> r.close) && (Routes.NeverAsksToClose(headers) ==> !r.close)
  {
  }

  lemma LastCloses(c: Conn, rs: seq<Response>, i: nat)
    requires ClosesWith(c, rs) && i < |rs|
    ensures rs[i].close ==> i == |rs| - 1 && c.closeAfterResponse
    ensures !rs[i].close && i == |rs| - 1 ==> !c.closeAfterResponse
  {
  }

  lemma AnswersHaveBytes(g: Setting, s: Service, k: nat)
    requires ServesCorpus(g) && Occurs(g, s) && k in s.server.conns
    ensures ServerActivity.LastHadBytes(s.server.conns[k])
  {
    var c := s.server.conns[k];
    hide *;
    RunsAreHandled(g, s);
    RunsAnswer(s, k, g.corpus);
    LastAnswerHasBytes(g.corpus, s.thrown, k, c);
  }

  lemma LastAnswerHasBytes(corpus: Corpus, thrown: set<Job>, k: nat, c: Conn)
    requires EachAnswered(corpus, thrown, k, c.dispatched, c.answered)
    ensures ServerActivity.LastHadBytes(c)
  {
    hide IsResponseFor, Text;
    if c.answered != [] {
      var n := |c.answered| - 1;
      assert IsAnswerTo(corpus, thrown, Serve(k, n + 1, c.dispatched[n]), c.answered[n]);
      var r :| c.answered[n] == ResultOf(r) && IsResponseFor(corpus, thrown, Serve(k, n + 1, c.dispatched[n]), r);
      TextHasBytes(r);
    }
  }

  lemma TextHasBytes(r: Response)
    ensures Text(r) != ""
  {
    hide HttpResponses.ConnectionValue;
    assert |Text(r)| >= |r.body| + |r.status|;
    assert Text(r)[0] == 'H';
  }

  // This server answers with bytes, so its timers close a connection neither before nor after
  // the timeout has passed since bytes were last received or sent.
  lemma NotClosedEarly(g: Setting, s: Service, timer: Timer, now: int, k: nat)
    requires ServesCorpus(g) && Occurs(g, s) && k in s.server.conns && s.server.conns[k].fd >= 0
    requires Server.Enabled(s.server, PopTimer(timer, now))
    ensures k in s.server.movedAt && k in Server.Apply(s.server, PopTimer(timer, now)).conns
    ensures Server.Apply(s.server, PopTimer(timer, now)).conns[k].fd < 0 ==>
      k == timer.conn && s.server.movedAt[k] + s.server.idleTimeout <= s.server.loop.phase.now
  {
    PopsInDrain(s.server, timer, now);
    hide *;
    AnswersHaveBytes(g, s, k);
    RunsAreHandled(g, s);
    StepKeepsConns(s.server, PopTimer(timer, now), k);
    ServerActivity.NeverClosedTooEarly(s.server, timer, now, k);
  }

  lemma NotClosedLate(g: Setting, s: Service, k: nat)
    requires ServesCorpus(g) && Occurs(g, s) && k in s.server.conns && s.server.conns[k].fd >= 0
    requires Server.Enabled(s.server, LoopAction(LoopQueue.DoTimersDone)) && Idle(s.server.conns[k])
    ensures k in s.server.movedAt && s.server.movedAt[k] + s.server.idleTimeout > s.server.loop.phase.now
  {
    NothingDue(s.server);
    hide *;
    AnswersHaveBytes(g, s, k);
    RunsAreHandled(g, s);
    ServerActivity.NeverClosedTooLate(s.server, k);
  }

  lemma PopsInDrain(s: Sys, timer: Timer, now: int)
    requires Server.Enabled(s, PopTimer(timer, now))
    ensures s.loop.phase.RunningTimers?
  {
  }

  lemma StepKeepsConns(s: Sys, l: Label, k: nat)
    requires Reachable(s) && Server.Enabled(s, l) && k in s.conns
    ensures k in Server.Apply(s, l).conns
  {
    StepTouches(s, l, k);
    hide Reachable, Server.Enabled, Server.Apply, Idle;
  }
}
