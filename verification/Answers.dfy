/** What a client may rely on: the response it receives is the answer of its own request, run alone at some
    moment between its send and its receive; and a single worker answers in the order of sending. */
module Answers {
  import opened Wrappers
  import opened Commands
  import opened Seats
  import opened Messages
  import opened Runs
  import opened Sums
  import opened Server
  import opened Coupling
  import opened Tokens
  import W = Workers
  import D = Discipline
  import L = Linearizability
  import O = Ownership
  import T = Theorems

  /** The history holds this answer to the client's request, at a place made since it was sent. */
  ghost predicate AnswerIn(hist: seq<W.Entry>, client: Client, r: Response) {
    client.Waiting? && exists i :: client.since <= i < |hist| && hist[i].req == client.sent && hist[i].resp == r
  }

  /** The request a worker has in hand began, or was answered, after it was sent. */
  ghost predicate LoopAnswers(cfg: Config, clients: seq<Client>, hist: seq<W.Entry>, l: Loop, k: W.Worker) {
    forall c | 0 <= c < |cfg.clients| && c < |clients| && InHand(l).Some? && InHand(l).value.client == cfg.clients[c] ::
      && (l.Serving? && k.Active? ==> clients[c].Waiting? && clients[c].since <= k.job.loc.born)
      && (l.Replying? ==> AnswerIn(hist, clients[c], l.resp))
  }

  ghost predicate Answering(cfg: Config, s: Server) {
    && (forall c | 0 <= c < |s.clients| && s.clients[c].Waiting? :: s.clients[c].since <= |s.procs.mem.hist|)
    && (forall w | 0 <= w < |s.loops| && w < |s.procs.workers| ::
          LoopAnswers(cfg, s.clients, s.procs.mem.hist, s.loops[w], s.procs.workers[w]))
    && (forall c | 0 <= c < |s.clients| && c < |s.replies| ::
          forall r | r in s.replies[c] :: AnswerIn(s.procs.mem.hist, s.clients[c], r))
  }

  lemma AnswerStays(hist: seq<W.Entry>, longer: seq<W.Entry>, client: Client, r: Response)
    requires AnswerIn(hist, client, r) && hist <= longer
    ensures AnswerIn(longer, client, r)
  {
    var i :| client.since <= i < |hist| && hist[i].req == client.sent && hist[i].resp == r;
    assert longer[i] == hist[i];
  }

  /** Changing a client that no worker has in hand. */
  lemma ClientAnswering(cfg: Config, s: Server, c: nat, t: Server)
    requires WellFormed(cfg) && |s.clients| == |s.replies| == |cfg.clients| && Answering(cfg, s) && c < |s.clients|
    requires Sum(s.loops, OfLoop(cfg.clients[c])) == 0
    requires t.loops == s.loops && t.procs == s.procs && |t.clients| == |s.clients| && |t.replies| == |s.replies|
    requires forall d | 0 <= d < |s.clients| && d != c :: t.clients[d] == s.clients[d] && t.replies[d] == s.replies[d]
    requires t.replies[c] == [] && (t.clients[c].Waiting? ==> t.clients[c].since <= |s.procs.mem.hist|)
    ensures Answering(cfg, t)
  {
    SumZero(s.loops, OfLoop(cfg.clients[c]));
    forall w | 0 <= w < |t.loops| && w < |t.procs.workers|
      ensures LoopAnswers(cfg, t.clients, t.procs.mem.hist, t.loops[w], t.procs.workers[w])
    {
      assert LoopAnswers(cfg, s.clients, s.procs.mem.hist, s.loops[w], s.procs.workers[w]);
      assert OfLoop(cfg.clients[c])(s.loops[w]) == 0;
    }
  }

  lemma SendAnswering(cfg: Config, s: Server, c: nat, command: CommandType, seat: string)
    requires WellFormed(cfg) && Honest(cfg, s) && Answering(cfg, s) && Can(cfg, s, ClientSend(c, command, seat))
    ensures Answering(cfg, DoClientSend(cfg, s, c, command, seat))
  {
    assert TokenCount(s, cfg.clients[c], s.replies[c]) == 0;
    ClientAnswering(cfg, s, c, DoClientSend(cfg, s, c, command, seat));
  }

  lemma ReceiveAnswering(cfg: Config, s: Server, c: nat)
    requires WellFormed(cfg) && Honest(cfg, s) && Answering(cfg, s) && Can(cfg, s, ClientReceive(c))
    ensures Answering(cfg, DoClientReceive(s, c))
  {
    assert TokenCount(s, cfg.clients[c], s.replies[c]) == 1;
    ClientAnswering(cfg, s, c, DoClientReceive(s, c));
  }

  lemma ServeAnswering(cfg: Config, s: Server, w: nat)
    requires WellFormed(cfg) && AllGenuine(cfg, s) && Answering(cfg, s) && Can(cfg, s, Test(w)) && !IsSentinel(s.loops[w].req)
    ensures Answering(cfg, DoServe(cfg, s, w))
  {
    var t := DoServe(cfg, s, w);
    assert GenuineLoop(cfg, s.clients, s.loops[w]);
    forall v | 0 <= v < |t.loops| && v < |t.procs.workers|
      ensures LoopAnswers(cfg, t.clients, t.procs.mem.hist, t.loops[v], t.procs.workers[v])
    {
      assert LoopAnswers(cfg, s.clients, s.procs.mem.hist, s.loops[v], s.procs.workers[v]);
    }
  }

  lemma MicroAnswering(cfg: Config, s: Server, w: nat)
    requires D.Shape(cfg.work, s.procs) && Answering(cfg, s) && W.Can(cfg.work, s.procs, W.Micro(w))
    ensures Answering(cfg, s.(procs := W.Do(cfg.work, s.procs, W.Micro(w))))
  {
    var j := s.procs.workers[w].job;
    var t := s.(procs := W.Do(cfg.work, s.procs, W.Micro(w)));
    assert D.WorkerFits(s.procs.workers[w]);
    D.StepHist(cfg.work, s.procs.mem, w, j);
    forall v | 0 <= v < |t.loops| && v < |t.procs.workers|
      ensures LoopAnswers(cfg, t.clients, t.procs.mem.hist, t.loops[v], t.procs.workers[v])
    {
      assert LoopAnswers(cfg, s.clients, s.procs.mem.hist, s.loops[v], s.procs.workers[v]);
      forall c | 0 <= c < |s.clients| && t.loops[v].Replying? && AnswerIn(s.procs.mem.hist, s.clients[c], t.loops[v].resp)
        ensures AnswerIn(t.procs.mem.hist, s.clients[c], t.loops[v].resp)
      {
        AnswerStays(s.procs.mem.hist, t.procs.mem.hist, s.clients[c], t.loops[v].resp);
      }
    }
    forall c, r | 0 <= c < |t.clients| && c < |t.replies| && r in t.replies[c] ensures AnswerIn(t.procs.mem.hist, t.clients[c], r) {
      AnswerStays(s.procs.mem.hist, t.procs.mem.hist, s.clients[c], r);
    }
  }

  /** The finished request is in the history, at a place made after it began. */
  lemma FinishedAnswer(cfg: Config, s: Server, w: nat, c: nat)
    requires AllGenuine(cfg, s) && D.Tickets(s.procs) && Answering(cfg, s) && Can(cfg, s, Finish(w))
    requires w < |s.procs.workers| && Serves(s.loops[w], s.procs.workers[w])
    requires c < |cfg.clients| && cfg.clients[c] == s.loops[w].req.client
    ensures var j := s.procs.workers[w].job; AnswerIn(s.procs.mem.hist, s.clients[c], W.Respond(j.req, j.loc))
  {
    var j := s.procs.workers[w].job;
    var hist := s.procs.mem.hist;
    assert GenuineLoop(cfg, s.clients, s.loops[w]);
    assert LoopAnswers(cfg, s.clients, hist, s.loops[w], s.procs.workers[w]);
    assert D.TicketFits(s.procs.begun, hist, s.procs.workers[w]);
    var i :| 0 <= i < |hist| && hist[i] == W.EntryOf(j);
    assert D.EntryFits(s.procs.begun, i, hist[i]);
  }

  lemma FinishAnswering(cfg: Config, s: Server, w: nat)
    requires AllGenuine(cfg, s) && D.Tickets(s.procs) && Answering(cfg, s) && Can(cfg, s, Finish(w))
    requires w < |s.procs.workers| && Serves(s.loops[w], s.procs.workers[w])
    ensures Answering(cfg, DoFinish(cfg, s, w))
  {
    var t := DoFinish(cfg, s, w);
    forall v | 0 <= v < |t.loops| && v < |t.procs.workers|
      ensures LoopAnswers(cfg, t.clients, t.procs.mem.hist, t.loops[v], t.procs.workers[v])
    {
      if v == w {
        forall c | 0 <= c < |cfg.clients| && s.loops[w].req.client == cfg.clients[c]
          ensures AnswerIn(t.procs.mem.hist, t.clients[c], t.loops[w].resp)
        {
          FinishedAnswer(cfg, s, w, c);
        }
      } else {
        assert LoopAnswers(cfg, s.clients, s.procs.mem.hist, s.loops[v], s.procs.workers[v]);
      }
    }
  }

  lemma ReplyAnswering(cfg: Config, s: Server, w: nat, c: nat)
    requires AllGenuine(cfg, s) && Answering(cfg, s) && Can(cfg, s, Reply(w, c))
    requires |s.loops| == |s.procs.workers|
    ensures Answering(cfg, DoReply(s, w, c))
  {
    var t := DoReply(s, w, c);
    ReplyTarget(cfg, s, w, c);
    assert LoopAnswers(cfg, s.clients, s.procs.mem.hist, s.loops[w], s.procs.workers[w]);
    forall v | 0 <= v < |t.loops| && v < |t.procs.workers|
      ensures LoopAnswers(cfg, t.clients, t.procs.mem.hist, t.loops[v], t.procs.workers[v])
    {
      assert LoopAnswers(cfg, s.clients, s.procs.mem.hist, s.loops[v], s.procs.workers[v]);
    }
  }

  /** The other actions serve and answer nobody. */
  predicate Idling(s: Server, a: Action) {
    !a.ClientSend? && !a.ClientReceive? && !a.Reply? && !Inner(s, a)
  }

  lemma IdlingFrame(cfg: Config, s: Server, a: Action)
    requires Can(cfg, s, a) && Idling(s, a)
    ensures var t := Do(cfg, s, a);
            && t.procs == s.procs && t.clients == s.clients && t.replies == s.replies && |t.loops| == |s.loops|
            && forall w | 0 <= w < |s.loops| :: t.loops[w] == s.loops[w] || (!t.loops[w].Serving? && !t.loops[w].Replying?)
  {
  }

  lemma KeepsAnswering(cfg: Config, s: Server, a: Action)
    requires WellFormed(cfg) && Honest(cfg, s) && Answering(cfg, s) && Can(cfg, s, a)
    ensures Answering(cfg, Do(cfg, s, a))
  {
    if Idling(s, a) {
      IdlingFrame(cfg, s, a);
      var t := Do(cfg, s, a);
      forall v | 0 <= v < |t.loops| && v < |t.procs.workers|
        ensures LoopAnswers(cfg, t.clients, t.procs.mem.hist, t.loops[v], t.procs.workers[v])
      {
        assert LoopAnswers(cfg, s.clients, s.procs.mem.hist, s.loops[v], s.procs.workers[v]);
      }
    } else {
      match a
      case ClientSend(c, command, seat) => SendAnswering(cfg, s, c, command, seat);
      case ClientReceive(c) => ReceiveAnswering(cfg, s, c);
      case Reply(w, c) => ReplyAnswering(cfg, s, w, c);
      case Micro(w) => MicroAnswering(cfg, s, w);
      case Finish(w) =>
        assert Serves(s.loops[w], s.procs.workers[w]);
        FinishAnswering(cfg, s, w);
      case Test(w) => ServeAnswering(cfg, s, w);
    }
  }

  ghost predicate Answered(cfg: Config, s: Server) {
    Honest(cfg, s) && Answering(cfg, s)
  }

  lemma KeepsAnswered(cfg: Config, s: Server, a: Action)
    requires WellFormed(cfg) && Answered(cfg, s) && Can(cfg, s, a)
    ensures Answered(cfg, Do(cfg, s, a))
  {
    KeepsAnswering(cfg, s, a);
    HonestStep(cfg, s, a);
  }

  lemma AlwaysAnswered(cfg: Config, acts: seq<Action>)
    requires WellFormed(cfg) && Valid(Machine(cfg), Init(cfg), acts)
    ensures Answered(cfg, After(Machine(cfg), Init(cfg), acts))
  {
    forall s, a | Answered(cfg, s) && Can(cfg, s, a) ensures Answered(cfg, Do(cfg, s, a)) {
      KeepsAnswered(cfg, s, a);
    }
    InitHonest(cfg);
    Always(Machine(cfg), (s: Server) => Answered(cfg, s), Init(cfg), acts);
  }

  /** A waiting response is in the history, as the answer to the client's request. */
  lemma WaitingAnswer(cfg: Config, s: Server, c: nat) returns (i: nat)
    requires Answering(cfg, s) && c < |s.clients| && c < |s.replies| && s.replies[c] != []
    ensures s.clients[c].Waiting? && s.clients[c].since <= i < |s.procs.mem.hist|
    ensures s.procs.mem.hist[i].req == s.clients[c].sent && s.procs.mem.hist[i].resp == s.replies[c][0]
  {
    assert s.replies[c][0] in s.replies[c];
    assert AnswerIn(s.procs.mem.hist, s.clients[c], s.replies[c][0]);
    i :| s.clients[c].since <= i < |s.procs.mem.hist| && s.procs.mem.hist[i].req == s.clients[c].sent
         && s.procs.mem.hist[i].resp == s.replies[c][0];
  }

  lemma AnswerHere(cfg: Config, s: Server, c: nat) returns (i: nat)
    requires cfg.work.sync && Answered(cfg, s) && c < |s.clients| && c < |s.replies| && s.replies[c] != []
    ensures s.clients[c].Waiting? && s.clients[c].since <= i < |s.procs.mem.hist|
    ensures var t := FreshTable(cfg.work.seatIds);
            var hist := s.procs.mem.hist;
            && L.Sequential(t, hist) && s.replies[c][0] == Apply(L.Replay(t, hist[..i]), s.clients[c].sent).response
            && (|s.replies[c]| == 1 ==> s.replies[c] == [Apply(L.Replay(t, hist[..i]), s.clients[c].sent).response])
            && Tells(L.Replay(t, hist[..i]), L.Replay(t, hist[..i + 1]), s.clients[c].sent, s.replies[c][0])
  {
    i := WaitingAnswer(cfg, s, c);
    assert T.Safe(cfg.work, s.procs);
    assert L.EntryOk(L.Replay(FreshTable(cfg.work.seatIds), s.procs.mem.hist[..i]), s.procs.mem.hist[i]);
    O.EntryTells(FreshTable(cfg.work.seatIds), s.procs.mem.hist, i);
  }

  /** With synchronization, a response waiting for a client is what its request answers when it runs alone on
      the table of some moment since the request was sent (since counts the requests finished at that time); and it
      tells the truth about that table. */
  lemma ClientAnswer(cfg: Config, acts: seq<Action>, c: nat) returns (i: nat)
    requires WellFormed(cfg) && cfg.work.sync && Valid(Machine(cfg), Init(cfg), acts)
    requires var s := After(Machine(cfg), Init(cfg), acts); c < |s.clients| && c < |s.replies| && s.replies[c] != []
    ensures var s := After(Machine(cfg), Init(cfg), acts);
            var hist := s.procs.mem.hist;
            && s.clients[c].Waiting? && s.clients[c].since <= i < |hist|
            && s.replies[c] == [Apply(L.Replay(FreshTable(cfg.work.seatIds), hist[..i]), s.clients[c].sent).response]
            && Tells(L.Replay(FreshTable(cfg.work.seatIds), hist[..i]), L.Replay(FreshTable(cfg.work.seatIds), hist[..i + 1]),
                     s.clients[c].sent, s.replies[c][0])
            && L.Sequential(FreshTable(cfg.work.seatIds), hist)
  {
    AlwaysAnswered(cfg, acts);
    ResponsesMatch(cfg, acts, c);
    var s := After(Machine(cfg), Init(cfg), acts);
    i := AnswerHere(cfg, s, c);
  }
}
