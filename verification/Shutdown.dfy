/** stop(): exactly when it is sure to finish. */
module Shutdown {
  import opened Wrappers
  import opened Commands
  import opened Messages
  import opened MessageQueues
  import opened Runs
  import opened Sums
  import opened Server
  import opened Coupling
  import opened Tokens
  import W = Workers
  import P = Termination

  /** How many sentinels stop() has sent. */
  function SentinelsSent(cfg: Config, s: Server): nat {
    match s.stopper
    case Running => 0
    case Sending(i) => i
    case _ => cfg.requested
  }

  /** A worker that will not receive again: it has a sentinel in hand, or is on its way out. */
  predicate Leaving(l: Loop) {
    match l
    case Testing(r) => r == SentinelRequest()
    case QuitWait => true
    case QuitLog => true
    case Exited => true
    case _ => false
  }

  function LeavingCount(): Loop -> nat {
    (l: Loop) => if Leaving(l) then 1 else 0
  }

  /** Sentinels are accounted for: each one sent is still queued or has taken a worker out of its loop. */
  ghost predicate SentinelsKept(cfg: Config, s: Server) {
    && Sum(s.queue, OfMessage(INVALID_CLIENT)) <= SentinelsSent(cfg, s)
    && SentinelsSent(cfg, s) <= Sum(s.queue, OfMessage(INVALID_CLIENT)) + Sum(s.loops, LeavingCount())
  }

  predicate StopperFits(cfg: Config, s: Server) {
    && (s.stopper == Running <==> s.running)
    && (s.stopper.Sending? ==> s.stopper.i <= cfg.requested)
    && (s.stopper.Joining? ==> s.stopper.j <= |s.loops| && forall w | 0 <= w < s.stopper.j :: s.loops[w] == Exited)
    && (s.stopper.Stopped? ==> forall w | 0 <= w < |s.loops| :: s.loops[w] == Exited)
    && (forall w | 0 <= w < |s.loops| :: s.loops[w] == QuitLog <==> s.quitLock == Some(w))
    && (s.quitLock.Some? ==> s.quitLock.value < |s.loops|)
  }

  /** Moving a worker that is not leaving, or one that stays leaving. */
  lemma LoopKeepsSentinels(cfg: Config, s: Server, t: Server, w: nat, l: Loop)
    requires SentinelsKept(cfg, s) && w < |s.loops| && t.loops == s.loops[w := l] && (Leaving(s.loops[w]) ==> Leaving(l))
    requires t.queue == s.queue && t.stopper == s.stopper
    ensures SentinelsKept(cfg, t)
  {
    SumUpdate(s.loops, w, l, LeavingCount());
  }

  lemma TakeKeepsSentinels(cfg: Config, s: Server, w: nat)
    requires WellFormed(cfg) && AllGenuine(cfg, s) && SentinelsKept(cfg, s) && Can(cfg, s, Receive(w))
    ensures SentinelsKept(cfg, DoReceive(s, w))
  {
    assert s.queue[0] in s.queue;
    assert GenuineMessage(cfg, s.clients, s.queue[0]);
    SumUpdate(s.loops, w, Testing(s.queue[0].req), LeavingCount());
  }

  lemma QueueKeepsSentinels(cfg: Config, s: Server, a: Action)
    requires WellFormed(cfg) && SentinelsKept(cfg, s) && StopperFits(cfg, s) && Can(cfg, s, a) && (a.ClientSend? || a == StopSend)
    ensures SentinelsKept(cfg, Do(cfg, s, a))
  {
    if a.ClientSend? {
      var r := MakeRequest(s.clients[a.c].nextId, cfg.clients[a.c], a.command, a.seat);
      EnqueueSum(s.queue, Message(0, r), OfMessage(INVALID_CLIENT));
    } else {
      EnqueueSum(s.queue, SentinelMessage(), OfMessage(INVALID_CLIENT));
    }
  }

  /** The loop an action moves. */
  function Moved(a: Action): Option<nat> {
    match a
    case LoadRunning(w) => Some(w)
    case ReceiveFails(w) => Some(w)
    case RecheckRunning(w) => Some(w)
    case Test(w) => Some(w)
    case Finish(w) => Some(w)
    case Reply(w, _) => Some(w)
    case ReplyFails(w) => Some(w)
    case QuitAcquire(w) => Some(w)
    case QuitRelease(w) => Some(w)
    case _ => None
  }

  lemma MoveFrame(cfg: Config, s: Server, a: Action)
    requires Can(cfg, s, a) && Moved(a).Some?
    ensures var t := Do(cfg, s, a); var w := Moved(a).value;
            && w < |s.loops| == |t.loops| && t.loops == s.loops[w := t.loops[w]] && (Leaving(s.loops[w]) ==> Leaving(t.loops[w]))
            && t.queue == s.queue && t.stopper == s.stopper
  {
  }

  lemma MoveKeepsStopper(cfg: Config, s: Server, a: Action)
    requires StopperFits(cfg, s) && Can(cfg, s, a) && Moved(a).Some?
    ensures StopperFits(cfg, Do(cfg, s, a))
  {
    var t := Do(cfg, s, a);
    assert t.stopper == s.stopper && t.running == s.running;
    assert t.loops[Moved(a).value] == QuitLog ==> a.QuitAcquire?;
  }

  lemma KeepsStopper(cfg: Config, s: Server, a: Action)
    requires StopperFits(cfg, s) && Can(cfg, s, a)
    ensures StopperFits(cfg, Do(cfg, s, a))
  {
    if Moved(a).Some? {
      MoveKeepsStopper(cfg, s, a);
    }
  }

  lemma KeepsSentinels(cfg: Config, s: Server, a: Action)
    requires WellFormed(cfg) && AllGenuine(cfg, s) && SentinelsKept(cfg, s) && StopperFits(cfg, s) && Can(cfg, s, a)
    ensures SentinelsKept(cfg, Do(cfg, s, a))
  {
    if Moved(a).Some? {
      MoveFrame(cfg, s, a);
      LoopKeepsSentinels(cfg, s, Do(cfg, s, a), Moved(a).value, Do(cfg, s, a).loops[Moved(a).value]);
    } else if a.Receive? {
      TakeKeepsSentinels(cfg, s, a.w);
    } else if a.ClientSend? || a == StopSend {
      QueueKeepsSentinels(cfg, s, a);
    }
  }

  ghost predicate Orderly(cfg: Config, s: Server) {
    Honest(cfg, s) && StopperFits(cfg, s) && SentinelsKept(cfg, s)
  }

  lemma OrderlyStep(cfg: Config, s: Server, a: Action)
    requires WellFormed(cfg) && Orderly(cfg, s) && Can(cfg, s, a)
    ensures Orderly(cfg, Do(cfg, s, a))
  {
    HonestStep(cfg, s, a);
    KeepsStopper(cfg, s, a);
    KeepsSentinels(cfg, s, a);
  }

  lemma AlwaysOrderly(cfg: Config, acts: seq<Action>)
    requires WellFormed(cfg) && Valid(Machine(cfg), Init(cfg), acts)
    ensures Orderly(cfg, After(Machine(cfg), Init(cfg), acts))
  {
    forall s, a | Orderly(cfg, s) && Can(cfg, s, a) ensures Orderly(cfg, Do(cfg, s, a)) {
      OrderlyStep(cfg, s, a);
    }
    InitHonest(cfg);
    Always(Machine(cfg), (s: Server) => Orderly(cfg, s), Init(cfg), acts);
  }

  // How long the queue can get.

  /** All messages of the listed clients. */
  function ClientMessages(ids: seq<Word>, q: seq<Message>): nat {
    if ids == [] then 0 else Sum(q, OfMessage(ids[0])) + ClientMessages(ids[1..], q)
  }

  lemma {:induction false} ClientMessagesStep(ids: seq<Word>, q: seq<Message>)
    requires q != []
    ensures ClientMessages(ids, q) >= ClientMessages(ids, q[1..]) + (if q[0].req.client in ids then 1 else 0)
  {
    if ids != [] {
      ClientMessagesStep(ids[1..], q);
    }
  }

  lemma {:induction false} QueueLength(ids: seq<Word>, q: seq<Message>)
    requires forall m | m in q :: m.req.client == INVALID_CLIENT || m.req.client in ids
    ensures |q| <= Sum(q, OfMessage(INVALID_CLIENT)) + ClientMessages(ids, q)
  {
    if q != [] {
      ClientMessagesStep(ids, q);
      QueueLength(ids, q[1..]);
      assert q[0] in q;
    }
  }

  lemma {:induction false} ClientMessagesBound(ids: seq<Word>, q: seq<Message>)
    requires forall id | id in ids :: Sum(q, OfMessage(id)) <= 1
    ensures ClientMessages(ids, q) <= |ids|
  {
    if ids != [] {
      assert ids[0] in ids;
      ClientMessagesBound(ids[1..], q);
    }
  }

  /** Lock-step clients and stop() together never queue more than one message per client and sentinel sent. */
  lemma QueueBound(cfg: Config, s: Server)
    requires WellFormed(cfg) && Orderly(cfg, s)
    ensures |s.queue| <= SentinelsSent(cfg, s) + |cfg.clients|
  {
    forall m | m in s.queue ensures m.req.client == INVALID_CLIENT || m.req.client in cfg.clients {
      assert GenuineMessage(cfg, s.clients, m);
    }
    QueueLength(cfg.clients, s.queue);
    forall id | id in cfg.clients ensures Sum(s.queue, OfMessage(id)) <= 1 {
      var c :| 0 <= c < |cfg.clients| && cfg.clients[c] == id;
      assert TokenCount(s, cfg.clients[c], s.replies[c]) <= 1;
    }
    ClientMessagesBound(cfg.clients, s.queue);
  }

  // Who can move.

  /** A worker's reply is never blocked: the queue it goes to is empty. */
  lemma ReplyPossible(cfg: Config, s: Server, w: nat) returns (c: nat)
    requires WellFormed(cfg) && Orderly(cfg, s) && w < |s.loops| && s.loops[w].Replying?
    ensures Can(cfg, s, Reply(w, c)) && s.replies[c] == []
  {
    var r := s.loops[w].req;
    assert GenuineLoop(cfg, s.clients, s.loops[w]);
    c :| 0 <= c < |cfg.clients| && cfg.clients[c] == r.client;
    SumUpdate(s.loops, w, s.loops[w], OfLoop(r.client));
    assert TokenCount(s, cfg.clients[c], s.replies[c]) <= 1;
  }

  lemma ReplyNeverBlocks(cfg: Config, acts: seq<Action>, w: nat) returns (c: nat)
    requires WellFormed(cfg) && Valid(Machine(cfg), Init(cfg), acts)
    requires var s := After(Machine(cfg), Init(cfg), acts); w < |s.loops| && s.loops[w].Replying?
    ensures var s := After(Machine(cfg), Init(cfg), acts); Can(cfg, s, Reply(w, c)) && s.replies[c] == []
  {
    AlwaysOrderly(cfg, acts);
    c := ReplyPossible(cfg, After(Machine(cfg), Init(cfg), acts), w);
  }

  /** A worker that has not left its loop leads to a possible move of some worker, unless it waits for a
      message that is not there. */
  lemma WorkerMoves(cfg: Config, s: Server, w: nat) returns (a: Action)
    requires WellFormed(cfg) && Orderly(cfg, s) && w < |s.loops| && s.loops[w] != Exited
    requires s.loops[w] == Receiving ==> s.queue != []
    ensures Can(cfg, s, a) && ServerSide(a) && (a.Micro? || Moved(a).Some? || a.Receive?)
    ensures !s.loops[w].Receiving? && !s.loops[w].Testing? ==> !a.Receive? && !a.Test?
  {
    assert Serves(s.loops[w], s.procs.workers[w]);
    match s.loops[w]
    case Top => a := LoadRunning(w);
    case Receiving => a := Receive(w);
    case Recheck => a := RecheckRunning(w);
    case Testing(_) => a := Test(w);
    case Serving(_) =>
      if s.procs.workers[w].job.pc == W.Done {
        a := Finish(w);
      } else {
        var v := P.SomeoneSteps(cfg.work, s.procs, w);
        a := Micro(v);
      }
    case Replying(_, _) =>
      var c := ReplyPossible(cfg, s, w);
      a := Reply(w, c);
    case QuitWait =>
      a := match s.quitLock case None => QuitAcquire(w) case Some(v) => QuitRelease(v);
    case QuitLog => a := QuitRelease(w);
  }
}
