/** The order of service: the request queue hands out client requests in the order of sending, and a single
    worker answers them in that order. */
module Fifo {
  import opened Wrappers
  import opened MessageQueues
  import opened Runs
  import opened Server
  import opened Coupling
  import opened Tokens
  import T = Theorems

  /** The request queue is a queue: what has left it and what is still in it is what was sent, in order. */
  ghost predicate InSendOrder(s: Server) {
    Ordered(s.queue) && s.taken + AtPriority(s.queue, 0) == s.sent
  }

  /** A single worker begins what it takes, in the order in which it takes it. */
  ghost predicate InTakeOrder(s: Server) {
    |s.loops| == 1 ==>
      match s.loops[0]
      case Testing(r) => s.taken == s.procs.begun + (if r == SentinelRequest() then [] else [r])
      case QuitWait => s.procs.begun <= s.taken
      case QuitLog => s.procs.begun <= s.taken
      case Exited => s.procs.begun <= s.taken
      case _ => s.taken == s.procs.begun
  }

  lemma KeepsSendOrder(cfg: Config, s: Server, a: Action)
    requires InSendOrder(s) && Can(cfg, s, a)
    ensures InSendOrder(Do(cfg, s, a))
  {
    match a
    case ClientSend(c, command, seat) =>
      EnqueueOrder(s.queue, Message(0, MakeRequest(s.clients[c].nextId, cfg.clients[c], command, seat)), 0);
    case StopSend => EnqueueOrder(s.queue, SentinelMessage(), 0);
    case _ =>
  }

  lemma TakeOrderReceive(cfg: Config, s: Server, w: nat)
    requires WellFormed(cfg) && AllGenuine(cfg, s) && InTakeOrder(s) && Can(cfg, s, Receive(w))
    ensures InTakeOrder(DoReceive(s, w))
  {
    assert s.queue[0] in s.queue;
    assert GenuineMessage(cfg, s.clients, s.queue[0]);
  }

  lemma TakeOrderTest(cfg: Config, s: Server, w: nat)
    requires WellFormed(cfg) && AllGenuine(cfg, s) && InTakeOrder(s) && Can(cfg, s, Test(w))
    ensures InTakeOrder(Do(cfg, s, Test(w)))
  {
    assert GenuineLoop(cfg, s.clients, s.loops[w]);
  }

  lemma TakeOrderRest(cfg: Config, s: Server, a: Action)
    requires InTakeOrder(s) && Can(cfg, s, a) && !a.Receive? && !a.Test?
    ensures InTakeOrder(Do(cfg, s, a))
  {
  }

  lemma KeepsTakeOrder(cfg: Config, s: Server, a: Action)
    requires WellFormed(cfg) && AllGenuine(cfg, s) && InTakeOrder(s) && Can(cfg, s, a)
    ensures InTakeOrder(Do(cfg, s, a))
  {
    match a
    case Receive(w) => TakeOrderReceive(cfg, s, w);
    case Test(w) => TakeOrderTest(cfg, s, w);
    case _ => TakeOrderRest(cfg, s, a);
  }

  lemma AlwaysInOrder(cfg: Config, acts: seq<Action>)
    requires WellFormed(cfg) && Valid(Machine(cfg), Init(cfg), acts)
    ensures InSendOrder(After(Machine(cfg), Init(cfg), acts)) && InTakeOrder(After(Machine(cfg), Init(cfg), acts))
    ensures |After(Machine(cfg), Init(cfg), acts).loops| == cfg.work.workers
  {
    var inv := (s: Server) => Honest(cfg, s) && InSendOrder(s) && InTakeOrder(s);
    forall s, a | inv(s) && Can(cfg, s, a) ensures inv(Do(cfg, s, a)) {
      HonestStep(cfg, s, a);
      KeepsSendOrder(cfg, s, a);
      KeepsTakeOrder(cfg, s, a);
    }
    InitHonest(cfg);
    Always(Machine(cfg), inv, Init(cfg), acts);
  }

  /** With one worker the history is the clients' requests in the order in which they were sent. */
  lemma SingleWorkerFifo(cfg: Config, acts: seq<Action>)
    requires WellFormed(cfg) && cfg.work.workers == 1 && Valid(Machine(cfg), Init(cfg), acts)
    ensures var s := After(Machine(cfg), Init(cfg), acts);
            |s.procs.mem.hist| <= |s.sent| && forall i | 0 <= i < |s.procs.mem.hist| :: s.procs.mem.hist[i].req == s.sent[i]
  {
    AlwaysInOrder(cfg, acts);
    var s := After(Machine(cfg), Init(cfg), acts);
    var inner := Projection(cfg, acts);
    T.ReceiptOrder(cfg.work, inner);
    assert s.procs.begun <= s.taken <= s.sent;
  }
}
