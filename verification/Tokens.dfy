/** The lock-step protocol: a client never compares request ids, yet every response it receives answers the
    request it just sent, because each client has at most one token in the whole system. */
module Tokens {
  import opened Wrappers
  import opened Commands
  import opened Buffers
  import opened Messages
  import opened MessageQueues
  import opened QueueNames
  import opened Runs
  import opened Sums
  import opened Server
  import opened Coupling

  /** The message a worker has in hand. */
  function InHand(l: Loop): Option<Request> {
    match l
    case Testing(r) => Some(r)
    case Serving(r) => Some(r)
    case Replying(r, _) => Some(r)
    case _ => None
  }

  function OfMessage(id: Word): Message -> nat {
    (m: Message) => if m.req.client == id then 1 else 0
  }

  function OfLoop(id: Word): Loop -> nat {
    (l: Loop) => if InHand(l).Some? && InHand(l).value.client == id then 1 else 0
  }

  function OfLoss(id: Word): Loss -> nat {
    (l: Loss) => if l.client == id then 1 else 0
  }

  /** Where a client's token can be: in the request queue, in a worker's hand, in its reply queue, or lost. */
  function TokenCount(s: Server, id: Word, replies: seq<Response>): nat {
    Sum(s.queue, OfMessage(id)) + Sum(s.loops, OfLoop(id)) + |replies| + Sum(s.lost, OfLoss(id))
  }

  ghost predicate Conserved(cfg: Config, s: Server) {
    && |s.clients| == |s.replies| == |cfg.clients|
    && forall c | 0 <= c < |cfg.clients| ::
         TokenCount(s, cfg.clients[c], s.replies[c]) == if s.clients[c].Waiting? then 1 else 0
  }

  lemma SendConserves(cfg: Config, s: Server, c: nat, command: CommandType, seat: string)
    requires WellFormed(cfg) && Conserved(cfg, s) && Can(cfg, s, ClientSend(c, command, seat))
    ensures Conserved(cfg, DoClientSend(cfg, s, c, command, seat))
  {
    var t := DoClientSend(cfg, s, c, command, seat);
    var r := MakeRequest(s.clients[c].nextId, cfg.clients[c], command, seat);
    forall d | 0 <= d < |cfg.clients|
      ensures TokenCount(t, cfg.clients[d], t.replies[d]) == if t.clients[d].Waiting? then 1 else 0
    {
      EnqueueSum(s.queue, Message(0, r), OfMessage(cfg.clients[d]));
    }
  }

  lemma ReceiveConserves(cfg: Config, s: Server, c: nat)
    requires WellFormed(cfg) && Conserved(cfg, s) && Can(cfg, s, ClientReceive(c))
    ensures Conserved(cfg, DoClientReceive(s, c))
  {
  }

  lemma TakeConserves(cfg: Config, s: Server, w: nat)
    requires Conserved(cfg, s) && Can(cfg, s, Receive(w))
    ensures Conserved(cfg, DoReceive(s, w))
  {
    forall d | 0 <= d < |cfg.clients| {
      SumUpdate(s.loops, w, Testing(s.queue[0].req), OfLoop(cfg.clients[d]));
    }
  }

  /** A worker moves on without changing what it has in hand, or what the system has. */
  lemma LoopConserves(cfg: Config, s: Server, w: nat, l: Loop)
    requires Conserved(cfg, s) && w < |s.loops| && InHand(l) == InHand(s.loops[w])
    ensures Conserved(cfg, SetLoop(s, w, l))
  {
    forall d | 0 <= d < |cfg.clients| {
      SumUpdate(s.loops, w, l, OfLoop(cfg.clients[d]));
    }
  }

  lemma LossConserves(cfg: Config, s: Server, w: nat, l: Loop, atShutdown: bool)
    requires Conserved(cfg, s) && w < |s.loops| && InHand(s.loops[w]).Some? && InHand(l) == None
    ensures Conserved(cfg, SetLoop(s, w, l).(lost := s.lost + [Loss(InHand(s.loops[w]).value.client, atShutdown)]))
  {
    var x := Loss(InHand(s.loops[w]).value.client, atShutdown);
    var t := SetLoop(s, w, l).(lost := s.lost + [x]);
    forall d | 0 <= d < |cfg.clients|
      ensures TokenCount(t, cfg.clients[d], t.replies[d]) == TokenCount(s, cfg.clients[d], s.replies[d])
    {
      SumUpdate(s.loops, w, l, OfLoop(cfg.clients[d]));
      SumAppend(s.lost, [x], OfLoss(cfg.clients[d]));
      SumOne(x, OfLoss(cfg.clients[d]));
    }
  }

  /** A sentinel belongs to no client. */
  lemma SentinelConserves(cfg: Config, s: Server, w: nat)
    requires WellFormed(cfg) && Conserved(cfg, s) && w < |s.loops|
    requires s.loops[w].Testing? && s.loops[w].req.client == INVALID_CLIENT
    ensures Conserved(cfg, SetLoop(s, w, QuitWait))
  {
    forall d | 0 <= d < |cfg.clients| {
      SumUpdate(s.loops, w, QuitWait, OfLoop(cfg.clients[d]));
    }
  }

  lemma StopConserves(cfg: Config, s: Server)
    requires WellFormed(cfg) && Conserved(cfg, s)
    ensures Conserved(cfg, s.(queue := Enqueue(s.queue, SentinelMessage())))
  {
    forall d | 0 <= d < |cfg.clients| {
      EnqueueSum(s.queue, SentinelMessage(), OfMessage(cfg.clients[d]));
    }
  }

  lemma ReplyConserves(cfg: Config, s: Server, w: nat, c: nat)
    requires WellFormed(cfg) && Conserved(cfg, s) && Can(cfg, s, Reply(w, c))
    requires s.loops[w].req.client == cfg.clients[c]
    ensures Conserved(cfg, DoReply(s, w, c))
  {
    forall d | 0 <= d < |cfg.clients| {
      SumUpdate(s.loops, w, Top, OfLoop(cfg.clients[d]));
    }
  }

  /** A request somewhere in the system is the one its client is waiting for, and names that client's queue. */
  predicate Genuine(cfg: Config, clients: seq<Client>, r: Request) {
    && r.client in cfg.clients
    && ToText(r.reply) == ReplyQueueName(r.client)
    && forall c | 0 <= c < |cfg.clients| && c < |clients| && cfg.clients[c] == r.client ::
         clients[c].Waiting? && clients[c].sent == r
  }

  predicate GenuineMessage(cfg: Config, clients: seq<Client>, m: Message) {
    m == SentinelMessage() || (m.priority == 0 && Genuine(cfg, clients, m.req))
  }

  predicate GenuineLoop(cfg: Config, clients: seq<Client>, l: Loop) {
    match l
    case Testing(r) => r == SentinelRequest() || Genuine(cfg, clients, r)
    case Serving(r) => Genuine(cfg, clients, r)
    case Replying(r, resp) => Genuine(cfg, clients, r) && resp.requestId == r.requestId && resp.client == r.client
    case _ => true
  }

  predicate GenuineReplies(client: Client, replies: seq<Response>) {
    forall x | x in replies ::
      client.Waiting? && x.requestId == client.sent.requestId && x.client == client.sent.client
  }

  ghost predicate AllGenuine(cfg: Config, s: Server) {
    && |s.clients| == |s.replies| == |cfg.clients|
    && (forall m | m in s.queue :: GenuineMessage(cfg, s.clients, m))
    && (forall w | 0 <= w < |s.loops| :: GenuineLoop(cfg, s.clients, s.loops[w]))
    && (forall c | 0 <= c < |s.clients| :: GenuineReplies(s.clients[c], s.replies[c]))
    && (forall c | 0 <= c < |s.clients| :: s.clients[c].Waiting? ==> s.clients[c].sent.client == cfg.clients[c])
    && (forall l | l in s.lost && l.atShutdown :: !s.running)
  }

  /** A client with no token in queue or hand may change freely: no message mentions it. */
  lemma ClientUnseen(cfg: Config, s: Server, c: nat, x: Client)
    requires WellFormed(cfg) && AllGenuine(cfg, s) && c < |s.clients|
    requires Sum(s.queue, OfMessage(cfg.clients[c])) == 0 && Sum(s.loops, OfLoop(cfg.clients[c])) == 0
    ensures forall m | m in s.queue :: GenuineMessage(cfg, s.clients[c := x], m)
    ensures forall w | 0 <= w < |s.loops| :: GenuineLoop(cfg, s.clients[c := x], s.loops[w])
  {
    SumZero(s.queue, OfMessage(cfg.clients[c]));
    SumZero(s.loops, OfLoop(cfg.clients[c]));
    forall m | m in s.queue ensures GenuineMessage(cfg, s.clients[c := x], m) {
      assert GenuineMessage(cfg, s.clients, m) && OfMessage(cfg.clients[c])(m) == 0;
    }
    forall w | 0 <= w < |s.loops| ensures GenuineLoop(cfg, s.clients[c := x], s.loops[w]) {
      assert GenuineLoop(cfg, s.clients, s.loops[w]) && OfLoop(cfg.clients[c])(s.loops[w]) == 0;
    }
  }

  lemma SendGenuine(cfg: Config, s: Server, c: nat, command: CommandType, seat: string)
    requires WellFormed(cfg) && Conserved(cfg, s) && AllGenuine(cfg, s) && Can(cfg, s, ClientSend(c, command, seat))
    ensures AllGenuine(cfg, DoClientSend(cfg, s, c, command, seat))
  {
    var t := DoClientSend(cfg, s, c, command, seat);
    var r := MakeRequest(s.clients[c].nextId, cfg.clients[c], command, seat);
    ClientUnseen(cfg, s, c, t.clients[c]);
    EnqueueSum(s.queue, Message(0, r), OfMessage(cfg.clients[c]));
    ReplyQueueNameSound(cfg.clients[c], Zeros(QUEUE_NAME_BYTES));
    assert Genuine(cfg, t.clients, r);
    assert TokenCount(s, cfg.clients[c], s.replies[c]) == 0;
  }

  lemma ReceiveGenuine(cfg: Config, s: Server, c: nat)
    requires WellFormed(cfg) && Conserved(cfg, s) && AllGenuine(cfg, s) && Can(cfg, s, ClientReceive(c))
    ensures AllGenuine(cfg, DoClientReceive(s, c))
  {
    assert TokenCount(s, cfg.clients[c], s.replies[c]) == 1;
    ClientUnseen(cfg, s, c, Ready(s.clients[c].nextId));
  }

  /** A reply goes to the queue of the client that asked: the name in the request is that client's alone. */
  lemma ReplyTarget(cfg: Config, s: Server, w: nat, c: nat)
    requires AllGenuine(cfg, s) && Can(cfg, s, Reply(w, c))
    ensures s.loops[w].req.client == cfg.clients[c]
  {
    assert GenuineLoop(cfg, s.clients, s.loops[w]);
    ReplyQueueNameInjective(s.loops[w].req.client, cfg.clients[c]);
  }

  lemma ReplyGenuine(cfg: Config, s: Server, w: nat, c: nat)
    requires WellFormed(cfg) && Conserved(cfg, s) && AllGenuine(cfg, s) && Can(cfg, s, Reply(w, c))
    ensures AllGenuine(cfg, DoReply(s, w, c))
  {
    ReplyTarget(cfg, s, w, c);
    assert GenuineLoop(cfg, s.clients, s.loops[w]);
  }

  /** The response carries the ids of the request it answers. */
  lemma FinishGenuine(cfg: Config, s: Server, w: nat)
    requires AllGenuine(cfg, s) && Can(cfg, s, Finish(w)) && Serves(s.loops[w], s.procs.workers[w])
    ensures AllGenuine(cfg, DoFinish(cfg, s, w))
  {
    assert GenuineLoop(cfg, s.clients, s.loops[w]);
  }

  /** The actions that touch neither clients nor replies, and put nothing new into a queue or a hand. */
  predicate Quiet(s: Server, t: Server) {
    && t.clients == s.clients && t.replies == s.replies && |t.loops| == |s.loops|
    && (forall m | m in t.queue :: m in s.queue || m == SentinelMessage())
    && (forall w | 0 <= w < |s.loops| ::
          || t.loops[w] == s.loops[w]
          || InHand(t.loops[w]) == None
          || (t.loops[w].Testing? && exists m :: m in s.queue && t.loops[w].req == m.req)
          || (t.loops[w].Serving? && s.loops[w].Testing? && t.loops[w].req == s.loops[w].req && !IsSentinel(s.loops[w].req)))
    && (forall l | l in t.lost && l.atShutdown :: l in s.lost || !s.running) && (t.running ==> s.running)
  }

  lemma QuietGenuine(cfg: Config, s: Server, t: Server)
    requires AllGenuine(cfg, s) && Quiet(s, t)
    ensures AllGenuine(cfg, t)
  {
    forall w | 0 <= w < |t.loops| ensures GenuineLoop(cfg, t.clients, t.loops[w]) {
      assert GenuineLoop(cfg, s.clients, s.loops[w]);
    }
  }

  ghost predicate Honest(cfg: Config, s: Server) {
    Coupled(cfg, s) && Conserved(cfg, s) && AllGenuine(cfg, s)
  }

  /** The actions that only move a worker along its loop. */
  predicate LoopMove(a: Action) {
    a.LoadRunning? || a.ReceiveFails? || a.RecheckRunning? || a.QuitAcquire? || a.QuitRelease?
  }

  lemma LoopMoveConserves(cfg: Config, s: Server, a: Action)
    requires Conserved(cfg, s) && Can(cfg, s, a) && LoopMove(a)
    ensures Conserved(cfg, Do(cfg, s, a))
  {
    LoopConserves(cfg, s, a.w, Do(cfg, s, a).loops[a.w]);
  }

  lemma FinishConserves(cfg: Config, s: Server, w: nat)
    requires Conserved(cfg, s) && Can(cfg, s, Finish(w))
    ensures Conserved(cfg, DoFinish(cfg, s, w))
  {
    LoopConserves(cfg, s, w, DoFinish(cfg, s, w).loops[w]);
  }

  lemma KeepsConserved(cfg: Config, s: Server, a: Action)
    requires WellFormed(cfg) && Conserved(cfg, s) && AllGenuine(cfg, s) && Can(cfg, s, a)
    ensures Conserved(cfg, Do(cfg, s, a))
  {
    if LoopMove(a) {
      LoopMoveConserves(cfg, s, a);
    } else {
      match a
      case ClientSend(c, command, seat) => SendConserves(cfg, s, c, command, seat);
      case ClientReceive(c) => ReceiveConserves(cfg, s, c);
      case Receive(w) => TakeConserves(cfg, s, w);
      case Test(w) => TestConserves(cfg, s, w);
      case Finish(w) => FinishConserves(cfg, s, w);
      case Reply(w, c) =>
        ReplyTarget(cfg, s, w, c);
        ReplyConserves(cfg, s, w, c);
      case ReplyFails(w) => LossConserves(cfg, s, w, Top, false);
      case StopSend => StopConserves(cfg, s);
      case _ =>
    }
  }

  lemma TestConserves(cfg: Config, s: Server, w: nat)
    requires WellFormed(cfg) && Conserved(cfg, s) && AllGenuine(cfg, s) && Can(cfg, s, Test(w))
    ensures Conserved(cfg, Do(cfg, s, Test(w)))
  {
    var r := s.loops[w].req;
    assert GenuineLoop(cfg, s.clients, s.loops[w]);
    if s.running && !IsSentinel(r) {
      LoopConserves(cfg, s, w, Serving(r));
    } else if IsSentinel(r) {
      SentinelConserves(cfg, s, w);
      assert s.lost + [] == s.lost;
    } else {
      LossConserves(cfg, s, w, QuitWait, true);
    }
  }

  predicate QuietAction(a: Action) {
    !a.ClientSend? && !a.ClientReceive? && !a.Finish? && !a.Reply?
  }

  lemma SentinelFrame(cfg: Config, s: Server)
    requires Can(cfg, s, StopSend)
    ensures Quiet(s, Do(cfg, s, StopSend))
  {
    EnqueueSum(s.queue, SentinelMessage(), OfMessage(0));
  }

  lemma LoopFrame(cfg: Config, s: Server, a: Action)
    requires Can(cfg, s, a) && LoopMove(a)
    ensures Quiet(s, Do(cfg, s, a))
  {
  }

  lemma HandFrame(cfg: Config, s: Server, a: Action)
    requires Can(cfg, s, a) && (a.Receive? || a.Test? || a.ReplyFails?)
    ensures Quiet(s, Do(cfg, s, a))
  {
  }

  lemma QuietFrame(cfg: Config, s: Server, a: Action)
    requires Can(cfg, s, a) && QuietAction(a)
    ensures Quiet(s, Do(cfg, s, a))
  {
    if a == StopSend {
      SentinelFrame(cfg, s);
    } else if LoopMove(a) {
      LoopFrame(cfg, s, a);
    } else if a.Receive? || a.Test? || a.ReplyFails? {
      HandFrame(cfg, s, a);
    }
  }

  lemma KeepsGenuine(cfg: Config, s: Server, a: Action)
    requires WellFormed(cfg) && Coupled(cfg, s) && Conserved(cfg, s) && AllGenuine(cfg, s) && Can(cfg, s, a)
    ensures AllGenuine(cfg, Do(cfg, s, a))
  {
    match a
    case ClientSend(c, command, seat) => SendGenuine(cfg, s, c, command, seat);
    case ClientReceive(c) => ReceiveGenuine(cfg, s, c);
    case Finish(w) =>
      assert Serves(s.loops[w], s.procs.workers[w]);
      FinishGenuine(cfg, s, w);
    case Reply(w, c) => ReplyGenuine(cfg, s, w, c);
    case _ =>
      QuietFrame(cfg, s, a);
      QuietGenuine(cfg, s, Do(cfg, s, a));
  }

  lemma HonestStep(cfg: Config, s: Server, a: Action)
    requires WellFormed(cfg) && Honest(cfg, s) && Can(cfg, s, a)
    ensures Honest(cfg, Do(cfg, s, a))
  {
    KeepsCoupled(cfg, s, a);
    KeepsConserved(cfg, s, a);
    KeepsGenuine(cfg, s, a);
  }

  lemma InitHonest(cfg: Config)
    requires WellFormed(cfg)
    ensures Honest(cfg, Init(cfg))
  {
    InitCoupled(cfg);
    forall c | 0 <= c < |cfg.clients| ensures TokenCount(Init(cfg), cfg.clients[c], Init(cfg).replies[c]) == 0 {
      SumZero(Init(cfg).loops, OfLoop(cfg.clients[c]));
    }
  }

  lemma AlwaysHonest(cfg: Config, acts: seq<Action>)
    requires WellFormed(cfg) && Valid(Machine(cfg), Init(cfg), acts)
    ensures Honest(cfg, After(Machine(cfg), Init(cfg), acts))
  {
    forall s, a | Honest(cfg, s) && Can(cfg, s, a) ensures Honest(cfg, Do(cfg, s, a)) {
      HonestStep(cfg, s, a);
    }
    InitHonest(cfg);
    Always(Machine(cfg), (s: Server) => Honest(cfg, s), Init(cfg), acts);
  }

  /** Nothing is lost while the server runs, as long as every reply is delivered. */
  lemma {:induction false} NothingLost(cfg: Config, s: Server, acts: seq<Action>)
    requires Valid(Machine(cfg), s, acts) && (s.running ==> s.lost == []) && forall a | a in acts :: !a.ReplyFails?
    ensures After(Machine(cfg), s, acts).running ==> After(Machine(cfg), s, acts).lost == []
    decreases |acts|
  {
    if acts != [] {
      assert acts[0] in acts;
      NothingLost(cfg, Do(cfg, s, acts[0]), acts[1..]);
    }
  }

  /** Token conservation: at every moment a client that is waiting has exactly one token, in the request
      queue, in the hand of one worker, in its reply queue or lost, and a client that is not waiting has
      none. Requests are lost at shutdown only after running_ has fallen, and if no reply fails none is lost
      before. */
  lemma TokenConservation(cfg: Config, acts: seq<Action>)
    requires WellFormed(cfg) && Valid(Machine(cfg), Init(cfg), acts)
    ensures Conserved(cfg, After(Machine(cfg), Init(cfg), acts))
    ensures var s := After(Machine(cfg), Init(cfg), acts);
            s.running ==> (forall l | l in s.lost :: !l.atShutdown) && ((forall a | a in acts :: !a.ReplyFails?) ==> s.lost == [])
  {
    AlwaysHonest(cfg, acts);
    if forall a | a in acts :: !a.ReplyFails? {
      NothingLost(cfg, Init(cfg), acts);
    }
  }

  /** A response waiting in a client's queue is the only one, and it carries the ids of the request the client
      has just sent: the client need not compare them. */
  lemma ResponsesMatch(cfg: Config, acts: seq<Action>, c: nat)
    requires WellFormed(cfg) && Valid(Machine(cfg), Init(cfg), acts)
    requires var s := After(Machine(cfg), Init(cfg), acts); c < |s.replies| && s.replies[c] != []
    ensures var s := After(Machine(cfg), Init(cfg), acts);
            && |s.clients| == |s.replies| == |cfg.clients| && |s.replies[c]| == 1 && s.clients[c].Waiting?
            && s.replies[c][0].requestId == s.clients[c].sent.requestId
            && s.replies[c][0].client == cfg.clients[c]
  {
    AlwaysHonest(cfg, acts);
    var s := After(Machine(cfg), Init(cfg), acts);
    assert GenuineReplies(s.clients[c], s.replies[c]) && s.replies[c][0] in s.replies[c];
    assert TokenCount(s, cfg.clients[c], s.replies[c]) == 1;
  }
}
