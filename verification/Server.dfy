/** The whole system (src/server/server.cpp, src/client/client.cpp): the worker loops around
    process_request, the request queue, lock-step clients with a reply queue each, and stop(). The clients
    are connected and their receives succeed; a worker's receive or reply may fail at any time. */
module Server {
  import opened Wrappers
  import opened Commands
  import opened Buffers
  import opened Messages
  import opened MessageQueues
  import opened QueueNames
  import opened Runs
  import W = Workers

  /** requested is config_.worker_count, the number of sentinels stop() sends; the pool runs
      max(requested, 1) workers. */
  datatype Config = Config(work: W.Config, requested: nat, capacity: nat, replyCapacity: nat, clients: seq<Word>)

  const SENTINEL_PRIORITY: nat := 10

  predicate WellFormed(cfg: Config) {
    && cfg.work.workers == (if cfg.requested > 1 then cfg.requested else 1)
    && cfg.replyCapacity > 0
    && INVALID_CLIENT !in cfg.clients
    && forall c, d | 0 <= c < d < |cfg.clients| :: cfg.clients[c] != cfg.clients[d]
  }

  /** Where a worker is in its loop. */
  datatype Loop =
    | Top                                       // about to load running_
    | Receiving                                 // in mq_receive
    | Recheck                                   // mq_receive failed: about to load running_ again
    | Testing(req: Request)                     // received: about to test running_ and the sentinel
    | Serving(req: Request)                     // inside process_request
    | Replying(req: Request, resp: Response)    // about to send the response
    | QuitWait                                  // about to take g_worker_quit_log_mutex
    | QuitLog                                   // holding it
    | Exited

  /** A client between requests, or waiting for the response to the one it sent. since records how many
      requests the server had finished when it was sent. */
  datatype Client =
    | Ready(nextId: Word)
    | Waiting(nextId: Word, sent: Request, since: nat)

  /** The thread that runs stop(). */
  datatype Stopper = Running | Sending(i: nat) | Joining(j: nat) | Stopped

  /** A request whose response is never sent: discarded by a worker that saw running_ false, or not
      deliverable. */
  datatype Loss = Loss(client: Word, atShutdown: bool)

  /** sent and taken list the client requests in the order they entered and left the request queue. */
  datatype Server = Server(running: bool, queue: seq<Message>, loops: seq<Loop>, procs: W.State,
                           clients: seq<Client>, replies: seq<seq<Response>>,
                           stopper: Stopper, quitLock: Option<nat>,
                           sent: seq<Request>, taken: seq<Request>, lost: seq<Loss>)

  datatype Action =
    | ClientSend(c: nat, command: CommandType, seat: string)
    | ClientReceive(c: nat)
    | LoadRunning(w: nat)
    | Receive(w: nat)
    | ReceiveFails(w: nat)
    | RecheckRunning(w: nat)
    | Test(w: nat)
    | Micro(w: nat)
    | Finish(w: nat)
    | Reply(w: nat, c: nat)
    | ReplyFails(w: nat)
    | QuitAcquire(w: nat)
    | QuitRelease(w: nat)
    | StopBegin
    | StopSend
    | StopJoin
    | StopClose

  /** The server's own moves; the others are the clients' and the kernel's. */
  predicate ServerSide(a: Action) {
    !a.ClientSend? && !a.ClientReceive? && !a.ReceiveFails? && !a.ReplyFails?
  }

  function Init(cfg: Config): Server {
    Server(true, [], seq(cfg.work.workers, _ => Top), W.Init(cfg.work),
           seq(|cfg.clients|, _ => Ready(1)), seq(|cfg.clients|, _ => []), Running, None, [], [], [])
  }

  /** send_request's message: both texts go through their fixed buffers. */
  function MakeRequest(id: Word, client: Word, command: CommandType, seat: string): Request {
    Request(id, client, command, Written(Zeros(SEAT_BYTES), seat), Written(Zeros(QUEUE_NAME_BYTES), ReplyQueueName(client)))
  }

  /** The zero-initialised message stop() sends, with command QUIT. */
  function SentinelRequest(): Request {
    Request(0, INVALID_CLIENT, Quit, Zeros(SEAT_BYTES), Zeros(QUEUE_NAME_BYTES))
  }

  function SentinelMessage(): Message {
    Message(SENTINEL_PRIORITY, SentinelRequest())
  }

  predicate IsSentinel(r: Request) {
    r.command == Quit && r.client == INVALID_CLIENT
  }

  /** next_request_id_++ on a 32-bit counter. */
  function NextId(id: Word): Word {
    (id + 1) % 0x1_0000_0000
  }

  function SetLoop(s: Server, w: nat, l: Loop): Server
    requires w < |s.loops|
  {
    s.(loops := s.loops[w := l])
  }

  function DoClientSend(cfg: Config, s: Server, c: nat, command: CommandType, seat: string): Server
    requires c < |s.clients| && c < |cfg.clients| && s.clients[c].Ready?
  {
    var r := MakeRequest(s.clients[c].nextId, cfg.clients[c], command, seat);
    s.(clients := s.clients[c := Waiting(NextId(s.clients[c].nextId), r, |s.procs.mem.hist|)],
       queue := Enqueue(s.queue, Message(0, r)), sent := s.sent + [r])
  }

  function DoClientReceive(s: Server, c: nat): Server
    requires c < |s.clients| && c < |s.replies| && s.replies[c] != []
  {
    s.(clients := s.clients[c := Ready(s.clients[c].nextId)], replies := s.replies[c := s.replies[c][1..]])
  }

  function DoReceive(s: Server, w: nat): Server
    requires w < |s.loops| && s.queue != []
  {
    var m := s.queue[0];
    s.(queue := s.queue[1..], loops := s.loops[w := Testing(m.req)],
       taken := s.taken + if m.priority == 0 then [m.req] else [])
  }

  /** Leaving the loop with a message in hand loses it, unless it is a sentinel. */
  function DoQuit(s: Server, w: nat): Server
    requires w < |s.loops| && s.loops[w].Testing?
  {
    var r := s.loops[w].req;
    s.(loops := s.loops[w := QuitWait], lost := s.lost + if IsSentinel(r) then [] else [Loss(r.client, true)])
  }

  function DoServe(cfg: Config, s: Server, w: nat): Server
    requires w < |s.loops| && s.loops[w].Testing? && W.Can(cfg.work, s.procs, W.Begin(w, s.loops[w].req))
  {
    s.(loops := s.loops[w := Serving(s.loops[w].req)],
       procs := W.Do(cfg.work, s.procs, W.Begin(w, s.loops[w].req)))
  }

  function DoFinish(cfg: Config, s: Server, w: nat): Server
    requires w < |s.loops| && s.loops[w].Serving? && W.Can(cfg.work, s.procs, W.End(w))
  {
    var j := s.procs.workers[w].job;
    s.(loops := s.loops[w := Replying(s.loops[w].req, W.Respond(j.req, j.loc))], procs := W.Do(cfg.work, s.procs, W.End(w)))
  }

  function DoReply(s: Server, w: nat, c: nat): Server
    requires w < |s.loops| && s.loops[w].Replying? && c < |s.replies|
  {
    s.(loops := s.loops[w := Top], replies := s.replies[c := s.replies[c] + [s.loops[w].resp]])
  }

  function DoReplyFails(s: Server, w: nat): Server
    requires w < |s.loops| && s.loops[w].Replying?
  {
    s.(loops := s.loops[w := Top], lost := s.lost + [Loss(s.loops[w].req.client, false)])
  }

  predicate At(s: Server, w: nat, l: Loop) {
    w < |s.loops| && s.loops[w] == l
  }

  predicate Can(cfg: Config, s: Server, a: Action) {
    match a
    case ClientSend(c, _, _) =>
      c < |s.clients| && c < |cfg.clients| && s.clients[c].Ready? && |s.queue| < cfg.capacity
    case ClientReceive(c) => c < |s.clients| && c < |s.replies| && s.clients[c].Waiting? && s.replies[c] != []
    case LoadRunning(w) => At(s, w, Top)
    case Receive(w) => At(s, w, Receiving) && s.queue != []
    case ReceiveFails(w) => At(s, w, Receiving)
    case RecheckRunning(w) => At(s, w, Recheck)
    case Test(w) => w < |s.loops| && s.loops[w].Testing? && W.Can(cfg.work, s.procs, W.Begin(w, s.loops[w].req))
    case Micro(w) => W.Can(cfg.work, s.procs, W.Micro(w))
    case Finish(w) => w < |s.loops| && s.loops[w].Serving? && W.Can(cfg.work, s.procs, W.End(w))
    case Reply(w, c) =>
      && w < |s.loops| && s.loops[w].Replying? && c < |s.replies| && c < |cfg.clients|
      && ToText(s.loops[w].req.reply) == ReplyQueueName(cfg.clients[c]) && |s.replies[c]| < cfg.replyCapacity
    case ReplyFails(w) => w < |s.loops| && s.loops[w].Replying?
    case QuitAcquire(w) => At(s, w, QuitWait) && s.quitLock == None
    case QuitRelease(w) => At(s, w, QuitLog)
    case StopBegin => s.stopper == Running
    case StopSend => s.stopper.Sending? && (s.stopper.i < cfg.requested ==> |s.queue| < cfg.capacity)
    case StopJoin => s.stopper.Joining? && s.stopper.j < |s.loops| && s.loops[s.stopper.j] == Exited
    case StopClose => s.stopper == Joining(|s.loops|)
  }

  function Do(cfg: Config, s: Server, a: Action): Server
    requires Can(cfg, s, a)
  {
    match a
    case ClientSend(c, command, seat) => DoClientSend(cfg, s, c, command, seat)
    case ClientReceive(c) => DoClientReceive(s, c)
    case LoadRunning(w) => SetLoop(s, w, if s.running then Receiving else Exited)
    case Receive(w) => DoReceive(s, w)
    case ReceiveFails(w) => SetLoop(s, w, Recheck)
    case RecheckRunning(w) => SetLoop(s, w, if s.running then Top else Exited)
    case Test(w) => if !s.running || IsSentinel(s.loops[w].req) then DoQuit(s, w) else DoServe(cfg, s, w)
    case Micro(w) => s.(procs := W.Do(cfg.work, s.procs, W.Micro(w)))
    case Finish(w) => DoFinish(cfg, s, w)
    case Reply(w, c) => DoReply(s, w, c)
    case ReplyFails(w) => DoReplyFails(s, w)
    case QuitAcquire(w) => SetLoop(s.(quitLock := Some(w)), w, QuitLog)
    case QuitRelease(w) => SetLoop(s.(quitLock := None), w, Exited)
    case StopBegin => s.(running := false, stopper := Sending(0))
    case StopSend =>
      if s.stopper.i < cfg.requested
      then s.(stopper := Sending(s.stopper.i + 1), queue := Enqueue(s.queue, SentinelMessage()))
      else s.(stopper := Joining(0))
    case StopJoin => s.(stopper := Joining(s.stopper.j + 1))
    case StopClose => s.(stopper := Stopped)
  }

  function Machine(cfg: Config): System<Server, Action> {
    System((s, a) => Can(cfg, s, a), (s, a) => if Can(cfg, s, a) then Do(cfg, s, a) else s)
  }
}
