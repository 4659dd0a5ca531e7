/** stop() ends, and the exact condition under which it can never get stuck. */
module ShutdownTheorems {
  import opened Wrappers
  import opened Commands
  import opened Messages
  import opened MessageQueues
  import opened Runs
  import opened Sums
  import opened Server
  import opened Coupling
  import opened Tokens
  import opened Shutdown
  import W = Workers
  import P = Termination
  import T = Theorems

  /** A worker still in its loop while every sentinel has been sent will find a message. */
  lemma SentinelWaits(cfg: Config, s: Server, w: nat)
    requires Orderly(cfg, s) && w < |s.loops| && !Leaving(s.loops[w]) && SentinelsSent(cfg, s) >= |s.loops|
    ensures s.queue != []
  {
    SumUpdate(s.loops, w, Exited, LeavingCount());
    SumBound(s.loops[w := Exited], LeavingCount(), 1);
  }

  /** While stop() is under way the server itself can always move, however silent the clients are. */
  lemma StopMoves(cfg: Config, s: Server) returns (a: Action)
    requires WellFormed(cfg) && Orderly(cfg, s) && !s.running && s.stopper != Stopped
    requires cfg.requested >= 1 && |cfg.clients| + cfg.requested <= cfg.capacity
    ensures CanMove(cfg, s, a)
  {
    match s.stopper
    case Sending(i) =>
      QueueBound(cfg, s);
      a := StopSend;
    case Joining(j) =>
      if j == |s.loops| {
        a := StopClose;
      } else if s.loops[j] == Exited {
        a := StopJoin;
      } else {
        if s.loops[j] == Receiving {
          SentinelWaits(cfg, s, j);
        }
        a := WorkerMoves(cfg, s, j);
      }
  }

  // Every action after running_ has fallen uses something up.

  function LoopRank(): Loop -> nat {
    (l: Loop) => match l
                 case Top => 1
                 case Receiving => 4
                 case Recheck => 1
                 case Testing(_) => 3
                 case Serving(_) => 5
                 case Replying(_, _) => 4
                 case QuitWait => 2
                 case QuitLog => 1
                 case Exited => 0
  }

  function ClientRank(): Client -> nat {
    (c: Client) => if c.Ready? then 1 else 0
  }

  function ReplyRank(): seq<Response> -> nat {
    (q: seq<Response>) => 2 * |q|
  }

  function StopRank(cfg: Config, st: Stopper): nat {
    match st
    case Running => 0
    case Sending(i) => (if i < cfg.requested then cfg.requested - i else 0) + cfg.work.workers + 2
    case Joining(j) => if j < cfg.work.workers then cfg.work.workers - j + 1 else 1
    case Stopped => 0
  }

  function Rank(cfg: Config, s: Server): nat {
    Sum(s.loops, LoopRank()) + P.Work(s.procs) + Sum(s.clients, ClientRank()) + Sum(s.replies, ReplyRank())
    + StopRank(cfg, s.stopper)
  }

  function Mover(a: Action): Option<nat> {
    if a.Receive? then Some(a.w) else Moved(a)
  }

  lemma MoverFrame(cfg: Config, s: Server, a: Action)
    requires !s.running && Can(cfg, s, a) && Mover(a).Some? && !a.Finish? && !a.Reply?
    ensures var t := Do(cfg, s, a); var w := Mover(a).value;
            && w < |s.loops| == |t.loops| && t.loops == s.loops[w := t.loops[w]] && LoopRank()(t.loops[w]) < LoopRank()(s.loops[w])
            && t.procs == s.procs && t.clients == s.clients && t.replies == s.replies && t.stopper == s.stopper
  {
  }

  lemma MoveDescends(cfg: Config, s: Server, a: Action)
    requires !s.running && Can(cfg, s, a) && Mover(a).Some? && !a.Finish? && !a.Reply?
    ensures Rank(cfg, Do(cfg, s, a)) < Rank(cfg, s)
  {
    MoverFrame(cfg, s, a);
    SumUpdate(s.loops, Mover(a).value, Do(cfg, s, a).loops[Mover(a).value], LoopRank());
  }

  lemma FinishDescends(cfg: Config, s: Server, w: nat)
    requires Can(cfg, s, Finish(w)) && T.Safe(cfg.work, s.procs) && P.Placed(s.procs)
    ensures Rank(cfg, Do(cfg, s, Finish(w))) < Rank(cfg, s)
  {
    var t := DoFinish(cfg, s, w);
    SumUpdate(s.loops, w, t.loops[w], LoopRank());
    assert P.Work(t.procs) < P.Work(s.procs) by {
      P.ActionCost(cfg.work, s.procs, W.End(w));
    }
  }

  lemma MicroDescends(cfg: Config, s: Server, w: nat)
    requires Can(cfg, s, Micro(w)) && T.Safe(cfg.work, s.procs) && P.Placed(s.procs)
    ensures Rank(cfg, Do(cfg, s, Micro(w))) < Rank(cfg, s)
  {
    assert P.Work(W.Do(cfg.work, s.procs, W.Micro(w))) < P.Work(s.procs) by {
      P.ActionCost(cfg.work, s.procs, W.Micro(w));
    }
  }

  lemma ReplyDescends(cfg: Config, s: Server, w: nat, c: nat)
    requires Can(cfg, s, Reply(w, c))
    ensures Rank(cfg, DoReply(s, w, c)) < Rank(cfg, s)
  {
    SumUpdate(s.loops, w, Top, LoopRank());
    SumUpdate(s.replies, c, s.replies[c] + [s.loops[w].resp], ReplyRank());
  }

  lemma ClientDescends(cfg: Config, s: Server, a: Action)
    requires Can(cfg, s, a) && (a.ClientSend? || a.ClientReceive?)
    ensures Rank(cfg, Do(cfg, s, a)) < Rank(cfg, s)
  {
    SumUpdate(s.clients, a.c, Do(cfg, s, a).clients[a.c], ClientRank());
    if a.ClientReceive? {
      SumUpdate(s.replies, a.c, s.replies[a.c][1..], ReplyRank());
    }
  }

  /** The steps of stop() itself; it has begun already. */
  lemma StopDescends(cfg: Config, s: Server, a: Action)
    requires StopperFits(cfg, s) && |s.loops| == cfg.work.workers && !s.running && Can(cfg, s, a)
    requires a.StopBegin? || a.StopSend? || a.StopJoin? || a.StopClose?
    ensures Rank(cfg, Do(cfg, s, a)) < Rank(cfg, s)
  {
  }

  lemma StaysDown(cfg: Config, s: Server, a: Action)
    requires !s.running && Can(cfg, s, a)
    ensures !Do(cfg, s, a).running
  {
  }

  lemma ActionDescends(cfg: Config, s: Server, a: Action)
    requires Orderly(cfg, s) && !s.running && Can(cfg, s, a)
    ensures Rank(cfg, Do(cfg, s, a)) < Rank(cfg, s)
  {
    if a.ClientSend? || a.ClientReceive? {
      ClientDescends(cfg, s, a);
    } else if a.Micro? {
      MicroDescends(cfg, s, a.w);
    } else if a.Finish? {
      FinishDescends(cfg, s, a.w);
    } else if a.Reply? {
      ReplyDescends(cfg, s, a.w, a.c);
    } else if Mover(a).Some? {
      MoveDescends(cfg, s, a);
    } else {
      StopDescends(cfg, s, a);
    }
  }

  /** Once running_ has fallen, every run is finite, whatever the clients and the kernel do. */
  lemma StopTerminates(cfg: Config, before: seq<Action>, after: seq<Action>)
    requires WellFormed(cfg) && Valid(Machine(cfg), Init(cfg), before + after)
    requires !After(Machine(cfg), Init(cfg), before).running
    ensures |after| <= Rank(cfg, After(Machine(cfg), Init(cfg), before))
  {
    var m := Machine(cfg);
    Compose(m, Init(cfg), before, after);
    AlwaysOrderly(cfg, before);
    var inv := (s: Server) => Orderly(cfg, s) && !s.running;
    forall s, a | inv(s) && Can(cfg, s, a) ensures inv(Do(cfg, s, a)) && Rank(cfg, Do(cfg, s, a)) < Rank(cfg, s) {
      OrderlyStep(cfg, s, a);
      StaysDown(cfg, s, a);
      ActionDescends(cfg, s, a);
    }
    Bounded(m, inv, (s: Server) => Rank(cfg, s), After(m, Init(cfg), before), after);
  }

  // The exact condition.

  /** Stop is under way and not finished. */
  predicate StopPending(s: Server) {
    !s.running && s.stopper != Stopped
  }

  predicate CanMove(cfg: Config, s: Server, a: Action) {
    ServerSide(a) && Can(cfg, s, a)
  }

  /** stop() never depends on anyone else's goodwill: in every reachable state in which it is under way, the
      server itself can take a step. With StopTerminates: every run of stop() joins all workers and returns. */
  ghost predicate StopAlwaysFinishes(cfg: Config) {
    forall acts | Valid(Machine(cfg), Init(cfg), acts) && StopPending(After(Machine(cfg), Init(cfg), acts)) ::
      exists a :: CanMove(cfg, After(Machine(cfg), Init(cfg), acts), a)
  }

  /** stop() waits for room in a queue nobody will ever drain. */
  predicate Stuck(cfg: Config, s: Server) {
    && s.stopper.Sending? && s.stopper.i < cfg.requested && !s.running && |s.queue| >= cfg.capacity
    && (forall w | 0 <= w < |s.loops| :: s.loops[w] == Exited)
    && (forall w | 0 <= w < |s.procs.workers| :: s.procs.workers[w].Idle?)
  }

  lemma StuckStep(cfg: Config, s: Server, a: Action)
    requires Stuck(cfg, s) && Can(cfg, s, a)
    ensures !ServerSide(a) && Stuck(cfg, Do(cfg, s, a))
  {
  }

  /** Stuck is for ever: whatever the clients do, the server never moves again. */
  lemma {:induction false} StuckForever(cfg: Config, s: Server, acts: seq<Action>)
    requires Stuck(cfg, s) && Valid(Machine(cfg), s, acts)
    ensures Stuck(cfg, After(Machine(cfg), s, acts)) && forall a | a in acts :: !ServerSide(a)
    decreases |acts|
  {
    if acts != [] {
      StuckStep(cfg, s, acts[0]);
      StuckForever(cfg, Do(cfg, s, acts[0]), acts[1..]);
      assert acts == [acts[0]] + acts[1..];
    }
  }

  /** No worker is about to receive or has just received. */
  predicate Busy(s: Server) {
    forall w | 0 <= w < |s.loops| :: !s.loops[w].Receiving? && !s.loops[w].Testing?
  }

  lemma BusyStep(cfg: Config, s: Server, a: Action)
    requires Busy(s) && !s.running && Can(cfg, s, a) && (a.Micro? || Moved(a).Some?) && !a.Test?
    ensures var t := Do(cfg, s, a); Busy(t) && t.queue == s.queue && t.stopper == s.stopper
  {
  }

  /** Busy workers finish what they have in hand and leave without receiving anything. */
  lemma {:induction false} BusyLeave(cfg: Config, s: Server) returns (acts: seq<Action>)
    requires WellFormed(cfg) && Orderly(cfg, s) && Busy(s) && !s.running
    ensures Valid(Machine(cfg), s, acts)
    ensures var t := After(Machine(cfg), s, acts);
            && Orderly(cfg, t) && t.queue == s.queue && t.stopper == s.stopper && !t.running
            && forall w | 0 <= w < |t.loops| :: t.loops[w] == Exited
    decreases Rank(cfg, s)
  {
    if forall w | 0 <= w < |s.loops| :: s.loops[w] == Exited {
      acts := [];
    } else {
      var w :| 0 <= w < |s.loops| && s.loops[w] != Exited;
      var a := WorkerMoves(cfg, s, w);
      ActionDescends(cfg, s, a);
      BusyStep(cfg, s, a);
      OrderlyStep(cfg, s, a);
      var t := Do(cfg, s, a);
      var rest := BusyLeave(cfg, t);
      acts := [a] + rest;
      assert acts[0] == a && acts[1..] == rest;
    }
  }

  /** stop() sends sentinels until the queue is full. */
  lemma {:induction false} FillUp(cfg: Config, s: Server) returns (acts: seq<Action>)
    requires s.stopper.Sending? && s.stopper.i < cfg.requested && !s.running
    requires |s.queue| + cfg.requested - s.stopper.i > cfg.capacity
    requires forall w | 0 <= w < |s.loops| :: s.loops[w] == Exited
    requires forall w | 0 <= w < |s.procs.workers| :: s.procs.workers[w].Idle?
    ensures Valid(Machine(cfg), s, acts) && Stuck(cfg, After(Machine(cfg), s, acts))
    decreases cfg.requested - s.stopper.i
  {
    if |s.queue| >= cfg.capacity {
      acts := [];
    } else {
      EnqueueSum(s.queue, SentinelMessage(), OfMessage(0));
      var t := Machine(cfg).next(s, StopSend);
      var rest := FillUp(cfg, t);
      acts := [StopSend] + rest;
      assert acts[0] == StopSend && acts[1..] == rest;
    }
  }

  /** The bound is tight from every state: if stop() still has sentinels to send, all workers are busy, and
      the messages queued and the sentinels to come exceed the capacity, then a run gets stuck for ever. */
  lemma BusyGetsStuck(cfg: Config, s: Server) returns (acts: seq<Action>)
    requires WellFormed(cfg) && Orderly(cfg, s) && Busy(s) && !s.running
    requires s.stopper.Sending? && s.stopper.i < cfg.requested && |s.queue| + cfg.requested - s.stopper.i > cfg.capacity
    ensures Valid(Machine(cfg), s, acts) && Stuck(cfg, After(Machine(cfg), s, acts))
  {
    acts := BusyLeave(cfg, s);
    var t := After(Machine(cfg), s, acts);
    forall w | 0 <= w < |t.procs.workers| ensures t.procs.workers[w].Idle? {
      assert Serves(t.loops[w], t.procs.workers[w]);
    }
    var more := FillUp(cfg, t);
    Compose(Machine(cfg), s, acts, more);
    acts := acts + more;
  }

  /** stop() begins before any worker has looked at running_, and n clients send. */
  lemma {:induction false} SendMany(cfg: Config, n: nat) returns (acts: seq<Action>)
    requires n <= |cfg.clients| && n <= cfg.capacity
    ensures Valid(Machine(cfg), Init(cfg), acts)
    ensures var s := After(Machine(cfg), Init(cfg), acts);
            && !s.running && s.stopper == Sending(0) && |s.queue| == n && s.loops == Init(cfg).loops
            && |s.clients| == |cfg.clients| && forall c | n <= c < |s.clients| :: s.clients[c].Ready?
  {
    if n == 0 {
      acts := [StopBegin];
      assert acts[1..] == [];
    } else {
      acts := SendMany(cfg, n - 1);
      var s := After(Machine(cfg), Init(cfg), acts);
      var a := ClientSend(n - 1, List, "");
      Extend(Machine(cfg), Init(cfg), acts, a);
      acts := acts + [a];
      EnqueueSum(s.queue, Message(0, MakeRequest(s.clients[n - 1].nextId, cfg.clients[n - 1], List, "")), OfMessage(0));
    }
  }

  /** stop() waits to join the one worker of a pool for which no worker was requested, and the worker sleeps. */
  predicate Asleep(cfg: Config, s: Server) {
    && cfg.requested == 0 && !s.running && s.stopper == Joining(0) && s.loops == [Receiving] && s.queue == []
    && s.quitLock == None && s.procs.workers == [W.Idle]
  }

  predicate Wakes(a: Action) {
    a.ClientSend? || a.ReceiveFails?
  }

  /** It sleeps on, and the server does nothing, until a client sends or the receive fails. */
  lemma {:induction false} SleepsOn(cfg: Config, s: Server, acts: seq<Action>)
    requires Asleep(cfg, s) && Valid(Machine(cfg), s, acts) && forall a | a in acts :: !Wakes(a)
    ensures Asleep(cfg, After(Machine(cfg), s, acts)) && forall a | a in acts :: !ServerSide(a)
    decreases |acts|
  {
    if acts != [] {
      assert acts[0] in acts;
      SleepsOn(cfg, Do(cfg, s, acts[0]), acts[1..]);
      assert acts == [acts[0]] + acts[1..];
    }
  }

  /** A worker woken by a message leaves its loop. */
  lemma LeavesByMessage(cfg: Config, s: Server) returns (acts: seq<Action>)
    requires !s.running && s.stopper == Joining(0) && s.quitLock == None && s.procs.workers == [W.Idle]
    requires s.loops == [Receiving] && s.queue != []
    ensures Valid(Machine(cfg), s, acts)
    ensures After(Machine(cfg), s, acts).loops == [Exited] && After(Machine(cfg), s, acts).stopper == Joining(0)
  {
    var m := Machine(cfg);
    var got := Do(cfg, s, Receive(0));
    var quit := Do(cfg, got, Test(0));
    acts := [QuitAcquire(0)];
    assert acts[1..] == [];
    Extend(m, quit, acts, QuitRelease(0));
    acts := Prepend(m, got, Test(0), acts + [QuitRelease(0)]);
    acts := Prepend(m, s, Receive(0), acts);
  }

  lemma JoinsLast(cfg: Config, s: Server, acts: seq<Action>) returns (all: seq<Action>)
    requires Valid(Machine(cfg), s, acts)
    requires After(Machine(cfg), s, acts).loops == [Exited] && After(Machine(cfg), s, acts).stopper == Joining(0)
    ensures Valid(Machine(cfg), s, all) && After(Machine(cfg), s, all).stopper == Stopped
  {
    Extend(Machine(cfg), s, acts, StopJoin);
    all := acts + [StopJoin];
    Extend(Machine(cfg), s, all, StopClose);
    all := all + [StopClose];
  }

  /** Either of the two lets stop() return. */
  lemma WokenStops(cfg: Config, s: Server, a: Action) returns (acts: seq<Action>)
    requires Asleep(cfg, s) && Can(cfg, s, a) && Wakes(a)
    ensures Valid(Machine(cfg), s, [a] + acts) && After(Machine(cfg), s, [a] + acts).stopper == Stopped
  {
    var m := Machine(cfg);
    if a.ClientSend? {
      EnqueueSum(s.queue, Message(0, MakeRequest(s.clients[a.c].nextId, cfg.clients[a.c], a.command, a.seat)), OfMessage(0));
      acts := LeavesByMessage(cfg, Do(cfg, s, a));
    } else {
      acts := [RecheckRunning(0)];
      assert acts[1..] == [];
    }
    acts := JoinsLast(cfg, Do(cfg, s, a), acts);
    var _ := Prepend(m, s, a, acts);
  }

  /** With no sentinel to send, a run leaves the worker asleep in mq_receive while stop() waits to join it. */
  lemma NoSentinels(cfg: Config) returns (acts: seq<Action>)
    requires WellFormed(cfg) && cfg.requested == 0
    ensures Valid(Machine(cfg), Init(cfg), acts)
    ensures var s := After(Machine(cfg), Init(cfg), acts);
            Asleep(cfg, s) && StopPending(s) && forall a :: !CanMove(cfg, s, a)
  {
    var m := Machine(cfg);
    acts := [LoadRunning(0)];
    assert acts[1..] == [];
    Extend(m, Init(cfg), acts, StopBegin);
    acts := acts + [StopBegin];
    Extend(m, Init(cfg), acts, StopSend);
    acts := acts + [StopSend];
    var s := After(m, Init(cfg), acts);
    assert s.loops == [Receiving] && s.stopper == Joining(0) && s.queue == [] && s.procs == W.Init(cfg.work);
  }

  /** The exact condition: stop() is sure to finish if and only if at least one worker was requested and the
      queue has room for one message of every client and one sentinel for every worker. */
  lemma ExactCondition(cfg: Config)
    requires WellFormed(cfg)
    ensures StopAlwaysFinishes(cfg) <==> cfg.requested >= 1 && |cfg.clients| + cfg.requested <= cfg.capacity
  {
    if cfg.requested >= 1 && |cfg.clients| + cfg.requested <= cfg.capacity {
      forall acts | Valid(Machine(cfg), Init(cfg), acts) && StopPending(After(Machine(cfg), Init(cfg), acts))
        ensures exists a :: CanMove(cfg, After(Machine(cfg), Init(cfg), acts), a)
      {
        AlwaysOrderly(cfg, acts);
        var a := StopMoves(cfg, After(Machine(cfg), Init(cfg), acts));
        assert CanMove(cfg, After(Machine(cfg), Init(cfg), acts), a);
      }
    } else if cfg.requested == 0 {
      var acts := NoSentinels(cfg);
    } else {
      var n := if |cfg.clients| < cfg.capacity then |cfg.clients| else cfg.capacity;
      var acts := SendMany(cfg, n);
      AlwaysOrderly(cfg, acts);
      var more := BusyGetsStuck(cfg, After(Machine(cfg), Init(cfg), acts));
      Compose(Machine(cfg), Init(cfg), acts, more);
      var s := After(Machine(cfg), Init(cfg), acts + more);
      forall a | Can(cfg, s, a) ensures !ServerSide(a) {
        StuckStep(cfg, s, a);
      }
      assert StopPending(s) && forall a :: !CanMove(cfg, s, a);
    }
  }

  /** Under that condition, whenever stop() has begun and the server cannot move any more, it has returned; by
      StopTerminates every run gets there. */
  lemma StopReturns(cfg: Config, acts: seq<Action>)
    requires WellFormed(cfg) && cfg.requested >= 1 && |cfg.clients| + cfg.requested <= cfg.capacity
    requires Valid(Machine(cfg), Init(cfg), acts)
    requires var s := After(Machine(cfg), Init(cfg), acts); !s.running && forall a :: !CanMove(cfg, s, a)
    ensures After(Machine(cfg), Init(cfg), acts).stopper == Stopped
  {
    AlwaysOrderly(cfg, acts);
    var s := After(Machine(cfg), Init(cfg), acts);
    if s.stopper != Stopped {
      var a := StopMoves(cfg, s);
    }
  }

  /** A finished stop() has joined every worker, and no request is left half done. */
  lemma StoppedMeansJoined(cfg: Config, acts: seq<Action>)
    requires WellFormed(cfg) && Valid(Machine(cfg), Init(cfg), acts)
    requires After(Machine(cfg), Init(cfg), acts).stopper == Stopped
    ensures var s := After(Machine(cfg), Init(cfg), acts);
            && |s.loops| == cfg.work.workers && (forall w | 0 <= w < |s.loops| :: s.loops[w] == Exited)
            && forall w | 0 <= w < |s.procs.workers| :: s.procs.workers[w].Idle?
  {
    AlwaysOrderly(cfg, acts);
    var s := After(Machine(cfg), Init(cfg), acts);
    forall w | 0 <= w < |s.procs.workers| ensures s.procs.workers[w].Idle? {
      assert Serves(s.loops[w], s.procs.workers[w]);
    }
  }
}
