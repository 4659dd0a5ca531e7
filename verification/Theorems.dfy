/** What the synchronized server guarantees over whole runs: any number of workers, any requests, every
    interleaving of the micro-steps. */
module Theorems {
  import opened Wrappers
  import opened Seats
  import opened Runs
  import opened Workers
  import opened Discipline
  import opened Linearizability

  ghost predicate Safe(cfg: Config, s: State) {
    Shape(cfg, s) && Tickets(s) && (cfg.sync ==> Linear(cfg, s))
  }

  lemma SafeStep(cfg: Config, s: State, a: Action)
    requires Safe(cfg, s) && Can(cfg, s, a)
    ensures Safe(cfg, Do(cfg, s, a))
  {
    KeepsShape(cfg, s, a);
    KeepsTickets(cfg, s, a);
    if cfg.sync {
      KeepsLinear(cfg, s, a);
    }
  }

  lemma Reachable(cfg: Config, acts: seq<Action>)
    requires Valid(Machine(cfg), Init(cfg), acts)
    ensures Safe(cfg, After(Machine(cfg), Init(cfg), acts))
  {
    forall s, a | Safe(cfg, s) && Can(cfg, s, a) ensures Safe(cfg, Do(cfg, s, a)) {
      SafeStep(cfg, s, a);
    }
    InitShape(cfg);
    Always(Machine(cfg), (s: State) => Safe(cfg, s), Init(cfg), acts);
  }

  /** Linearizability: the history is a sequential execution of requests received, each at most once; it
      contains the answer of every request that is finished or has already been replied to; and it accounts for the whole table whenever
      nobody is inside the critical section. */
  lemma Linearizable(cfg: Config, acts: seq<Action>)
    requires cfg.sync && Valid(Machine(cfg), Init(cfg), acts)
    ensures var s := After(Machine(cfg), Init(cfg), acts);
            && Sequential(FreshTable(cfg.seatIds), s.mem.hist)
            && (s.mem.lock == None ==> s.mem.table == Replay(FreshTable(cfg.seatIds), s.mem.hist))
            && (forall w | 0 <= w < |s.workers| && s.workers[w].Active? && s.workers[w].job.pc == Done ::
                  EntryOf(s.workers[w].job) in s.mem.hist)
            && (forall t | t in s.ended :: exists i :: 0 <= i < |s.mem.hist| && s.mem.hist[i].ticket == t)
            && (forall e | e in s.mem.hist :: e.ticket < |s.begun| && e.req == s.begun[e.ticket])
            && (forall i, j | 0 <= i < j < |s.mem.hist| :: s.mem.hist[i].ticket != s.mem.hist[j].ticket)
  {
    Reachable(cfg, acts);
    var s := After(Machine(cfg), Init(cfg), acts);
    forall w | 0 <= w < |s.workers| && s.workers[w].Active? && s.workers[w].job.pc == Done
      ensures EntryOf(s.workers[w].job) in s.mem.hist
    {
      assert TicketFits(s.begun, s.mem.hist, s.workers[w]);
    }
    forall e | e in s.mem.hist ensures e.ticket < |s.begun| && e.req == s.begun[e.ticket] {
      var i :| 0 <= i < |s.mem.hist| && s.mem.hist[i] == e;
      assert EntryFits(s.begun, i, s.mem.hist[i]);
    }
  }

  /** No request is forgotten: each one received is being worked on, by exactly one worker, or has been replied to. */
  lemma NoneForgotten(cfg: Config, acts: seq<Action>, t: nat)
    requires Valid(Machine(cfg), Init(cfg), acts) && t < |After(Machine(cfg), Init(cfg), acts).begun|
    ensures var s := After(Machine(cfg), Init(cfg), acts);
            && (t in s.ended || exists w :: 0 <= w < |s.workers| && s.workers[w].Active? && s.workers[w].job.ticket == t)
            && forall v, w | 0 <= v < w < |s.workers| && s.workers[v].Active? && s.workers[w].Active? ::
                 s.workers[v].job.ticket != s.workers[w].job.ticket
  {
    forall s, a | Remembered(s) && Can(cfg, s, a) ensures Remembered(Do(cfg, s, a)) {
      KeepsRemembered(cfg, s, a);
    }
    Always(Machine(cfg), (s: State) => Remembered(s), Init(cfg), acts);
    Reachable(cfg, acts);
  }

  /** The history of a run only grows at its end. */
  lemma HistoryGrows(cfg: Config, s: State, acts: seq<Action>)
    requires Safe(cfg, s) && Valid(Machine(cfg), s, acts)
    ensures s.mem.hist <= After(Machine(cfg), s, acts).mem.hist
  {
    var inv := (t: State) => Safe(cfg, t) && s.mem.hist <= t.mem.hist;
    forall t, a | inv(t) && Can(cfg, t, a) ensures inv(Do(cfg, t, a)) {
      SafeStep(cfg, t, a);
      if a.Micro? {
        assert WorkerFits(t.workers[a.w]);
        StepHist(cfg, t.mem, a.w, t.workers[a.w].job);
      }
    }
    Always(Machine(cfg), inv, s, acts);
  }

  /** The order of the history respects real time: a request answered before another is received comes
      first, with or without synchronization. */
  lemma RealTimeOrder(cfg: Config, first: seq<Action>, second: seq<Action>, i: nat, j: nat)
    requires Valid(Machine(cfg), Init(cfg), first + second)
    requires var h := After(Machine(cfg), Init(cfg), first + second).mem.hist;
             var s := After(Machine(cfg), Init(cfg), first);
             i < |h| && j < |h| && h[i].ticket in s.ended && h[j].ticket >= |s.begun|
    ensures i < j
  {
    var m := Machine(cfg);
    Compose(m, Init(cfg), first, second);
    var s := After(m, Init(cfg), first);
    Reachable(cfg, first);
    Reachable(cfg, first + second);
    HistoryGrows(cfg, s, second);
    var h := After(m, Init(cfg), first + second).mem.hist;
    var k :| 0 <= k < |s.mem.hist| && s.mem.hist[k].ticket == h[i].ticket;
    assert h[k] == s.mem.hist[k];
    assert forall q | 0 <= q < |s.mem.hist| :: EntryFits(s.begun, q, s.mem.hist[q]) && h[q] == s.mem.hist[q];
  }

  /** One worker: the tickets come in order, and the only job not yet in the history is the newest. */
  ghost predicate OneAtATime(s: State) {
    && |s.workers| == 1
    && (forall i | 0 <= i < |s.mem.hist| :: s.mem.hist[i].ticket == i)
    && |s.begun| == |s.mem.hist| + (if s.workers[0].Active? && !Committed(s.workers[0].job) then 1 else 0)
    && (s.workers[0].Active? ==> s.workers[0].job.ticket == |s.begun| - 1)
  }

  lemma KeepsOneAtATime(cfg: Config, s: State, a: Action)
    requires Shape(cfg, s) && OneAtATime(s) && Can(cfg, s, a)
    ensures OneAtATime(Do(cfg, s, a))
  {
    if a.Micro? {
      assert WorkerFits(s.workers[0]);
      StepHist(cfg, s.mem, 0, s.workers[0].job);
    }
  }

  /** With a single worker the order of the history is the order of receipt. */
  lemma ReceiptOrder(cfg: Config, acts: seq<Action>)
    requires cfg.workers == 1 && Valid(Machine(cfg), Init(cfg), acts)
    ensures var s := After(Machine(cfg), Init(cfg), acts);
            |s.mem.hist| <= |s.begun| && forall i | 0 <= i < |s.mem.hist| :: s.mem.hist[i].req == s.begun[i]
  {
    var inv := (t: State) => Safe(cfg, t) && OneAtATime(t);
    forall t, a | inv(t) && Can(cfg, t, a) ensures inv(Do(cfg, t, a)) {
      SafeStep(cfg, t, a);
      KeepsOneAtATime(cfg, t, a);
    }
    InitShape(cfg);
    Always(Machine(cfg), inv, Init(cfg), acts);
    var s := After(Machine(cfg), Init(cfg), acts);
    forall i | 0 <= i < |s.mem.hist| ensures s.mem.hist[i].req == s.begun[i] {
      assert EntryFits(s.begun, i, s.mem.hist[i]);
    }
  }
}
