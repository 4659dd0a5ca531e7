/** g_log_mutex nests inside reservation_mutex_ and never the other way round: no run gets stuck, and every
    run over finitely many requests ends. */
module Termination {
  import opened Wrappers
  import opened Commands
  import opened Seats
  import opened Messages
  import opened Runs
  import opened Sums
  import opened Workers
  import opened Discipline
  import opened Theorems

  /** How many micro-steps a job still has at most, on a table of n seats, plus the reply. */
  function Remaining(n: nat, j: Job): nat {
    match j.pc
    case LogEntry => if j.logging then 2 * n + 24 else 2 * n + 25
    case Lock => 2 * n + 23
    case CopyStatus(i) => if i < n then 6 + 2 * (n - i) else 6
    case CopyOwner(i) => if i < n then 5 + 2 * (n - i) else 5
    case ReadStatus => 22
    case ReadOwner => 21
    case LogCheck => if j.logging then 19 else 20
    case GuardStatus => 18
    case GuardOwner => 17
    case Delay => 16
    case LogDelay => if j.logging then 14 else 15
    case SeatTest => 13
    case SeatTestOwner => 12
    case WriteStatus => 11
    case WriteOwner => 10
    case Unlock => 5
    case LogUpdate => if j.logging then 3 else 4
    case Build => 2
    case Done => 1
  }

  function WorkLeft(n: nat, k: Worker): nat {
    if k.Active? then Remaining(n, k.job) else 0
  }

  function WorkOf(n: nat): Worker -> nat {
    (k: Worker) => WorkLeft(n, k)
  }

  function Work(s: State): nat {
    Sum(s.workers, WorkOf(|s.mem.table|))
  }

  /** Copies in progress are where get_all_seats and get_seat can really be. */
  predicate WellPlaced(n: nat, k: Worker) {
    k.Active? ==> match k.job.pc
                  case CopyStatus(i) => i == |k.job.loc.list| <= n
                  case CopyOwner(i) => i < n && i + 1 == |k.job.loc.list|
                  case ReadOwner => k.job.loc.snap.Some?
                  case LogEntry => k.job.loc.list == []
                  case Lock => k.job.loc.list == []
                  case _ => true
  }

  lemma ReserveStepDescends(cfg: Config, m: Shared, j: Job, i: nat)
    requires Fits(j.req.command, j.pc) && OnSeat(j.pc) && j.pc != ReadStatus && j.pc != ReadOwner
    requires j.req.command == Reserve && i < |m.table|
    ensures Remaining(|m.table|, ReserveStep(cfg, m, j, i).job) < Remaining(|m.table|, j)
  {
  }

  lemma CancelStepDescends(cfg: Config, m: Shared, j: Job, i: nat)
    requires OnSeat(j.pc) && j.pc != ReadStatus && j.pc != ReadOwner && i < |m.table|
    ensures Remaining(|m.table|, CancelStep(cfg, m, j, i).job) < Remaining(|m.table|, j)
  {
  }

  lemma SeatStepDescends(cfg: Config, m: Shared, j: Job)
    requires Fits(j.req.command, j.pc) && OnSeat(j.pc) && WellPlaced(|m.table|, Active(j))
    ensures Remaining(|m.table|, SeatStep(cfg, m, j).job) < Remaining(|m.table|, j)
    ensures WellPlaced(|m.table|, Active(SeatStep(cfg, m, j).job))
  {
    var i := Find(m.table, Key(j.req));
    if i.Some? && j.pc != ReadStatus && j.pc != ReadOwner {
      if j.req.command == Reserve {
        ReserveStepDescends(cfg, m, j, i.value);
      } else {
        CancelStepDescends(cfg, m, j, i.value);
      }
    }
  }

  lemma CopyStepDescends(cfg: Config, m: Shared, j: Job)
    requires (j.pc.CopyStatus? || j.pc.CopyOwner?) && WellPlaced(|m.table|, Active(j))
    ensures Remaining(|m.table|, CopyStep(cfg, m, j).job) < Remaining(|m.table|, j)
    ensures WellPlaced(|m.table|, Active(CopyStep(cfg, m, j).job))
  {
  }

  /** Every step of a job brings it closer to its reply. */
  lemma StepDescends(cfg: Config, m: Shared, w: nat, j: Job)
    requires Fits(j.req.command, j.pc) && j.pc != Done && WellPlaced(|m.table|, Active(j))
    ensures Remaining(|m.table|, Step(cfg, m, w, j).job) < Remaining(|m.table|, j)
    ensures WellPlaced(|m.table|, Active(Step(cfg, m, w, j).job))
  {
    if OnSeat(j.pc) {
      SeatStepDescends(cfg, m, j);
    } else if j.pc.CopyStatus? || j.pc.CopyOwner? {
      CopyStepDescends(cfg, m, j);
    }
  }

  ghost predicate Placed(s: State) {
    forall w | 0 <= w < |s.workers| :: WellPlaced(|s.mem.table|, s.workers[w])
  }

  /** The price of one request. */
  function Price(cfg: Config): nat {
    2 * |cfg.seatIds| + 26
  }

  lemma MicroCost(cfg: Config, s: State, w: nat)
    requires Shape(cfg, s) && Placed(s) && Can(cfg, s, Micro(w))
    ensures var t := Do(cfg, s, Micro(w));
            Placed(t) && |t.mem.table| == |s.mem.table| && t.begun == s.begun && Work(t) < Work(s)
  {
    var j := s.workers[w].job;
    assert WorkerFits(s.workers[w]) && WellPlaced(|s.mem.table|, s.workers[w]);
    StepIds(cfg, s.mem, w, j);
    StepDescends(cfg, s.mem, w, j);
    SumUpdate(s.workers, w, Active(Step(cfg, s.mem, w, j).job), WorkOf(|s.mem.table|));
  }

  /** Every action uses up work, and only receiving a request brings new work. */
  lemma ActionCost(cfg: Config, s: State, a: Action)
    requires Shape(cfg, s) && Placed(s) && Can(cfg, s, a)
    ensures var t := Do(cfg, s, a);
            && Placed(t) && |t.mem.table| == |s.mem.table|
            && (if a.Begin? then |t.begun| == |s.begun| + 1 && Work(t) + 1 <= Work(s) + Price(cfg)
                else t.begun == s.begun && Work(t) < Work(s))
  {
    if a.Micro? {
      MicroCost(cfg, s, a.w);
    } else {
      assert |s.mem.table| == |Ids(s.mem.table)|;
      SumUpdate(s.workers, a.w, Do(cfg, s, a).workers[a.w], WorkOf(|s.mem.table|));
    }
  }

  /** What the requests received so far have paid for. */
  function Paid(cfg: Config, s: State): nat {
    Price(cfg) * |s.begun|
  }

  lemma PaidOnce(cfg: Config, s: State, t: State)
    requires |t.begun| == |s.begun| + 1
    ensures Paid(cfg, t) == Paid(cfg, s) + Price(cfg)
  {
    var p, n := Price(cfg), |s.begun|;
    assert p * (n + 1) == p * n + p;
  }

  lemma StepCost(cfg: Config, s: State, a: Action)
    requires Shape(cfg, s) && Placed(s) && Can(cfg, s, a)
    ensures var t := Do(cfg, s, a); Placed(t) && Work(t) + 1 + Paid(cfg, s) <= Work(s) + Paid(cfg, t)
  {
    ActionCost(cfg, s, a);
    if a.Begin? {
      PaidOnce(cfg, s, Do(cfg, s, a));
    }
  }

  /** Termination: however the workers interleave, a run is at most Price times as long as the number of
      requests it receives, so it cannot go on forever without new requests. */
  lemma {:induction false} RunCost(cfg: Config, s: State, acts: seq<Action>)
    requires Safe(cfg, s) && Placed(s) && Valid(Machine(cfg), s, acts)
    ensures var t := After(Machine(cfg), s, acts);
            Work(t) + |acts| + Paid(cfg, s) <= Work(s) + Paid(cfg, t)
    decreases |acts|
  {
    if acts != [] {
      SafeStep(cfg, s, acts[0]);
      StepCost(cfg, s, acts[0]);
      RunCost(cfg, Do(cfg, s, acts[0]), acts[1..]);
    }
  }

  lemma RunsEnd(cfg: Config, acts: seq<Action>)
    requires Valid(Machine(cfg), Init(cfg), acts)
    ensures |acts| <= Price(cfg) * |After(Machine(cfg), Init(cfg), acts).begun|
  {
    InitShape(cfg);
    SumZero(Init(cfg).workers, WorkOf(|cfg.seatIds|));
    RunCost(cfg, Init(cfg), acts);
  }

  /** The worker whose step is possible: w itself, or the holder of a mutex it waits for, or the holder of
      the log mutex that holder waits for. */
  lemma SomeoneSteps(cfg: Config, s: State, w: nat) returns (v: nat)
    requires Shape(cfg, s) && Runnable(s, w)
    ensures Can(cfg, s, Micro(v))
  {
    v := w;
    if cfg.sync && s.workers[v].job.pc == Lock && s.mem.lock.Some? {
      v := s.mem.lock.value;
      assert Holds(cfg, s.workers[v]);
    }
    if IsLog(s.workers[v].job.pc) && !s.workers[v].job.logging && s.mem.logLock.Some? {
      v := s.mem.logLock.value;
      assert Logging(s.workers[v]) && WorkerFits(s.workers[v]);
    }
  }

  /** Deadlock freedom: in every reachable state with an unfinished request some worker can take a step. */
  lemma DeadlockFree(cfg: Config, acts: seq<Action>)
    requires Valid(Machine(cfg), Init(cfg), acts)
    ensures var s := After(Machine(cfg), Init(cfg), acts);
            (exists w :: Runnable(s, w)) ==> exists v :: Can(cfg, s, Micro(v))
  {
    Reachable(cfg, acts);
    var s := After(Machine(cfg), Init(cfg), acts);
    if w :| Runnable(s, w) {
      var v := SomeoneSteps(cfg, s, w);
    }
  }
}
