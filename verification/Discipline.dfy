/** What every run of the workers keeps, whatever the configuration: who is where, who holds which mutex,
    and which ticket belongs to whom. */
module Discipline {
  import opened Wrappers
  import opened Commands
  import opened Seats
  import opened Messages
  import opened Workers

  /** The program points each command passes. */
  predicate Fits(c: CommandType, pc: Pc) {
    match pc
    case LogEntry => !Updates(c) && c != Unknown
    case Lock => TakesLock(c)
    case Unlock => TakesLock(c)
    case ReadStatus => NamesSeat(c)
    case ReadOwner => NamesSeat(c)
    case CopyStatus(_) => c == List
    case CopyOwner(_) => c == List
    case GuardOwner => c == Cancel
    case SeatTestOwner => c == Cancel
    case Build => true
    case Done => true
    case _ => Updates(c)
  }

  /** Between scoped_lock's constructor and destructor. */
  predicate Critical(pc: Pc) {
    pc != LogEntry && pc != Lock && pc != LogUpdate && pc != Build && pc != Done
  }

  predicate Holds(cfg: Config, k: Worker) {
    cfg.sync && k.Active? && Critical(k.job.pc)
  }

  predicate Logging(k: Worker) {
    k.Active? && k.job.logging
  }

  predicate WorkerFits(k: Worker) {
    k.Active? ==> Fits(k.job.req.command, k.job.pc) && (k.job.logging ==> IsLog(k.job.pc))
  }

  /** The seats stay in place; each mutex is held by exactly the worker inside its scope. */
  ghost predicate Shape(cfg: Config, s: State) {
    && |s.workers| == cfg.workers
    && Ids(s.mem.table) == cfg.seatIds
    && (forall w | 0 <= w < |s.workers| :: WorkerFits(s.workers[w]))
    && (forall w | 0 <= w < |s.workers| :: Holds(cfg, s.workers[w]) <==> s.mem.lock == Some(w))
    && (forall w | 0 <= w < |s.workers| :: Logging(s.workers[w]) <==> s.mem.logLock == Some(w))
    && (s.mem.lock.Some? ==> s.mem.lock.value < |s.workers|)
    && (s.mem.logLock.Some? ==> s.mem.logLock.value < |s.workers|)
  }

  lemma InitShape(cfg: Config)
    ensures Shape(cfg, Init(cfg))
  {
  }

  predicate OnSeat(pc: Pc) {
    Critical(pc) && !IsLog(pc) && pc != Delay && pc != Unlock && !pc.CopyStatus? && !pc.CopyOwner?
  }

  lemma ReserveStepFits(cfg: Config, m: Shared, j: Job, i: nat)
    requires Fits(j.req.command, j.pc) && OnSeat(j.pc) && Updates(j.req.command) && i < |m.table|
    ensures Fits(j.req.command, ReserveStep(cfg, m, j, i).job.pc)
  {
  }

  lemma CancelStepFits(cfg: Config, m: Shared, j: Job, i: nat)
    requires Fits(j.req.command, j.pc) && OnSeat(j.pc) && j.req.command == Cancel && i < |m.table|
    ensures Fits(j.req.command, CancelStep(cfg, m, j, i).job.pc)
  {
  }

  lemma SeatStepFits(cfg: Config, m: Shared, j: Job)
    requires Fits(j.req.command, j.pc) && OnSeat(j.pc)
    ensures Fits(j.req.command, SeatStep(cfg, m, j).job.pc)
  {
    var i := Find(m.table, Key(j.req));
    if i.Some? && j.pc != ReadStatus && j.pc != ReadOwner {
      if j.req.command == Reserve {
        ReserveStepFits(cfg, m, j, i.value);
      } else {
        CancelStepFits(cfg, m, j, i.value);
      }
    }
  }

  /** A step keeps a job on its command's path. */
  lemma StepFits(cfg: Config, m: Shared, w: nat, j: Job)
    requires Fits(j.req.command, j.pc) && j.pc != Done
    ensures Fits(j.req.command, Step(cfg, m, w, j).job.pc)
  {
    if OnSeat(j.pc) {
      SeatStepFits(cfg, m, j);
      assert Step(cfg, m, w, j) == SeatStep(cfg, m, j);
    } else {
      assert IsLog(j.pc) || j.pc.CopyStatus? || j.pc.CopyOwner? || j.pc == Lock || j.pc == Delay || j.pc == Unlock || j.pc == Build;
    }
  }

  lemma SeatStepScope(cfg: Config, m: Shared, j: Job)
    requires Fits(j.req.command, j.pc) && OnSeat(j.pc)
    ensures Critical(SeatStep(cfg, m, j).job.pc)
  {
  }

  /** A job enters the critical section by Lock and leaves it by Unlock. */
  lemma StepScope(cfg: Config, m: Shared, w: nat, j: Job)
    requires Fits(j.req.command, j.pc) && j.pc != Done
    ensures Critical(Step(cfg, m, w, j).job.pc) <==> j.pc == Lock || (Critical(j.pc) && j.pc != Unlock)
  {
    if OnSeat(j.pc) {
      SeatStepScope(cfg, m, j);
      assert Step(cfg, m, w, j) == SeatStep(cfg, m, j);
    }
  }

  /** What a single step does to the mutexes. */
  lemma StepLocks(cfg: Config, m: Shared, w: nat, j: Job)
    requires j.pc != Done && (j.logging ==> IsLog(j.pc))
    ensures var r := Step(cfg, m, w, j);
            && r.mem.lock == (if cfg.sync && j.pc == Lock then Some(w) else if cfg.sync && j.pc == Unlock then None else m.lock)
            && r.mem.logLock == (if !IsLog(j.pc) then m.logLock else if j.logging then None else Some(w))
            && (if IsLog(j.pc) && !j.logging then r.job == j.(logging := true) else !r.job.logging)
  {
  }

  /** The table changes only in status_ and owner_client_id_ of the seat the job names, inside the critical
      section of a RESERVE or CANCEL. */
  lemma StepTable(cfg: Config, m: Shared, w: nat, j: Job)
    requires Fits(j.req.command, j.pc) && j.pc != Done
    ensures var t := Step(cfg, m, w, j).mem.table;
            t == m.table
            || (Critical(j.pc) && Updates(j.req.command)
                && var i := Find(m.table, Key(j.req));
                   i.Some? && t == m.table[i.value := t[i.value]] && t[i.value].id == m.table[i.value].id)
  {
  }

  lemma StepIds(cfg: Config, m: Shared, w: nat, j: Job)
    requires Fits(j.req.command, j.pc) && j.pc != Done
    ensures Ids(Step(cfg, m, w, j).mem.table) == Ids(m.table)
  {
    StepTable(cfg, m, w, j);
    var t := Step(cfg, m, w, j).mem.table;
    if t != m.table {
      var i := Find(m.table, Key(j.req)).value;
      IdsKept(m.table, i, t[i]);
    }
  }

  lemma KeepsShapeMicro(cfg: Config, s: State, w: nat)
    requires Shape(cfg, s) && Can(cfg, s, Micro(w))
    ensures Shape(cfg, Do(cfg, s, Micro(w)))
  {
    var j := s.workers[w].job;
    assert WorkerFits(s.workers[w]);
    StepFits(cfg, s.mem, w, j);
    StepScope(cfg, s.mem, w, j);
    StepLocks(cfg, s.mem, w, j);
    StepIds(cfg, s.mem, w, j);
  }

  lemma KeepsShape(cfg: Config, s: State, a: Action)
    requires Shape(cfg, s) && Can(cfg, s, a)
    ensures Shape(cfg, Do(cfg, s, a))
  {
    if a.Micro? {
      KeepsShapeMicro(cfg, s, a.w);
    }
  }

  /** A job's answer is fixed: it has left the critical section, or built a response that needs none. */
  predicate Committed(j: Job) {
    j.pc == LogUpdate || j.pc == Done || (j.pc == Build && TakesLock(j.req.command))
  }

  /** The history entry a step makes, if it makes one. */
  function NewEntries(j: Job): seq<Entry> {
    if j.pc == Unlock || (j.pc == Build && !TakesLock(j.req.command)) then [EntryOf(j)] else []
  }

  /** A step appends to hist exactly when it commits the job, and leaves a committed job's locals alone. */
  lemma StepHist(cfg: Config, m: Shared, w: nat, j: Job)
    requires Fits(j.req.command, j.pc) && j.pc != Done && (j.logging ==> IsLog(j.pc))
    ensures var r := Step(cfg, m, w, j);
            && r.mem.hist == m.hist + NewEntries(j)
            && (Committed(r.job) <==> Committed(j) || NewEntries(j) != [])
            && (Committed(r.job) ==> r.job.loc == j.loc)
  {
  }

  /** An entry of the history against the requests received so far. */
  predicate EntryFits(begun: seq<Request>, i: nat, e: Entry) {
    e.ticket < |begun| && e.req == begun[e.ticket] && e.loc.born <= i && e.resp == Respond(e.req, e.loc)
  }

  predicate TicketFits(begun: seq<Request>, hist: seq<Entry>, k: Worker) {
    k.Active? ==>
      && k.job.ticket < |begun| && k.job.req == begun[k.job.ticket] && k.job.loc.born <= |hist|
      && (if Committed(k.job) then EntryOf(k.job) in hist else forall e | e in hist :: e.ticket != k.job.ticket)
  }

  /** Every request received gets one ticket, is worked on by at most one worker and enters the history at
      most once: exactly when it is committed. Only committed requests are ever answered. */
  ghost predicate Tickets(s: State) {
    && (forall i | 0 <= i < |s.mem.hist| :: EntryFits(s.begun, i, s.mem.hist[i]))
    && (forall i, j | 0 <= i < j < |s.mem.hist| :: s.mem.hist[i].ticket != s.mem.hist[j].ticket)
    && (forall w | 0 <= w < |s.workers| :: TicketFits(s.begun, s.mem.hist, s.workers[w]))
    && (forall v, w | 0 <= v < w < |s.workers| && s.workers[v].Active? && s.workers[w].Active? ::
          s.workers[v].job.ticket != s.workers[w].job.ticket)
    && (forall t | t in s.ended :: exists i :: 0 <= i < |s.mem.hist| && s.mem.hist[i].ticket == t)
  }

  lemma KeepsTicketsMicro(cfg: Config, s: State, w: nat)
    requires Shape(cfg, s) && Tickets(s) && Can(cfg, s, Micro(w))
    ensures Tickets(Do(cfg, s, Micro(w)))
  {
    var j := s.workers[w].job;
    assert WorkerFits(s.workers[w]);
    assert TicketFits(s.begun, s.mem.hist, s.workers[w]);
    StepHist(cfg, s.mem, w, j);
    var t := Do(cfg, s, Micro(w));
    forall v | 0 <= v < |t.workers| ensures TicketFits(t.begun, t.mem.hist, t.workers[v]) {
      assert TicketFits(s.begun, s.mem.hist, s.workers[v]);
    }
    forall x | x in t.ended ensures exists i :: 0 <= i < |t.mem.hist| && t.mem.hist[i].ticket == x {
      var i :| 0 <= i < |s.mem.hist| && s.mem.hist[i].ticket == x;
      assert t.mem.hist[i] == s.mem.hist[i];
    }
  }

  lemma KeepsTickets(cfg: Config, s: State, a: Action)
    requires Shape(cfg, s) && Tickets(s) && Can(cfg, s, a)
    ensures Tickets(Do(cfg, s, a))
  {
    match a
    case Micro(w) => KeepsTicketsMicro(cfg, s, w);
    case Begin(w, req) =>
      var t := Do(cfg, s, a);
      forall v | 0 <= v < |t.workers| ensures TicketFits(t.begun, t.mem.hist, t.workers[v]) {
        assert TicketFits(s.begun, s.mem.hist, s.workers[v]);
      }
      forall v | 0 <= v < |s.workers| && s.workers[v].Active? ensures s.workers[v].job.ticket < |s.begun| {
        assert TicketFits(s.begun, s.mem.hist, s.workers[v]);
      }
    case End(w) =>
      var t := Do(cfg, s, a);
      assert TicketFits(s.begun, s.mem.hist, s.workers[w]);
      assert EntryOf(s.workers[w].job) in s.mem.hist;
  }

  /** The delay lies between the guard and the test of the update, and is there exactly when it is switched on. */
  lemma StepDelay(cfg: Config, m: Shared, w: nat, j: Job)
    requires Fits(j.req.command, j.pc) && j.pc != Done
    ensures var r := Step(cfg, m, w, j);
            && (r.job.pc == Delay && j.pc != Delay ==> cfg.delay && (j.pc == GuardStatus || j.pc == GuardOwner))
            && (r.job.pc == SeatTest && j.pc != SeatTest ==>
                  if cfg.delay then j.pc == LogDelay && j.logging else j.pc == GuardStatus || j.pc == GuardOwner || j.pc == LogDelay)
  {
  }

  /** Every request received is in the hands of a worker or has been replied to. */
  ghost predicate Remembered(s: State) {
    forall t | 0 <= t < |s.begun| ::
      t in s.ended || exists w :: 0 <= w < |s.workers| && s.workers[w].Active? && s.workers[w].job.ticket == t
  }

  lemma KeepsRemembered(cfg: Config, s: State, a: Action)
    requires Remembered(s) && Can(cfg, s, a)
    ensures Remembered(Do(cfg, s, a))
  {
    var after := Do(cfg, s, a);
    forall t | 0 <= t < |after.begun| && t !in after.ended
      ensures exists w :: 0 <= w < |after.workers| && after.workers[w].Active? && after.workers[w].job.ticket == t
    {
      if t < |s.begun| {
        var w :| 0 <= w < |s.workers| && s.workers[w].Active? && s.workers[w].job.ticket == t;
        assert w != a.w || a.Micro?;
        assert after.workers[w].Active? && after.workers[w].job.ticket == t;
      } else {
        assert after.workers[a.w].Active? && after.workers[a.w].job.ticket == t;
      }
    }
  }
}
