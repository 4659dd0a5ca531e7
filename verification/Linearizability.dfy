/** With synchronization on, every interleaving of the micro-steps answers and changes the table as if the
    requests ran one at a time, in the order of the history. */
module Linearizability {
  import opened Wrappers
  import opened Commands
  import opened Seats
  import opened Messages
  import opened Workers
  import opened Discipline

  /** The table after running the requests of a history one at a time. */
  function Replay(t: Table, h: seq<Entry>): Table {
    if h == [] then t else Apply(Replay(t, h[..|h| - 1]), h[|h| - 1].req).table
  }

  /** An entry is what its request does alone on table t: the answer, the copies taken on the way, the
      outcome of the check, and the update succeeding exactly when the check did. */
  predicate EntryOk(t: Table, e: Entry) {
    && e.resp == Apply(t, e.req).response
    && (e.req.command == List ==> e.loc.list == t)
    && (NamesSeat(e.req.command) ==> e.loc.snap == Lookup(t, Key(e.req)))
    && (e.req.command == Reserve ==>
          && e.loc.wasOk == (e.loc.snap.Some? && Free(e.loc.snap.value))
          && e.loc.success == (e.loc.wasOk && e.req.client != INVALID_CLIENT))
    && (e.req.command == Cancel ==>
          && e.loc.wasOk == (e.loc.snap.Some? && HeldBy(e.loc.snap.value, e.req.client))
          && e.loc.success == e.loc.wasOk)
  }

  /** The history is a sequential execution from table t. */
  ghost predicate Sequential(t: Table, h: seq<Entry>) {
    forall i | 0 <= i < |h| :: EntryOk(Replay(t, h[..i]), h[i])
  }

  lemma ReplayAppend(t: Table, h: seq<Entry>, e: Entry)
    ensures Replay(t, h + [e]) == Apply(Replay(t, h), e.req).table
  {
    assert (h + [e])[..|h|] == h;
  }

  lemma SequentialAppend(t: Table, h: seq<Entry>, e: Entry)
    requires Sequential(t, h) && EntryOk(Replay(t, h), e)
    ensures Sequential(t, h + [e])
  {
    var g := h + [e];
    forall i | 0 <= i < |g| ensures EntryOk(Replay(t, g[..i]), g[i]) {
      if i < |h| {
        assert g[..i] == h[..i];
      } else {
        assert g[..i] == h;
      }
    }
  }

  /** An entry that is what its request does on the replayed table extends the sequential history. */
  lemma AppendEntry(t: Table, h: seq<Entry>, e: Entry)
    requires Sequential(t, h) && EntryOk(Replay(t, h), e)
    ensures Sequential(t, h + [e]) && Replay(t, h + [e]) == Apply(Replay(t, h), e.req).table
  {
    SequentialAppend(t, h, e);
    ReplayAppend(t, h, e);
  }

  predicate Unread(loc: Locals) {
    loc.snap == None && loc.list == [] && !loc.wasOk && !loc.success
  }

  /** The seat has been read: the copy and the check are right, the update has not been made. */
  predicate HasRead(base: Table, j: Job) {
    && j.loc.snap == Lookup(base, Key(j.req))
    && j.loc.wasOk == Checked(j.req, j.loc.snap)
    && !j.loc.success
  }

  /** How far the request of the lock's holder has come, given the table base it found when it locked. */
  predicate Progress(base: Table, t: Table, j: Job) {
    var i := Find(base, Key(j.req));
    match j.pc
    case ReadStatus => t == base && Unread(j.loc)
    case ReadOwner =>
      t == base && i.Some? && j.loc.snap == Some(base[i.value].(owner := None)) && !j.loc.success
    case CopyStatus(k) => t == base && k <= |base| && j.loc.list == base[..k]
    case CopyOwner(k) => t == base && k < |base| && j.loc.list == base[..k] + [base[k].(owner := None)]
    case LogCheck => t == base && HasRead(base, j)
    case GuardStatus => t == base && HasRead(base, j) && i.Some?
    case GuardOwner => t == base && HasRead(base, j) && i.Some? && base[i.value].status == Reserved
    case WriteStatus =>
      t == base && HasRead(base, j) && j.loc.wasOk && (j.req.command == Reserve ==> j.req.client != INVALID_CLIENT)
    case WriteOwner =>
      && HasRead(base, j) && j.loc.wasOk && (j.req.command == Reserve ==> j.req.client != INVALID_CLIENT)
      && i.Some?
      && t == base[i.value := base[i.value].(status := if j.req.command == Reserve then Reserved else Available)]
    case Unlock => t == Apply(base, j.req).table && EntryOk(base, EntryOf(j))
    case _ => t == base && HasRead(base, j) && j.loc.wasOk
  }

  lemma ReadProgress(cfg: Config, base: Table, m: Shared, j: Job)
    requires NamesSeat(j.req.command) && Progress(base, m.table, j) && (j.pc == ReadStatus || j.pc == ReadOwner)
    ensures var r := SeatStep(cfg, m, j); Progress(base, r.mem.table, r.job)
  {
  }

  lemma ReserveProgress(cfg: Config, base: Table, m: Shared, j: Job)
    requires j.req.command == Reserve && Fits(Reserve, j.pc) && OnSeat(j.pc) && j.pc != ReadStatus && j.pc != ReadOwner
    requires Progress(base, m.table, j)
    ensures var r := SeatStep(cfg, m, j); Progress(base, r.mem.table, r.job)
  {
    var i := Find(base, Key(j.req)).value;
    assert j.pc == WriteOwner ==> Ids(m.table) == Ids(base);
  }

  lemma CancelProgress(cfg: Config, base: Table, m: Shared, j: Job)
    requires j.req.command == Cancel && OnSeat(j.pc) && j.pc != ReadStatus && j.pc != ReadOwner
    requires Progress(base, m.table, j)
    ensures var r := SeatStep(cfg, m, j); Progress(base, r.mem.table, r.job)
  {
    var i := Find(base, Key(j.req)).value;
    assert j.pc == WriteOwner ==> Ids(m.table) == Ids(base);
  }

  lemma CopyProgress(cfg: Config, base: Table, m: Shared, j: Job)
    requires j.req.command == List && Progress(base, m.table, j) && (j.pc.CopyStatus? || j.pc.CopyOwner?)
    ensures var r := CopyStep(cfg, m, j); Progress(base, r.mem.table, r.job)
  {
  }

  /** Inside the critical section each step of the holder brings it one step closer to Apply. */
  lemma StepProgress(cfg: Config, base: Table, m: Shared, w: nat, j: Job)
    requires Fits(j.req.command, j.pc) && Critical(j.pc) && j.pc != Unlock && Progress(base, m.table, j)
    ensures var r := Step(cfg, m, w, j); Progress(base, r.mem.table, r.job)
  {
    if OnSeat(j.pc) {
      if j.pc == ReadStatus || j.pc == ReadOwner {
        ReadProgress(cfg, base, m, j);
      } else if j.req.command == Reserve {
        ReserveProgress(cfg, base, m, j);
      } else {
        CancelProgress(cfg, base, m, j);
      }
    } else if j.pc.CopyStatus? || j.pc.CopyOwner? {
      CopyProgress(cfg, base, m, j);
    }
  }

  /** The history explains the shared memory: exactly when the mutex is free, and up to the holder's
      progress otherwise. */
  ghost predicate Explained(start: Table, m: Shared, holder: Option<Job>) {
    && Sequential(start, m.hist)
    && (match holder
        case None => m.table == Replay(start, m.hist)
        case Some(j) => Progress(Replay(start, m.hist), m.table, j))
  }

  lemma HolderStep(cfg: Config, start: Table, m: Shared, w: nat, j: Job)
    requires Fits(j.req.command, j.pc) && Critical(j.pc) && j.pc != Unlock && (j.logging ==> IsLog(j.pc))
    requires Explained(start, m, Some(j))
    ensures var r := Step(cfg, m, w, j); Explained(start, r.mem, Some(r.job))
  {
    StepProgress(cfg, Replay(start, m.hist), m, w, j);
    assert Step(cfg, m, w, j).mem.hist == m.hist by {
      StepHist(cfg, m, w, j);
    }
  }

  lemma UnlockEffect(cfg: Config, m: Shared, w: nat, j: Job)
    requires j.pc == Unlock
    ensures Step(cfg, m, w, j).mem.hist == m.hist + [EntryOf(j)] && Step(cfg, m, w, j).mem.table == m.table
  {
  }

  lemma UnlockStep(cfg: Config, start: Table, m: Shared, w: nat, j: Job)
    requires j.pc == Unlock && Explained(start, m, Some(j))
    ensures Explained(start, Step(cfg, m, w, j).mem, None)
  {
    UnlockEffect(cfg, m, w, j);
    AppendEntry(start, m.hist, EntryOf(j));
  }

  lemma LockStep(cfg: Config, start: Table, m: Shared, w: nat, j: Job)
    requires TakesLock(j.req.command) && j.pc == Lock && Unread(j.loc) && Explained(start, m, None)
    ensures var r := Step(cfg, m, w, j); Explained(start, r.mem, Some(r.job))
  {
  }

  /** Requests that take no lock answer the same whatever the table is, and leave it alone. */
  lemma LocklessEntry(t: Table, j: Job)
    requires Fits(j.req.command, j.pc) && j.pc != Done && !Critical(j.pc) && NewEntries(j) != []
    ensures NewEntries(j) == [EntryOf(j)] && EntryOk(t, EntryOf(j)) && Apply(t, j.req).table == t
  {
  }

  /** Outside the critical section the table is out of reach, and the history grows only by requests that
      take no lock. */
  lemma OutsideStep(cfg: Config, start: Table, m: Shared, w: nat, j: Job, holder: Option<Job>)
    requires Fits(j.req.command, j.pc) && j.pc != Done && !Critical(j.pc) && j.pc != Lock && (j.logging ==> IsLog(j.pc))
    requires Explained(start, m, holder)
    ensures Explained(start, Step(cfg, m, w, j).mem, holder)
  {
    var after := Step(cfg, m, w, j).mem;
    assert after.table == m.table && after.hist == m.hist + NewEntries(j) by {
      StepHist(cfg, m, w, j);
      StepTable(cfg, m, w, j);
    }
    if NewEntries(j) != [] {
      LocklessEntry(Replay(start, m.hist), j);
      AppendEntry(start, m.hist, EntryOf(j));
    }
  }

  predicate UnreadBeforeLock(k: Worker) {
    k.Active? && (k.job.pc == LogEntry || k.job.pc == Lock) ==> Unread(k.job.loc)
  }

  lemma StepUnread(cfg: Config, m: Shared, w: nat, j: Job)
    requires Fits(j.req.command, j.pc) && j.pc != Done && UnreadBeforeLock(Active(j))
    ensures UnreadBeforeLock(Active(Step(cfg, m, w, j).job))
  {
    StepScope(cfg, m, w, j);
  }

  /** The job that holds reservation_mutex_. */
  function Holder(s: State): Option<Job> {
    match s.mem.lock
    case Some(w) => if w < |s.workers| && s.workers[w].Active? then Some(s.workers[w].job) else None
    case None => None
  }

  /** A step of worker w hands the lock on as its scope says. */
  lemma HolderAfter(cfg: Config, s: State, w: nat)
    requires cfg.sync && Shape(cfg, s) && Can(cfg, s, Micro(w))
    ensures var j := s.workers[w].job;
            var r := Step(cfg, s.mem, w, j);
            Holder(Do(cfg, s, Micro(w))) ==
              (if j.pc == Unlock then None else if Critical(j.pc) || j.pc == Lock then Some(r.job) else Holder(s))
    ensures Critical(s.workers[w].job.pc) ==> Holder(s) == Some(s.workers[w].job)
    ensures s.workers[w].job.pc == Lock ==> Holder(s) == None
  {
    var j := s.workers[w].job;
    assert WorkerFits(s.workers[w]);
    assert Holds(cfg, s.workers[w]) <==> s.mem.lock == Some(w);
    StepLocks(cfg, s.mem, w, j);
  }

  ghost predicate Linear(cfg: Config, s: State) {
    && Explained(FreshTable(cfg.seatIds), s.mem, Holder(s))
    && (forall w | 0 <= w < |s.workers| :: UnreadBeforeLock(s.workers[w]))
  }

  lemma KeepsLinearMicro(cfg: Config, s: State, w: nat)
    requires cfg.sync && Shape(cfg, s) && Linear(cfg, s) && Can(cfg, s, Micro(w))
    ensures Linear(cfg, Do(cfg, s, Micro(w)))
  {
    var j := s.workers[w].job;
    var start := FreshTable(cfg.seatIds);
    assert WorkerFits(s.workers[w]) && UnreadBeforeLock(s.workers[w]);
    StepUnread(cfg, s.mem, w, j);
    HolderAfter(cfg, s, w);
    assert Explained(start, Do(cfg, s, Micro(w)).mem, Holder(Do(cfg, s, Micro(w)))) by {
      if j.pc == Unlock {
        UnlockStep(cfg, start, s.mem, w, j);
      } else if Critical(j.pc) {
        HolderStep(cfg, start, s.mem, w, j);
      } else if j.pc == Lock {
        LockStep(cfg, start, s.mem, w, j);
      } else {
        OutsideStep(cfg, start, s.mem, w, j, Holder(s));
      }
    }
  }

  lemma KeepsLinear(cfg: Config, s: State, a: Action)
    requires cfg.sync && Shape(cfg, s) && Linear(cfg, s) && Can(cfg, s, a)
    ensures Linear(cfg, Do(cfg, s, a))
  {
    if a.Micro? {
      KeepsLinearMicro(cfg, s, a.w);
    }
  }
}
