/** Without the mutex, as long as Seat::reserve and Seat::cancel are single steps: the successful updates
    still balance, and a CONFLICT always has a culprit. */
module Ledger {
  import opened Wrappers
  import opened Commands
  import opened Seats
  import opened Messages
  import opened Runs
  import opened Workers
  import opened Discipline
  import opened Theorems

  /** Successful reserves minus successful cancels of a seat. */
  function Balance(l: seq<Update>, seat: nat): int {
    if l == [] then 0
    else
      var u := l[|l| - 1];
      Balance(l[..|l| - 1], seat) + if u.seat != seat then 0 else if u.taking then 1 else -1
  }

  /** The client of the last successful reserve of a seat. */
  function LastTaker(l: seq<Update>, seat: nat): Option<Word> {
    if l == [] then None
    else
      var u := l[|l| - 1];
      if u.seat == seat && u.taking then Some(u.client) else LastTaker(l[..|l| - 1], seat)
  }

  predicate Balanced(l: seq<Update>, seat: nat, v: SeatView) {
    && Balance(l, seat) == (if v.status == Reserved then 1 else 0)
    && v.owner == (if v.status == Reserved then LastTaker(l, seat) else None)
    && Settled(v)
  }

  lemma AppendUpdate(l: seq<Update>, u: Update, seat: nat)
    ensures Balance(l + [u], seat) == Balance(l, seat) + (if u.seat != seat then 0 else if u.taking then 1 else -1)
    ensures LastTaker(l + [u], seat) == if u.seat == seat && u.taking then Some(u.client) else LastTaker(l, seat)
  {
    assert (l + [u])[..|l|] == l;
  }

  predicate Updated(l: seq<Update>, ticket: nat) {
    exists u :: u in l && u.ticket == ticket
  }

  /** The update a successful job makes. */
  function UpdateOf(j: Job, seat: nat): Update {
    Update(seat, j.req.client, j.req.command == Reserve, j.ticket)
  }

  /** With atomic Seat methods a step either leaves table and ledger alone or is a whole successful update. */
  lemma AtomicStep(cfg: Config, m: Shared, w: nat, j: Job)
    requires cfg.atomicSeat && Fits(j.req.command, j.pc) && j.pc != Done
    requires j.pc != ReadOwner && j.pc != WriteStatus && j.pc != WriteOwner && j.pc != SeatTestOwner
    ensures var r := Step(cfg, m, w, j);
            var i := Find(m.table, Key(j.req));
            if r.mem.ledger == m.ledger then r.mem.table == m.table && r.job.loc.success == j.loc.success
            else
              && j.pc == SeatTest && i.Some? && r.job.loc.success
              && r.mem.ledger == m.ledger + [UpdateOf(j, i.value)]
              && (if j.req.command == Reserve
                  then Free(m.table[i.value]) && j.req.client != INVALID_CLIENT
                       && r.mem.table == m.table[i.value := Taken(m.table[i.value], j.req.client)]
                  else HeldBy(m.table[i.value], j.req.client) && r.mem.table == m.table[i.value := Released(m.table[i.value])])
  {
  }

  /** The points between the fields of a seat are never reached. */
  predicate WholeMethods(pc: Pc) {
    pc != ReadOwner && pc != WriteStatus && pc != WriteOwner && pc != SeatTestOwner && !pc.CopyOwner?
  }

  lemma SeatStepWhole(cfg: Config, m: Shared, j: Job)
    requires cfg.atomicSeat && Fits(j.req.command, j.pc) && OnSeat(j.pc) && WholeMethods(j.pc)
    ensures WholeMethods(SeatStep(cfg, m, j).job.pc)
  {
  }

  lemma StepWhole(cfg: Config, m: Shared, w: nat, j: Job)
    requires cfg.atomicSeat && Fits(j.req.command, j.pc) && j.pc != Done && WholeMethods(j.pc)
    ensures WholeMethods(Step(cfg, m, w, j).job.pc)
  {
    if OnSeat(j.pc) {
      SeatStepWhole(cfg, m, j);
    }
  }

  /** Only a job that may still succeed, or has, makes an update. */
  predicate Undecided(pc: Pc) {
    pc == LogEntry || pc == Lock || pc == ReadStatus || pc.CopyStatus? || pc == LogCheck || pc == GuardStatus
    || pc == GuardOwner || pc == Delay || pc == LogDelay || pc == SeatTest
  }

  predicate WorkerLedger(l: seq<Update>, k: Worker) {
    k.Active? ==>
      && WholeMethods(k.job.pc)
      && (k.job.loc.success <==> Updated(l, k.job.ticket))
      && (Undecided(k.job.pc) ==> !k.job.loc.success)
  }

  /** Every seat balances, and the updates belong one to one to the requests answered, or about to be
      answered, with success. */
  ghost predicate Ledgered(s: State) {
    && (forall i | 0 <= i < |s.mem.table| :: Balanced(s.mem.ledger, i, s.mem.table[i]))
    && (forall u | u in s.mem.ledger :: u.ticket < |s.begun|)
    && (forall i, j | 0 <= i < j < |s.mem.ledger| :: s.mem.ledger[i].ticket != s.mem.ledger[j].ticket)
    && (forall w | 0 <= w < |s.workers| :: WorkerLedger(s.mem.ledger, s.workers[w]))
    && (forall e | e in s.mem.hist :: e.loc.success <==> Updated(s.mem.ledger, e.ticket))
  }

  lemma StepUndecided(cfg: Config, m: Shared, w: nat, j: Job)
    requires cfg.atomicSeat && Fits(j.req.command, j.pc) && j.pc != Done && WholeMethods(j.pc)
    ensures Undecided(Step(cfg, m, w, j).job.pc) ==> Undecided(j.pc) && Step(cfg, m, w, j).mem.ledger == m.ledger
  {
  }

  lemma BalanceKept(l: seq<Update>, u: Update, t: Table, v: SeatView, after: Table)
    requires u.seat < |t| && after == t[u.seat := v]
    requires forall k | 0 <= k < |t| :: Balanced(l, k, t[k])
    requires if u.taking then Free(t[u.seat]) && v == Taken(t[u.seat], u.client) && u.client != INVALID_CLIENT
             else t[u.seat].status == Reserved && v == Released(t[u.seat])
    ensures forall k | 0 <= k < |t| :: Balanced(l + [u], k, after[k])
  {
    forall k | 0 <= k < |t| ensures Balanced(l + [u], k, after[k]) {
      assert Balanced(l, k, t[k]);
      AppendUpdate(l, u, k);
    }
  }

  lemma UpdatedAppend(l: seq<Update>, u: Update, ticket: nat)
    ensures Updated(l + [u], ticket) <==> Updated(l, ticket) || ticket == u.ticket
  {
    if Updated(l, ticket) {
      var x :| x in l && x.ticket == ticket;
      assert x in l + [u];
    }
    assert u in l + [u];
  }

  /** The step of worker w is a successful update of seat i. */
  lemma KeepsLedgeredUpdate(cfg: Config, s: State, w: nat)
    requires cfg.atomicSeat && Shape(cfg, s) && Tickets(s) && Ledgered(s) && Can(cfg, s, Micro(w))
    requires Step(cfg, s.mem, w, s.workers[w].job).mem.ledger != s.mem.ledger
    ensures Ledgered(Do(cfg, s, Micro(w)))
  {
    var j := s.workers[w].job;
    var t := Do(cfg, s, Micro(w));
    assert WorkerFits(s.workers[w]) && WorkerLedger(s.mem.ledger, s.workers[w]);
    assert TicketFits(s.begun, s.mem.hist, s.workers[w]);
    AtomicStep(cfg, s.mem, w, j);
    StepWhole(cfg, s.mem, w, j);
    StepUndecided(cfg, s.mem, w, j);
    StepHist(cfg, s.mem, w, j);
    var i := Find(s.mem.table, Key(j.req)).value;
    var u := UpdateOf(j, i);
    BalanceKept(s.mem.ledger, u, s.mem.table, t.mem.table[i], t.mem.table);
    assert !Updated(s.mem.ledger, j.ticket);
    forall v | 0 <= v < |s.workers| ensures WorkerLedger(t.mem.ledger, t.workers[v]) {
      if s.workers[v].Active? {
        assert WorkerLedger(s.mem.ledger, s.workers[v]);
        UpdatedAppend(s.mem.ledger, u, s.workers[v].job.ticket);
      }
    }
    forall e | e in t.mem.hist ensures e.loc.success <==> Updated(t.mem.ledger, e.ticket) {
      UpdatedAppend(s.mem.ledger, u, e.ticket);
    }
  }

  lemma KeepsLedgeredQuiet(cfg: Config, s: State, w: nat)
    requires cfg.atomicSeat && Shape(cfg, s) && Tickets(s) && Ledgered(s) && Can(cfg, s, Micro(w))
    requires Step(cfg, s.mem, w, s.workers[w].job).mem.ledger == s.mem.ledger
    ensures Ledgered(Do(cfg, s, Micro(w)))
  {
    var j := s.workers[w].job;
    assert WorkerFits(s.workers[w]) && WorkerLedger(s.mem.ledger, s.workers[w]);
    AtomicStep(cfg, s.mem, w, j);
    StepWhole(cfg, s.mem, w, j);
    StepUndecided(cfg, s.mem, w, j);
    StepHist(cfg, s.mem, w, j);
  }

  lemma BeginLedgered(cfg: Config, s: State, w: nat, req: Request)
    requires Ledgered(s) && Can(cfg, s, Begin(w, req))
    ensures Ledgered(Do(cfg, s, Begin(w, req)))
  {
    assert !Updated(s.mem.ledger, |s.begun|);
  }

  lemma EndLedgered(cfg: Config, s: State, w: nat)
    requires Ledgered(s) && Can(cfg, s, End(w))
    ensures Ledgered(Do(cfg, s, End(w)))
  {
  }

  lemma KeepsLedgered(cfg: Config, s: State, a: Action)
    requires cfg.atomicSeat && Shape(cfg, s) && Tickets(s) && Ledgered(s) && Can(cfg, s, a)
    ensures Ledgered(Do(cfg, s, a))
  {
    match a
    case Micro(w) =>
      if Step(cfg, s.mem, w, s.workers[w].job).mem.ledger == s.mem.ledger {
        KeepsLedgeredQuiet(cfg, s, w);
      } else {
        KeepsLedgeredUpdate(cfg, s, w);
      }
    case Begin(w, req) => BeginLedgered(cfg, s, w, req);
    case End(w) => EndLedgered(cfg, s, w);
  }

  /** An update is made by a request: its seat, its client, and its command. */
  predicate MadeBy(ids: seq<string>, r: Request, u: Update) {
    && Updates(r.command) && (u.taking <==> r.command == Reserve) && u.client == r.client
    && Locate(ids, Key(r)) == Some(u.seat)
  }

  /** Every update is made by the request with its ticket. */
  ghost predicate Attributed(cfg: Config, s: State) {
    forall u | u in s.mem.ledger :: u.ticket < |s.begun| && MadeBy(cfg.seatIds, s.begun[u.ticket], u)
  }

  lemma KeepsAttributed(cfg: Config, s: State, a: Action)
    requires cfg.atomicSeat && Shape(cfg, s) && Tickets(s) && Ledgered(s) && Attributed(cfg, s) && Can(cfg, s, a)
    ensures Attributed(cfg, Do(cfg, s, a))
  {
    if a.Micro? {
      var j := s.workers[a.w].job;
      assert WorkerFits(s.workers[a.w]) && WorkerLedger(s.mem.ledger, s.workers[a.w]);
      assert TicketFits(s.begun, s.mem.hist, s.workers[a.w]);
      AtomicStep(cfg, s.mem, a.w, j);
    }
  }

  /** The marks of a job say when, on the ledger, it read its seat and when its update was decided. */
  lemma StepMarks(cfg: Config, m: Shared, w: nat, j: Job)
    requires cfg.atomicSeat && Fits(j.req.command, j.pc) && j.pc != Done && WholeMethods(j.pc)
    ensures var r := Step(cfg, m, w, j);
            && (if j.pc == ReadStatus && Find(m.table, Key(j.req)).Some?
                then r.job.loc.mark == |m.ledger| && r.job.loc.snap == Lookup(m.table, Key(j.req))
                else r.job.loc.mark == j.loc.mark && (j.pc != ReadStatus ==> r.job.loc.snap == j.loc.snap))
            && (if (j.pc == GuardStatus || j.pc == GuardOwner || j.pc == SeatTest) && r.job.pc == Unlock
                then r.job.loc.end == |m.ledger| else r.job.loc.end == j.loc.end)
  {
  }

  /** Somebody else took the seat during a stretch of the ledger. */
  predicate TakenBetween(l: seq<Update>, seat: nat, from: nat, until: nat) {
    until <= |l| && exists x :: from <= x < until && l[x].taking && l[x].seat == seat
  }

  /** A RESERVE whose check found the seat free: if the seat is no longer free, it was taken since; and if
      the request has failed, it was taken between its check and its failure. */
  predicate Explains(ids: seq<string>, m: Shared, j: Job) {
    var i := Locate(ids, Key(j.req));
    j.req.command == Reserve && j.loc.wasOk && j.req.client != INVALID_CLIENT ==>
      && i.Some? && i.value < |m.table| && j.loc.mark <= |m.ledger|
      && (if Undecided(j.pc) then !Free(m.table[i.value]) ==> TakenBetween(m.ledger, i.value, j.loc.mark, |m.ledger|)
          else !j.loc.success ==> TakenBetween(m.ledger, i.value, j.loc.mark, j.loc.end))
  }

  predicate WorkerExplained(ids: seq<string>, m: Shared, k: Worker) {
    k.Active? ==> Explains(ids, m, k.job) && (k.job.pc == LogEntry || k.job.pc == Lock || k.job.pc == ReadStatus || k.job.loc.snap.None? ==> !k.job.loc.wasOk)
  }

  /** The conflict of a finished request. */
  predicate EntryExplained(ids: seq<string>, l: seq<Update>, e: Entry) {
    e.req.command == Reserve && e.loc.wasOk && !e.loc.success && e.req.client != INVALID_CLIENT ==>
      Locate(ids, Key(e.req)).Some? && TakenBetween(l, Locate(ids, Key(e.req)).value, e.loc.mark, e.loc.end)
  }

  ghost predicate Conflicts(cfg: Config, s: State) {
    && (forall w | 0 <= w < |s.workers| :: WorkerExplained(cfg.seatIds, s.mem, s.workers[w]))
    && (forall e | e in s.mem.hist :: EntryExplained(cfg.seatIds, s.mem.ledger, e))
  }

  lemma TakenLater(l: seq<Update>, u: Update, seat: nat, from: nat, until: nat)
    requires TakenBetween(l, seat, from, until)
    ensures TakenBetween(l + [u], seat, from, until) && TakenBetween(l + [u], seat, from, |l| + 1)
  {
    var x :| from <= x < until && l[x].taking && l[x].seat == seat;
    assert (l + [u])[x] == l[x];
  }

  lemma SeatStepExplained(cfg: Config, m: Shared, j: Job)
    requires cfg.atomicSeat && Fits(j.req.command, j.pc) && OnSeat(j.pc) && WholeMethods(j.pc)
    requires Ids(m.table) == cfg.seatIds
    requires WorkerExplained(cfg.seatIds, m, Active(j)) && (Undecided(j.pc) ==> !j.loc.success)
    ensures var r := SeatStep(cfg, m, j); WorkerExplained(cfg.seatIds, r.mem, Active(r.job))
  {
  }

  /** The worker's own step. */
  lemma StepExplained(cfg: Config, m: Shared, w: nat, j: Job)
    requires cfg.atomicSeat && Fits(j.req.command, j.pc) && j.pc != Done && WholeMethods(j.pc) && (j.logging ==> IsLog(j.pc))
    requires Ids(m.table) == cfg.seatIds
    requires WorkerExplained(cfg.seatIds, m, Active(j)) && (Undecided(j.pc) ==> !j.loc.success)
    ensures var r := Step(cfg, m, w, j); WorkerExplained(cfg.seatIds, r.mem, Active(r.job))
  {
    if OnSeat(j.pc) {
      SeatStepExplained(cfg, m, j);
    }
  }

  /** The other workers, when somebody updates seat i. */
  lemma OthersExplained(ids: seq<string>, m: Shared, after: Shared, u: Update, k: Worker)
    requires WorkerExplained(ids, m, k) && u.seat < |m.table| && |after.table| == |m.table|
    requires after.ledger == m.ledger + [u] && (forall i | 0 <= i < |m.table| && i != u.seat :: after.table[i] == m.table[i])
    requires !u.taking ==> Free(after.table[u.seat])
    ensures WorkerExplained(ids, after, k)
  {
    if k.Active? {
      var j := k.job;
      var i := Locate(ids, Key(j.req));
      if i.Some? && i.value < |m.table| {
        var n := |m.ledger|;
        assert after.ledger[n] == u;
        if TakenBetween(m.ledger, i.value, j.loc.mark, n) {
          TakenLater(m.ledger, u, i.value, j.loc.mark, n);
        }
        if TakenBetween(m.ledger, i.value, j.loc.mark, j.loc.end) {
          TakenLater(m.ledger, u, i.value, j.loc.mark, j.loc.end);
        }
      }
    }
  }

  /** Finished conflicts stay explained as the ledger grows. */
  lemma EntryStaysExplained(ids: seq<string>, l: seq<Update>, u: Update, e: Entry)
    requires EntryExplained(ids, l, e)
    ensures EntryExplained(ids, l + [u], e)
  {
    var i := Locate(ids, Key(e.req));
    if i.Some? && TakenBetween(l, i.value, e.loc.mark, e.loc.end) {
      TakenLater(l, u, i.value, e.loc.mark, e.loc.end);
    }
  }

  lemma WorkersStayExplained(cfg: Config, s: State, w: nat)
    requires cfg.atomicSeat && Shape(cfg, s) && Ledgered(s) && Conflicts(cfg, s) && Can(cfg, s, Micro(w))
    ensures var t := Do(cfg, s, Micro(w));
            forall v | 0 <= v < |t.workers| :: WorkerExplained(cfg.seatIds, t.mem, t.workers[v])
  {
    var j := s.workers[w].job;
    var r := Step(cfg, s.mem, w, j);
    var t := Do(cfg, s, Micro(w));
    assert WorkerFits(s.workers[w]) && WorkerLedger(s.mem.ledger, s.workers[w]) && WorkerExplained(cfg.seatIds, s.mem, s.workers[w]);
    AtomicStep(cfg, s.mem, w, j);
    StepExplained(cfg, s.mem, w, j);
    forall v | 0 <= v < |t.workers| ensures WorkerExplained(cfg.seatIds, t.mem, t.workers[v]) {
      assert WorkerExplained(cfg.seatIds, s.mem, s.workers[v]);
      if v != w && r.mem.ledger != s.mem.ledger {
        OthersExplained(cfg.seatIds, s.mem, t.mem, UpdateOf(j, Find(s.mem.table, Key(j.req)).value), s.workers[v]);
      }
    }
  }

  lemma KeepsConflictsMicro(cfg: Config, s: State, w: nat)
    requires cfg.atomicSeat && Shape(cfg, s) && Tickets(s) && Ledgered(s) && Conflicts(cfg, s) && Can(cfg, s, Micro(w))
    ensures Conflicts(cfg, Do(cfg, s, Micro(w)))
  {
    var j := s.workers[w].job;
    var t := Do(cfg, s, Micro(w));
    WorkersStayExplained(cfg, s, w);
    assert WorkerFits(s.workers[w]) && WorkerLedger(s.mem.ledger, s.workers[w]) && WorkerExplained(cfg.seatIds, s.mem, s.workers[w]);
    AtomicStep(cfg, s.mem, w, j);
    StepHist(cfg, s.mem, w, j);
    forall e | e in t.mem.hist ensures EntryExplained(cfg.seatIds, t.mem.ledger, e) {
      if e in s.mem.hist && t.mem.ledger != s.mem.ledger {
        EntryStaysExplained(cfg.seatIds, s.mem.ledger, UpdateOf(j, Find(s.mem.table, Key(j.req)).value), e);
      }
    }
  }

  lemma KeepsConflicts(cfg: Config, s: State, a: Action)
    requires cfg.atomicSeat && Shape(cfg, s) && Tickets(s) && Ledgered(s) && Conflicts(cfg, s) && Can(cfg, s, a)
    ensures Conflicts(cfg, Do(cfg, s, a))
  {
    if a.Micro? {
      KeepsConflictsMicro(cfg, s, a.w);
    }
  }

  lemma Unlocked(cfg: Config, acts: seq<Action>)
    requires cfg.atomicSeat && Valid(Machine(cfg), Init(cfg), acts)
    ensures var s := After(Machine(cfg), Init(cfg), acts);
            Safe(cfg, s) && Ledgered(s) && Attributed(cfg, s) && Conflicts(cfg, s)
  {
    var inv := (s: State) => Safe(cfg, s) && Ledgered(s) && Attributed(cfg, s) && Conflicts(cfg, s);
    forall s, a | inv(s) && Can(cfg, s, a) ensures inv(Do(cfg, s, a)) {
      SafeStep(cfg, s, a);
      KeepsLedgered(cfg, s, a);
      KeepsAttributed(cfg, s, a);
      KeepsConflicts(cfg, s, a);
    }
    InitShape(cfg);
    Always(Machine(cfg), inv, Init(cfg), acts);
  }

  /** Ledger conservation, for any number of workers and every interleaving, with or without the mutex: each
      seat's successful reserves exceed its successful cancels by one if it is reserved and by none if it is
      free, its owner is the client of the last successful reserve, every update is made by a RESERVE or CANCEL
      request of that seat and client, by no request twice, and a request is answered with success exactly if
      it made one. */
  lemma LedgerConservation(cfg: Config, acts: seq<Action>)
    requires cfg.atomicSeat && Valid(Machine(cfg), Init(cfg), acts)
    ensures var s := After(Machine(cfg), Init(cfg), acts);
            && (forall i | 0 <= i < |s.mem.table| :: Balanced(s.mem.ledger, i, s.mem.table[i]))
            && (forall i, j | 0 <= i < j < |s.mem.ledger| :: s.mem.ledger[i].ticket != s.mem.ledger[j].ticket)
            && (forall u | u in s.mem.ledger :: u.ticket < |s.begun| && MadeBy(cfg.seatIds, s.begun[u.ticket], u))
            && (forall e | e in s.mem.hist && Updates(e.req.command) ::
                  e.resp.result == Success <==> Updated(s.mem.ledger, e.ticket))
  {
    Unlocked(cfg, acts);
    var s := After(Machine(cfg), Init(cfg), acts);
    forall e | e in s.mem.hist && Updates(e.req.command)
      ensures e.resp.result == Success <==> Updated(s.mem.ledger, e.ticket)
    {
      var i :| 0 <= i < |s.mem.hist| && s.mem.hist[i] == e;
      assert EntryFits(s.begun, i, s.mem.hist[i]);
    }
  }

  /** A CONFLICT of a client with a valid id, with or without the mutex, means that between this request's
      check and its failed update another request reserved the seat. */
  lemma ConflictHasCulprit(cfg: Config, acts: seq<Action>, e: Entry)
    requires cfg.atomicSeat && Valid(Machine(cfg), Init(cfg), acts)
    requires e in After(Machine(cfg), Init(cfg), acts).mem.hist
    requires e.req.command == Reserve && e.loc.wasOk && e.resp.result == Failure && e.req.client != INVALID_CLIENT
    ensures var l := After(Machine(cfg), Init(cfg), acts).mem.ledger;
            exists x :: e.loc.mark <= x < e.loc.end <= |l|
              && l[x].taking && Some(l[x].seat) == Locate(cfg.seatIds, Key(e.req)) && l[x].ticket != e.ticket
  {
    Unlocked(cfg, acts);
    var s := After(Machine(cfg), Init(cfg), acts);
    var i :| 0 <= i < |s.mem.hist| && s.mem.hist[i] == e;
    assert EntryFits(s.begun, i, s.mem.hist[i]);
    assert EntryExplained(cfg.seatIds, s.mem.ledger, e);
    var seat := Locate(cfg.seatIds, Key(e.req)).value;
    var x :| e.loc.mark <= x < e.loc.end && s.mem.ledger[x].taking && s.mem.ledger[x].seat == seat;
    assert s.mem.ledger[x] in s.mem.ledger;
    assert !Updated(s.mem.ledger, e.ticket);
  }
}
