/** Without the mutex and with Seat::reserve split into its test and its writes, any number of clients can
    all be told that they reserved the same seat: a schedule is constructed for every k. */
module DoubleBooking {
  import opened Wrappers
  import opened Commands
  import opened Seats
  import opened Messages
  import opened Runs
  import opened Workers
  import opened Ledger
  import opened Termination

  /** Alone on a free seat, a RESERVE between its first step and its write. */
  predicate Approaching(m: Shared, w: nat, j: Job, seat: nat) {
    && j.req.command == Reserve && j.req.client != INVALID_CLIENT && !j.loc.success
    && Find(m.table, Key(j.req)) == Some(seat) && seat < |m.table| && Free(m.table[seat])
    && m.logLock == (if j.logging then Some(w) else None) && (j.logging ==> IsLog(j.pc))
    && (j.pc == Lock || j.pc == ReadStatus || j.pc == ReadOwner || j.pc == LogCheck || j.pc == GuardStatus
        || j.pc == Delay || j.pc == LogDelay || j.pc == SeatTest || j.pc == WriteStatus)
    && (j.pc == ReadOwner || j.pc == LogCheck ==> j.loc.snap.Some?)
  }

  /** No step of the approach changes the shared memory, except for the log mutex. */
  lemma ApproachStep(cfg: Config, m: Shared, w: nat, j: Job, seat: nat)
    requires !cfg.sync && !cfg.atomicSeat && Approaching(m, w, j, seat) && j.pc != WriteStatus
    ensures var r := Step(cfg, m, w, j);
            && Approaching(r.mem, w, r.job, seat) && r.mem.(logLock := None) == m.(logLock := None)
            && Remaining(|m.table|, r.job) < Remaining(|m.table|, j)
  {
  }

  /** A worker left alone walks up to its write. */
  lemma {:induction false} Approach(cfg: Config, s: State, w: nat, seat: nat) returns (acts: seq<Action>, j: Job)
    requires !cfg.sync && !cfg.atomicSeat && w < |s.workers| && s.workers[w].Active?
    requires Approaching(s.mem, w, s.workers[w].job, seat)
    ensures Valid(Machine(cfg), s, acts)
    ensures After(Machine(cfg), s, acts) == s.(workers := s.workers[w := Active(j)], mem := s.mem.(logLock := None))
    ensures Approaching(s.mem.(logLock := None), w, j, seat) && j.pc == WriteStatus && j.req == s.workers[w].job.req
    decreases Remaining(|s.mem.table|, s.workers[w].job)
  {
    j := s.workers[w].job;
    if j.pc == WriteStatus {
      acts := [];
      assert s.workers[w := Active(j)] == s.workers;
    } else {
      ApproachStep(cfg, s.mem, w, j, seat);
      var t := Do(cfg, s, Micro(w));
      var rest;
      rest, j := Approach(cfg, t, w, seat);
      acts := [Micro(w)] + rest;
      assert acts[0] == Micro(w) && acts[1..] == rest;
      assert t.workers[w := Active(j)] == s.workers[w := Active(j)];
    }
  }

  /** Past the test, nothing can stop a RESERVE of the seat any more. */
  predicate Closing(m: Shared, w: nat, j: Job, seat: nat) {
    && j.req.command == Reserve
    && Find(m.table, Key(j.req)) == Some(seat) && seat < |m.table|
    && m.logLock == (if j.logging then Some(w) else None) && (j.logging ==> IsLog(j.pc))
    && (j.pc == WriteStatus || j.pc == WriteOwner
        || (j.loc.success && (j.pc == Unlock || j.pc == LogUpdate || j.pc == Build || j.pc == Done)))
  }

  /** The updates a closing job still has to make. */
  function Pending(j: Job, seat: nat): seq<Update> {
    if j.pc == WriteStatus || j.pc == WriteOwner then [UpdateOf(j, seat)] else []
  }

  lemma CloseWrite(cfg: Config, m: Shared, w: nat, j: Job, seat: nat)
    requires !cfg.sync && !cfg.atomicSeat && Closing(m, w, j, seat) && (j.pc == WriteStatus || j.pc == WriteOwner)
    ensures var r := Step(cfg, m, w, j);
            && Closing(r.mem, w, r.job, seat) && Ids(r.mem.table) == Ids(m.table)
            && r.mem.ledger + Pending(r.job, seat) == m.ledger + Pending(j, seat)
            && Remaining(|m.table|, r.job) < Remaining(|m.table|, j)
  {
    var v := m.table[seat];
    if j.pc == WriteStatus {
      IdsKept(m.table, seat, v.(status := Reserved));
    } else {
      IdsKept(m.table, seat, v.(owner := Some(j.req.client)));
    }
  }

  lemma CloseStep(cfg: Config, m: Shared, w: nat, j: Job, seat: nat)
    requires !cfg.sync && !cfg.atomicSeat && Closing(m, w, j, seat) && j.pc != Done
    ensures var r := Step(cfg, m, w, j);
            && Closing(r.mem, w, r.job, seat) && Ids(r.mem.table) == Ids(m.table)
            && r.mem.ledger + Pending(r.job, seat) == m.ledger + Pending(j, seat)
            && Remaining(|m.table|, r.job) < Remaining(|m.table|, j)
  {
    if j.pc == WriteStatus || j.pc == WriteOwner {
      CloseWrite(cfg, m, w, j, seat);
    }
  }

  lemma CloseOnce(cfg: Config, s: State, w: nat, seat: nat)
    requires !cfg.sync && !cfg.atomicSeat && w < |s.workers| && s.workers[w].Active?
    requires Closing(s.mem, w, s.workers[w].job, seat) && s.workers[w].job.pc != Done
    ensures Can(cfg, s, Micro(w))
    ensures var u := Do(cfg, s, Micro(w));
            && u.workers == s.workers[w := u.workers[w]] && u.workers[w].Active? && Closing(u.mem, w, u.workers[w].job, seat)
            && u.workers[w].job.req == s.workers[w].job.req && Ids(u.mem.table) == Ids(s.mem.table)
            && u.mem.ledger + Pending(u.workers[w].job, seat) == s.mem.ledger + Pending(s.workers[w].job, seat)
            && |u.mem.table| == |s.mem.table|
            && Remaining(|s.mem.table|, u.workers[w].job) < Remaining(|s.mem.table|, s.workers[w].job)
  {
    CloseStep(cfg, s.mem, w, s.workers[w].job, seat);
    assert |Do(cfg, s, Micro(w)).mem.table| == |Ids(Do(cfg, s, Micro(w)).mem.table)|;
  }

  /** A worker left alone past its test writes, unlocks, logs and answers Success. */
  lemma {:induction false} Close(cfg: Config, s: State, w: nat, seat: nat) returns (acts: seq<Action>, t: State)
    requires !cfg.sync && !cfg.atomicSeat && w < |s.workers| && s.workers[w].Active?
    requires Closing(s.mem, w, s.workers[w].job, seat)
    ensures Valid(Machine(cfg), s, acts) && t == After(Machine(cfg), s, acts)
    ensures w < |t.workers| && t.workers == s.workers[w := t.workers[w]] && t.workers[w].Active?
    ensures t.workers[w].job.pc == Done && EntryOf(t.workers[w].job).resp.result == Success
    ensures t.workers[w].job.req == s.workers[w].job.req
    ensures Ids(t.mem.table) == Ids(s.mem.table) && t.mem.logLock == None
    ensures t.mem.ledger == s.mem.ledger + Pending(s.workers[w].job, seat)
    decreases Remaining(|s.mem.table|, s.workers[w].job)
  {
    var j := s.workers[w].job;
    if j.pc == Done {
      acts, t := [], s;
    } else {
      CloseOnce(cfg, s, w, seat);
      var u := Do(cfg, s, Micro(w));
      var rest;
      rest, t := Close(cfg, u, w, seat);
      acts := [Micro(w)] + rest;
      assert acts[0] == Micro(w) && acts[1..] == rest;
    }
  }

  /** Everybody asks for the same seat. */
  predicate Competing(cfg: Config, reqs: seq<Request>, seat: nat) {
    && !cfg.sync && !cfg.atomicSeat && |reqs| == cfg.workers && seat < |cfg.seatIds|
    && forall w | 0 <= w < |reqs| ::
         reqs[w].command == Reserve && reqs[w].client != INVALID_CLIENT && Locate(cfg.seatIds, Key(reqs[w])) == Some(seat)
  }

  /** The first n workers have passed the test and written nothing. */
  ghost predicate Tested(cfg: Config, s: State, reqs: seq<Request>, n: nat) {
    && |s.workers| == cfg.workers && n <= |s.workers| <= |reqs| && s.mem == Init(cfg).mem
    && (forall w | 0 <= w < n :: s.workers[w].Active? && s.workers[w].job.pc == WriteStatus
                                 && s.workers[w].job.req == reqs[w] && !s.workers[w].job.logging)
    && (forall w | n <= w < |s.workers| :: s.workers[w].Idle?)
  }

  lemma {:induction false} TestAll(cfg: Config, reqs: seq<Request>, seat: nat, n: nat) returns (acts: seq<Action>)
    requires Competing(cfg, reqs, seat) && n <= cfg.workers
    ensures Valid(Machine(cfg), Init(cfg), acts) && Tested(cfg, After(Machine(cfg), Init(cfg), acts), reqs, n)
  {
    acts := [];
    if n > 0 {
      var w := n - 1;
      acts := TestAll(cfg, reqs, seat, w);
      var s := After(Machine(cfg), Init(cfg), acts);
      Extend(Machine(cfg), Init(cfg), acts, Begin(w, reqs[w]));
      acts := acts + [Begin(w, reqs[w])];
      var t := Do(cfg, s, Begin(w, reqs[w]));
      assert Ids(t.mem.table) == cfg.seatIds;
      var more, j := Approach(cfg, t, w, seat);
      Compose(Machine(cfg), Init(cfg), acts, more);
      acts := acts + more;
    }
  }

  /** The first n workers have told their clients Success; the others are past the test. */
  ghost predicate Booked(cfg: Config, s: State, reqs: seq<Request>, seat: nat, n: nat) {
    && |s.workers| == cfg.workers && n <= |s.workers| <= |reqs|
    && Ids(s.mem.table) == cfg.seatIds && s.mem.logLock == None
    && Balance(s.mem.ledger, seat) == n
    && (forall w | 0 <= w < n :: s.workers[w].Active? && s.workers[w].job.pc == Done
                                 && s.workers[w].job.req == reqs[w] && EntryOf(s.workers[w].job).resp.result == Success)
    && (forall w | n <= w < |s.workers| :: s.workers[w].Active? && s.workers[w].job.pc == WriteStatus
                                           && s.workers[w].job.req == reqs[w] && !s.workers[w].job.logging)
  }

  /** One more worker writes and answers. */
  lemma BookOne(cfg: Config, s: State, reqs: seq<Request>, seat: nat, w: nat) returns (acts: seq<Action>)
    requires Competing(cfg, reqs, seat) && w < cfg.workers && Booked(cfg, s, reqs, seat, w)
    ensures Valid(Machine(cfg), s, acts) && Booked(cfg, After(Machine(cfg), s, acts), reqs, seat, w + 1)
  {
    var j := s.workers[w].job;
    var t;
    acts, t := Close(cfg, s, w, seat);
    AppendUpdate(s.mem.ledger, UpdateOf(j, seat), seat);
  }

  lemma {:induction false} BookAll(cfg: Config, reqs: seq<Request>, seat: nat, n: nat) returns (acts: seq<Action>)
    requires Competing(cfg, reqs, seat) && n <= cfg.workers
    ensures Valid(Machine(cfg), Init(cfg), acts) && Booked(cfg, After(Machine(cfg), Init(cfg), acts), reqs, seat, n)
  {
    if n == 0 {
      acts := TestAll(cfg, reqs, seat, cfg.workers);
      assert Ids(Init(cfg).mem.table) == cfg.seatIds;
    } else {
      acts := BookAll(cfg, reqs, seat, n - 1);
      var more := BookOne(cfg, After(Machine(cfg), Init(cfg), acts), reqs, seat, n - 1);
      Compose(Machine(cfg), Init(cfg), acts, more);
      acts := acts + more;
    }
  }

  /** The mutex is what matters: without it, for every k and any k RESERVE requests for one free seat from
      clients with valid ids, there is a run in which all k workers answer Success; the seat has then been
      reserved k times and cancelled never. */
  lemma EveryoneWins(cfg: Config, reqs: seq<Request>, seat: nat) returns (acts: seq<Action>)
    requires Competing(cfg, reqs, seat)
    ensures Valid(Machine(cfg), Init(cfg), acts)
    ensures var s := After(Machine(cfg), Init(cfg), acts);
            && |s.workers| == |reqs|
            && (forall w | 0 <= w < |reqs| :: s.workers[w].Active? && s.workers[w].job.req == reqs[w]
                  && s.workers[w].job.pc == Done && EntryOf(s.workers[w].job).resp.result == Success)
            && Balance(s.mem.ledger, seat) == |reqs|
  {
    acts := BookAll(cfg, reqs, seat, cfg.workers);
  }
}
