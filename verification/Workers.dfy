/** process_request split into micro-steps (src/server/request_processor.cpp). Any number of workers
    interleave over one seat table, reservation_mutex_ and g_log_mutex. Memory is sequentially consistent:
    one action is one lock operation, one field access or one purely local stretch. With atomicSeat the
    methods of Seat are single steps; without it every field access is a step of its own. */
module Workers {
  import opened Wrappers
  import opened Commands
  import opened Seats
  import opened Messages
  import opened Runs

  datatype Config = Config(seatIds: seq<string>, workers: nat, sync: bool, delay: bool, atomicSeat: bool)

  /** Where a worker is inside process_request. */
  datatype Pc =
    | LogEntry            // log_worker before the command proper (LIST, STATUS, QUIT)
    | Lock                // scoped_lock; nothing happens here when synchronization is off
    | ReadStatus          // get_seat: find the seat, copy status_
    | ReadOwner           // get_seat: copy owner_client_id_
    | CopyStatus(i: nat)  // get_all_seats: copy status_ of seat i
    | CopyOwner(i: nat)   // get_all_seats: copy owner_client_id_ of seat i
    | LogCheck
    | GuardStatus         // reserve_seat or cancel_seat: test status_
    | GuardOwner          // cancel_seat: test owner_client_id_
    | Delay
    | LogDelay
    | SeatTest            // Seat::reserve or Seat::cancel: test status_
    | SeatTestOwner       // Seat::cancel: test owner_client_id_
    | WriteStatus
    | WriteOwner
    | Unlock
    | LogUpdate
    | Build               // fill in the response
    | Done

  /** The locals of process_request, and three marks that only record history: the number of requests
      finished when this one began, and the number of seat updates made when it read the seat and when its
      own update was decided. */
  datatype Locals = Locals(snap: Option<SeatView>, list: Table, wasOk: bool, success: bool,
                           born: nat, mark: nat, end: nat)

  /** A request being processed. */
  datatype Job = Job(ticket: nat, req: Request, pc: Pc, logging: bool, loc: Locals)

  datatype Worker = Idle | Active(job: Job)

  /** The same request in the same place of the histories. */
  predicate SameJob(j: Job, k: Job) {
    j.ticket == k.ticket && j.req == k.req && j.loc.born == k.loc.born
  }

  /** A finished request: its ticket in order of receipt, its answer, and the locals behind the answer. */
  datatype Entry = Entry(ticket: nat, req: Request, resp: Response, loc: Locals)

  /** A successful Seat::reserve or Seat::cancel. */
  datatype Update = Update(seat: nat, client: Word, taking: bool, ticket: nat)

  /** What the workers share: the seat table, reservation_mutex_ and g_log_mutex with their holders, and two
      histories. hist lists requests in the order in which they leave the critical section; requests that
      take no lock enter it when their response is built. ledger lists the successful seat updates. */
  datatype Shared = Shared(table: Table, lock: Option<nat>, logLock: Option<nat>, hist: seq<Entry>, ledger: seq<Update>)

  /** begun lists requests in the order of receipt, ended the tickets in the order of reply. */
  datatype State = State(workers: seq<Worker>, mem: Shared, begun: seq<Request>, ended: seq<nat>)

  datatype Action = Begin(w: nat, req: Request) | Micro(w: nat) | End(w: nat)

  predicate TakesLock(c: CommandType) {
    c != Quit && c != Unknown
  }

  predicate Updates(c: CommandType) {
    c == Reserve || c == Cancel
  }

  predicate IsLog(pc: Pc) {
    pc == LogEntry || pc == LogCheck || pc == LogDelay || pc == LogUpdate
  }

  function Init(cfg: Config): State {
    State(seq(cfg.workers, _ => Idle), Shared(FreshTable(cfg.seatIds), None, None, [], []), [], [])
  }

  function First(c: CommandType): Pc {
    match c
    case List => LogEntry
    case Status => LogEntry
    case Quit => LogEntry
    case Reserve => Lock
    case Cancel => Lock
    case Unknown => Build
  }

  /** The response built from the locals. */
  function Respond(r: Request, loc: Locals): Response {
    match r.command
    case List => Blank(r, Listed).(result := Success)
    case Status =>
      (match loc.snap
       case Some(v) =>
         Blank(r, StatusRetrieved).(result := Success, status := v.status, owner := v.owner.GetOr(INVALID_CLIENT))
       case None => Blank(r, SeatNotFound))
    case Reserve =>
      if loc.success then Blank(r, ReservedOk).(result := Success, status := Reserved, owner := r.client)
      else Blank(r, ReservationFailed)
    case Cancel =>
      if loc.success then Blank(r, CancelledOk).(result := Success)
      else Blank(r, CancellationFailed)
    case Quit => Blank(r, SessionEnded).(result := Success)
    case Unknown => Blank(r, UnknownCommand)
  }

  function EntryOf(j: Job): Entry {
    Entry(j.ticket, j.req, Respond(j.req, j.loc), j.loc)
  }

  /** The shared memory and the worker's own job after a step. */
  datatype Moved = Moved(mem: Shared, job: Job)

  function AfterLog(j: Job): Pc
    requires IsLog(j.pc)
  {
    match j.pc
    case LogEntry => if j.req.command == Quit then Build else Lock
    case LogCheck => if j.loc.snap.None? then Unlock else GuardStatus
    case LogDelay => SeatTest
    case _ => Build
  }

  /** log_worker: take g_log_mutex, then print and release it. */
  function LogStep(m: Shared, w: nat, j: Job): (r: Moved)
    requires IsLog(j.pc)
    ensures SameJob(r.job, j)
  {
    if j.logging then Moved(m.(logLock := None), j.(logging := false, pc := AfterLog(j)))
    else Moved(m.(logLock := Some(w)), j.(logging := true))
  }

  /** was_available for RESERVE, was_owned for CANCEL. */
  predicate Checked(r: Request, snap: Option<SeatView>) {
    snap.Some? && Updates(r.command) && if r.command == Reserve then Free(snap.value) else HeldBy(snap.value, r.client)
  }

  /** get_seat returned this copy (or nothing): STATUS is done with the table, RESERVE and CANCEL log. */
  function AfterRead(j: Job, snap: Option<SeatView>): (k: Job)
    ensures SameJob(k, j)
  {
    j.(loc := j.loc.(snap := snap, wasOk := Checked(j.req, snap)),
       pc := if j.req.command == Status then Unlock else LogCheck)
  }

  function AfterGuard(cfg: Config): Pc {
    if cfg.delay then Delay else SeatTest
  }

  function Fail(m: Shared, j: Job): (r: Moved)
    ensures SameJob(r.job, j)
  {
    Moved(m, j.(pc := Unlock, loc := j.loc.(end := |m.ledger|)))
  }

  /** The update of seat i took effect. */
  function Succeed(m: Shared, j: Job, i: nat, v: SeatView): (r: Moved)
    requires i < |m.table|
    ensures SameJob(r.job, j)
  {
    Moved(m.(table := m.table[i := v], ledger := m.ledger + [Update(i, j.req.client, j.req.command == Reserve, j.ticket)]),
          j.(pc := Unlock, loc := j.loc.(success := true, end := |m.ledger|)))
  }

  /** The two reads of get_seat once the seat is found. */
  function ReadStep(cfg: Config, m: Shared, j: Job, v: SeatView): (r: Moved)
    ensures SameJob(r.job, j)
  {
    if j.pc == ReadStatus then
      var k := j.(loc := j.loc.(mark := |m.ledger|));
      if cfg.atomicSeat then Moved(m, AfterRead(k, Some(v)))
      else Moved(m, k.(pc := ReadOwner, loc := k.loc.(snap := Some(v.(owner := None)))))
    else if j.loc.snap.Some? then Moved(m, AfterRead(j, Some(j.loc.snap.value.(owner := v.owner))))
    else Moved(m, j)
  }

  /** reserve_seat and Seat::reserve on seat i. */
  function ReserveStep(cfg: Config, m: Shared, j: Job, i: nat): (r: Moved)
    requires i < |m.table|
    ensures SameJob(r.job, j)
  {
    var v := m.table[i];
    match j.pc
    case GuardStatus => if Free(v) then Moved(m, j.(pc := AfterGuard(cfg))) else Fail(m, j)
    case SeatTest =>
      if v.status == Reserved || j.req.client == INVALID_CLIENT then Fail(m, j)
      else if cfg.atomicSeat then Succeed(m, j, i, Taken(v, j.req.client))
      else Moved(m, j.(pc := WriteStatus))
    case WriteStatus => Moved(m.(table := m.table[i := v.(status := Reserved)]), j.(pc := WriteOwner))
    case WriteOwner => Succeed(m, j, i, v.(owner := Some(j.req.client)))
    case _ => Moved(m, j)
  }

  /** cancel_seat and Seat::cancel on seat i. */
  function CancelStep(cfg: Config, m: Shared, j: Job, i: nat): (r: Moved)
    requires i < |m.table|
    ensures SameJob(r.job, j)
  {
    var v := m.table[i];
    match j.pc
    case GuardStatus => if v.status == Reserved then Moved(m, j.(pc := GuardOwner)) else Fail(m, j)
    case GuardOwner => if v.owner == Some(j.req.client) then Moved(m, j.(pc := AfterGuard(cfg))) else Fail(m, j)
    case SeatTest =>
      if v.status != Reserved then Fail(m, j)
      else if !cfg.atomicSeat then Moved(m, j.(pc := SeatTestOwner))
      else if v.owner != Some(j.req.client) then Fail(m, j)
      else Succeed(m, j, i, Released(v))
    case SeatTestOwner => if v.owner != Some(j.req.client) then Fail(m, j) else Moved(m, j.(pc := WriteStatus))
    case WriteStatus => Moved(m.(table := m.table[i := v.(status := Available)]), j.(pc := WriteOwner))
    case WriteOwner => Succeed(m, j, i, v.(owner := None))
    case _ => Moved(m, j)
  }

  /** A step on the seat the request names; an unknown seat ends the operation at once. */
  function SeatStep(cfg: Config, m: Shared, j: Job): (r: Moved)
    ensures SameJob(r.job, j)
  {
    match Find(m.table, Key(j.req))
    case None => if j.pc == ReadStatus then Moved(m, AfterRead(j, None)) else Fail(m, j)
    case Some(i) =>
      if j.pc == ReadStatus || j.pc == ReadOwner then ReadStep(cfg, m, j, m.table[i])
      else if j.req.command == Reserve then ReserveStep(cfg, m, j, i)
      else CancelStep(cfg, m, j, i)
  }

  /** A step of get_all_seats. */
  function CopyStep(cfg: Config, m: Shared, j: Job): (r: Moved)
    ensures SameJob(r.job, j)
  {
    match j.pc
    case CopyStatus(i) =>
      if i >= |m.table| then Moved(m, j.(pc := Unlock))
      else if cfg.atomicSeat then
        Moved(m, j.(pc := CopyStatus(i + 1), loc := j.loc.(list := j.loc.list + [m.table[i]])))
      else
        Moved(m, j.(pc := CopyOwner(i), loc := j.loc.(list := j.loc.list + [m.table[i].(owner := None)])))
    case CopyOwner(i) =>
      if i < |m.table| && i < |j.loc.list| then
        Moved(m, j.(pc := CopyStatus(i + 1), loc := j.loc.(list := j.loc.list[i := j.loc.list[i].(owner := m.table[i].owner)])))
      else Moved(m, j)
    case _ => Moved(m, j)
  }

  /** One micro-step of worker w on its job. */
  function Step(cfg: Config, m: Shared, w: nat, j: Job): (r: Moved)
    ensures SameJob(r.job, j)
  {
    if IsLog(j.pc) then LogStep(m, w, j)
    else
      match j.pc
      case Lock =>
        Moved(m.(lock := if cfg.sync then Some(w) else m.lock),
              j.(pc := if j.req.command == List then CopyStatus(0) else ReadStatus))
      case CopyStatus(_) => CopyStep(cfg, m, j)
      case CopyOwner(_) => CopyStep(cfg, m, j)
      case Delay => Moved(m, j.(pc := LogDelay))
      case Unlock =>
        Moved(m.(lock := if cfg.sync then None else m.lock, hist := m.hist + [EntryOf(j)]),
              j.(pc := if Updates(j.req.command) then LogUpdate else Build))
      case Build =>
        Moved(m.(hist := if TakesLock(j.req.command) then m.hist else m.hist + [EntryOf(j)]), j.(pc := Done))
      case Done => Moved(m, j)
      case _ => SeatStep(cfg, m, j)
  }

  predicate Runnable(s: State, w: nat) {
    w < |s.workers| && s.workers[w].Active? && s.workers[w].job.pc != Done
  }

  /** A job waits only for a mutex someone holds. */
  predicate Unblocked(cfg: Config, m: Shared, j: Job) {
    && (j.pc == Lock && cfg.sync ==> m.lock.None?)
    && (IsLog(j.pc) && !j.logging ==> m.logLock.None?)
  }

  predicate Can(cfg: Config, s: State, a: Action) {
    match a
    case Begin(w, req) => w < |s.workers| && s.workers[w].Idle?
    case Micro(w) => Runnable(s, w) && Unblocked(cfg, s.mem, s.workers[w].job)
    case End(w) => w < |s.workers| && s.workers[w].Active? && s.workers[w].job.pc == Done
  }

  function NewJob(s: State, req: Request): Job {
    Job(|s.begun|, req, First(req.command), false, Locals(None, [], false, false, |s.mem.hist|, 0, 0))
  }

  function Do(cfg: Config, s: State, a: Action): State
    requires Can(cfg, s, a)
  {
    match a
    case Begin(w, req) => s.(workers := s.workers[w := Active(NewJob(s, req))], begun := s.begun + [req])
    case Micro(w) =>
      var r := Step(cfg, s.mem, w, s.workers[w].job);
      s.(workers := s.workers[w := Active(r.job)], mem := r.mem)
    case End(w) => s.(workers := s.workers[w := Idle], ended := s.ended + [s.workers[w].job.ticket])
  }

  /** The machine a scheduler drives. */
  function Machine(cfg: Config): System<State, Action> {
    System((s, a) => Can(cfg, s, a), (s, a) => if Can(cfg, s, a) then Do(cfg, s, a) else s)
  }
}
