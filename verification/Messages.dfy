/** The wire messages (include/ipc/message.hpp) and what one request does to the table when it runs
    alone: the reference every concurrent execution is compared with. */
module Messages {
  import opened Wrappers
  import opened Commands
  import opened Buffers
  import opened Seats

  const SEAT_BYTES: nat := 8
  const QUEUE_NAME_BYTES: nat := 64

  datatype StatusCode = Success | Failure

  /** The fixed response texts, named. */
  datatype Note =
    | Listed | StatusRetrieved | SeatNotFound
    | ReservedOk | ReservationFailed
    | CancelledOk | CancellationFailed
    | SessionEnded | UnknownCommand

  datatype Request = Request(requestId: Word, client: Word, command: CommandType, seat: seq<char>, reply: seq<char>)

  datatype Response = Response(requestId: Word, client: Word, result: StatusCode, seat: seq<char>,
                               status: SeatStatus, owner: Word, note: Note)

  /** The id the server looks up for a request. */
  function Key(r: Request): string {
    ToText(r.seat)
  }

  /** A response before any command-specific field is filled in: a failed RESERVE or CANCEL keeps these
      defaults, whatever the seat's real state is. */
  function Blank(r: Request, note: Note): Response {
    Response(r.requestId, r.client, Failure, Written(Zeros(SEAT_BYTES), Key(r)), Available, INVALID_CLIENT, note)
  }

  datatype Outcome = Outcome(table: Table, response: Response)

  /** The seat a request names, if the table has it. */
  function Lookup(t: Table, key: string): Option<SeatView> {
    match Find(t, key)
    case Some(i) => Some(t[i])
    case None => None
  }

  predicate CanReserve(t: Table, r: Request) {
    Lookup(t, Key(r)).Some? && Free(Lookup(t, Key(r)).value) && r.client != INVALID_CLIENT
  }

  predicate CanCancel(t: Table, r: Request) {
    Lookup(t, Key(r)).Some? && HeldBy(Lookup(t, Key(r)).value, r.client)
  }

  /** One request on its own: its effect on the table and its answer. */
  function Apply(t: Table, r: Request): Outcome {
    match r.command
    case List => Outcome(t, Blank(r, Listed).(result := Success))
    case Status =>
      (match Lookup(t, Key(r))
       case Some(v) =>
         Outcome(t, Blank(r, StatusRetrieved).(result := Success, status := v.status, owner := v.owner.GetOr(INVALID_CLIENT)))
       case None => Outcome(t, Blank(r, SeatNotFound)))
    case Reserve =>
      if CanReserve(t, r) then
        var i := Find(t, Key(r)).value;
        Outcome(t[i := Taken(t[i], r.client)], Blank(r, ReservedOk).(result := Success, status := Reserved, owner := r.client))
      else Outcome(t, Blank(r, ReservationFailed))
    case Cancel =>
      if CanCancel(t, r) then
        var i := Find(t, Key(r)).value;
        Outcome(t[i := Released(t[i])], Blank(r, CancelledOk).(result := Success))
      else Outcome(t, Blank(r, CancellationFailed))
    case Quit => Outcome(t, Blank(r, SessionEnded).(result := Success))
    case Unknown => Outcome(t, Blank(r, UnknownCommand))
  }

  /** Whatever arrives, the table keeps its ids in order and its fields in agreement, and at most one seat
      changes: the one the request names. */
  lemma ApplyFrame(t: Table, r: Request)
    requires AllSettled(t)
    ensures Ids(Apply(t, r).table) == Ids(t) && AllSettled(Apply(t, r).table)
    ensures forall i | 0 <= i < |t| && Find(t, Key(r)) != Some(i) :: Apply(t, r).table[i] == t[i]
    ensures Apply(t, r).response.requestId == r.requestId && Apply(t, r).response.client == r.client
  {
    var i := Find(t, Key(r));
    if i.Some? {
      IdsKept(t, i.value, Taken(t[i.value], r.client));
      IdsKept(t, i.value, Released(t[i.value]));
    }
  }

  // What an answer tells the client, said about the table and not about the branches taken.

  /** A successful answer about a seat shows the seat as the request leaves it; every other answer shows the
      defaults. */
  predicate ShowsSeat(after: Table, r: Request, resp: Response) {
    if resp.result == Success && (r.command == Status || r.command == Reserve || r.command == Cancel) then
      match Lookup(after, Key(r))
      case Some(v) => resp.status == v.status && resp.owner == (match v.owner case Some(c) => c case None => 0)
      case None => false
    else resp.status == Available && resp.owner == 0
  }

  /** When each command succeeds, and what it does to the seat. */
  predicate Decides(before: Table, after: Table, r: Request, resp: Response) {
    && (r.command == List || r.command == Quit ==> resp.result == Success)
    && (r.command == Unknown ==> resp.result == Failure)
    && (r.command == Status ==> (resp.result == Success <==> Key(r) in Ids(before)))
    && (r.command == Reserve ==>
          && (resp.result == Success <==>
                Lookup(before, Key(r)).Some? && Lookup(before, Key(r)).value.status == Available && r.client != 0)
          && (resp.result == Success ==> Lookup(after, Key(r)) == Some(SeatView(Key(r), Reserved, Some(r.client)))))
    && (r.command == Cancel ==>
          && (resp.result == Success <==>
                && Lookup(before, Key(r)).Some? && Lookup(before, Key(r)).value.status == Reserved
                && Lookup(before, Key(r)).value.owner == Some(r.client))
          && (resp.result == Success ==> Lookup(after, Key(r)) == Some(SeatView(Key(r), Available, None))))
    && (after == before || (resp.result == Success && (r.command == Reserve || r.command == Cancel)))
  }

  /** The text belongs to the command and the result, and to no other. */
  predicate NoteFits(r: Request, resp: Response) {
    && (resp.note == Listed <==> r.command == List)
    && (resp.note == StatusRetrieved <==> r.command == Status && resp.result == Success)
    && (resp.note == SeatNotFound <==> r.command == Status && resp.result == Failure)
    && (resp.note == ReservedOk <==> r.command == Reserve && resp.result == Success)
    && (resp.note == ReservationFailed <==> r.command == Reserve && resp.result == Failure)
    && (resp.note == CancelledOk <==> r.command == Cancel && resp.result == Success)
    && (resp.note == CancellationFailed <==> r.command == Cancel && resp.result == Failure)
    && (resp.note == SessionEnded <==> r.command == Quit)
    && (resp.note == UnknownCommand <==> r.command == Unknown)
  }

  /** The seat text comes back, cut to the field. */
  predicate Echoes(r: Request, resp: Response) {
    && resp.requestId == r.requestId && resp.client == r.client
    && ToText(resp.seat) == (if |ToText(r.seat)| < 8 then ToText(r.seat) else ToText(r.seat)[..7])
  }

  predicate Tells(before: Table, after: Table, r: Request, resp: Response) {
    Echoes(r, resp) && ShowsSeat(after, r, resp) && Decides(before, after, r, resp) && NoteFits(r, resp)
  }

  lemma LookupAfter(t: Table, key: string, v: SeatView)
    requires Find(t, key).Some? && v.id == key
    ensures Lookup(t[Find(t, key).value := v], key) == Some(v)
  {
    IdsKept(t, Find(t, key).value, v);
  }

  lemma ApplyDecides(t: Table, r: Request)
    ensures ShowsSeat(Apply(t, r).table, r, Apply(t, r).response) && Decides(t, Apply(t, r).table, r, Apply(t, r).response)
  {
    var i := Find(t, Key(r));
    if r.command == Reserve && CanReserve(t, r) {
      LookupAfter(t, Key(r), Taken(t[i.value], r.client));
    } else if r.command == Cancel && CanCancel(t, r) {
      LookupAfter(t, Key(r), Released(t[i.value]));
    }
  }

  lemma ApplyEchoes(t: Table, r: Request)
    ensures Echoes(r, Apply(t, r).response)
  {
    RoundTrip(Zeros(SEAT_BYTES), Key(r));
  }

  /** Every answer tells the truth about the table, whatever the request and the table are. */
  lemma ApplyTells(t: Table, r: Request)
    ensures Tells(t, Apply(t, r).table, r, Apply(t, r).response)
  {
    ApplyEchoes(t, r);
    ApplyDecides(t, r);
  }
}
