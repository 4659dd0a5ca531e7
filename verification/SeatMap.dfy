/** What a client shows of a seat (src/client/client.cpp), and how a seat id travels. */
module SeatMap {
  import opened Wrappers
  import opened Commands
  import opened Buffers
  import opened Seats
  import opened Messages
  import S = Server

  const CANONICAL_SEAT_IDS: seq<string> := [
    "A1", "A2", "A3", "A4", "A5", "B1", "B2", "B3", "B4", "B5",
    "C1", "C2", "C3", "C4", "C5", "D1", "D2", "D3", "D4", "D5"]

  datatype SeatDisplayInfo = SeatDisplayInfo(seatId: string, status: SeatStatus, owner: Word)

  /** Ids the 8-byte seat field can carry. */
  predicate Transportable(ids: seq<string>) {
    forall i | 0 <= i < |ids| :: |ids[i]| < SEAT_BYTES && NulFree(ids[i])
  }

  /** How a table shows one seat. */
  function Shown(t: Table, id: string): SeatDisplayInfo {
    match Lookup(t, id)
    case Some(v) => SeatDisplayInfo(id, v.status, v.owner.GetOr(INVALID_CLIENT))
    case None => SeatDisplayInfo(id, Available, INVALID_CLIENT)
  }

  /** How a client shows a seat: from a response with success, or as free. */
  function Displayed(seat: string, r: Option<Response>): SeatDisplayInfo {
    if r.Some? && r.value.result == Success then SeatDisplayInfo(seat, r.value.status, r.value.owner)
    else SeatDisplayInfo(seat, Available, INVALID_CLIENT)
  }

  /** The canonical ids are distinct and survive the 8-byte field. */
  lemma CanonicalIdsFit()
    ensures Transportable(CANONICAL_SEAT_IDS)
    ensures forall i, j | 0 <= i < j < |CANONICAL_SEAT_IDS| :: CANONICAL_SEAT_IDS[i] != CANONICAL_SEAT_IDS[j]
  {
    forall i, j | 0 <= i < j < |CANONICAL_SEAT_IDS| ensures CANONICAL_SEAT_IDS[i] != CANONICAL_SEAT_IDS[j] {
      assert CANONICAL_SEAT_IDS[i][0] != CANONICAL_SEAT_IDS[j][0] || CANONICAL_SEAT_IDS[i][1] != CANONICAL_SEAT_IDS[j][1];
    }
  }

  /** The server looks up the id the client asked for, and the response shows the same id. */
  lemma SeatIdSurvives(id: Word, client: Word, command: CommandType, seat: string, t: Table)
    requires NulFree(seat)
    ensures var r := S.MakeRequest(id, client, command, seat);
            && Key(r) == (if |seat| < SEAT_BYTES then seat else seat[..SEAT_BYTES - 1])
            && (forall x | |x| <= 6 :: Key(r) == x <==> seat == x)
            && ToText(Apply(t, r).response.seat) == Key(r)
  {
    var r := S.MakeRequest(id, client, command, seat);
    RoundTrip(Zeros(SEAT_BYTES), seat);
    RereadStable(r.seat, Zeros(SEAT_BYTES));
  }

  /** A STATUS answer shows the seat as the table has it. */
  lemma StatusShows(id: Word, client: Word, seat: string, t: Table)
    requires |seat| < SEAT_BYTES && NulFree(seat)
    ensures Displayed(seat, Some(Apply(t, S.MakeRequest(id, client, Status, seat)).response)) == Shown(t, seat)
  {
    SeatIdSurvives(id, client, Status, seat, t);
  }
}
