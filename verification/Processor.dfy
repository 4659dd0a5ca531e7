/** process_request as it runs alone (src/server/request_processor.cpp): the same branches as the micro-steps,
    on the mutable table, shown to do what Apply says. */
module Processor {
  import opened Wrappers
  import opened Commands
  import opened Buffers
  import opened Seats
  import opened Messages

  class RequestProcessor {
    const table: ReservationTable

    constructor (table: ReservationTable)
      ensures this.table == table
    {
      this.table := table;
    }

    /** The response before the command is looked at: ids copied, seat id rewritten into a zeroed buffer. */
    method BlankResponse(req: Request) returns (resp: Response)
      ensures resp == Blank(req, UnknownCommand)
    {
      var buffer := new char[SEAT_BYTES](_ => '\0');
      assert buffer[..buffer.Length] == Zeros(SEAT_BYTES);
      CopyStringToBuffer(buffer, SEAT_BYTES, ToText(req.seat));
      assert buffer[..] == buffer[..SEAT_BYTES];
      resp := Response(req.requestId, req.client, Failure, buffer[..], Available, INVALID_CLIENT, UnknownCommand);
    }

    /** CHECK and UPDATE of RESERVE. */
    method ReserveOp(req: Request) returns (success: bool, wasAvailable: bool)
      requires table.Valid()
      modifies table.seats
      ensures success <==> CanReserve(old(table.View()), req)
      ensures table.View() == Apply(old(table.View()), req.(command := Reserve)).table
      ensures wasAvailable <==> Lookup(old(table.View()), Key(req)).Some? && Free(Lookup(old(table.View()), Key(req)).value)
      ensures wasAvailable && !success <==> wasAvailable && req.client == INVALID_CLIENT
    {
      wasAvailable := false;
      var current := table.GetSeat(ToText(req.seat));
      if current.None? {
        return false, false;
      }
      wasAvailable := current.value.status == Available;
      success := table.ReserveSeat(ToText(req.seat), req.client);
    }

    /** CHECK and UPDATE of CANCEL. */
    method CancelOp(req: Request) returns (success: bool, wasOwned: bool)
      requires table.Valid()
      modifies table.seats
      ensures success <==> CanCancel(old(table.View()), req)
      ensures table.View() == Apply(old(table.View()), req.(command := Cancel)).table
      ensures wasOwned == success
    {
      wasOwned := false;
      var current := table.GetSeat(ToText(req.seat));
      if current.None? {
        return false, false;
      }
      wasOwned := current.value.status == Reserved && current.value.owner == Some(req.client);
      success := table.CancelSeat(ToText(req.seat), req.client);
    }

    method ProcessRequest(req: Request) returns (resp: Response)
      requires table.Valid()
      modifies table.seats
      ensures resp == Apply(old(table.View()), req).response
      ensures table.View() == Apply(old(table.View()), req).table
      ensures Tells(old(table.View()), table.View(), req, resp)
    {
      ApplyTells(table.View(), req);
      resp := BlankResponse(req);
      match req.command {
        case List =>
          var snapshot := table.GetAllSeats();
          resp := resp.(result := Success, note := Listed);
        case Status =>
          var snapshot := table.GetSeat(ToText(req.seat));
          if snapshot.Some? {
            resp := resp.(result := Success, status := snapshot.value.status,
                          owner := snapshot.value.owner.GetOr(INVALID_CLIENT), note := StatusRetrieved);
          } else {
            resp := resp.(note := SeatNotFound);
          }
        case Reserve =>
          var success, wasAvailable := ReserveOp(req);
          if success {
            resp := resp.(result := Success, status := Reserved, owner := req.client, note := ReservedOk);
          } else {
            resp := resp.(note := ReservationFailed);
          }
        case Cancel =>
          var success, wasOwned := CancelOp(req);
          if success {
            resp := resp.(result := Success, status := Available, owner := INVALID_CLIENT, note := CancelledOk);
          } else {
            resp := resp.(note := CancellationFailed);
          }
        case Quit =>
          resp := resp.(result := Success, note := SessionEnded);
        case Unknown =>
          resp := resp.(result := Failure, note := UnknownCommand);
      }
    }
  }
}
