/** Seats and the reservation table (src/core). The classes hold the mutable fields of the source; a
    SeatView is the value a Seat copy carries, and a Table is what get_all_seats returns. */
module Seats {
  import opened Wrappers
  import opened Commands

  datatype SeatStatus = Available | Reserved

  datatype SeatView = SeatView(id: string, status: SeatStatus, owner: Option<Word>)

  type Table = seq<SeatView>

  /** The two fields of a seat agree: reserved exactly when a real client owns it. */
  predicate Settled(v: SeatView) {
    match v.status
    case Available => v.owner == None
    case Reserved => v.owner.Some? && v.owner.value != INVALID_CLIENT
  }

  predicate AllSettled(t: Table) {
    forall i | 0 <= i < |t| :: Settled(t[i])
  }

  function Ids(t: Table): (ids: seq<string>)
    ensures |ids| == |t|
  {
    seq(|t|, i requires 0 <= i < |t| => t[i].id)
  }

  /** The table as constructed: every seat free, in the given order. */
  function FreshTable(ids: seq<string>): (t: Table)
    ensures |t| == |ids| && AllSettled(t)
  {
    seq(|ids|, i requires 0 <= i < |ids| => SeatView(ids[i], Available, None))
  }

  /** The first position holding an id. */
  function Locate(ids: seq<string>, key: string): (r: Option<nat>)
    ensures r.Some? ==> r.value < |ids| && ids[r.value] == key && (forall j | 0 <= j < r.value :: ids[j] != key)
    ensures r.None? <==> key !in ids
  {
    if ids == [] then None
    else if ids[0] == key then Some(0)
    else
      match Locate(ids[1..], key)
      case None => None
      case Some(i) => Some(i + 1)
  }

  function Find(t: Table, key: string): (r: Option<nat>)
    ensures r.Some? ==> r.value < |t| && t[r.value].id == key
  {
    Locate(Ids(t), key)
  }

  /** Replacing a seat by one with the same id moves no seat. */
  lemma IdsKept(t: Table, i: nat, v: SeatView)
    requires i < |t| && v.id == t[i].id
    ensures Ids(t[i := v]) == Ids(t)
  {
  }

  /** A seat a client may take, and one it may give back. */
  predicate Free(v: SeatView) {
    v.status == Available
  }

  predicate HeldBy(v: SeatView, client: Word) {
    v.status == Reserved && v.owner == Some(client)
  }

  function Taken(v: SeatView, client: Word): SeatView {
    v.(status := Reserved, owner := Some(client))
  }

  function Released(v: SeatView): SeatView {
    v.(status := Available, owner := None)
  }

  class Seat {
    const id: string
    var status: SeatStatus
    var owner: Option<Word>

    ghost function View(): SeatView
      reads this
    {
      SeatView(id, status, owner)
    }

    constructor (id: string)
      ensures View() == SeatView(id, Available, None)
    {
      this.id := id;
      status := Available;
      owner := None;
    }

    method Copy() returns (v: SeatView)
      ensures v == View()
    {
      v := SeatView(id, status, owner);
    }

    method Reserve(client: Word) returns (ok: bool)
      modifies this
      ensures ok <==> old(Free(View())) && client != INVALID_CLIENT
      ensures View() == if ok then Taken(old(View()), client) else old(View())
      ensures old(Settled(View())) ==> Settled(View())
    {
      if status == Reserved || client == INVALID_CLIENT {
        return false;
      }
      status := Reserved;
      owner := Some(client);
      return true;
    }

    method Cancel(client: Word) returns (ok: bool)
      modifies this
      ensures ok <==> old(HeldBy(View(), client))
      ensures View() == if ok then Released(old(View())) else old(View())
      ensures old(Settled(View())) ==> Settled(View())
    {
      if status != Reserved || owner != Some(client) {
        return false;
      }
      status := Available;
      owner := None;
      return true;
    }

    method Reset()
      modifies this
      ensures View() == Released(old(View()))
    {
      status := Available;
      owner := None;
    }
  }

  class ReservationTable {
    var seats: seq<Seat>

    /** No seat object sits in two places, so updating one changes one position. */
    ghost predicate Valid()
      reads this
    {
      forall i, j | 0 <= i < j < |seats| :: seats[i] != seats[j]
    }

    ghost function View(): (t: Table)
      reads this, seats
      ensures |t| == |seats|
    {
      seq(|seats|, i requires 0 <= i < |seats| reads this, seats => seats[i].View())
    }

    constructor (ids: seq<string>)
      ensures Valid() && fresh(seats) && View() == FreshTable(ids)
    {
      seats := [];
      new;
      for i := 0 to |ids|
        invariant fresh(seats) && Valid() && |seats| == i
        invariant forall j | 0 <= j < i :: seats[j].View() == SeatView(ids[j], Available, None)
      {
        var seat := new Seat(ids[i]);
        seats := seats + [seat];
      }
    }

    /** find_seat_internal: the first seat with the id, or null. */
    method FindSeat(key: string) returns (r: Option<nat>)
      ensures r == Find(View(), key)
    {
      for i := 0 to |seats|
        invariant forall j | 0 <= j < i :: Ids(View())[j] != key
      {
        if seats[i].id == key {
          assert Ids(View())[i] == key;
          return Some(i);
        }
      }
      return None;
    }

    method GetSeat(key: string) returns (r: Option<SeatView>)
      ensures r == match Find(View(), key) case Some(i) => Some(View()[i]) case None => None
    {
      var i := FindSeat(key);
      if i.None? {
        return None;
      }
      var v := seats[i.value].Copy();
      return Some(v);
    }

    method GetAllSeats() returns (t: Table)
      ensures t == View()
    {
      t := [];
      for i := 0 to |seats|
        invariant t == View()[..i]
      {
        var v := seats[i].Copy();
        t := t + [v];
      }
    }

    /** reserve_seat; the delay action between the test and the update touches no seat. */
    method ReserveSeat(key: string, client: Word) returns (ok: bool)
      requires Valid()
      modifies seats
      ensures unchanged(this)
      ensures var i := old(Find(View(), key));
              && (ok <==> i.Some? && Free(old(View())[i.value]) && client != INVALID_CLIENT)
              && View() == (if ok then old(View())[i.value := Taken(old(View())[i.value], client)] else old(View()))
    {
      var i := FindSeat(key);
      if i.None? || seats[i.value].status != Available {
        return false;
      }
      ok := seats[i.value].Reserve(client);
    }

    method CancelSeat(key: string, client: Word) returns (ok: bool)
      requires Valid()
      modifies seats
      ensures unchanged(this)
      ensures var i := old(Find(View(), key));
              && (ok <==> i.Some? && HeldBy(old(View())[i.value], client))
              && View() == (if ok then old(View())[i.value := Released(old(View())[i.value])] else old(View()))
    {
      var i := FindSeat(key);
      if i.None? || seats[i.value].status != Reserved || seats[i.value].owner != Some(client) {
        return false;
      }
      ok := seats[i.value].Cancel(client);
    }

    method ResetAll()
      requires Valid()
      modifies seats
      ensures unchanged(this)
      ensures View() == FreshTable(Ids(old(View())))
    {
      for i := 0 to |seats|
        invariant forall j | 0 <= j < i :: seats[j].View() == Released(old(seats[j].View()))
        invariant forall j | i <= j < |seats| :: seats[j].View() == old(seats[j].View())
      {
        seats[i].Reset();
      }
    }
  }
}
