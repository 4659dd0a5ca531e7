/** What sequential histories say about seats. By Theorems.Linearizable these are statements about every
    run of the synchronized server. */
module Ownership {
  import opened Wrappers
  import opened Commands
  import opened Seats
  import opened Messages
  import opened Runs
  import opened Workers
  import opened Linearizability
  import opened Theorems
  import D = Discipline

  predicate About(e: Entry, command: CommandType, key: string) {
    e.req.command == command && Key(e.req) == key
  }

  predicate HeldIn(t: Table, key: string, client: Word) {
    Lookup(t, key).Some? && HeldBy(Lookup(t, key).value, client)
  }

  predicate FreeIn(t: Table, key: string) {
    Lookup(t, key).Some? && Free(Lookup(t, key).value)
  }

  lemma {:induction false} ReplayKeeps(t: Table, h: seq<Entry>)
    requires AllSettled(t)
    ensures AllSettled(Replay(t, h)) && Ids(Replay(t, h)) == Ids(t)
  {
    if h != [] {
      ReplayKeeps(t, h[..|h| - 1]);
      ApplyFrame(Replay(t, h[..|h| - 1]), h[|h| - 1].req);
    }
  }

  /** Requests about other seats are invisible, and only its owner's CANCEL can free a reserved seat. */
  lemma HeldElsewhere(t: Table, r: Request, key: string, client: Word)
    requires AllSettled(t) && HeldIn(t, key, client)
    requires !(r.command == Cancel && Key(r) == key && r.client == client)
    ensures HeldIn(Apply(t, r).table, key, client)
  {
    ApplyFrame(t, r);
  }

  /** Only a RESERVE of it can take a free seat. */
  lemma FreeElsewhere(t: Table, r: Request, key: string)
    requires AllSettled(t) && FreeIn(t, key) && !(r.command == Reserve && Key(r) == key)
    ensures FreeIn(Apply(t, r).table, key)
  {
    ApplyFrame(t, r);
  }

  lemma ReplayNext(t: Table, h: seq<Entry>, i: nat)
    requires i < |h|
    ensures Replay(t, h[..i + 1]) == Apply(Replay(t, h[..i]), h[i].req).table
  {
    assert h[..i + 1][..i] == h[..i];
  }

  /** A seat stays with its owner across any stretch of history without the owner's CANCEL of it. */
  lemma {:induction false} StaysHeld(t: Table, h: seq<Entry>, from: nat, until: nat, key: string, client: Word)
    requires AllSettled(t) && from <= until <= |h| && HeldIn(Replay(t, h[..from]), key, client)
    requires forall m | from <= m < until :: !(About(h[m], Cancel, key) && h[m].req.client == client)
    ensures HeldIn(Replay(t, h[..until]), key, client)
    decreases until
  {
    if from < until {
      var last := until - 1;
      StaysHeld(t, h, from, last, key, client);
      ReplayNext(t, h, last);
      ReplayKeeps(t, h[..last]);
      assert !(About(h[last], Cancel, key) && h[last].req.client == client);
      HeldElsewhere(Replay(t, h[..last]), h[last].req, key, client);
    }
  }

  lemma {:induction false} StaysFree(t: Table, h: seq<Entry>, until: nat, key: string)
    requires AllSettled(t) && until <= |h| && FreeIn(t, key)
    requires forall m | 0 <= m < until :: !About(h[m], Reserve, key)
    ensures FreeIn(Replay(t, h[..until]), key)
    decreases until
  {
    if 0 < until {
      var last := until - 1;
      StaysFree(t, h, last, key);
      ReplayNext(t, h, last);
      ReplayKeeps(t, h[..last]);
      FreeElsewhere(Replay(t, h[..last]), h[last].req, key);
    } else {
      assert h[..0] == [];
    }
  }

  /** Ownership stability: after a successful RESERVE of a seat and until its owner's CANCEL of it, every
      STATUS reports that owner and every RESERVE of the seat fails, whoever asks. */
  lemma OwnershipStable(t: Table, h: seq<Entry>, i: nat, k: nat)
    requires AllSettled(t) && Sequential(t, h) && i < k < |h|
    requires h[i].req.command == Reserve && h[i].resp.result == Success
    requires forall m | i < m < k :: !(About(h[m], Cancel, Key(h[i].req)) && h[m].req.client == h[i].req.client)
    ensures HeldIn(Replay(t, h[..k]), Key(h[i].req), h[i].req.client)
    ensures About(h[k], Status, Key(h[i].req)) ==>
              h[k].resp.result == Success && h[k].resp.status == Reserved && h[k].resp.owner == h[i].req.client
    ensures About(h[k], Reserve, Key(h[i].req)) ==> h[k].resp.result == Failure
  {
    var key := Key(h[i].req);
    assert EntryOk(Replay(t, h[..i]), h[i]);
    ReplayNext(t, h, i);
    ReplayKeeps(t, h[..i]);
    ApplyFrame(Replay(t, h[..i]), h[i].req);
    StaysHeld(t, h, i + 1, k, key, h[i].req.client);
    assert EntryOk(Replay(t, h[..k]), h[k]);
  }

  /** Ownership stability over every run of the synchronized server, with the history in lock order. */
  lemma OwnershipStableInRuns(cfg: Config, acts: seq<Action>, i: nat, k: nat)
    requires cfg.sync && Valid(Machine(cfg), Init(cfg), acts)
    requires var h := After(Machine(cfg), Init(cfg), acts).mem.hist;
             && i < k < |h| && h[i].req.command == Reserve && h[i].resp.result == Success
             && forall m | i < m < k :: !(About(h[m], Cancel, Key(h[i].req)) && h[m].req.client == h[i].req.client)
    ensures var h := After(Machine(cfg), Init(cfg), acts).mem.hist;
            && (About(h[k], Status, Key(h[i].req)) ==>
                  h[k].resp.result == Success && h[k].resp.status == Reserved && h[k].resp.owner == h[i].req.client)
            && (About(h[k], Reserve, Key(h[i].req)) ==> h[k].resp.result == Failure)
  {
    Linearizable(cfg, acts);
    OwnershipStable(FreshTable(cfg.seatIds), After(Machine(cfg), Init(cfg), acts).mem.hist, i, k);
  }

  lemma FirstReserve(h: seq<Entry>, key: string) returns (p: nat)
    requires exists e :: e in h && About(e, Reserve, key)
    ensures p < |h| && About(h[p], Reserve, key) && forall m | 0 <= m < p :: !About(h[m], Reserve, key)
  {
    p := 0;
    while !About(h[p], Reserve, key)
      invariant p < |h| && forall m | 0 <= m < p :: !About(h[m], Reserve, key)
      decreases |h| - p
    {
      p := p + 1;
    }
  }

  /** The first RESERVE of a free seat, by a client with a valid id, succeeds. */
  lemma FirstWins(t: Table, h: seq<Entry>, p: nat, key: string)
    requires AllSettled(t) && Sequential(t, h) && FreeIn(t, key) && p < |h|
    requires About(h[p], Reserve, key) && h[p].req.client != INVALID_CLIENT
    requires forall m | 0 <= m < p :: !About(h[m], Reserve, key)
    ensures h[p].resp.result == Success && HeldIn(Replay(t, h[..p + 1]), key, h[p].req.client)
  {
    StaysFree(t, h, p, key);
    ReplayNext(t, h, p);
    ReplayKeeps(t, h[..p]);
    ApplyFrame(Replay(t, h[..p]), h[p].req);
    assert EntryOk(Replay(t, h[..p]), h[p]);
  }

  /** While a seat is held, a RESERVE of it fails. */
  lemma LaterLoses(t: Table, h: seq<Entry>, q: nat, key: string, client: Word)
    requires AllSettled(t) && Sequential(t, h) && q < |h| && About(h[q], Reserve, key)
    requires HeldIn(Replay(t, h[..q]), key, client)
    ensures h[q].resp.result == Failure
  {
    ReplayKeeps(t, h[..q]);
    assert EntryOk(Replay(t, h[..q]), h[q]);
  }

  /** Exactly one winner: if a seat is free at the start, is never cancelled and is asked for by clients with
      valid ids, then exactly one RESERVE of it succeeds, the first, and its client owns the seat at the end. */
  lemma OneWinner(t: Table, h: seq<Entry>, key: string) returns (p: nat)
    requires AllSettled(t) && Sequential(t, h) && FreeIn(t, key)
    requires forall e | e in h :: !About(e, Cancel, key) && (About(e, Reserve, key) ==> e.req.client != INVALID_CLIENT)
    requires exists e :: e in h && About(e, Reserve, key)
    ensures p < |h| && About(h[p], Reserve, key)
    ensures forall q | 0 <= q < |h| && About(h[q], Reserve, key) :: h[q].resp.result == Success <==> q == p
    ensures HeldIn(Replay(t, h), key, h[p].req.client)
  {
    p := FirstReserve(h, key);
    FirstWins(t, h, p, key);
    forall q | p < q < |h| && About(h[q], Reserve, key) ensures h[q].resp.result == Failure {
      StaysHeld(t, h, p + 1, q, key, h[p].req.client);
      LaterLoses(t, h, q, key, h[p].req.client);
    }
    StaysHeld(t, h, p + 1, |h|, key, h[p].req.client);
    assert h[..|h|] == h;
  }

  /** Exactly one winner in every run of the synchronized server in which clients with valid ids compete for a
      seat that nobody cancels. */
  lemma OneWinnerInRuns(cfg: Config, acts: seq<Action>, key: string) returns (p: nat)
    requires cfg.sync && Valid(Machine(cfg), Init(cfg), acts) && key in cfg.seatIds
    requires var h := After(Machine(cfg), Init(cfg), acts).mem.hist;
             && (forall e | e in h :: !About(e, Cancel, key) && (About(e, Reserve, key) ==> e.req.client != INVALID_CLIENT))
             && exists e :: e in h && About(e, Reserve, key)
    ensures var s := After(Machine(cfg), Init(cfg), acts);
            && p < |s.mem.hist| && About(s.mem.hist[p], Reserve, key)
            && (forall q | 0 <= q < |s.mem.hist| && About(s.mem.hist[q], Reserve, key) ::
                  s.mem.hist[q].resp.result == Success <==> q == p)
            && (s.mem.lock == None ==> HeldIn(s.mem.table, key, s.mem.hist[p].req.client))
  {
    Linearizable(cfg, acts);
    FreshFree(cfg.seatIds, key);
    p := OneWinner(FreshTable(cfg.seatIds), After(Machine(cfg), Init(cfg), acts).mem.hist, key);
  }

  lemma FreshFree(ids: seq<string>, key: string)
    requires key in ids
    ensures FreeIn(FreshTable(ids), key)
  {
    assert Ids(FreshTable(ids)) == ids;
  }

  /** With synchronization every answer ever given tells the truth about the table its request found and the one
      it left. */
  lemma AnswersTell(cfg: Config, acts: seq<Action>, i: nat)
    requires cfg.sync && Valid(Machine(cfg), Init(cfg), acts)
    requires i < |After(Machine(cfg), Init(cfg), acts).mem.hist|
    ensures var h := After(Machine(cfg), Init(cfg), acts).mem.hist;
            var t := FreshTable(cfg.seatIds);
            Tells(Replay(t, h[..i]), Replay(t, h[..i + 1]), h[i].req, h[i].resp)
  {
    Linearizable(cfg, acts);
    var h := After(Machine(cfg), Init(cfg), acts).mem.hist;
    EntryTells(FreshTable(cfg.seatIds), h, i);
  }

  lemma EntryTells(t: Table, h: seq<Entry>, i: nat)
    requires Sequential(t, h) && i < |h|
    ensures Tells(Replay(t, h[..i]), Replay(t, h[..i + 1]), h[i].req, h[i].resp)
  {
    ReplayNext(t, h, i);
    assert EntryOk(Replay(t, h[..i]), h[i]);
    ApplyTells(Replay(t, h[..i]), h[i].req);
  }

  /** In every mode, and whatever the table is by then: a RESERVE that succeeded answers Reserved by its client, a
      CANCEL that succeeded Available by nobody, a STATUS that succeeded what it copied; every failure shows the
      defaults, and the text fits. */
  lemma AnswersInEveryMode(cfg: Config, acts: seq<Action>, e: Entry)
    requires Valid(Machine(cfg), Init(cfg), acts) && e in After(Machine(cfg), Init(cfg), acts).mem.hist
    ensures NoteFits(e.req, e.resp) && e.resp.requestId == e.req.requestId && e.resp.client == e.req.client
    ensures e.resp.result == Failure ==> e.resp.status == Available && e.resp.owner == 0
    ensures e.req.command == Reserve && e.resp.result == Success ==> e.resp.status == Reserved && e.resp.owner == e.req.client
    ensures e.req.command == Cancel && e.resp.result == Success ==> e.resp.status == Available && e.resp.owner == 0
    ensures e.req.command == Status ==> (e.resp.result == Success <==> e.loc.snap.Some?)
    ensures e.req.command == Status && e.loc.snap.Some? ==>
              e.resp.status == e.loc.snap.value.status
              && e.resp.owner == (match e.loc.snap.value.owner case Some(c) => c case None => 0)
  {
    Reachable(cfg, acts);
    var s := After(Machine(cfg), Init(cfg), acts);
    var i :| 0 <= i < |s.mem.hist| && s.mem.hist[i] == e;
    assert D.EntryFits(s.begun, i, s.mem.hist[i]);
  }

  /** No torn reads: although the fields of a seat are copied and written one at a time, every copy a STATUS,
      RESERVE or CANCEL takes and every LIST copy shows status and owner in agreement and the constructor's
      ids in order; so a STATUS answer says Reserved exactly when it names a real owner. */
  lemma NoTornReads(cfg: Config, acts: seq<Action>, i: nat)
    requires cfg.sync && Valid(Machine(cfg), Init(cfg), acts)
    requires i < |After(Machine(cfg), Init(cfg), acts).mem.hist|
    ensures var e := After(Machine(cfg), Init(cfg), acts).mem.hist[i];
            && (NamesSeat(e.req.command) && e.loc.snap.Some? ==> Settled(e.loc.snap.value))
            && (e.req.command == List ==> AllSettled(e.loc.list) && Ids(e.loc.list) == cfg.seatIds)
            && (e.req.command == Status ==> (e.resp.status == Reserved <==> e.resp.owner != INVALID_CLIENT))
  {
    Linearizable(cfg, acts);
    var h := After(Machine(cfg), Init(cfg), acts).mem.hist;
    var t := Replay(FreshTable(cfg.seatIds), h[..i]);
    assert EntryOk(t, h[i]);
    ReplayKeeps(FreshTable(cfg.seatIds), h[..i]);
  }

  /** Check and update agree: with synchronization RESERVE succeeds exactly when its check found the seat
      free and the client id is valid, CANCEL exactly when its check found the client to be the owner. So the
      CONFLICT message is reached exactly when a client with id 0 asks for a free seat. */
  lemma CheckMeansUpdate(cfg: Config, acts: seq<Action>, i: nat)
    requires cfg.sync && Valid(Machine(cfg), Init(cfg), acts)
    requires i < |After(Machine(cfg), Init(cfg), acts).mem.hist|
    ensures var e := After(Machine(cfg), Init(cfg), acts).mem.hist[i];
            var t := Replay(FreshTable(cfg.seatIds), After(Machine(cfg), Init(cfg), acts).mem.hist[..i]);
            && (e.req.command == Reserve ==>
                  && (e.resp.result == Success <==> e.loc.wasOk && e.req.client != INVALID_CLIENT)
                  && (e.loc.wasOk && e.resp.result == Failure <==> FreeIn(t, Key(e.req)) && e.req.client == INVALID_CLIENT))
            && (e.req.command == Cancel ==> (e.resp.result == Success <==> e.loc.wasOk))
  {
    Linearizable(cfg, acts);
    var h := After(Machine(cfg), Init(cfg), acts).mem.hist;
    assert EntryOk(Replay(FreshTable(cfg.seatIds), h[..i]), h[i]);
  }
}
