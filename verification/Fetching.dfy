/** Client::fetch_seat_map (src/client/client.cpp) inside a run of the whole system: one LIST, then one STATUS per
    seat, while the workers and the other clients go on. */
module Fetching {
  import opened Wrappers
  import opened Commands
  import opened Buffers
  import opened Seats
  import opened Messages
  import opened Runs
  import opened Server
  import opened SeatMap
  import opened Answers
  import W = Workers
  import L = Linearizability
  import O = Ownership
  import T = Theorems
  import C = Coupling

  /** What happens around one request of the client: the rest of the system acts before the send and between
      send and receive. A request is refused, without any message, if the server's queue is not open. */
  datatype Exchange = Exchange(idle: seq<Action>, busy: seq<Action>) | Refused(idle: seq<Action>)

  /** Nothing that client c does itself. */
  predicate Others(c: nat, acts: seq<Action>) {
    forall a | a in acts :: !(a.ClientSend? && a.c == c) && !(a.ClientReceive? && a.c == c)
  }

  function Sending(c: nat, command: CommandType, seat: string, e: Exchange): seq<Action> {
    match e
    case Exchange(idle, busy) => idle + ([ClientSend(c, command, seat)] + busy)
    case Refused(idle) => idle
  }

  function Actions(c: nat, command: CommandType, seat: string, e: Exchange): seq<Action> {
    Sending(c, command, seat, e) + if e.Exchange? then [ClientReceive(c)] else []
  }

  /** The exchange can take place from state s, and the client does nothing else meanwhile. */
  predicate Possible(cfg: Config, s: Server, c: nat, command: CommandType, seat: string, e: Exchange) {
    && Others(c, e.idle) && (e.Exchange? ==> Others(c, e.busy))
    && Valid(Machine(cfg), s, Actions(c, command, seat, e))
  }

  function Finished(cfg: Config, s: Server, c: nat, command: CommandType, seat: string, e: Exchange): Server {
    After(Machine(cfg), s, Actions(c, command, seat, e))
  }

  /** The response the client receives. */
  function Received(cfg: Config, s: Server, c: nat, command: CommandType, seat: string, e: Exchange): Option<Response> {
    var t := After(Machine(cfg), s, Sending(c, command, seat, e));
    if e.Exchange? && c < |t.replies| && t.replies[c] != [] then Some(t.replies[c][0]) else None
  }

  /** The exchanges of the STATUS requests, one per seat. */
  predicate AllPossible(cfg: Config, s: Server, c: nat, ids: seq<string>, es: seq<Exchange>)
    requires |ids| == |es|
    decreases |es|
  {
    es == [] ||
    (Possible(cfg, s, c, Status, ids[0], es[0]) && AllPossible(cfg, Finished(cfg, s, c, Status, ids[0], es[0]), c, ids[1..], es[1..]))
  }

  function AllFinished(cfg: Config, s: Server, c: nat, ids: seq<string>, es: seq<Exchange>): Server
    requires |ids| == |es|
    decreases |es|
  {
    if es == [] then s else AllFinished(cfg, Finished(cfg, s, c, Status, ids[0], es[0]), c, ids[1..], es[1..])
  }

  /** What the client shows, seat by seat. */
  function Entries(cfg: Config, s: Server, c: nat, ids: seq<string>, es: seq<Exchange>): (r: seq<SeatDisplayInfo>)
    requires |ids| == |es|
    ensures |r| == |ids|
    decreases |es|
  {
    if es == [] then []
    else [Displayed(ids[0], Received(cfg, s, c, Status, ids[0], es[0]))]
         + Entries(cfg, Finished(cfg, s, c, Status, ids[0], es[0]), c, ids[1..], es[1..])
  }

  /** The state after the whole call. */
  function Called(cfg: Config, s: Server, c: nat, ids: seq<string>, announce: Exchange, es: seq<Exchange>): Server
    requires |ids| == |es|
  {
    AllFinished(cfg, Finished(cfg, s, c, List, "", announce), c, ids, es)
  }

  /** What fetch_seat_map returns when it is called in state s, by Client.FetchSeatMap. */
  function SeatMapOf(cfg: Config, s: Server, c: nat, ids: seq<string>, announce: Exchange, es: seq<Exchange>): seq<SeatDisplayInfo>
    requires |ids| == |es|
  {
    Entries(cfg, Finished(cfg, s, c, List, "", announce), c, ids, es)
  }

  /** The call can take place from state s. */
  predicate Callable(cfg: Config, s: Server, c: nat, ids: seq<string>, announce: Exchange, es: seq<Exchange>) {
    && |ids| == |es| && Possible(cfg, s, c, List, "", announce)
    && AllPossible(cfg, Finished(cfg, s, c, List, "", announce), c, ids, es)
  }

  lemma SendingParts(cfg: Config, s: Server, c: nat, command: CommandType, seat: string, e: Exchange)
    requires Possible(cfg, s, c, command, seat, e)
    ensures Valid(Machine(cfg), s, e.idle) && Valid(Machine(cfg), s, Sending(c, command, seat, e))
    ensures e.Exchange? ==>
              var sent := After(Machine(cfg), s, e.idle);
              && Can(cfg, sent, ClientSend(c, command, seat))
              && Valid(Machine(cfg), Do(cfg, sent, ClientSend(c, command, seat)), e.busy)
              && var t := After(Machine(cfg), Do(cfg, sent, ClientSend(c, command, seat)), e.busy);
                 && t == After(Machine(cfg), s, Sending(c, command, seat, e))
                 && Can(cfg, t, ClientReceive(c)) && Finished(cfg, s, c, command, seat, e) == Do(cfg, t, ClientReceive(c))
    ensures e.Refused? ==> Finished(cfg, s, c, command, seat, e) == After(Machine(cfg), s, e.idle)
  {
    var m := Machine(cfg);
    var sending := Sending(c, command, seat, e);
    var tail := if e.Exchange? then [ClientReceive(c)] else [];
    Compose(m, s, sending, tail);
    if e.Exchange? {
      var send := ClientSend(c, command, seat);
      Compose(m, s, e.idle, [send] + e.busy);
      assert ([send] + e.busy)[0] == send && ([send] + e.busy)[1..] == e.busy;
      assert tail[0] == ClientReceive(c) && tail[1..] == [];
    } else {
      assert sending + [] == sending;
    }
  }

  /** The system the clients share, and everything that acts in it. */
  class Network {
    const cfg: Config
    var state: Server

    constructor (cfg: Config, state: Server)
      ensures this.cfg == cfg && this.state == state
    {
      this.cfg := cfg;
      this.state := state;
    }

    method Perform(acts: seq<Action>)
      requires Valid(Machine(cfg), state, acts)
      modifies this
      ensures state == After(Machine(cfg), old(state), acts)
    {
      for n := 0 to |acts|
        invariant Valid(Machine(cfg), state, acts[n..])
        invariant After(Machine(cfg), state, acts[n..]) == After(Machine(cfg), old(state), acts)
      {
        assert acts[n..][0] == acts[n] && acts[n..][1..] == acts[n + 1..];
        state := Do(cfg, state, acts[n]);
      }
    }
  }

  class Client {
    const network: Network
    /** The client's place among the clients of the system. */
    const c: nat

    constructor (network: Network, c: nat)
      ensures this.network == network && this.c == c
    {
      this.network := network;
      this.c := c;
    }

    /** send_request, once the rest of the system has done what comes before it. */
    method SendRequest(command: CommandType, seat: string, e: Exchange) returns (sent: bool)
      requires Possible(network.cfg, network.state, c, command, seat, e)
      modifies network
      ensures sent <==> e.Exchange?
      ensures network.state == After(Machine(network.cfg), old(network.state), e.idle + if sent then [ClientSend(c, command, seat)] else [])
    {
      SendingParts(network.cfg, network.state, c, command, seat, e);
      ghost var start := network.state;
      network.Perform(e.idle);
      if e.Refused? {
        assert e.idle + [] == e.idle;
        return false;
      }
      var send := ClientSend(c, command, seat);
      Extend(Machine(network.cfg), start, e.idle, send);
      network.state := Do(network.cfg, network.state, send);
      return true;
    }

    /** request_status and request_list: send, then wait for one response and take it. */
    method Request(command: CommandType, seat: string, e: Exchange) returns (r: Option<Response>)
      requires Possible(network.cfg, network.state, c, command, seat, e)
      modifies network
      ensures network.state == Finished(network.cfg, old(network.state), c, command, seat, e)
      ensures r == Received(network.cfg, old(network.state), c, command, seat, e)
    {
      SendingParts(network.cfg, network.state, c, command, seat, e);
      ghost var start := network.state;
      var sent := SendRequest(command, seat, e);
      if !sent {
        assert e.idle + [] == e.idle;
        return None;
      }
      Extend(Machine(network.cfg), start, e.idle, ClientSend(c, command, seat));
      network.Perform(e.busy);
      r := Some(network.state.replies[c][0]);
      network.state := Do(network.cfg, network.state, ClientReceive(c));
    }

    /** One entry of the map: without a response, or without success, the seat is shown as free. */
    method FetchOne(seat: string, e: Exchange) returns (info: SeatDisplayInfo)
      requires Possible(network.cfg, network.state, c, Status, seat, e)
      modifies network
      ensures network.state == Finished(network.cfg, old(network.state), c, Status, seat, e)
      ensures info == Displayed(seat, Received(network.cfg, old(network.state), c, Status, seat, e))
    {
      var response := Request(Status, seat, e);
      info := SeatDisplayInfo(seat, Available, INVALID_CLIENT);
      if response.Some? && response.value.result == Success {
        info := info.(status := response.value.status, owner := response.value.owner);
      }
    }

    /** fetch_seat_map: the LIST that announces the inquiry, its answer thrown away, then the seats in order. */
    method FetchSeatMap(ids: seq<string>, announce: Exchange, es: seq<Exchange>) returns (seatMap: seq<SeatDisplayInfo>)
      requires Callable(network.cfg, network.state, c, ids, announce, es)
      modifies network
      ensures seatMap == SeatMapOf(network.cfg, old(network.state), c, ids, announce, es)
      ensures network.state == Called(network.cfg, old(network.state), c, ids, announce, es)
    {
      ghost var cfg := network.cfg;
      var _ := Request(List, "", announce);
      ghost var listed := network.state;
      seatMap := [];
      for k := 0 to |ids|
        invariant AllPossible(cfg, network.state, c, ids[k..], es[k..])
        invariant AllFinished(cfg, network.state, c, ids[k..], es[k..]) == AllFinished(cfg, listed, c, ids, es)
        invariant seatMap + Entries(cfg, network.state, c, ids[k..], es[k..]) == Entries(cfg, listed, c, ids, es)
      {
        assert ids[k..][0] == ids[k] && es[k..][0] == es[k] && ids[k..][1..] == ids[k + 1..] && es[k..][1..] == es[k + 1..];
        var info := FetchOne(ids[k], es[k]);
        assert seatMap + ([info] + Entries(cfg, network.state, c, ids[k + 1..], es[k + 1..]))
               == (seatMap + [info]) + Entries(cfg, network.state, c, ids[k + 1..], es[k + 1..]);
        seatMap := seatMap + [info];
      }
      assert seatMap + [] == seatMap;
    }
  }

  // When the answers were right.

  lemma {:induction false} OthersFrame(cfg: Config, s: Server, c: nat, acts: seq<Action>)
    requires Valid(Machine(cfg), s, acts) && Others(c, acts) && c < |s.clients|
    ensures var t := After(Machine(cfg), s, acts); |t.clients| == |s.clients| && t.clients[c] == s.clients[c]
    decreases |acts|
  {
    if acts != [] {
      var t := Do(cfg, s, acts[0]);
      assert acts[0] in acts && t.clients[c] == s.clients[c] && |t.clients| == |s.clients|;
      OthersFrame(cfg, t, c, acts[1..]);
    }
  }

  lemma HistStep(cfg: Config, s: Server, a: Action)
    requires T.Safe(cfg.work, s.procs) && Can(cfg, s, a)
    ensures s.procs.mem.hist <= Do(cfg, s, a).procs.mem.hist
  {
    T.HistoryGrows(cfg.work, s.procs, C.InnerAction(cfg, s, a));
  }

  /** A run goes on from an answered state to an answered state, with a longer history. */
  lemma {:induction false} Onwards(cfg: Config, s: Server, acts: seq<Action>)
    requires WellFormed(cfg) && Answered(cfg, s) && Valid(Machine(cfg), s, acts)
    ensures var t := After(Machine(cfg), s, acts); Answered(cfg, t) && s.procs.mem.hist <= t.procs.mem.hist
    decreases |acts|
  {
    if acts != [] {
      KeepsAnswered(cfg, s, acts[0]);
      HistStep(cfg, s, acts[0]);
      Onwards(cfg, Do(cfg, s, acts[0]), acts[1..]);
    }
  }

  /** The table a sequential execution of the first i requests leads to. */
  function TableAt(cfg: Config, s: Server, i: nat): Table
    requires i <= |s.procs.mem.hist|
  {
    L.Replay(FreshTable(cfg.work.seatIds), s.procs.mem.hist[..i])
  }

  /** A response taken from a reply queue, as it was right at some moment since the request was sent. */
  lemma ReceivedAnswer(cfg: Config, t: Server, c: nat) returns (i: nat)
    requires WellFormed(cfg) && cfg.work.sync && Answered(cfg, t) && c < |t.clients| && c < |t.replies| && t.replies[c] != []
    ensures t.clients[c].Waiting? && t.clients[c].since <= i < |t.procs.mem.hist|
    ensures t.replies[c][0] == Apply(TableAt(cfg, t, i), t.clients[c].sent).response
  {
    i := AnswerHere(cfg, t, c);
  }

  /** One STATUS of the client, with everything that goes on around it: what it shows is the seat as it was at
      a moment between the start and the end of the request. */
  lemma StatusMoment(cfg: Config, s: Server, c: nat, seat: string, e: Exchange) returns (i: nat)
    requires WellFormed(cfg) && cfg.work.sync && Answered(cfg, s) && c < |cfg.clients|
    requires Possible(cfg, s, c, Status, seat, e) && e.Exchange? && |seat| < SEAT_BYTES && NulFree(seat)
    ensures var t := Finished(cfg, s, c, Status, seat, e);
            && |s.procs.mem.hist| <= i < |t.procs.mem.hist|
            && Displayed(seat, Received(cfg, s, c, Status, seat, e)) == Shown(TableAt(cfg, t, i), seat)
  {
    SendingParts(cfg, s, c, Status, seat, e);
    var sent := After(Machine(cfg), s, e.idle);
    Onwards(cfg, s, e.idle);
    var asked := Do(cfg, sent, ClientSend(c, Status, seat));
    KeepsAnswered(cfg, sent, ClientSend(c, Status, seat));
    var t := After(Machine(cfg), asked, e.busy);
    Onwards(cfg, asked, e.busy);
    OthersFrame(cfg, asked, c, e.busy);
    i := ReceivedAnswer(cfg, t, c);
    StatusShows(sent.clients[c].nextId, cfg.clients[c], seat, TableAt(cfg, t, i));
  }

  /** An entry shows its seat as it was when some number of requests, at least from, had been answered; without a
      response it shows the seat as free. */
  ghost predicate EntryRight(base: Table, hist: seq<W.Entry>, from: nat, id: string, e: Exchange, info: SeatDisplayInfo, moment: nat) {
    if e.Refused? then info == SeatDisplayInfo(id, Available, INVALID_CLIENT)
    else from <= moment < |hist| && info == Shown(L.Replay(base, hist[..moment]), id)
  }

  /** Every entry is right at its moment, and the moments of the answered requests come one after another. */
  ghost predicate MapRight(base: Table, hist: seq<W.Entry>, from: nat, ids: seq<string>, es: seq<Exchange>,
                           infos: seq<SeatDisplayInfo>, moments: seq<nat>) {
    && |ids| == |es| == |infos| == |moments|
    && (forall k | 0 <= k < |es| :: EntryRight(base, hist, from, ids[k], es[k], infos[k], moments[k]))
    && (forall j, k | 0 <= j < k < |es| && es[j].Exchange? && es[k].Exchange? :: moments[j] < moments[k])
  }

  lemma PrependRight(base: Table, hist: seq<W.Entry>, from: nat, next: nat, ids: seq<string>, es: seq<Exchange>,
                     infos: seq<SeatDisplayInfo>, moments: seq<nat>)
    requires es != [] && |ids| == |es| == |infos| == |moments| && from <= next
    requires EntryRight(base, hist, from, ids[0], es[0], infos[0], moments[0]) && (es[0].Exchange? ==> moments[0] < next)
    requires MapRight(base, hist, next, ids[1..], es[1..], infos[1..], moments[1..])
    ensures MapRight(base, hist, from, ids, es, infos, moments)
  {
    forall k | 1 <= k < |es| ensures EntryRight(base, hist, next, ids[k], es[k], infos[k], moments[k]) {
      assert EntryRight(base, hist, next, ids[1..][k - 1], es[1..][k - 1], infos[1..][k - 1], moments[1..][k - 1]);
    }
    forall j, k | 0 <= j < k < |es| && es[j].Exchange? && es[k].Exchange? ensures moments[j] < moments[k] {
      if j == 0 {
        assert EntryRight(base, hist, next, ids[k], es[k], infos[k], moments[k]);
      } else {
        assert moments[1..][j - 1] < moments[1..][k - 1];
      }
    }
  }

  lemma {:induction false} AllOnwards(cfg: Config, s: Server, c: nat, ids: seq<string>, es: seq<Exchange>)
    requires WellFormed(cfg) && Answered(cfg, s) && |ids| == |es| && AllPossible(cfg, s, c, ids, es)
    ensures var t := AllFinished(cfg, s, c, ids, es); Answered(cfg, t) && s.procs.mem.hist <= t.procs.mem.hist
    decreases |es|
  {
    if es != [] {
      Onwards(cfg, s, Actions(c, Status, ids[0], es[0]));
      AllOnwards(cfg, Finished(cfg, s, c, Status, ids[0], es[0]), c, ids[1..], es[1..]);
    }
  }

  /** The entry made first is still right with the history at the end. */
  lemma FirstMoment(cfg: Config, s: Server, c: nat, seat: string, e: Exchange, t: Server) returns (i: nat)
    requires WellFormed(cfg) && cfg.work.sync && Answered(cfg, s) && c < |cfg.clients|
    requires Possible(cfg, s, c, Status, seat, e) && |seat| < SEAT_BYTES && NulFree(seat)
    requires Finished(cfg, s, c, Status, seat, e).procs.mem.hist <= t.procs.mem.hist
    ensures EntryRight(FreshTable(cfg.work.seatIds), t.procs.mem.hist, |s.procs.mem.hist|, seat, e,
                       Displayed(seat, Received(cfg, s, c, Status, seat, e)), i)
    ensures e.Exchange? ==> i < |Finished(cfg, s, c, Status, seat, e).procs.mem.hist|
  {
    i := 0;
    if e.Exchange? {
      i := StatusMoment(cfg, s, c, seat, e);
      assert Finished(cfg, s, c, Status, seat, e).procs.mem.hist[..i] == t.procs.mem.hist[..i];
    }
  }

  /** One more entry in front of right ones. */
  lemma MomentsStep(cfg: Config, s: Server, c: nat, ids: seq<string>, es: seq<Exchange>, rest: seq<nat>) returns (moments: seq<nat>)
    requires WellFormed(cfg) && cfg.work.sync && Answered(cfg, s) && c < |cfg.clients|
    requires |ids| == |es| && es != [] && AllPossible(cfg, s, c, ids, es) && |ids[0]| < SEAT_BYTES && NulFree(ids[0])
    requires var u := Finished(cfg, s, c, Status, ids[0], es[0]);
             var t := AllFinished(cfg, s, c, ids, es);
             && s.procs.mem.hist <= u.procs.mem.hist <= t.procs.mem.hist
             && MapRight(FreshTable(cfg.work.seatIds), t.procs.mem.hist, |u.procs.mem.hist|, ids[1..], es[1..],
                         Entries(cfg, u, c, ids[1..], es[1..]), rest)
    ensures MapRight(FreshTable(cfg.work.seatIds), AllFinished(cfg, s, c, ids, es).procs.mem.hist, |s.procs.mem.hist|, ids, es,
                     Entries(cfg, s, c, ids, es), moments)
  {
    var u := Finished(cfg, s, c, Status, ids[0], es[0]);
    var t := AllFinished(cfg, s, c, ids, es);
    var i := FirstMoment(cfg, s, c, ids[0], es[0], t);
    moments := [i] + rest;
    var infos := Entries(cfg, s, c, ids, es);
    assert moments[1..] == rest && infos[1..] == Entries(cfg, u, c, ids[1..], es[1..]);
    PrependRight(FreshTable(cfg.work.seatIds), t.procs.mem.hist, |s.procs.mem.hist|, |u.procs.mem.hist|, ids, es, infos, moments);
  }

  lemma Between(cfg: Config, s: Server, c: nat, ids: seq<string>, es: seq<Exchange>)
    requires WellFormed(cfg) && Answered(cfg, s) && |ids| == |es| && es != [] && AllPossible(cfg, s, c, ids, es)
    ensures var u := Finished(cfg, s, c, Status, ids[0], es[0]);
            Answered(cfg, u) && s.procs.mem.hist <= u.procs.mem.hist <= AllFinished(cfg, s, c, ids, es).procs.mem.hist
  {
    Onwards(cfg, s, Actions(c, Status, ids[0], es[0]));
    AllOnwards(cfg, Finished(cfg, s, c, Status, ids[0], es[0]), c, ids[1..], es[1..]);
  }

  lemma {:induction false} AllMoments(cfg: Config, s: Server, c: nat, ids: seq<string>, es: seq<Exchange>) returns (moments: seq<nat>)
    requires WellFormed(cfg) && cfg.work.sync && Answered(cfg, s) && c < |cfg.clients|
    requires |ids| == |es| && AllPossible(cfg, s, c, ids, es) && Transportable(ids)
    ensures MapRight(FreshTable(cfg.work.seatIds), AllFinished(cfg, s, c, ids, es).procs.mem.hist, |s.procs.mem.hist|, ids, es,
                     Entries(cfg, s, c, ids, es), moments)
    decreases |es|
  {
    moments := [];
    if es != [] {
      var u := Finished(cfg, s, c, Status, ids[0], es[0]);
      Between(cfg, s, c, ids, es);
      var rest := AllMoments(cfg, u, c, ids[1..], es[1..]);
      moments := MomentsStep(cfg, s, c, ids, es, rest);
    }
  }

  /** Interval correctness of fetch_seat_map: in every run of the synchronized system, with any number of workers and
      clients and every interleaving, the map lists every seat in order, each entry is the seat's state at a
      moment between the start and the end of the call, and these moments come one after another. */
  lemma FetchIntervals(cfg: Config, before: seq<Action>, c: nat, ids: seq<string>, announce: Exchange, es: seq<Exchange>)
    returns (moments: seq<nat>)
    requires WellFormed(cfg) && cfg.work.sync && c < |cfg.clients| && Transportable(ids)
    requires Valid(Machine(cfg), Init(cfg), before)
    requires Callable(cfg, After(Machine(cfg), Init(cfg), before), c, ids, announce, es)
    ensures var s := After(Machine(cfg), Init(cfg), before);
            var hist := Called(cfg, s, c, ids, announce, es).procs.mem.hist;
            && s.procs.mem.hist <= hist && L.Sequential(FreshTable(cfg.work.seatIds), hist)
            && MapRight(FreshTable(cfg.work.seatIds), hist, |s.procs.mem.hist|, ids, es,
                        SeatMapOf(cfg, s, c, ids, announce, es), moments)
  {
    var s := After(Machine(cfg), Init(cfg), before);
    AlwaysAnswered(cfg, before);
    Onwards(cfg, s, Actions(c, List, "", announce));
    var listed := Finished(cfg, s, c, List, "", announce);
    AllOnwards(cfg, listed, c, ids, es);
    moments := AllMoments(cfg, listed, c, ids, es);
    var hist := Called(cfg, s, c, ids, announce, es).procs.mem.hist;
    forall k | 0 <= k < |es|
      ensures EntryRight(FreshTable(cfg.work.seatIds), hist, |s.procs.mem.hist|, ids[k], es[k],
                         SeatMapOf(cfg, s, c, ids, announce, es)[k], moments[k])
    {
      assert EntryRight(FreshTable(cfg.work.seatIds), hist, |listed.procs.mem.hist|, ids[k], es[k],
                        SeatMapOf(cfg, s, c, ids, announce, es)[k], moments[k]);
    }
    assert T.Safe(cfg.work, Called(cfg, s, c, ids, announce, es).procs);
  }

  /** No update between two places of the history. */
  predicate Quiet(hist: seq<W.Entry>, from: nat) {
    forall m | from <= m < |hist| :: !(W.Updates(hist[m].req.command) && hist[m].resp.result == Success)
  }

  lemma {:induction false} QuietReplay(t: Table, hist: seq<W.Entry>, from: nat, until: nat)
    requires L.Sequential(t, hist) && from <= until <= |hist| && Quiet(hist, from)
    ensures L.Replay(t, hist[..until]) == L.Replay(t, hist[..from])
    decreases until
  {
    if from < until {
      var last := until - 1;
      QuietReplay(t, hist, from, last);
      O.ReplayNext(t, hist, last);
      assert L.EntryOk(L.Replay(t, hist[..last]), hist[last]);
    }
  }

  /** get_all_seats, as a client would show it. */
  function AllShown(t: Table): (infos: seq<SeatDisplayInfo>)
    ensures |infos| == |t|
  {
    seq(|t|, k requires 0 <= k < |t| => SeatDisplayInfo(t[k].id, t[k].status, t[k].owner.GetOr(INVALID_CLIENT)))
  }

  lemma ShownOne(t: Table, k: nat)
    requires k < |t| && forall i, j | 0 <= i < j < |t| :: Ids(t)[i] != Ids(t)[j]
    ensures Shown(t, Ids(t)[k]) == AllShown(t)[k]
  {
    assert Find(t, Ids(t)[k]) == Some(k);
  }

  lemma QuietEntry(base: Table, hist: seq<W.Entry>, from: nat, id: string, e: Exchange, info: SeatDisplayInfo, moment: nat)
    requires from <= |hist| && L.Sequential(base, hist) && Quiet(hist, from)
    requires EntryRight(base, hist, from, id, e, info, moment) && e.Exchange?
    ensures info == Shown(L.Replay(base, hist[..from]), id)
  {
    QuietReplay(base, hist, from, moment);
  }

  lemma QuietEntries(base: Table, hist: seq<W.Entry>, from: nat, es: seq<Exchange>, infos: seq<SeatDisplayInfo>, moments: seq<nat>)
    requires from <= |hist| && L.Sequential(base, hist) && Quiet(hist, from)
    requires MapRight(base, hist, from, Ids(base), es, infos, moments) && forall e | e in es :: e.Exchange?
    requires AllSettled(base) && forall i, j | 0 <= i < j < |base| :: Ids(base)[i] != Ids(base)[j]
    ensures infos == AllShown(L.Replay(base, hist[..from]))
  {
    var t := L.Replay(base, hist[..from]);
    O.ReplayKeeps(base, hist[..from]);
    forall k | 0 <= k < |infos| ensures infos[k] == AllShown(t)[k] {
      assert es[k] in es;
      QuietEntry(base, hist, from, Ids(base)[k], es[k], infos[k], moments[k]);
      ShownOne(t, k);
    }
  }

  /** Outside the critical section the table is the one the history leads to. */
  lemma TableNow(cfg: Config, before: seq<Action>)
    requires WellFormed(cfg) && cfg.work.sync && Valid(Machine(cfg), Init(cfg), before)
    ensures var s := After(Machine(cfg), Init(cfg), before);
            s.procs.mem.lock == None ==> s.procs.mem.table == TableAt(cfg, s, |s.procs.mem.hist|)
  {
    AlwaysAnswered(cfg, before);
    var s := After(Machine(cfg), Init(cfg), before);
    assert T.Safe(cfg.work, s.procs);
    assert s.procs.mem.hist[..|s.procs.mem.hist|] == s.procs.mem.hist;
  }

  /** If no RESERVE or CANCEL takes effect from the start of the call to its end, and every STATUS is answered, the
      map is what get_all_seats shows at the start, and this is the table itself unless somebody is inside the
      critical section. */
  lemma QuietFetch(cfg: Config, before: seq<Action>, c: nat, announce: Exchange, es: seq<Exchange>)
    requires WellFormed(cfg) && cfg.work.sync && c < |cfg.clients| && Transportable(cfg.work.seatIds)
    requires forall i, j | 0 <= i < j < |cfg.work.seatIds| :: cfg.work.seatIds[i] != cfg.work.seatIds[j]
    requires Valid(Machine(cfg), Init(cfg), before) && forall e | e in es :: e.Exchange?
    requires Callable(cfg, After(Machine(cfg), Init(cfg), before), c, cfg.work.seatIds, announce, es)
    requires var s := After(Machine(cfg), Init(cfg), before);
             Quiet(Called(cfg, s, c, cfg.work.seatIds, announce, es).procs.mem.hist, |s.procs.mem.hist|)
    ensures var s := After(Machine(cfg), Init(cfg), before);
            var t := TableAt(cfg, s, |s.procs.mem.hist|);
            && SeatMapOf(cfg, s, c, cfg.work.seatIds, announce, es) == AllShown(t)
            && (s.procs.mem.lock == None ==> t == s.procs.mem.table)
  {
    var ids := cfg.work.seatIds;
    var s := After(Machine(cfg), Init(cfg), before);
    var n := |s.procs.mem.hist|;
    var moments := FetchIntervals(cfg, before, c, ids, announce, es);
    var hist := Called(cfg, s, c, ids, announce, es).procs.mem.hist;
    assert hist[..n] == s.procs.mem.hist == s.procs.mem.hist[..n];
    assert Ids(FreshTable(ids)) == ids;
    QuietEntries(FreshTable(ids), hist, n, es, SeatMapOf(cfg, s, c, ids, announce, es), moments);
    TableNow(cfg, before);
  }
}
