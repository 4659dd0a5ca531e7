/** Request ids (src/client/client.cpp): every client counts its requests on a 32-bit counter. */
module Numbering {
  import opened Wrappers
  import opened Commands
  import opened Buffers
  import opened Messages
  import opened MessageQueues
  import opened QueueNames
  import opened Runs
  import opened Server
  import opened Tokens

  const ID_RANGE: nat := 0x1_0000_0000

  /** How many of the requests are the client's. */
  function CountOf(sent: seq<Request>, client: Word): nat {
    if sent == [] then 0
    else CountOf(sent[..|sent| - 1], client) + if sent[|sent| - 1].client == client then 1 else 0
  }

  lemma CountAppend(sent: seq<Request>, r: Request, client: Word)
    ensures CountOf(sent + [r], client) == CountOf(sent, client) + if r.client == client then 1 else 0
  {
    assert (sent + [r])[..|sent|] == sent;
  }

  lemma {:induction false} CountGrows(sent: seq<Request>, k: nat, l: nat, client: Word)
    requires k <= l <= |sent|
    ensures CountOf(sent[..k], client) <= CountOf(sent[..l], client)
    ensures k < l && sent[k].client == client ==> CountOf(sent[..k], client) < CountOf(sent[..l], client)
    decreases l
  {
    if k < l {
      assert sent[..l][..l - 1] == sent[..l - 1];
      CountGrows(sent, k, l - 1, client);
    }
  }

  /** The id of the client's n-th request, counted from zero. */
  predicate IsNth(id: Word, n: nat) {
    id == (1 + n) % ID_RANGE
  }

  /** The client's newest request is the one it waits for. */
  ghost predicate Newest(sent: seq<Request>, r: Request) {
    exists k :: 0 <= k < |sent| && sent[k] == r && CountOf(sent, r.client) == CountOf(sent[..k], r.client) + 1
  }

  ghost predicate Numbered(cfg: Config, s: Server) {
    && |s.clients| == |cfg.clients|
    && (forall c | 0 <= c < |s.clients| :: IsNth(s.clients[c].nextId, CountOf(s.sent, cfg.clients[c])))
    && (forall k | 0 <= k < |s.sent| :: IsNth(s.sent[k].requestId, CountOf(s.sent[..k], s.sent[k].client)))
    && (forall c | 0 <= c < |s.clients| && s.clients[c].Waiting? ::
          s.clients[c].sent.client == cfg.clients[c] && Newest(s.sent, s.clients[c].sent))
  }

  /** What send_request puts into a message: the counter, the client, the command, the seat as far as it fits, and
      the name of its reply queue. */
  lemma RequestSays(id: Word, client: Word, command: CommandType, seat: string)
    requires NulFree(seat)
    ensures var r := MakeRequest(id, client, command, seat);
            && r.requestId == id && r.client == client && r.command == command
            && ToText(r.seat) == (if |seat| < 8 then seat else seat[..7])
            && ToText(r.reply) == ReplyQueueName(client)
  {
    RoundTrip(Zeros(SEAT_BYTES), seat);
    ReplyQueueNameSound(client, Zeros(QUEUE_NAME_BYTES));
  }

  /** Sending puts just that request among the requests sent, and with priority 0 into the queue. */
  lemma SentAsAsked(cfg: Config, s: Server, c: nat, command: CommandType, seat: string)
    requires Can(cfg, s, ClientSend(c, command, seat))
    ensures var t := Do(cfg, s, ClientSend(c, command, seat));
            && t.clients[c].Waiting? && t.clients[c].sent == MakeRequest(s.clients[c].nextId, cfg.clients[c], command, seat)
            && t.sent == s.sent + [t.clients[c].sent] && Message(0, t.clients[c].sent) in t.queue
  {
    EnqueueSum(s.queue, Message(0, MakeRequest(s.clients[c].nextId, cfg.clients[c], command, seat)), OfMessage(0));
  }

  lemma NewestAfter(sent: seq<Request>, r: Request, q: Request)
    requires Newest(sent, q) && r.client != q.client
    ensures Newest(sent + [r], q)
  {
    var k :| 0 <= k < |sent| && sent[k] == q && CountOf(sent, q.client) == CountOf(sent[..k], q.client) + 1;
    CountAppend(sent, r, q.client);
    assert (sent + [r])[..k] == sent[..k] && (sent + [r])[k] == q;
  }

  lemma NewestNow(sent: seq<Request>, r: Request)
    ensures Newest(sent + [r], r)
  {
    CountAppend(sent, r, r.client);
    assert (sent + [r])[|sent|] == r && (sent + [r])[..|sent|] == sent;
  }

  lemma NthAfter(sent: seq<Request>, r: Request)
    requires forall k | 0 <= k < |sent| :: IsNth(sent[k].requestId, CountOf(sent[..k], sent[k].client))
    requires IsNth(r.requestId, CountOf(sent, r.client))
    ensures forall k | 0 <= k < |sent + [r]| :: IsNth((sent + [r])[k].requestId, CountOf((sent + [r])[..k], (sent + [r])[k].client))
  {
    forall k | 0 <= k < |sent + [r]|
      ensures IsNth((sent + [r])[k].requestId, CountOf((sent + [r])[..k], (sent + [r])[k].client))
    {
      assert (sent + [r])[..k] == sent[..k];
      assert sent[..|sent|] == sent;
    }
  }

  lemma NextNth(id: Word, n: nat)
    requires IsNth(id, n)
    ensures IsNth(NextId(id), n + 1)
  {
  }

  lemma SendCounts(cfg: Config, s: Server, c: nat, command: CommandType, seat: string)
    requires WellFormed(cfg) && Numbered(cfg, s) && Can(cfg, s, ClientSend(c, command, seat))
    ensures var t := Do(cfg, s, ClientSend(c, command, seat));
            forall d | 0 <= d < |t.clients| :: IsNth(t.clients[d].nextId, CountOf(t.sent, cfg.clients[d]))
  {
    var t := Do(cfg, s, ClientSend(c, command, seat));
    forall d | 0 <= d < |t.clients| ensures IsNth(t.clients[d].nextId, CountOf(t.sent, cfg.clients[d])) {
      CountAppend(s.sent, t.clients[c].sent, cfg.clients[d]);
      if d == c {
        NextNth(s.clients[c].nextId, CountOf(s.sent, cfg.clients[c]));
      } else {
        assert t.clients[d] == s.clients[d] && cfg.clients[d] != cfg.clients[c];
      }
    }
  }

  lemma SendNumbered(cfg: Config, s: Server, c: nat, command: CommandType, seat: string)
    requires WellFormed(cfg) && Numbered(cfg, s) && Can(cfg, s, ClientSend(c, command, seat))
    ensures Numbered(cfg, Do(cfg, s, ClientSend(c, command, seat)))
  {
    var t := Do(cfg, s, ClientSend(c, command, seat));
    var r := t.clients[c].sent;
    SendCounts(cfg, s, c, command, seat);
    NthAfter(s.sent, r);
    NewestNow(s.sent, r);
    forall d | 0 <= d < |t.clients| && t.clients[d].Waiting?
      ensures t.clients[d].sent.client == cfg.clients[d] && Newest(t.sent, t.clients[d].sent)
    {
      if d != c {
        NewestAfter(s.sent, r, s.clients[d].sent);
      }
    }
  }

  /** No other action touches the counters or the list of requests. */
  lemma OtherNumbered(cfg: Config, s: Server, a: Action)
    requires Numbered(cfg, s) && Can(cfg, s, a) && !a.ClientSend?
    ensures Numbered(cfg, Do(cfg, s, a))
  {
    var t := Do(cfg, s, a);
    assert t.sent == s.sent && |t.clients| == |s.clients|;
    assert forall c | 0 <= c < |s.clients| :: t.clients[c].nextId == s.clients[c].nextId && (t.clients[c].Waiting? ==> t.clients[c] == s.clients[c]);
  }

  /** Request ids advance: after any run each client's counter stands at one more than the number of requests it has
      sent, and its n-th request carries the id 1 + n, both on 32 bits. */
  lemma IdsAdvance(cfg: Config, acts: seq<Action>)
    requires WellFormed(cfg) && Valid(Machine(cfg), Init(cfg), acts)
    ensures Numbered(cfg, After(Machine(cfg), Init(cfg), acts))
  {
    forall s, a | Numbered(cfg, s) && Can(cfg, s, a) ensures Numbered(cfg, Do(cfg, s, a)) {
      if a.ClientSend? {
        SendNumbered(cfg, s, a.c, a.command, a.seat);
      } else {
        OtherNumbered(cfg, s, a);
      }
    }
    Always(Machine(cfg), (s: Server) => Numbered(cfg, s), Init(cfg), acts);
  }

  lemma NthDiffer(a: Word, m: nat, b: Word, n: nat)
    requires IsNth(a, m) && IsNth(b, n) && m < n < m + ID_RANGE
    ensures a != b
  {
  }

  /** Two requests of one client have different ids unless the counter has gone all the way round between them. */
  lemma IdsDiffer(cfg: Config, acts: seq<Action>, k: nat, l: nat)
    requires WellFormed(cfg) && Valid(Machine(cfg), Init(cfg), acts)
    requires var sent := After(Machine(cfg), Init(cfg), acts).sent;
             && k < l < |sent| && sent[k].client == sent[l].client
             && CountOf(sent[..l], sent[l].client) < CountOf(sent[..k], sent[k].client) + ID_RANGE
    ensures var sent := After(Machine(cfg), Init(cfg), acts).sent; sent[k].requestId != sent[l].requestId
  {
    IdsAdvance(cfg, acts);
    var sent := After(Machine(cfg), Init(cfg), acts).sent;
    var id := sent[k].client;
    CountGrows(sent, k, l, id);
    NthDiffer(sent[k].requestId, CountOf(sent[..k], id), sent[l].requestId, CountOf(sent[..l], id));
  }

  lemma NewestDiffers(sent: seq<Request>, q: Request, k: nat)
    requires forall l | 0 <= l < |sent| :: IsNth(sent[l].requestId, CountOf(sent[..l], sent[l].client))
    requires Newest(sent, q) && k < |sent| && sent[k].client == q.client
    requires 1 < CountOf(sent, q.client) - CountOf(sent[..k], q.client) <= ID_RANGE
    ensures IsNth(q.requestId, CountOf(sent, q.client) - 1) && q.requestId != sent[k].requestId
  {
    var l :| 0 <= l < |sent| && sent[l] == q && CountOf(sent, q.client) == CountOf(sent[..l], q.client) + 1;
    NthDiffer(sent[k].requestId, CountOf(sent[..k], q.client), q.requestId, CountOf(sent[..l], q.client));
  }

  /** The ids do their work: a response waiting for a client carries the id of its newest request and not that of any
      older one, unless the counter has gone all the way round since. */
  lemma NotStale(cfg: Config, acts: seq<Action>, c: nat, k: nat)
    requires WellFormed(cfg) && Valid(Machine(cfg), Init(cfg), acts)
    requires var s := After(Machine(cfg), Init(cfg), acts);
             && c < |s.replies| && s.replies[c] != [] && c < |cfg.clients| && k < |s.sent| && s.sent[k].client == cfg.clients[c]
             && 1 < CountOf(s.sent, cfg.clients[c]) - CountOf(s.sent[..k], cfg.clients[c]) <= ID_RANGE
    ensures var s := After(Machine(cfg), Init(cfg), acts);
            && IsNth(s.replies[c][0].requestId, CountOf(s.sent, cfg.clients[c]) - 1)
            && s.replies[c][0].requestId != s.sent[k].requestId
  {
    IdsAdvance(cfg, acts);
    ResponsesMatch(cfg, acts, c);
    var s := After(Machine(cfg), Init(cfg), acts);
    NewestDiffers(s.sent, s.clients[c].sent, k);
  }
}
