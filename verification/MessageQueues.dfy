/** The order of a POSIX message queue (POSIX.1-2017, System Interfaces, mq_send and mq_receive): the oldest
    of the highest-priority messages is received first. */
module MessageQueues {
  import opened Messages
  import opened Sums

  datatype Message = Message(priority: nat, req: Request)

  /** mq_send: behind every message of at least its priority. */
  function Enqueue(q: seq<Message>, m: Message): seq<Message> {
    if q == [] || q[0].priority < m.priority then [m] + q else [q[0]] + Enqueue(q[1..], m)
  }

  predicate Ordered(q: seq<Message>) {
    forall i, j | 0 <= i < j < |q| :: q[i].priority >= q[j].priority
  }

  /** The requests of one priority, in queue order. */
  function AtPriority(q: seq<Message>, p: nat): seq<Request> {
    if q == [] then []
    else (if q[0].priority == p then [q[0].req] else []) + AtPriority(q[1..], p)
  }

  /** Sending keeps the highest priority in front, appends within its own priority and disturbs no other. */
  lemma {:induction false} EnqueueOrder(q: seq<Message>, m: Message, p: nat)
    requires Ordered(q)
    ensures Ordered(Enqueue(q, m))
    ensures forall x | x in Enqueue(q, m) :: x == m || x in q
    ensures AtPriority(Enqueue(q, m), p) == AtPriority(q, p) + (if m.priority == p then [m.req] else [])
  {
    if q == [] {
    } else if q[0].priority < m.priority {
      LowerAbsent(q, m.priority);
      assert ([m] + q)[1..] == q;
    } else {
      EnqueueOrder(q[1..], m, p);
      var r := Enqueue(q[1..], m);
      assert ([q[0]] + r)[1..] == r;
      forall x | x in r ensures q[0].priority >= x.priority {
        assert x == m || x in q[1..];
      }
    }
  }

  /** Nothing waits at a priority above the first message's. */
  lemma {:induction false} LowerAbsent(q: seq<Message>, p: nat)
    requires Ordered(q) && (q != [] ==> q[0].priority < p)
    ensures AtPriority(q, p) == []
  {
    if q != [] {
      LowerAbsent(q[1..], p);
    }
  }

  /** Sending adds one message, whatever is being counted. */
  lemma {:induction false} EnqueueSum(q: seq<Message>, m: Message, f: Message -> nat)
    ensures Sum(Enqueue(q, m), f) == Sum(q, f) + f(m) && |Enqueue(q, m)| == |q| + 1
    ensures forall x :: x in Enqueue(q, m) <==> x == m || x in q
  {
    if q == [] || q[0].priority < m.priority {
      assert ([m] + q)[1..] == q;
    } else {
      EnqueueSum(q[1..], m, f);
      var r := Enqueue(q[1..], m);
      assert ([q[0]] + r)[1..] == r;
      assert forall x :: x in q <==> x == q[0] || x in q[1..];
    }
  }
}
