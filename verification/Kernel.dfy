/** The kernel's side of message queues: the queues that exist, the descriptors that are open, and calls that
    may fail. What befalls the calls to come is data: any finite plan of interrupts and failures, after which
    everything works. */
module Kernel {

  datatype Errno = NoError | EINTR | EEXIST | ENOENT | EINVAL | OtherError

  /** mq_maxmsg and mq_msgsize. */
  datatype Sizes = Sizes(maxMessages: int, maxMessageSize: int)

  datatype Fate = Works | Interrupted | Fails

  function Next(plan: seq<Fate>): Fate {
    if plan == [] then Works else plan[0]
  }

  function Rest(plan: seq<Fate>): seq<Fate> {
    if plan == [] then [] else plan[1..]
  }

  class Kernel {
    /** The queues by name, and the open descriptors, each with its queue's sizes. */
    var queues: map<string, Sizes>
    var open: map<int, Sizes>
    var next: nat
    var plan: seq<Fate>
    var errno: Errno
    /** Calls that have failed so far, interrupted ones that are repeated aside; and failed mq_close calls. */
    ghost var faults: nat
    ghost var badCloses: nat

    /** Descriptors are never reused while they are open. */
    ghost predicate Valid()
      reads this
    {
      forall fd | fd in open :: 0 <= fd < next
    }

    function Names(): set<string>
      reads this
    {
      queues.Keys
    }

    function Fds(): set<int>
      reads this
    {
      open.Keys
    }

    constructor (queues: map<string, Sizes>, plan: seq<Fate>)
      ensures Valid() && this.queues == queues && Fds() == {} && this.plan == plan && faults == badCloses == 0
    {
      this.queues := queues;
      open := map[];
      next := 0;
      this.plan := plan;
      errno := NoError;
      faults := 0;
      badCloses := 0;
    }

    /** What the plan has for this call. */
    method Take() returns (works: bool)
      modifies this`plan, this`errno
      ensures works <==> Next(old(plan)) == Works
      ensures plan == Rest(old(plan))
      ensures errno == match Next(old(plan)) case Works => old(errno) case Interrupted => EINTR case Fails => OtherError
    {
      works := Next(plan) == Works;
      if !works {
        errno := if Next(plan) == Interrupted then EINTR else OtherError;
      }
      plan := Rest(plan);
    }

    method NewDescriptor(sizes: Sizes) returns (fd: int)
      requires Valid()
      modifies this`open, this`next
      ensures Valid() && fd >= 0 && fd !in old(Fds()) && open == old(open)[fd := sizes]
    {
      fd := next;
      open := open[fd := sizes];
      next := next + 1;
    }

    /** mq_open with O_CREAT | O_EXCL: a new queue and a descriptor for it. */
    method MqCreate(name: string, sizes: Sizes) returns (fd: int)
      requires Valid()
      modifies this
      ensures Valid() && plan == Rest(old(plan)) && badCloses == old(badCloses)
      ensures fd != -1 <==> Next(old(plan)) == Works && name !in old(queues)
      ensures faults == old(faults) + if Next(old(plan)) == Works then 0 else 1
      ensures if fd == -1 then queues == old(queues) && open == old(open)
              else fd >= 0 && fd !in old(Fds()) && open == old(open)[fd := sizes] && queues == old(queues)[name := sizes]
      ensures fd != -1 ==> Fds() == old(Fds()) + {fd} && Names() == old(Names()) + {name}
      ensures fd == -1 ==> (errno == EEXIST <==> Next(old(plan)) == Works)
    {
      var works := Take();
      if !works {
        faults := faults + 1;
        return -1;
      }
      if name in queues {
        errno := EEXIST;
        return -1;
      }
      queues := queues[name := sizes];
      fd := NewDescriptor(sizes);
    }

    /** mq_open of an existing queue. */
    method MqOpen(name: string) returns (fd: int)
      requires Valid()
      modifies this
      ensures Valid() && plan == Rest(old(plan)) && badCloses == old(badCloses) && queues == old(queues)
      ensures fd != -1 <==> Next(old(plan)) == Works && name in queues
      ensures faults == old(faults) + if Next(old(plan)) == Works then 0 else 1
      ensures if fd == -1 then open == old(open)
              else fd >= 0 && fd !in old(Fds()) && open == old(open)[fd := queues[name]]
    {
      var works := Take();
      if !works {
        faults := faults + 1;
        return -1;
      }
      if name !in queues {
        errno := ENOENT;
        return -1;
      }
      fd := NewDescriptor(queues[name]);
    }

    /** mq_getattr: the sizes of the queue behind a descriptor. */
    method MqGetattr(fd: int) returns (ok: bool, sizes: Sizes)
      requires Valid() && fd in open
      modifies this
      ensures Valid() && plan == Rest(old(plan)) && badCloses == old(badCloses) && queues == old(queues) && open == old(open)
      ensures ok <==> Next(old(plan)) == Works
      ensures ok ==> sizes == open[fd]
      ensures faults == old(faults) + if ok then 0 else 1
    {
      ok := Take();
      if ok {
        sizes := open[fd];
      } else {
        sizes := Sizes(0, 0);
        faults := faults + 1;
      }
    }

    method MqClose(fd: int) returns (ok: bool)
      requires Valid() && fd in open
      modifies this
      ensures Valid() && plan == Rest(old(plan)) && queues == old(queues)
      ensures ok <==> Next(old(plan)) == Works
      ensures open == if ok then old(open) - {fd} else old(open)
      ensures faults == old(faults) + (if ok then 0 else 1) && badCloses == old(badCloses) + (if ok then 0 else 1)
      ensures !ok ==> errno != NoError
    {
      ok := Take();
      if ok {
        open := open - {fd};
      } else {
        faults := faults + 1;
        badCloses := badCloses + 1;
      }
    }

    /** mq_unlink. An interrupt changes nothing and is not counted as a failure, for callers repeat the call. */
    method MqUnlink(name: string) returns (ok: bool)
      requires Valid()
      modifies this
      ensures Valid() && plan == Rest(old(plan)) && badCloses == old(badCloses) && open == old(open)
      ensures ok <==> Next(old(plan)) == Works && name in old(queues)
      ensures queues == if ok then old(queues) - {name} else old(queues)
      ensures !ok ==> errno == match Next(old(plan)) case Works => ENOENT case Interrupted => EINTR case Fails => OtherError
      ensures faults == old(faults) + if Next(old(plan)) == Fails then 1 else 0
    {
      var works := Take();
      if !works {
        faults := faults + if errno == EINTR then 0 else 1;
        return false;
      }
      if name !in queues {
        errno := ENOENT;
        return false;
      }
      queues := queues - {name};
      return true;
    }
  }
}
