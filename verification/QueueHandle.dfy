/** PosixMessageQueue (src/ipc/posix_message_queue.cpp): a movable handle that may own the name it created. */
module QueueHandle {
  import opened QueueNames
  import opened Kernel

  const INVALID: int := -1

  /** Interrupted mq_unlink calls are repeated: the first other entry of the plan decides. */
  function UnlinkFate(plan: seq<Fate>): Fate {
    if plan != [] && plan[0] == Interrupted then UnlinkFate(plan[1..]) else Next(plan)
  }

  function AfterUnlink(plan: seq<Fate>): (rest: seq<Fate>)
    ensures |rest| <= |plan| && (UnlinkFate(plan) == Fails ==> |rest| < |plan|)
  {
    if plan != [] && plan[0] == Interrupted then AfterUnlink(plan[1..]) else Rest(plan)
  }

  /** However often mq_unlink is interrupted, the first call that is not decides. */
  lemma {:induction false} InterruptsRepeated(interrupts: seq<Fate>, plan: seq<Fate>)
    requires (forall f | f in interrupts :: f == Interrupted) && (plan == [] || plan[0] != Interrupted)
    ensures UnlinkFate(interrupts + plan) == (if plan == [] then Works else plan[0])
    ensures AfterUnlink(interrupts + plan) == (if plan == [] then [] else plan[1..])
  {
    if interrupts == [] {
      assert interrupts + plan == plan;
    } else {
      assert interrupts[0] in interrupts && forall f | f in interrupts[1..] :: f in interrupts;
      assert (interrupts + plan)[1..] == interrupts[1..] + plan;
      InterruptsRepeated(interrupts[1..], plan);
    }
  }

  /** What open_or_create accepts. */
  predicate Creatable(name: string, sizes: Sizes) {
    IsValidQueueName(name) && sizes.maxMessages > 0 && sizes.maxMessageSize > 0
  }

  /** open_or_create finds a queue of that name and establishes that it has the wanted sizes. */
  predicate Reopens(plan: seq<Fate>, queues: map<string, Sizes>, name: string, sizes: Sizes) {
    && Creatable(name, sizes) && name in queues && queues[name] == sizes
    && Next(plan) == Works && Next(Rest(plan)) == Works && Next(Rest(Rest(plan))) == Works
  }

  /** open_or_create finds a queue of that name, cannot establish that it has the wanted sizes, and fails to
      close it again. */
  predicate LosesDescriptor(plan: seq<Fate>, queues: map<string, Sizes>, name: string, sizes: Sizes) {
    && Creatable(name, sizes) && name in queues
    && Next(plan) == Works && Next(Rest(plan)) == Works
    && (Next(Rest(Rest(plan))) != Works || queues[name] != sizes)
    && Next(Rest(Rest(Rest(plan)))) != Works
  }

  /** Some failure makes open_or_create leak if and only if the queue exists already; if mq_getattr works, if
      and only if it exists with other sizes. */
  lemma LeakCondition(queues: map<string, Sizes>, name: string, sizes: Sizes)
    ensures (exists plan :: LosesDescriptor(plan, queues, name, sizes)) <==> Creatable(name, sizes) && name in queues
    ensures (exists plan :: LosesDescriptor(plan, queues, name, sizes) && Next(Rest(Rest(plan))) == Works)
            <==> Creatable(name, sizes) && name in queues && queues[name] != sizes
  {
    if Creatable(name, sizes) && name in queues {
      var broken := [Works, Works, Fails, Fails];
      assert Rest(broken) == [Works, Fails, Fails] && Rest(Rest(broken)) == [Fails, Fails] && Rest(Rest(Rest(broken))) == [Fails];
      assert LosesDescriptor(broken, queues, name, sizes);
      var plan := [Works, Works, Works, Fails];
      assert Rest(plan) == [Works, Works, Fails] && Rest(Rest(plan)) == [Works, Fails] && Rest(Rest(Rest(plan))) == [Fails];
      assert queues[name] != sizes ==> LosesDescriptor(plan, queues, name, sizes);
    }
  }

  class PosixMessageQueue {
    const kernel: Kernel
    var descriptor: int
    var name: string
    var owns: bool

    /** An open handle has a descriptor of the kernel's, and only valid names are owned. */
    ghost predicate Valid()
      reads this, kernel
    {
      kernel.Valid() && (descriptor != INVALID ==> descriptor in kernel.Fds()) && (owns ==> IsValidQueueName(name))
    }

    constructor (kernel: Kernel, descriptor: int, name: string, owns: bool)
      ensures this.kernel == kernel && this.descriptor == descriptor && this.name == name && this.owns == owns
    {
      this.kernel := kernel;
      this.descriptor := descriptor;
      this.name := name;
      this.owns := owns;
    }

    /** unlink: a name that is already gone counts as removed; interrupted calls are repeated. */
    static method Unlink(kernel: Kernel, name: string) returns (ok: bool)
      requires kernel.Valid()
      modifies kernel
      ensures kernel.Valid() && kernel.open == old(kernel.open) && kernel.badCloses == old(kernel.badCloses)
      ensures ok <==> IsValidQueueName(name) && UnlinkFate(old(kernel.plan)) == Works
      ensures kernel.plan == if IsValidQueueName(name) then AfterUnlink(old(kernel.plan)) else old(kernel.plan)
      ensures kernel.queues == if ok then old(kernel.queues) - {name} else old(kernel.queues)
      ensures kernel.faults == old(kernel.faults) + if !IsValidQueueName(name) || ok then 0 else 1
      ensures !ok ==> kernel.errno != NoError
    {
      if !IsValidQueueName(name) {
        kernel.errno := EINVAL;
        return false;
      }
      ghost var plan := kernel.plan;
      var result := kernel.MqUnlink(name);
      while !result && kernel.errno == EINTR
        invariant kernel.Valid() && kernel.open == old(kernel.open) && kernel.badCloses == old(kernel.badCloses)
        invariant UnlinkFate(plan) == UnlinkFate(old(kernel.plan)) && AfterUnlink(plan) == AfterUnlink(old(kernel.plan))
        invariant kernel.plan == Rest(plan)
        invariant result <==> Next(plan) == Works && name in old(kernel.queues)
        invariant kernel.queues == if result then old(kernel.queues) - {name} else old(kernel.queues)
        invariant !result ==> kernel.errno == match Next(plan) case Works => ENOENT case Interrupted => EINTR case Fails => OtherError
        invariant kernel.faults == old(kernel.faults) + if Next(plan) == Fails then 1 else 0
        decreases |plan|
      {
        plan := kernel.plan;
        result := kernel.MqUnlink(name);
      }
      ok := result || kernel.errno == ENOENT;
    }

    /** close: both halves are tried, whatever the first one returns; what failed can be tried again. */
    method Close() returns (ok: bool)
      requires Valid()
      modifies this, kernel
      ensures Valid() && name == old(name)
      ensures ok <==> descriptor == INVALID && !owns
      ensures descriptor == if Next(old(kernel.plan)) == Works then INVALID else old(descriptor)
      ensures kernel.open == if descriptor == old(descriptor) then old(kernel.open) else old(kernel.open) - {old(descriptor)}
      ensures kernel.badCloses == old(kernel.badCloses) + if descriptor == INVALID then 0 else 1
      ensures ok <==> kernel.faults == old(kernel.faults)
      ensures var plan := if old(descriptor) == INVALID then old(kernel.plan) else Rest(old(kernel.plan));
              && (owns <==> old(owns) && UnlinkFate(plan) != Works)
              && kernel.plan == (if old(owns) then AfterUnlink(plan) else plan)
      ensures kernel.queues == if old(owns) && !owns then old(kernel.queues) - {name} else old(kernel.queues)
      ensures kernel.faults == old(kernel.faults) + (if descriptor == INVALID then 0 else 1) + (if owns then 1 else 0)
      ensures old(descriptor) == INVALID && !old(owns) ==> unchanged(kernel)
    {
      var failed := false;
      if descriptor != INVALID {
        var closed := kernel.MqClose(descriptor);
        if closed {
          descriptor := INVALID;
        } else {
          failed := true;
        }
      }
      if owns {
        var removed := Unlink(kernel, name);
        if removed {
          owns := false;
        } else {
          failed := true;
        }
      }
      return !failed;
    }

    /** open_or_create. leak names the descriptor that is lost when an existing queue turns out to have the
        wrong sizes and closing it fails: the result of that mq_close is ignored. */
    static method OpenOrCreate(kernel: Kernel, name: string, sizes: Sizes) returns (q: PosixMessageQueue, ghost leak: set<int>)
      requires kernel.Valid()
      modifies kernel
      ensures fresh(q) && q.kernel == kernel && q.Valid() && q.name == name
      ensures kernel.Fds() == old(kernel.Fds()) + leak + (if q.descriptor == INVALID then {} else {q.descriptor})
      ensures q.descriptor !in old(kernel.Fds()) && q.descriptor !in leak && leak !! old(kernel.Fds()) && INVALID !in leak
      ensures leak != {} <==> LosesDescriptor(old(kernel.plan), old(kernel.queues), name, sizes)
      ensures leak != {} ==> q.descriptor == INVALID
      ensures kernel.badCloses == old(kernel.badCloses) + |leak| && |leak| <= 1
      ensures q.owns <==> Creatable(name, sizes) && Next(old(kernel.plan)) == Works && name !in old(kernel.queues)
      ensures kernel.queues == if q.owns then old(kernel.queues)[name := sizes] else old(kernel.queues)
      ensures kernel.Names() == if q.owns then old(kernel.Names()) + {name} else old(kernel.Names())
      ensures q.descriptor != INVALID ==> name in kernel.queues && kernel.open[q.descriptor] == sizes
      ensures q.owns ==> q.descriptor != INVALID
      ensures q.descriptor != INVALID <==> q.owns || Reopens(old(kernel.plan), old(kernel.queues), name, sizes)
      ensures old(kernel.plan) == [] ==>
                (q.descriptor != INVALID <==> Creatable(name, sizes) && (name !in old(kernel.queues) || old(kernel.queues)[name] == sizes))
      ensures kernel.faults >= old(kernel.faults) + |leak|
      ensures Creatable(name, sizes) && Next(old(kernel.plan)) != Works ==> kernel.faults > old(kernel.faults)
      ensures old(kernel.plan) == [] ==> kernel.plan == []
    {
      leak := {};
      if !IsValidQueueName(name) || sizes.maxMessages <= 0 || sizes.maxMessageSize <= 0 {
        q := new PosixMessageQueue(kernel, INVALID, name, false);
        return;
      }
      var fd := kernel.MqCreate(name, sizes);
      var owns := fd != INVALID;
      if fd == INVALID && kernel.errno == EEXIST {
        fd, leak := OpenChecked(kernel, name, sizes);
      }
      q := new PosixMessageQueue(kernel, fd, name, owns);
    }

    /** The second attempt of open_or_create: an existing queue is opened and kept only with the wanted sizes. */
    static method OpenChecked(kernel: Kernel, name: string, sizes: Sizes) returns (fd: int, ghost leak: set<int>)
      requires kernel.Valid()
      modifies kernel
      ensures kernel.Valid() && kernel.queues == old(kernel.queues)
      ensures fd != INVALID ==> fd >= 0 && fd !in old(kernel.Fds()) && name in kernel.queues
                                && kernel.open == old(kernel.open)[fd := sizes] && leak == {}
      ensures kernel.Fds() == old(kernel.Fds()) + if fd == INVALID then leak else {fd}
      ensures leak !! old(kernel.Fds()) && INVALID !in leak && |leak| <= 1 && kernel.badCloses == old(kernel.badCloses) + |leak|
      ensures var plan := old(kernel.plan);
              leak != {} <==> && Next(plan) == Works && name in old(kernel.queues)
                              && (Next(Rest(plan)) != Works || old(kernel.queues)[name] != sizes)
                              && Next(Rest(Rest(plan))) != Works
      ensures fd != INVALID <==> var plan := old(kernel.plan);
                                 && Next(plan) == Works && Next(Rest(plan)) == Works
                                 && name in old(kernel.queues) && old(kernel.queues)[name] == sizes
      ensures kernel.faults >= old(kernel.faults) + |leak|
      ensures old(kernel.plan) == [] ==> kernel.plan == []
    {
      leak := {};
      fd := kernel.MqOpen(name);
      if fd != INVALID {
        var known, existing := kernel.MqGetattr(fd);
        if !known || existing != sizes {
          var closed := kernel.MqClose(fd);
          if !closed {
            leak := {fd};
          }
          fd := INVALID;
        }
      }
    }

    /** open_read_only and open_write_only: never an owner. */
    static method OpenExisting(kernel: Kernel, name: string) returns (q: PosixMessageQueue)
      requires kernel.Valid()
      modifies kernel
      ensures fresh(q) && q.kernel == kernel && q.Valid() && q.name == name && !q.owns
      ensures kernel.queues == old(kernel.queues) && kernel.badCloses == old(kernel.badCloses)
      ensures kernel.Fds() == old(kernel.Fds()) + (if q.descriptor == INVALID then {} else {q.descriptor})
      ensures q.descriptor !in old(kernel.Fds())
      ensures q.descriptor != INVALID <==> IsValidQueueName(name) && name in kernel.queues && Next(old(kernel.plan)) == Works
      ensures kernel.faults == old(kernel.faults) + if IsValidQueueName(name) && Next(old(kernel.plan)) != Works then 1 else 0
      ensures kernel.plan == if IsValidQueueName(name) then Rest(old(kernel.plan)) else old(kernel.plan)
    {
      var fd := INVALID;
      if IsValidQueueName(name) {
        fd := kernel.MqOpen(name);
      }
      q := new PosixMessageQueue(kernel, fd, name, false);
    }

    /** The move constructor. The moved-from name may be anything. */
    static method MoveConstruct(other: PosixMessageQueue) returns (q: PosixMessageQueue)
      requires other.Valid()
      modifies other
      ensures fresh(q) && q.kernel == other.kernel && q.Valid() && other.Valid()
      ensures q.descriptor == old(other.descriptor) && q.name == old(other.name) && q.owns == old(other.owns)
      ensures other.descriptor == INVALID && !other.owns
    {
      q := new PosixMessageQueue(other.kernel, other.descriptor, other.name, other.owns);
      other.name := *;
      other.descriptor := INVALID;
      other.owns := false;
    }

    /** Move assignment: what this handle could not clean up is given up. leak is the descriptor lost exactly if
        its mq_close fails. */
    method MoveAssign(other: PosixMessageQueue) returns (ghost leak: set<int>)
      requires Valid() && other.Valid() && other.kernel == kernel
      requires other != this && descriptor != INVALID ==> other.descriptor != descriptor
      modifies this, other, kernel
      ensures Valid() && other.Valid()
      ensures other == this ==> leak == {} && unchanged(this) && unchanged(kernel)
      ensures old(descriptor) == INVALID && !old(owns) ==> unchanged(kernel)
      ensures other != this ==>
                && descriptor == old(other.descriptor) && name == old(other.name) && owns == old(other.owns)
                && other.descriptor == INVALID && !other.owns
      ensures other != this ==>
                && leak == (if old(descriptor) == INVALID || Next(old(kernel.plan)) == Works then {} else {old(descriptor)})
                && kernel.badCloses == old(kernel.badCloses) + |leak|
                && kernel.open == (if leak != {} then old(kernel.open) else old(kernel.open) - {old(descriptor)})
      ensures other != this ==>
                var plan := if old(descriptor) == INVALID then old(kernel.plan) else Rest(old(kernel.plan));
                var removed := old(owns) && UnlinkFate(plan) == Works;
                && kernel.queues == (if removed then old(kernel.queues) - {old(name)} else old(kernel.queues))
                && kernel.plan == (if old(owns) then AfterUnlink(plan) else plan)
                && kernel.faults == old(kernel.faults) + |leak| + (if old(owns) && !removed then 1 else 0)
    {
      leak := {};
      if this != other {
        var ok := Close();
        leak := if descriptor == INVALID then {} else {descriptor};
        descriptor := other.descriptor;
        name := other.name;
        owns := other.owns;
        other.name := *;
        other.descriptor := INVALID;
        other.owns := false;
      }
    }

    /** Closing again and again until it succeeds, after any number of failures, leaves no descriptor and no
        owned name. */
    method CloseUntilDone()
      requires Valid()
      modifies this, kernel
      ensures Valid() && descriptor == INVALID && !owns
      ensures kernel.open == old(kernel.open) - {old(descriptor)}
      ensures kernel.queues == if old(owns) then old(kernel.queues) - {old(name)} else old(kernel.queues)
    {
      var ok := Close();
      while !ok
        invariant Valid() && name == old(name) && (ok <==> descriptor == INVALID && !owns)
        invariant descriptor == INVALID || descriptor == old(descriptor)
        invariant kernel.open == if descriptor == old(descriptor) then old(kernel.open) else old(kernel.open) - {old(descriptor)}
        invariant owns ==> old(owns)
        invariant kernel.queues == if old(owns) && !owns then old(kernel.queues) - {name} else old(kernel.queues)
        decreases if ok then 0 else |kernel.plan| + 1
      {
        ok := Close();
      }
    }

    /** A run that leaks a descriptor although no handle is moved or destroyed: the queue exists with other sizes
        and the mq_close in open_or_create fails. The handle is closed, and one descriptor stays open. */
    static method LeakInOpenOrCreate(name: string, present: Sizes, wanted: Sizes) returns (kernel: Kernel, q: PosixMessageQueue)
      requires Creatable(name, wanted) && present != wanted
      ensures fresh(kernel) && kernel.queues == map[name := present]
      ensures q.kernel == kernel && q.descriptor == INVALID && !q.owns && |kernel.Fds()| == kernel.badCloses == 1
    {
      var plan := [Works, Works, Works, Fails];
      kernel := new Kernel(map[name := present], plan);
      assert Rest(plan) == [Works, Works, Fails] && Rest(Rest(plan)) == [Works, Fails] && Rest(Rest(Rest(plan))) == [Fails];
      ghost var leak: set<int>;
      q, leak := OpenOrCreate(kernel, name, wanted);
      assert kernel.Fds() == leak;
    }
  }
}
