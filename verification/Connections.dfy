/** Client::connect and Client::disconnect (src/client/client.cpp): the two queues of a client. */
module Connections {
  import opened Commands
  import opened QueueNames
  import opened Kernel
  import opened QueueHandle

  /** The sizes of a reply queue: ten messages of sizeof(ResponseMessage), of which only the sign matters here. */
  const REPLY_SIZES: Sizes := Sizes(10, 1)

  /** All that has to go wrong for connect to lose its reply queue: the first mq_unlink fails. Before it come the
      mq_close calls for the open descriptors. */
  function LosingPlan(serverOpen: bool, replyOpen: bool): seq<Fate> {
    (if serverOpen then [Works] else []) + (if replyOpen then [Works] else []) + [Fails]
  }

  class Connection {
    const kernel: Kernel
    const replyName: string
    const reply: PosixMessageQueue
    const server: PosixMessageQueue

    /** The client owns its reply queue only; the server's queue is opened, never owned. */
    ghost predicate Valid()
      reads this, reply, server, kernel
    {
      && reply != server && reply.kernel == kernel && server.kernel == kernel && reply.Valid() && server.Valid()
      && IsValidQueueName(replyName) && !server.owns && (reply.owns ==> reply.name == replyName)
      && (reply.descriptor != INVALID ==> reply.descriptor != server.descriptor)
    }

    constructor (kernel: Kernel, clientId: Word)
      requires kernel.Valid()
      ensures Valid() && this.kernel == kernel && fresh(reply) && fresh(server)
      ensures replyName == ReplyQueueName(clientId) && !IsConnected()
    {
      this.kernel := kernel;
      replyName := ReplyQueueName(clientId);
      reply := new PosixMessageQueue(kernel, INVALID, "", false);
      server := new PosixMessageQueue(kernel, INVALID, "", false);
      new;
      ReplyQueueNameSound(clientId, seq(64, _ => '\0'));
    }

    ghost predicate IsConnected()
      reads reply, server
    {
      reply.descriptor != INVALID && server.descriptor != INVALID
    }

    /** The descriptors this client holds. */
    ghost function Descriptors(): set<int>
      reads reply, server
    {
      {reply.descriptor, server.descriptor} - {INVALID}
    }

    /** The kernel's plan is the losing one for the handles as they are. */
    ghost predicate Loses()
      reads reply, server, kernel
    {
      kernel.plan == LosingPlan(server.descriptor != INVALID, reply.descriptor != INVALID)
    }

    /** The reply queue is closed and, once more, unlinked by name. */
    method Withdraw()
      requires Valid()
      modifies reply, kernel
      ensures Valid() && kernel.faults >= old(kernel.faults)
      ensures kernel.faults == old(kernel.faults) ==>
                && reply.descriptor == INVALID && !reply.owns
                && kernel.Fds() == old(kernel.Fds()) - {old(reply.descriptor)} && kernel.Names() == old(kernel.Names()) - {replyName}
      ensures reply.owns ==> old(reply.owns)
      ensures reply.descriptor == INVALID || reply.descriptor == old(reply.descriptor)
      ensures kernel.Names() == old(kernel.Names()) || kernel.Names() == old(kernel.Names()) - {replyName}
      ensures old(reply.owns) && old(kernel.plan) == (if old(reply.descriptor) != INVALID then [Works] else []) + [Fails] ==>
                reply.owns && reply.descriptor == INVALID && kernel.plan == []
    {
      var closed := reply.Close();
      var removed := PosixMessageQueue.Unlink(kernel, replyName);
    }

    /** Without kernel failures nothing of the client is left: no descriptor and no reply queue. Under the losing plan
        an owner stays owner of a name that is gone. */
    method Disconnect()
      requires Valid()
      modifies reply, server, kernel
      ensures Valid() && kernel.faults >= old(kernel.faults)
      ensures kernel.faults == old(kernel.faults) ==>
                && reply.descriptor == INVALID && server.descriptor == INVALID && !reply.owns
                && kernel.Fds() == old(kernel.Fds()) - old(Descriptors()) && kernel.Names() == old(kernel.Names()) - {replyName}
      ensures reply.owns ==> old(reply.owns)
      ensures kernel.Names() == old(kernel.Names()) || kernel.Names() == old(kernel.Names()) - {replyName}
      ensures old(reply.owns && Loses()) ==>
                reply.owns && reply.descriptor == INVALID && server.descriptor == INVALID && kernel.plan == []
    {
      ghost var losing := reply.owns && Loses();
      ghost var replyOpen := reply.descriptor != INVALID;
      var closedServer := server.Close();
      assert losing ==> kernel.plan == (if replyOpen then [Works] else []) + [Fails] && server.descriptor == INVALID;
      Withdraw();
    }

    /** A stale queue of that name is removed and a new one created, or, if it could not be removed, opened. */
    method NewReply() returns (created: PosixMessageQueue)
      requires Valid()
      modifies kernel
      ensures Valid() && kernel.faults >= old(kernel.faults)
      ensures fresh(created) && created.kernel == kernel && created.Valid() && created.name == replyName
      ensures created.descriptor !in old(kernel.Fds()) && old(kernel.Fds()) <= kernel.Fds()
      ensures created.descriptor != INVALID ==> replyName in kernel.Names()
      ensures kernel.faults == old(kernel.faults) || old(kernel.plan) == [] ==>
                && created.descriptor != INVALID && created.owns
                && kernel.Names() == old(kernel.Names()) + {replyName}
                && kernel.Fds() == old(kernel.Fds()) + {created.descriptor}
      ensures old(kernel.plan) == [] ==> kernel.plan == []
    {
      var stale := PosixMessageQueue.Unlink(kernel, replyName);
      ghost var leak: set<int>;
      created, leak := PosixMessageQueue.OpenOrCreate(kernel, replyName, REPLY_SIZES);
    }

    /** First half of connect: a stale queue of that name is removed and a new one created. With no kernel failure
        a client that holds no reply queue ends up owning the new one. If the old handle still owned the name,
        the move assignment removes the new queue. */
    method OpenReply()
      requires Valid()
      modifies reply, kernel
      ensures Valid() && kernel.faults >= old(kernel.faults)
      ensures kernel.faults == old(kernel.faults) && old(reply.descriptor) == INVALID && !old(reply.owns) ==>
                && reply.descriptor != INVALID && reply.owns && reply.descriptor !in old(kernel.Fds())
                && kernel.Names() == old(kernel.Names()) + {replyName}
                && kernel.Fds() == old(kernel.Fds()) + {reply.descriptor}
      ensures reply.descriptor != INVALID && !old(reply.owns) ==> replyName in kernel.Names()
      ensures old(kernel.plan) == [] && old(reply.descriptor) == INVALID && old(reply.owns) ==>
                && reply.descriptor != INVALID && kernel.plan == [] && kernel.Names() == old(kernel.Names()) - {replyName}
    {
      var created := NewReply();
      var lost := reply.MoveAssign(created);
    }

    /** Second half of connect: the server's queue is opened when it exists. */
    method OpenServer(target: string)
      requires Valid()
      modifies server, kernel
      ensures Valid() && kernel.faults >= old(kernel.faults) && kernel.Names() == old(kernel.Names())
      ensures server.name == target && (server.descriptor != INVALID ==> IsValidQueueName(target) && target in kernel.Names())
      ensures (kernel.faults == old(kernel.faults) || old(kernel.plan) == []) && old(server.descriptor) == INVALID ==>
                && (server.descriptor != INVALID <==> IsValidQueueName(target) && target in kernel.Names())
                && kernel.Fds() == (if server.descriptor == INVALID then old(kernel.Fds()) else old(kernel.Fds()) + {server.descriptor})
                && server.descriptor !in old(kernel.Fds())
    {
      var existing := PosixMessageQueue.OpenExisting(kernel, target);
      var lost := server.MoveAssign(existing);
    }

    /** Both halves, for a client that has just disconnected. */
    method Open(target: string) returns (ok: bool)
      requires Valid()
      modifies reply, server, kernel
      ensures Valid() && kernel.faults >= old(kernel.faults)
      ensures ok <==> IsConnected()
      ensures ok ==> server.name == target && IsValidQueueName(target) && target in kernel.Names()
      ensures kernel.faults == old(kernel.faults) && old(!reply.owns && reply.descriptor == INVALID && server.descriptor == INVALID) ==>
                && (ok <==> IsValidQueueName(target) && (target in old(kernel.Names()) || target == replyName))
                && (if ok then
                      reply.owns && replyName in kernel.Names() && kernel.Names() == old(kernel.Names()) + {replyName}
                      && kernel.Fds() == old(kernel.Fds()) + {reply.descriptor, server.descriptor}
                    else
                      reply.descriptor == INVALID && server.descriptor == INVALID
                      && kernel.Names() == old(kernel.Names()) - {replyName} && kernel.Fds() == old(kernel.Fds()))
      ensures ok && !old(reply.owns) ==> replyName in kernel.Names()
      ensures old(kernel.plan == [] && reply.owns && reply.descriptor == INVALID && server.descriptor == INVALID) ==>
                IsValidQueueName(target) && target in old(kernel.Names()) && target != replyName ==> ok && replyName !in kernel.Names()
    {
      OpenReply();
      if reply.descriptor == INVALID {
        return false;
      }
      OpenServer(target);
      if server.descriptor == INVALID {
        Withdraw();
        return false;
      }
      return true;
    }

    /** connect. It reports success exactly when both queues are open, and then the server's queue is the named one, or
        the default one for an empty name. Without kernel failures it succeeds exactly when that queue exists,
        and then owns a newly created reply queue; when it fails it leaves nothing behind. Whatever fails, a
        client that owned no reply queue before has one after success; one that did may succeed without any, if a
        single mq_unlink fails. */
    method Connect(serverQueueName: string) returns (ok: bool)
      requires Valid()
      modifies reply, server, kernel
      ensures Valid() && kernel.faults >= old(kernel.faults)
      ensures ok <==> IsConnected()
      ensures ok && serverQueueName == "" ==> server.name == SERVER_QUEUE && SERVER_QUEUE in kernel.Names()
      ensures ok && serverQueueName != "" ==>
                server.name == serverQueueName && IsValidQueueName(serverQueueName) && serverQueueName in kernel.Names()
      ensures kernel.faults == old(kernel.faults) && serverQueueName == "" ==>
                (ok <==> SERVER_QUEUE in old(kernel.Names()) || SERVER_QUEUE == replyName)
      ensures kernel.faults == old(kernel.faults) && serverQueueName != "" ==>
                (ok <==> IsValidQueueName(serverQueueName) && (serverQueueName in old(kernel.Names()) || serverQueueName == replyName))
      ensures kernel.faults == old(kernel.faults) ==>
                && (ok ==> reply.owns && replyName in kernel.Names())
                && kernel.Names() == (if ok then old(kernel.Names()) + {replyName} else old(kernel.Names()) - {replyName})
                && kernel.Fds() == old(kernel.Fds()) - old(Descriptors()) + Descriptors()
                && (!ok ==> Descriptors() == {})
      ensures ok && !old(reply.owns) ==> replyName in kernel.Names()
      ensures old(reply.owns && Loses()) && serverQueueName == "" && SERVER_QUEUE in old(kernel.Names()) && SERVER_QUEUE != replyName ==>
                ok && replyName !in kernel.Names()
      ensures old(reply.owns && Loses()) && serverQueueName != "" && IsValidQueueName(serverQueueName)
              && serverQueueName in old(kernel.Names()) && serverQueueName != replyName ==>
                ok && replyName !in kernel.Names()
    {
      Disconnect();
      ServerQueueValid();
      var target := if serverQueueName == "" then SERVER_QUEUE else serverQueueName;
      ok := Open(target);
    }

    /** For every client that owns a reply queue, and every other queue that exists, there is a run in which one
        failed mq_unlink makes connect succeed with no reply queue to receive from. */
    method ConnectWithoutReplyQueue(serverQueueName: string) returns (ok: bool)
      requires Valid() && reply.owns
      requires serverQueueName == "" ==> SERVER_QUEUE in kernel.Names() && SERVER_QUEUE != replyName
      requires serverQueueName != "" ==>
                 IsValidQueueName(serverQueueName) && serverQueueName in kernel.Names() && serverQueueName != replyName
      modifies reply, server, kernel
      ensures ok && IsConnected() && replyName !in kernel.Names()
      ensures server.name == if serverQueueName == "" then SERVER_QUEUE else serverQueueName
    {
      kernel.plan := LosingPlan(server.descriptor != INVALID, reply.descriptor != INVALID);
      ok := Connect(serverQueueName);
    }
  }
}
