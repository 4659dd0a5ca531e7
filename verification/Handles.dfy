/** All queue handles of one process, under any sequence of operations and any kernel failures, when nobody
    unlinks an owned name from outside. */
module Handles {
  import opened QueueNames
  import opened Kernel
  import opened QueueHandle

  datatype Operation =
    | Default
    | Create(name: string, sizes: Sizes)
    | Open(name: string)
    | MoveNew(i: nat)
    | MoveInto(i: nat, j: nat)
    | Close(i: nat)
    | Destroy(i: nat)
    | Outside(created: map<string, Sizes>, removed: set<string>)

  /** A handle's fields. */
  datatype HandleView = HandleView(descriptor: int, name: string, owns: bool)

  /** Open descriptors correspond one to one to open handles, except for the leaked ones. */
  ghost predicate OneToOne(h: seq<HandleView>, fds: set<int>, leaked: set<int>) {
    && leaked <= fds && INVALID !in fds
    && (forall i | 0 <= i < |h| && h[i].descriptor != INVALID :: h[i].descriptor in fds && h[i].descriptor !in leaked)
    && (forall i, j | 0 <= i < j < |h| && h[i].descriptor != INVALID :: h[i].descriptor != h[j].descriptor)
    && (forall fd | fd in fds && fd !in leaked :: exists i :: 0 <= i < |h| && h[i].descriptor == fd)
  }

  /** An owned name exists in the kernel and has one owner. */
  ghost predicate OwnedOnce(h: seq<HandleView>, names: set<string>) {
    && (forall i | 0 <= i < |h| && h[i].owns :: IsValidQueueName(h[i].name) && h[i].name in names)
    && (forall i, j | 0 <= i < j < |h| && h[i].owns && h[j].owns :: h[i].name != h[j].name)
  }

  ghost predicate Consistent(h: seq<HandleView>, fds: set<int>, names: set<string>, leaked: set<int>) {
    OneToOne(h, fds, leaked) && OwnedOnce(h, names)
  }

  function Gone(name: string): HandleView {
    HandleView(INVALID, name, false)
  }

  /** A new handle with a new descriptor or none, owning a new name or none. */
  lemma AddKeeps(h: seq<HandleView>, fds: set<int>, names: set<string>, leaked: set<int>, v: HandleView, leak: set<int>)
    requires Consistent(h, fds, names, leaked)
    requires v.descriptor !in fds && leak !! fds && v.descriptor !in leak && INVALID !in leak
    requires v.owns ==> IsValidQueueName(v.name) && v.name !in names
    ensures Consistent(h + [v], fds + leak + (if v.descriptor == INVALID then {} else {v.descriptor}),
                       if v.owns then names + {v.name} else names, leaked + leak)
  {
    var g := h + [v];
    assert g[|h|] == v;
    forall fd | fd in fds && fd !in leaked ensures exists i :: 0 <= i < |g| && g[i].descriptor == fd {
      var i :| 0 <= i < |h| && h[i].descriptor == fd;
      assert g[i] == h[i];
    }
  }

  /** A handle gives up its descriptor, its name, or both. */
  lemma ReleaseKeeps(h: seq<HandleView>, fds: set<int>, names: set<string>, leaked: set<int>, i: nat, v: HandleView)
    requires Consistent(h, fds, names, leaked) && i < |h| && v.name == h[i].name
    requires (v.descriptor == h[i].descriptor || v.descriptor == INVALID) && (v.owns ==> h[i].owns)
    ensures Consistent(h[i := v], if v.descriptor == h[i].descriptor then fds else fds - {h[i].descriptor},
                       if h[i].owns && !v.owns then names - {v.name} else names, leaked)
  {
    var g := h[i := v];
    forall fd | fd in fds && fd !in leaked && fd != h[i].descriptor ensures exists k :: 0 <= k < |g| && g[k].descriptor == fd {
      var k :| 0 <= k < |h| && h[k].descriptor == fd;
      assert g[k] == h[k];
    }
    if v.descriptor == h[i].descriptor {
      assert g[i].descriptor == h[i].descriptor;
    }
  }

  /** What a handle holds is abandoned: an owned name is left without owner, a descriptor leaks. */
  lemma AbandonKeeps(h: seq<HandleView>, fds: set<int>, names: set<string>, leaked: set<int>, i: nat, name: string)
    requires Consistent(h, fds, names, leaked) && i < |h|
    ensures Consistent(h[i := Gone(name)], fds, names, leaked + (if h[i].descriptor == INVALID then {} else {h[i].descriptor}))
  {
    var g := h[i := Gone(name)];
    forall fd | fd in fds && fd !in leaked && fd != h[i].descriptor ensures exists k :: 0 <= k < |g| && g[k].descriptor == fd {
      var k :| 0 <= k < |h| && h[k].descriptor == fd;
      assert g[k] == h[k];
    }
  }

  /** What one handle holds passes to an empty one. */
  lemma TransferKeeps(h: seq<HandleView>, fds: set<int>, names: set<string>, leaked: set<int>, i: nat, j: nat, name: string)
    requires Consistent(h, fds, names, leaked) && i < |h| && j < |h| && i != j
    requires h[i].descriptor == INVALID && !h[i].owns
    ensures Consistent(h[i := h[j]][j := Gone(name)], fds, names, leaked)
  {
    var g := h[i := h[j]][j := Gone(name)];
    forall fd | fd in fds && fd !in leaked ensures exists k :: 0 <= k < |g| && g[k].descriptor == fd {
      var k :| 0 <= k < |h| && h[k].descriptor == fd;
      assert if k == j then g[i] == h[j] else g[k] == h[k];
    }
  }

  /** Move assignment from j to i: i cleans up what the kernel lets it, abandons the rest and takes over. */
  lemma MoveKeeps(h: seq<HandleView>, fds: set<int>, names: set<string>, leaked: set<int>, i: nat, j: nat,
                  leak: set<int>, name: string, fds': set<int>, names': set<string>)
    requires Consistent(h, fds, names, leaked) && i < |h| && j < |h| && i != j
    requires leak == {} || (leak == {h[i].descriptor} && h[i].descriptor != INVALID)
    requires fds' == fds - ({h[i].descriptor} - leak)
    requires names' == names || (h[i].owns && names' == names - {h[i].name})
    ensures Consistent(h[i := h[j]][j := Gone(name)], fds', names', leaked + leak)
  {
    var v := HandleView(if leak == {} then INVALID else h[i].descriptor, h[i].name, h[i].owns && names' == names);
    ReleaseKeeps(h, fds, names, leaked, i, v);
    AbandonKeeps(h[i := v], fds', names', leaked, i, "");
    TransferKeeps(h[i := v][i := Gone("")], fds', names', leaked + leak, i, j, name);
    assert h[i := v][i := Gone("")][i := h[j]][j := Gone(name)] == h[i := h[j]][j := Gone(name)];
  }

  /** An empty handle is destroyed. */
  lemma RemoveKeeps(h: seq<HandleView>, fds: set<int>, names: set<string>, leaked: set<int>, i: nat)
    requires Consistent(h, fds, names, leaked) && i < |h| && h[i].descriptor == INVALID && !h[i].owns
    ensures Consistent(h[..i] + h[i + 1..], fds, names, leaked)
  {
    var g := h[..i] + h[i + 1..];
    forall fd | fd in fds && fd !in leaked ensures exists k :: 0 <= k < |g| && g[k].descriptor == fd {
      var k :| 0 <= k < |h| && h[k].descriptor == fd;
      assert g[if k < i then k else k - 1] == h[k];
    }
  }

  lemma DestroyKeeps(h: seq<HandleView>, fds: set<int>, names: set<string>, leaked: set<int>, i: nat)
    requires Consistent(h, fds, names, leaked) && i < |h|
    ensures Consistent(h[..i] + h[i + 1..], fds, names, leaked + (if h[i].descriptor == INVALID then {} else {h[i].descriptor}))
  {
    AbandonKeeps(h, fds, names, leaked, i, "");
    var g := h[i := Gone("")];
    RemoveKeeps(g, fds, names, leaked + (if h[i].descriptor == INVALID then {} else {h[i].descriptor}), i);
    assert g[..i] + g[i + 1..] == h[..i] + h[i + 1..];
  }

  /** Handle i moves to a new handle behind the others. */
  lemma CloneKeeps(h: seq<HandleView>, fds: set<int>, names: set<string>, leaked: set<int>, i: nat, name: string)
    requires Consistent(h, fds, names, leaked) && i < |h|
    ensures Consistent(h[i := Gone(name)] + [h[i]], fds, names, leaked)
  {
    var g := h + [Gone("")];
    AddKeeps(h, fds, names, leaked, Gone(""), {});
    TransferKeeps(g, fds, names, leaked, |h|, i, name);
    assert g[|h| := g[i]][i := Gone(name)] == h[i := Gone(name)] + [h[i]];
  }

  /** The operations that give up a descriptor when closing it fails. */
  predicate MayLeak(op: Operation) {
    op.Create? || op.MoveInto? || op.Destroy?
  }

  /** The handles, the queues, and what is to befall the next calls. */
  datatype Snapshot = Snapshot(handles: seq<HandleView>, queues: map<string, Sizes>, plan: seq<Fate>)

  /** One operation: the state around it, how many calls failed in it, how many of these were mq_close, and which
      descriptors it leaked. */
  datatype Event = Event(op: Operation, before: Snapshot, after: Snapshot, faults: int, badCloses: int, leaks: set<int>)

  /** An operation leaks exactly if it may and its own mq_close failed. */
  predicate LeakExplained(e: Event) {
    e.leaks != {} <==> MayLeak(e.op) && e.badCloses > 0
  }

  /** Whether closing a handle removes the name it owns: the mq_unlink comes after the mq_close, if there is one. */
  predicate Unlinks(v: HandleView, plan: seq<Fate>) {
    v.owns && UnlinkFate(if v.descriptor == INVALID then plan else Rest(plan)) == Works
  }

  function Without(v: HandleView, s: Snapshot): map<string, Sizes> {
    if Unlinks(v, s.plan) then s.queues - {v.name} else s.queues
  }

  /** A new handle at the end. */
  predicate Appends(s: Snapshot, t: Snapshot) {
    |t.handles| == |s.handles| + 1 && t.handles[..|s.handles|] == s.handles
  }

  predicate Idle(s: Snapshot, t: Snapshot) {
    t.handles == s.handles && t.queues == s.queues
  }

  /** What each operation does to the handles and the queues. */
  predicate Effect(e: Event) {
    var s, t, n := e.before, e.after, |e.before.handles|;
    match e.op
    case Default => t.handles == s.handles + [HandleView(INVALID, "", false)] && t.queues == s.queues
    case Create(name, sizes) =>
      && Appends(s, t) && t.handles[n].name == name
      && (t.handles[n].owns <==> Creatable(name, sizes) && Next(s.plan) == Works && name !in s.queues)
      && (t.handles[n].descriptor != INVALID <==> t.handles[n].owns || Reopens(s.plan, s.queues, name, sizes))
      && t.queues == (if t.handles[n].owns then s.queues[name := sizes] else s.queues)
    case Open(name) =>
      && Appends(s, t) && t.handles[n].name == name && !t.handles[n].owns && t.queues == s.queues
      && (t.handles[n].descriptor != INVALID <==> IsValidQueueName(name) && name in s.queues && Next(s.plan) == Works)
    case MoveNew(i) =>
      if i < n then
        |t.handles| == n + 1 && t.handles == s.handles[i := Gone(t.handles[i].name)] + [s.handles[i]] && t.queues == s.queues
      else Idle(s, t)
    case MoveInto(i, j) =>
      if i < n && j < n && i != j then
        && |t.handles| == n && t.handles == s.handles[i := s.handles[j]][j := Gone(t.handles[j].name)]
        && t.queues == Without(s.handles[i], s)
      else Idle(s, t)
    case Close(i) =>
      if i < n then
        var v := s.handles[i];
        && t.handles == s.handles[i := HandleView(if Next(s.plan) == Works then INVALID else v.descriptor, v.name,
                                                  v.owns && !Unlinks(v, s.plan))]
        && t.queues == Without(v, s)
        && (e.faults == 0 <==> t.handles[i] == HandleView(INVALID, v.name, false))
      else Idle(s, t)
    case Destroy(i) =>
      if i < n then
        t.handles == s.handles[..i] + s.handles[i + 1..] && t.queues == Without(s.handles[i], s)
      else Idle(s, t)
    case Outside(created, removed) =>
      && t.handles == s.handles
      && (forall name | name in t.queues :: name in s.queues || name in created)
      && (forall name | name in s.queues && name !in t.queues ::
            name in removed && forall i | 0 <= i < n && s.handles[i].owns :: s.handles[i].name != name)
  }

  /** The events follow one another from the first state to the last. */
  predicate Chained(events: seq<Event>, first: Snapshot, last: Snapshot) {
    if events == [] then first == last
    else
      && events[0].before == first && events[|events| - 1].after == last
      && forall n | 0 <= n < |events| - 1 :: events[n].after == events[n + 1].before
  }

  ghost function LeaksOf(events: seq<Event>): set<int> {
    if events == [] then {} else LeaksOf(events[..|events| - 1]) + events[|events| - 1].leaks
  }

  /** Each operation has had its effect, and leaked only as explained. */
  ghost predicate Effects(ops: seq<Operation>, events: seq<Event>) {
    |events| == |ops| && forall n | 0 <= n < |ops| :: events[n].op == ops[n] && Effect(events[n]) && LeakExplained(events[n])
  }

  /** The leaks are those of the events, and there are none exactly if no operation that may leak had an mq_close fail. */
  ghost predicate LeaksAdd(ops: seq<Operation>, events: seq<Event>, leaked: set<int>, leakedNow: set<int>) {
    && |events| == |ops| && leaked <= leakedNow && leakedNow == leaked + LeaksOf(events)
    && (leakedNow == leaked <==> forall n | 0 <= n < |ops| :: !(MayLeak(ops[n]) && events[n].badCloses > 0))
  }

  ghost predicate FaultsAdd(events: seq<Event>, faults: int, faultsNow: int) {
    faults <= faultsNow && (faultsNow == faults ==> forall n | 0 <= n < |events| :: events[n].faults == 0)
  }

  lemma EffectsNext(ops: seq<Operation>, events: seq<Event>, e: Event)
    requires Effects(ops, events) && Effect(e) && LeakExplained(e)
    ensures Effects(ops + [e.op], events + [e])
  {
    var all, done := events + [e], ops + [e.op];
    forall n | 0 <= n < |done| ensures all[n].op == done[n] && Effect(all[n]) && LeakExplained(all[n]) {
      if n < |ops| {
        assert all[n] == events[n] && done[n] == ops[n];
      } else {
        assert all[n] == e && done[n] == e.op;
      }
    }
  }

  lemma LeaksNext(ops: seq<Operation>, events: seq<Event>, leaked: set<int>, leakedNow: set<int>, e: Event)
    requires LeaksAdd(ops, events, leaked, leakedNow) && LeakExplained(e) && e.leaks !! leakedNow
    ensures LeaksAdd(ops + [e.op], events + [e], leaked, leakedNow + e.leaks)
  {
    var all, done := events + [e], ops + [e.op];
    assert all[..|events|] == events && all[|events|] == e && done[|ops|] == e.op;
    assert forall n | 0 <= n < |ops| :: all[n] == events[n] && done[n] == ops[n];
    assert leakedNow + e.leaks == leaked <==> leakedNow == leaked && e.leaks == {};
  }

  lemma FaultsNext(events: seq<Event>, faults: int, faultsNow: int, e: Event)
    requires FaultsAdd(events, faults, faultsNow) && e.faults >= 0
    ensures FaultsAdd(events + [e], faults, faultsNow + e.faults)
  {
  }

  ghost predicate Account(ops: seq<Operation>, events: seq<Event>, first: Snapshot, last: Snapshot,
                          leaked: set<int>, leakedNow: set<int>, faults: int, faultsNow: int) {
    && Chained(events, first, last) && Effects(ops, events)
    && LeaksAdd(ops, events, leaked, leakedNow) && FaultsAdd(events, faults, faultsNow)
  }

  lemma AccountNext(ops: seq<Operation>, events: seq<Event>, first: Snapshot, leaked: set<int>, leakedNow: set<int>,
                    faults: int, faultsNow: int, e: Event)
    requires Account(ops, events, first, e.before, leaked, leakedNow, faults, faultsNow)
    requires Effect(e) && LeakExplained(e) && e.leaks !! leakedNow && e.faults >= 0
    ensures Account(ops + [e.op], events + [e], first, e.after, leaked, leakedNow + e.leaks, faults, faultsNow + e.faults)
  {
    EffectsNext(ops, events, e);
    LeaksNext(ops, events, leaked, leakedNow, e);
    ChainNext(events, first, e);
    FaultsNext(events, faults, faultsNow, e);
  }

  lemma ChainNext(events: seq<Event>, first: Snapshot, e: Event)
    requires Chained(events, first, e.before)
    ensures Chained(events + [e], first, e.after)
  {
  }

  class Process {
    const kernel: Kernel
    /** The live handles. */
    var slots: seq<PosixMessageQueue>
    /** Descriptors that stay open with no handle left to close them. */
    ghost var leaked: set<int>

    ghost function Views(): (h: seq<HandleView>)
      reads this, slots
      ensures |h| == |slots|
    {
      seq(|slots|, i requires 0 <= i < |slots| reads this, slots =>
        HandleView(slots[i].descriptor, slots[i].name, slots[i].owns))
    }

    ghost function Now(): Snapshot
      reads this, slots, kernel
    {
      Snapshot(Views(), kernel.queues, kernel.plan)
    }

    /** Each live handle is a separate object on this process's kernel. */
    ghost predicate Separate()
      reads this, slots
    {
      && (forall i | 0 <= i < |slots| :: slots[i].kernel == kernel)
      && forall i, j | 0 <= i < j < |slots| :: slots[i] != slots[j]
    }

    ghost predicate Valid()
      reads this, slots, kernel
    {
      Separate() && kernel.Valid() && Consistent(Views(), kernel.Fds(), kernel.Names(), leaked)
    }

    /** A consistent process's handles are valid. */
    lemma HandleValid(i: nat)
      requires Valid() && i < |slots|
      ensures slots[i].Valid()
    {
      assert Views()[i].descriptor == slots[i].descriptor && Views()[i].owns == slots[i].owns && Views()[i].name == slots[i].name;
    }

    /** Handles come from nowhere else. */
    twostate predicate OldOrNew()
      reads this
    {
      forall k | 0 <= k < |slots| :: slots[k] in old(slots) || fresh(slots[k])
    }

    constructor (kernel: Kernel)
      requires kernel.Valid() && kernel.Fds() == {}
      ensures Valid() && this.kernel == kernel && slots == [] && leaked == {}
    {
      this.kernel := kernel;
      slots := [];
      leaked := {};
    }

    /** A handle just made joins the others. */
    method Adopt(q: PosixMessageQueue, ghost leak: set<int>)
      requires Separate() && q !in slots && q.kernel == kernel && kernel.Valid()
      requires Consistent(Views() + [HandleView(q.descriptor, q.name, q.owns)], kernel.Fds(), kernel.Names(), leaked + leak)
      modifies this
      ensures Valid() && slots == old(slots) + [q] && leaked == old(leaked) + leak
      ensures Views() == old(Views()) + [HandleView(q.descriptor, q.name, q.owns)]
    {
      slots := slots + [q];
      leaked := leaked + leak;
      assert Views() == old(Views()) + [HandleView(q.descriptor, q.name, q.owns)];
    }

    /** A handle goes, with what it still holds. */
    method Drop(i: nat, ghost leak: set<int>)
      requires Separate() && i < |slots| && kernel.Valid()
      requires Consistent(Views()[..i] + Views()[i + 1..], kernel.Fds(), kernel.Names(), leaked + leak)
      modifies this
      ensures Valid() && slots == old(slots)[..i] + old(slots)[i + 1..] && leaked == old(leaked) + leak
      ensures Views() == old(Views())[..i] + old(Views())[i + 1..]
    {
      slots := slots[..i] + slots[i + 1..];
      leaked := leaked + leak;
      assert Views() == old(Views())[..i] + old(Views())[i + 1..];
    }

    method DoDefault()
      requires Valid()
      modifies this
      ensures Valid() && leaked == old(leaked) && OldOrNew()
      ensures Views() == old(Views()) + [Gone("")]
    {
      var q := new PosixMessageQueue(kernel, INVALID, "", false);
      AddKeeps(old(Views()), kernel.Fds(), kernel.Names(), leaked, Gone(""), {});
      Adopt(q, {});
    }

    /** A create leaks exactly when the mq_close of an existing queue of other sizes fails. */
    method DoCreate(name: string, sizes: Sizes)
      requires Valid()
      modifies this, kernel
      ensures Valid() && OldOrNew()
      ensures old(leaked) <= leaked
      ensures leaked != old(leaked) <==> LosesDescriptor(old(kernel.plan), old(kernel.queues), name, sizes)
      ensures kernel.badCloses == old(kernel.badCloses) + (if leaked == old(leaked) then 0 else 1) && kernel.faults >= old(kernel.faults)
      ensures |slots| == |old(slots)| + 1 && Views()[..|old(slots)|] == old(Views())
      ensures var v := Views()[|old(slots)|];
              && v.name == name
              && (v.owns <==> Creatable(name, sizes) && Next(old(kernel.plan)) == Works && name !in old(kernel.queues))
              && (v.descriptor != INVALID <==> v.owns || Reopens(old(kernel.plan), old(kernel.queues), name, sizes))
              && kernel.queues == if v.owns then old(kernel.queues)[name := sizes] else old(kernel.queues)
    {
      ghost var h := Views();
      var q, leak := Make(name, sizes);
      Adopt(q, leak);
      assert Views()[|h|] == HandleView(q.descriptor, q.name, q.owns);
    }

    /** The handle of a create, before it joins the others. */
    method Make(name: string, sizes: Sizes) returns (q: PosixMessageQueue, ghost leak: set<int>)
      requires Valid()
      modifies kernel
      ensures Separate() && Views() == old(Views()) && fresh(q) && q.kernel == kernel && kernel.Valid()
      ensures Consistent(Views() + [HandleView(q.descriptor, q.name, q.owns)], kernel.Fds(), kernel.Names(), leaked + leak)
      ensures q.name == name && !(leak != {} && leak <= leaked)
      ensures leak != {} <==> LosesDescriptor(old(kernel.plan), old(kernel.queues), name, sizes)
      ensures kernel.badCloses == old(kernel.badCloses) + (if leak == {} then 0 else 1) && kernel.faults >= old(kernel.faults)
      ensures q.owns <==> Creatable(name, sizes) && Next(old(kernel.plan)) == Works && name !in old(kernel.queues)
      ensures q.descriptor != INVALID <==> q.owns || Reopens(old(kernel.plan), old(kernel.queues), name, sizes)
      ensures kernel.queues == if q.owns then old(kernel.queues)[name := sizes] else old(kernel.queues)
    {
      q, leak := PosixMessageQueue.OpenOrCreate(kernel, name, sizes);
      assert Views() == old(Views());
      AddKeeps(Views(), old(kernel.Fds()), old(kernel.Names()), leaked, HandleView(q.descriptor, q.name, q.owns), leak);
      assert leak != {} ==> !(leak <= leaked);
    }

    method DoOpen(name: string)
      requires Valid()
      modifies this, kernel
      ensures Valid() && OldOrNew()
      ensures leaked == old(leaked) && kernel.queues == old(kernel.queues)
      ensures kernel.badCloses == old(kernel.badCloses) && kernel.faults >= old(kernel.faults)
      ensures |slots| == |old(slots)| + 1 && Views()[..|old(slots)|] == old(Views())
      ensures var v := Views()[|old(slots)|];
              && v.name == name && !v.owns
              && (v.descriptor != INVALID <==> IsValidQueueName(name) && name in kernel.queues && Next(old(kernel.plan)) == Works)
    {
      var q := PosixMessageQueue.OpenExisting(kernel, name);
      ghost var v := HandleView(q.descriptor, q.name, q.owns);
      AddKeeps(old(Views()), old(kernel.Fds()), old(kernel.Names()), leaked, v, {});
      Adopt(q, {});
    }

    method DoMoveNew(i: nat)
      requires Valid() && i < |slots|
      modifies this, slots[i]
      ensures Valid() && leaked == old(leaked) && OldOrNew()
      ensures |slots| == |old(slots)| + 1 && Views() == old(Views())[i := Gone(Views()[i].name)] + [old(Views())[i]]
    {
      HandleValid(i);
      var q := PosixMessageQueue.MoveConstruct(slots[i]);
      ghost var h := old(Views());
      assert HandleView(q.descriptor, q.name, q.owns) == h[i];
      slots := slots + [q];
      CloneKeeps(h, kernel.Fds(), kernel.Names(), leaked, i, slots[i].name);
      assert Views() == h[i := Gone(slots[i].name)] + [h[i]];
    }

    /** Move assignment leaks exactly the target's open descriptor, exactly when its mq_close fails; a name is left
        without owner if its mq_unlink fails. */
    method DoMoveOther(i: nat, j: nat)
      requires Valid() && i < |slots| && j < |slots| && i != j
      modifies this`leaked, slots[i], slots[j], kernel
      ensures Valid()
      ensures Views() == old(Views())[i := old(Views())[j]][j := Gone(Views()[j].name)]
      ensures kernel.queues == Without(old(Views())[i], old(Now())) && kernel.faults >= old(kernel.faults)
      ensures var d := old(Views())[i].descriptor;
              leaked == old(leaked) + (if d == INVALID || Next(old(kernel.plan)) == Works then {} else {d})
      ensures kernel.badCloses == old(kernel.badCloses) + if leaked == old(leaked) then 0 else 1
      ensures kernel.faults == old(kernel.faults) && old(Views())[i].owns ==> old(Views())[i].name !in kernel.queues
    {
      HandleValid(i);
      HandleValid(j);
      ghost var h := Views();
      assert h[i] == HandleView(slots[i].descriptor, slots[i].name, slots[i].owns);
      assert h[j] == HandleView(slots[j].descriptor, slots[j].name, slots[j].owns);
      var leak := slots[i].MoveAssign(slots[j]);
      leaked := leaked + leak;
      MoveKeeps(h, old(kernel.Fds()), old(kernel.Names()), old(leaked), i, j, leak, slots[j].name, kernel.Fds(), kernel.Names());
      assert Views() == h[i := h[j]][j := Gone(slots[j].name)];
    }

    /** Assigning a handle to itself changes nothing. */
    method DoMoveInto(i: nat, j: nat)
      requires Valid() && i < |slots| && j < |slots|
      modifies this`leaked, slots[i], slots[j], kernel
      ensures Valid() && old(leaked) <= leaked
      ensures kernel.badCloses == old(kernel.badCloses) + if leaked == old(leaked) then 0 else 1
      ensures i == j ==> Views() == old(Views()) && unchanged(kernel) && leaked == old(leaked)
      ensures i != j ==> Views() == old(Views())[i := old(Views())[j]][j := Gone(Views()[j].name)]
      ensures i != j ==> kernel.queues == Without(old(Views())[i], old(Now()))
      ensures kernel.faults >= old(kernel.faults)
    {
      if i != j {
        DoMoveOther(i, j);
      } else {
        HandleValid(i);
        var leak := slots[i].MoveAssign(slots[j]);
        assert Views() == old(Views());
      }
    }

    /** Closing leaks nothing, whatever fails, and removes a name only from its owner. */
    method DoClose(i: nat) returns (ok: bool)
      requires Valid() && i < |slots|
      modifies slots[i], kernel
      ensures Valid()
      ensures slots == old(slots) && (ok <==> Views()[i] == Gone(old(Views())[i].name)) && (ok <==> kernel.faults == old(kernel.faults))
      ensures var v := old(Views())[i];
              && Views() == old(Views())[i := HandleView(if Next(old(kernel.plan)) == Works then INVALID else v.descriptor, v.name,
                                                         v.owns && !Unlinks(v, old(kernel.plan)))]
              && kernel.queues == Without(v, old(Now()))
      ensures kernel.badCloses == old(kernel.badCloses) + if Views()[i].descriptor == INVALID then 0 else 1
      ensures kernel.faults >= old(kernel.faults)
      ensures old(Views())[i].descriptor == INVALID && !old(Views())[i].owns ==>
                ok && kernel.queues == old(kernel.queues) && kernel.open == old(kernel.open)
    {
      HandleValid(i);
      ghost var h := Views();
      assert h[i] == HandleView(slots[i].descriptor, slots[i].name, slots[i].owns);
      ok := slots[i].Close();
      ghost var v := HandleView(slots[i].descriptor, slots[i].name, slots[i].owns);
      ReleaseKeeps(h, old(kernel.Fds()), old(kernel.Names()), leaked, i, v);
      assert Views() == h[i := v];
    }

    /** The destructor closes once; a descriptor it cannot close leaks, a name it cannot unlink stays behind. */
    method DoDestroy(i: nat)
      requires Valid() && i < |slots|
      modifies this, slots[i], kernel
      ensures Valid()
      ensures slots == old(slots)[..i] + old(slots)[i + 1..] && OldOrNew()
      ensures Views() == old(Views())[..i] + old(Views())[i + 1..]
      ensures kernel.queues == Without(old(Views())[i], old(Now())) && kernel.faults >= old(kernel.faults)
      ensures var d := old(Views())[i].descriptor;
              leaked == old(leaked) + (if d == INVALID || Next(old(kernel.plan)) == Works then {} else {d})
      ensures kernel.badCloses == old(kernel.badCloses) + if leaked == old(leaked) then 0 else 1
      ensures kernel.faults == old(kernel.faults) && old(Views())[i].owns ==> old(Views())[i].name !in kernel.queues
    {
      var ok := DoClose(i);
      ghost var h := Views();
      DestroyKeeps(h, kernel.Fds(), kernel.Names(), leaked, i);
      Drop(i, if h[i].descriptor == INVALID then {} else {h[i].descriptor});
    }

    /** Other processes create queues and remove queues that no handle here owns. */
    method DoOutside(created: map<string, Sizes>, removed: set<string>)
      requires Valid()
      modifies kernel
      ensures Valid() && kernel.badCloses == old(kernel.badCloses) && kernel.open == old(kernel.open)
      ensures kernel.faults == old(kernel.faults) && Views() == old(Views())
      ensures forall name | name in kernel.queues :: name in old(kernel.queues) || name in created
      ensures forall name | name in old(kernel.queues) && name !in kernel.queues ::
                name in removed && forall i | 0 <= i < |slots| && Views()[i].owns :: Views()[i].name != name
    {
      ghost var h := Views();
      assert forall i | 0 <= i < |slots| :: h[i] == HandleView(slots[i].descriptor, slots[i].name, slots[i].owns);
      var owned := set i | 0 <= i < |slots| && slots[i].owns :: slots[i].name;
      kernel.queues := (created + kernel.queues) - (removed - owned);
      assert Views() == h;
      forall i | 0 <= i < |h| && h[i].owns ensures h[i].name in kernel.Names() {
        assert slots[i].name in owned;
      }
    }

    /** What has happened since a state of the process and its kernel. */
    ghost function Since(op: Operation, before: Snapshot, faults: int, badCloses: int, leaks: set<int>): Event
      reads this, slots, kernel
    {
      Event(op, before, Now(), kernel.faults - faults, kernel.badCloses - badCloses, leaked - leaks)
    }

    /** The operations that make a handle. */
    method StepNew(op: Operation) returns (ghost e: Event)
      requires Valid() && (op.Default? || op.Create? || op.Open? || op.MoveNew?)
      modifies this, slots, kernel
      ensures Valid() && OldOrNew() && old(leaked) <= leaked
      ensures e == Since(op, old(Now()), old(kernel.faults), old(kernel.badCloses), old(leaked))
      ensures e.faults >= 0 && e.badCloses >= 0 && LeakExplained(e) && Effect(e)
    {
      ghost var before := Now();
      match op {
        case Default => DoDefault();
        case Create(name, sizes) => DoCreate(name, sizes);
        case Open(name) => DoOpen(name);
        case MoveNew(i) => if i < |slots| { DoMoveNew(i); }
      }
      e := Since(op, before, old(kernel.faults), old(kernel.badCloses), old(leaked));
      assert leaked == old(leaked) + e.leaks;
    }

    /** The operations that end a handle's hold. */
    method StepEnd(op: Operation) returns (ghost e: Event)
      requires Valid() && (op.Close? || op.Destroy?)
      modifies this, slots, kernel
      ensures Valid() && OldOrNew() && old(leaked) <= leaked
      ensures e == Since(op, old(Now()), old(kernel.faults), old(kernel.badCloses), old(leaked))
      ensures e.faults >= 0 && e.badCloses >= 0 && LeakExplained(e) && Effect(e)
    {
      ghost var before := Now();
      match op {
        case Close(i) => if i < |slots| { var _ := DoClose(i); }
        case Destroy(i) => if i < |slots| { DoDestroy(i); }
      }
      e := Since(op, before, old(kernel.faults), old(kernel.badCloses), old(leaked));
      assert leaked == old(leaked) + e.leaks;
    }

    /** One operation; positions beyond the live handles do nothing. */
    method Step(op: Operation) returns (ghost e: Event)
      requires Valid()
      modifies this, slots, kernel
      ensures Valid() && OldOrNew() && old(leaked) <= leaked
      ensures e == Since(op, old(Now()), old(kernel.faults), old(kernel.badCloses), old(leaked))
      ensures e.faults >= 0 && e.badCloses >= 0 && LeakExplained(e) && Effect(e)
    {
      ghost var before := Now();
      match op {
        case MoveInto(i, j) => if i < |slots| && j < |slots| { DoMoveInto(i, j); }
        case Outside(created, removed) => DoOutside(created, removed);
        case Close(_) =>
          e := StepEnd(op);
          return;
        case Destroy(_) =>
          e := StepEnd(op);
          return;
        case _ =>
          e := StepNew(op);
          return;
      }
      e := Since(op, before, old(kernel.faults), old(kernel.badCloses), old(leaked));
      assert leaked == old(leaked) + e.leaks;
    }

    /** Over any sequence of operations and any failures: every name has at most one owner, every owned name
        exists, and open descriptors and open handles correspond one to one except for the leaked descriptors.
        The operations take effect one after another. What leaks is what they leak, and an operation leaks
        exactly if it is a create, a move assignment or a destruction whose own mq_close fails. */
    method Run(ops: seq<Operation>) returns (ghost events: seq<Event>)
      requires Valid()
      modifies this, slots, kernel
      ensures Valid() && OldOrNew()
      ensures Account(ops, events, old(Now()), Now(), old(leaked), leaked, old(kernel.faults), kernel.faults)
    {
      if ops == [] {
        events := [];
      } else {
        var n := |ops| - 1;
        events := Run(ops[..n]);
        ghost var leakedThen, faultsThen := leaked, kernel.faults;
        ghost var e := Step(ops[n]);
        AccountNext(ops[..n], events, old(Now()), old(leaked), leakedThen, old(kernel.faults), faultsThen, e);
        assert leaked == leakedThen + e.leaks && ops == ops[..n] + [e.op];
        events := events + [e];
      }
    }

    /** Closing every handle, with no call failing, leaves no open descriptor but the leaked ones, and no name that any
        of the handles owned. */
    method CloseAll()
      requires Valid()
      modifies this, slots, kernel
      ensures Valid() && |Views()| == |old(Views())|
      ensures kernel.faults == old(kernel.faults) ==>
                && (forall i | 0 <= i < |Views()| :: Views()[i] == HandleView(INVALID, old(Views())[i].name, false))
                && (forall i | 0 <= i < |Views()| && old(Views())[i].owns :: old(Views())[i].name !in kernel.queues)
                && kernel.Fds() == leaked == old(leaked)
    {
      var n := |slots|;
      var events := Run(seq(n, i requires 0 <= i < n => Close(i)));
      CloseInTurn(events, old(Now()), Now());
      if kernel.faults == old(kernel.faults) {
        forall fd | fd in kernel.Fds() ensures fd in leaked {
          assert forall i | 0 <= i < |Views()| :: Views()[i].descriptor != fd;
        }
      }
    }
  }

  /** Closing one handle after another keeps their number; if no call fails, all end up closed and no name that one of
      them owned is left. */
  lemma CloseInTurn(events: seq<Event>, first: Snapshot, last: Snapshot)
    requires Chained(events, first, last) && |events| == |first.handles|
    requires forall n | 0 <= n < |events| :: events[n].op == Close(n) && Effect(events[n])
    ensures |last.handles| == |first.handles|
    ensures (forall n | 0 <= n < |events| :: events[n].faults == 0) ==>
              && (forall i | 0 <= i < |first.handles| :: last.handles[i] == HandleView(INVALID, first.handles[i].name, false))
              && (forall i | 0 <= i < |first.handles| && first.handles[i].owns :: first.handles[i].name !in last.queues)
  {
    ClosedSoFar(events, first, last, |events|);
  }

  /** The state before the k-th event, or after all of them. */
  function StateAt(events: seq<Event>, last: Snapshot, k: nat): Snapshot
    requires k <= |events|
  {
    if k < |events| then events[k].before else last
  }

  /** The first k handles are closed, and the names they owned are gone. */
  predicate ClosedTo(first: Snapshot, s: Snapshot, k: nat) {
    |s.handles| == |first.handles| && forall i | 0 <= i < k && i < |first.handles| ::
      s.handles[i] == HandleView(INVALID, first.handles[i].name, false)
      && (first.handles[i].owns ==> first.handles[i].name !in s.queues)
  }

  predicate UntouchedFrom(first: Snapshot, s: Snapshot, k: nat) {
    |s.handles| == |first.handles| && forall i | k <= i < |first.handles| :: s.handles[i] == first.handles[i]
  }

  lemma CloseNext(first: Snapshot, e: Event, k: nat)
    requires e.op == Close(k) && Effect(e) && k < |first.handles| && UntouchedFrom(first, e.before, k)
    ensures UntouchedFrom(first, e.after, k + 1)
    ensures ClosedTo(first, e.before, k) && e.faults == 0 ==> ClosedTo(first, e.after, k + 1)
  {
    assert e.before.handles[k] == first.handles[k];
  }

  lemma {:induction false} ClosedSoFar(events: seq<Event>, first: Snapshot, last: Snapshot, k: nat)
    requires Chained(events, first, last) && |events| == |first.handles| && k <= |events|
    requires forall n | 0 <= n < |events| :: events[n].op == Close(n) && Effect(events[n])
    ensures UntouchedFrom(first, StateAt(events, last, k), k)
    ensures (forall n | 0 <= n < k :: events[n].faults == 0) ==> ClosedTo(first, StateAt(events, last, k), k)
    decreases k
  {
    if k > 0 {
      ClosedSoFar(events, first, last, k - 1);
      var e := events[k - 1];
      assert e.before == StateAt(events, last, k - 1) && e.after == StateAt(events, last, k);
      CloseNext(first, e, k - 1);
    }
  }
}
