/** The worker loops drive process_request: everything proved about the workers holds inside the server. */
module Coupling {
  import opened Wrappers
  import opened Runs
  import opened Server
  import W = Workers
  import D = Discipline
  import T = Theorems
  import P = Termination

  /** A worker is inside process_request exactly while its loop serves a request, and it is that request. */
  predicate Serves(l: Loop, k: W.Worker) {
    (l.Serving? <==> k.Active?) && (l.Serving? ==> k.job.req == l.req)
  }

  ghost predicate Coupled(cfg: Config, s: Server) {
    && |s.loops| == |s.procs.workers| == cfg.work.workers
    && |s.clients| == |s.replies| == |cfg.clients|
    && (forall w | 0 <= w < |s.loops| :: Serves(s.loops[w], s.procs.workers[w]))
    && T.Safe(cfg.work, s.procs) && P.Placed(s.procs)
  }

  lemma InitCoupled(cfg: Config)
    ensures Coupled(cfg, Init(cfg))
  {
    D.InitShape(cfg.work);
  }

  lemma ProcsKept(cfg: Config, p: W.State, a: W.Action)
    requires T.Safe(cfg.work, p) && P.Placed(p) && W.Can(cfg.work, p, a)
    ensures T.Safe(cfg.work, W.Do(cfg.work, p, a)) && P.Placed(W.Do(cfg.work, p, a))
  {
    T.SafeStep(cfg.work, p, a);
    P.ActionCost(cfg.work, p, a);
  }

  lemma ServeCoupled(cfg: Config, s: Server, w: nat)
    requires Coupled(cfg, s) && Can(cfg, s, Test(w))
    ensures Coupled(cfg, DoServe(cfg, s, w))
  {
    ProcsKept(cfg, s.procs, W.Begin(w, s.loops[w].req));
  }

  lemma MicroCoupled(cfg: Config, s: Server, w: nat)
    requires Coupled(cfg, s) && W.Can(cfg.work, s.procs, W.Micro(w))
    ensures Coupled(cfg, s.(procs := W.Do(cfg.work, s.procs, W.Micro(w))))
  {
    ProcsKept(cfg, s.procs, W.Micro(w));
  }

  lemma FinishCoupled(cfg: Config, s: Server, w: nat)
    requires Coupled(cfg, s) && Can(cfg, s, Finish(w))
    ensures Coupled(cfg, DoFinish(cfg, s, w))
  {
    ProcsKept(cfg, s.procs, W.End(w));
  }

  /** Actions that leave the workers alone. */
  lemma OutsideCoupled(cfg: Config, s: Server, t: Server)
    requires Coupled(cfg, s) && t.procs == s.procs && |t.loops| == |s.loops|
    requires |t.clients| == |s.clients| && |t.replies| == |s.replies|
    requires forall w | 0 <= w < |s.loops| :: t.loops[w] == s.loops[w] || (!t.loops[w].Serving? && !s.loops[w].Serving?)
    ensures Coupled(cfg, t)
  {
    forall w | 0 <= w < |t.loops| ensures Serves(t.loops[w], t.procs.workers[w]) {
      assert Serves(s.loops[w], s.procs.workers[w]);
    }
  }

  predicate Inner(s: Server, a: Action) {
    a.Micro? || a.Finish? || (a.Test? && s.running && a.w < |s.loops| && s.loops[a.w].Testing? && !IsSentinel(s.loops[a.w].req))
  }

  lemma OutsideFrame(cfg: Config, s: Server, a: Action)
    requires Can(cfg, s, a) && !Inner(s, a)
    ensures var t := Do(cfg, s, a);
            && t.procs == s.procs && |t.loops| == |s.loops| && |t.clients| == |s.clients| && |t.replies| == |s.replies|
            && forall w | 0 <= w < |s.loops| :: t.loops[w] == s.loops[w] || (!t.loops[w].Serving? && !s.loops[w].Serving?)
  {
  }

  lemma KeepsCoupled(cfg: Config, s: Server, a: Action)
    requires Coupled(cfg, s) && Can(cfg, s, a)
    ensures Coupled(cfg, Do(cfg, s, a))
  {
    if !Inner(s, a) {
      OutsideFrame(cfg, s, a);
      OutsideCoupled(cfg, s, Do(cfg, s, a));
    } else if a.Micro? {
      MicroCoupled(cfg, s, a.w);
    } else if a.Finish? {
      FinishCoupled(cfg, s, a.w);
    } else {
      ServeCoupled(cfg, s, a.w);
    }
  }

  /** Reachable states of the whole system are reachable states of its workers. */
  lemma {:induction false} Projection(cfg: Config, acts: seq<Action>) returns (inner: seq<W.Action>)
    requires Valid(Machine(cfg), Init(cfg), acts)
    ensures Valid(W.Machine(cfg.work), W.Init(cfg.work), inner)
    ensures After(W.Machine(cfg.work), W.Init(cfg.work), inner) == After(Machine(cfg), Init(cfg), acts).procs
  {
    if acts == [] {
      inner := [];
    } else {
      var n := |acts| - 1;
      var s0 := Init(cfg);
      Last(Machine(cfg), s0, acts);
      inner := Projection(cfg, acts[..n]);
      var s := After(Machine(cfg), s0, acts[..n]);
      var last := InnerAction(cfg, s, acts[n]);
      Compose(W.Machine(cfg.work), W.Init(cfg.work), inner, last);
      inner := inner + last;
    }
  }

  /** What the workers do in one action of the system. */
  function InnerAction(cfg: Config, s: Server, a: Action): (inner: seq<W.Action>)
    requires Can(cfg, s, a)
    ensures Valid(W.Machine(cfg.work), s.procs, inner)
    ensures After(W.Machine(cfg.work), s.procs, inner) == Do(cfg, s, a).procs
  {
    match a
    case Test(w) => if !s.running || IsSentinel(s.loops[w].req) then [] else [W.Begin(w, s.loops[w].req)]
    case Micro(w) => [W.Micro(w)]
    case Finish(w) => [W.End(w)]
    case _ => []
  }
}
