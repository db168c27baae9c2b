/**
 The readiness gate for SIM authentication: one probe at a time, waiters on a channel that the
 probe closes, and a generation counter that makes a probe stale when readiness is withdrawn.
 */
module SimAuthReady {
  import opened Wrappers

  /** The gate's fields; channels are numbered as they are made, and `closes` counts their closings. */
  datatype Gate = Gate(
    generation: nat,
    ready: bool,
    probing: bool,
    waitC: Option<nat>,
    nextC: nat,
    closes: multiset<nat>)

  datatype Decision = Ready | Wait(c: nat) | Probe(generation: nat, c: nat)

  function Invalidated(g: Gate): Gate {
    g.(generation := g.generation + 1, ready := false)
  }

  /** What one look at the gate decides, and the gate it leaves. */
  function Look(g: Gate): (Decision, Gate) {
    if g.ready then (Ready, g)
    else if g.probing then
      match g.waitC
      case Some(c) => (Wait(c), g)
      case None => (Wait(g.nextC), g.(waitC := Some(g.nextC), nextC := g.nextC + 1))
    else
      (Probe(g.generation, g.nextC), g.(probing := true, waitC := Some(g.nextC), nextC := g.nextC + 1))
  }

  function Finished(g: Gate, generation: nat, c: nat, ok: bool): Gate {
    var g1 := if g.generation == generation then g.(ready := ok) else g;
    var g2 := if g1.waitC == Some(c) then g1.(closes := g1.closes + multiset{c}, waitC := None) else g1;
    g2.(probing := false)
  }

  // ---- runs ---------------------------------------------------------------------------------

  /** Where a caller stands inside the waiting loop. */
  datatype Place = Looking | Waiting(c: nat) | Probing(generation: nat, c: nat)

  datatype Event = Withdrawn | Began(c: nat) | Ended(c: nat, ok: bool)

  /** The gate, the callers inside it, and what has happened so far. */
  datatype World = World(gate: Gate, callers: map<nat, Place>, log: seq<Event>)

  datatype Step =
    | Withdraw
    | Call(p: nat)
    | LookAgain(p: nat)
    | Wake(p: nat)
    | ContextDone(p: nat)
    | ProbeReturns(p: nat, ok: bool)

  predicate Enabled(w: World, step: Step) {
    match step
    case Withdraw => true
    case Call(p) => p !in w.callers
    case LookAgain(p) => p in w.callers && w.callers[p].Looking?
    case Wake(p) => p in w.callers && w.callers[p].Waiting? && w.callers[p].c in w.gate.closes
    case ContextDone(p) => p in w.callers && !w.callers[p].Probing?
    case ProbeReturns(p, _) => p in w.callers && w.callers[p].Probing?
  }

  function After(w: World, step: Step): World
    requires Enabled(w, step)
  {
    match step
    case Withdraw => World(Invalidated(w.gate), w.callers, w.log + [Withdrawn])
    case Call(p) => w.(callers := w.callers[p := Looking])
    case LookAgain(p) =>
      var (d, g) := Look(w.gate);
      (match d
       case Ready => World(g, w.callers - {p}, w.log)
       case Wait(c) => World(g, w.callers[p := Waiting(c)], w.log)
       case Probe(generation, c) => World(g, w.callers[p := Probing(generation, c)], w.log + [Began(c)]))
    case Wake(p) => w.(callers := w.callers[p := Looking])
    case ContextDone(p) => w.(callers := w.callers - {p})
    case ProbeReturns(p, ok) =>
      var me := w.callers[p];
      var stale := w.gate.generation != me.generation;
      World(Finished(w.gate, me.generation, me.c, ok),
            if ok && stale then w.callers[p := Looking] else w.callers - {p},
            w.log + [Ended(me.c, ok)])
  }

  /** The caller goes away at this step without an error: it was only looking, or its probe succeeded. */
  predicate ReturnsNil(w: World, step: Step, p: nat)
    requires Enabled(w, step)
  {
    p in w.callers && p !in After(w, step).callers && (step == LookAgain(p) || step == ProbeReturns(p, true))
  }

  ghost predicate Start(w: World) {
    w == World(Gate(0, false, false, None, 0, multiset{}), map[], [])
  }

  ghost predicate Run(ws: seq<World>, steps: seq<Step>) {
    && |ws| == |steps| + 1
    && forall i :: 0 <= i < |steps| ==> Enabled(ws[i], steps[i]) && ws[i + 1] == After(ws[i], steps[i])
  }

  // ---- what readiness means -------------------------------------------------------------------

  ghost predicate BeganAt(log: seq<Event>, i: nat, c: nat) {
    i < |log| && log[i] == Began(c) && forall k :: i <= k < |log| ==> log[k] != Withdrawn
  }

  /** A probe succeeded that began after the latest withdrawal. */
  ghost predicate Justified(log: seq<Event>) {
    exists i: nat, j: nat, c: nat :: BeganAt(log, i, c) && i < j < |log| && log[j] == Ended(c, true)
  }

  function Withdrawals(log: seq<Event>): nat {
    if log == [] then 0
    else Withdrawals(log[..|log| - 1]) + (if log[|log| - 1] == Withdrawn then 1 else 0)
  }

  lemma WithdrawalsAppend(log: seq<Event>, e: Event)
    ensures Withdrawals(log + [e]) == Withdrawals(log) + (if e == Withdrawn then 1 else 0)
  {
    assert (log + [e])[..|log|] == log;
  }

  ghost predicate InFlight(w: World, p: nat) {
    p in w.callers && w.callers[p].Probing?
  }

  /** The probe of caller p has begun, and if it is not stale nothing was withdrawn since. */
  ghost predicate OnRecord(w: World, p: nat)
    requires InFlight(w, p)
  {
    var me := w.callers[p];
    && me.generation <= w.gate.generation
    && (me.generation == w.gate.generation ==> exists i: nat :: BeganAt(w.log, i, me.c))
  }

  ghost predicate Inv(w: World) {
    var g := w.gate;
    // single flight
    && (forall p, q :: InFlight(w, p) && InFlight(w, q) ==> p == q)
    && (g.probing <==> exists p :: InFlight(w, p))
    && (forall p :: InFlight(w, p) ==> g.waitC == Some(w.callers[p].c) && !g.ready && OnRecord(w, p))
    && (!g.probing ==> g.waitC == None)
    // channels: every one made has been closed exactly once, except the one the probe in flight will close
    && (forall c: nat :: g.closes[c] == if c < g.nextC && g.waitC != Some(c) then 1 else 0)
    && (g.waitC.Some? ==> g.waitC.value < g.nextC)
    && (forall p :: p in w.callers && w.callers[p].Waiting? ==> w.callers[p].c < g.nextC)
    // readiness
    && g.generation == Withdrawals(w.log)
    && (g.ready ==> Justified(w.log))
  }

  lemma WithdrawKeeps(w: World)
    requires Inv(w)
    ensures Inv(After(w, Withdraw))
  {
    var w' := After(w, Withdraw);
    WithdrawalsAppend(w.log, Withdrawn);
    assert forall p :: InFlight(w', p) == InFlight(w, p);
  }

  lemma LookChangesNothing(w: World, p: nat)
    requires Inv(w) && Enabled(w, LookAgain(p)) && (w.gate.ready || w.gate.probing)
    ensures var w' := After(w, LookAgain(p)); w'.gate == w.gate && w'.log == w.log && Inv(w')
  {
    var w' := After(w, LookAgain(p));
    if w.gate.probing {
      var q :| InFlight(w, q);
      assert w.gate.waitC == Some(w.callers[q].c);
    }
    assert forall q :: InFlight(w', q) <==> InFlight(w, q);
    assert forall q :: InFlight(w', q) ==> w'.callers[q] == w.callers[q] && (OnRecord(w, q) ==> OnRecord(w', q));
  }

  lemma StartedProbe(w: World, p: nat)
    requires Inv(w) && Enabled(w, LookAgain(p)) && !w.gate.ready && !w.gate.probing
    ensures forall q :: InFlight(After(w, LookAgain(p)), q) <==> q == p
  {
    var w' := After(w, LookAgain(p));
    forall q
      ensures InFlight(w', q) <==> q == p
    {
      assert !InFlight(w, q);
    }
  }

  lemma StartedIsOnRecord(w: World, p: nat)
    requires Inv(w) && Enabled(w, LookAgain(p)) && !w.gate.ready && !w.gate.probing
    ensures InFlight(After(w, LookAgain(p)), p) && OnRecord(After(w, LookAgain(p)), p)
    ensures var g := After(w, LookAgain(p)).gate; g.generation == Withdrawals(After(w, LookAgain(p)).log)
  {
    var c := w.gate.nextC;
    WithdrawalsAppend(w.log, Began(c));
    assert BeganAt(w.log + [Began(c)], |w.log|, c);
  }

  lemma LookStartsProbe(w: World, p: nat)
    requires Inv(w) && Enabled(w, LookAgain(p)) && !w.gate.ready && !w.gate.probing
    ensures Inv(After(w, LookAgain(p)))
  {
    StartedProbe(w, p);
    StartedIsOnRecord(w, p);
  }

  lemma ProbeReturnsKeeps(w: World, p: nat, ok: bool)
    requires Inv(w) && Enabled(w, ProbeReturns(p, ok))
    ensures Inv(After(w, ProbeReturns(p, ok)))
  {
    var w' := After(w, ProbeReturns(p, ok));
    var me := w.callers[p];
    assert InFlight(w, p);
    WithdrawalsAppend(w.log, Ended(me.c, ok));
    assert forall q :: !InFlight(w', q) by {
      forall q
        ensures !InFlight(w', q)
      {
        assert InFlight(w', q) ==> InFlight(w, q);
      }
    }
    if me.generation == w.gate.generation && ok {
      var i: nat :| BeganAt(w.log, i, me.c);
      assert BeganAt(w'.log, i, me.c);
      assert w'.log[|w.log|] == Ended(me.c, true);
    }
  }

  lemma CallerKeeps(w: World, step: Step)
    requires Inv(w) && Enabled(w, step) && (step.Call? || step.Wake? || step.ContextDone?)
    ensures Inv(After(w, step))
  {
    var w' := After(w, step);
    assert forall q :: InFlight(w', q) == InFlight(w, q);
    forall q | InFlight(w', q)
      ensures OnRecord(w', q)
    {
      assert OnRecord(w, q);
    }
  }

  lemma StepKeeps(w: World, step: Step)
    requires Inv(w) && Enabled(w, step)
    ensures Inv(After(w, step))
  {
    match step
    case Withdraw => WithdrawKeeps(w);
    case LookAgain(p) =>
      if w.gate.ready || w.gate.probing {
        LookChangesNothing(w, p);
      } else {
        LookStartsProbe(w, p);
      }
    case ProbeReturns(p, ok) => ProbeReturnsKeeps(w, p, ok);
    case _ => CallerKeeps(w, step);
  }

  lemma {:induction false} RunKeepsInv(ws: seq<World>, steps: seq<Step>, n: nat)
    requires Run(ws, steps) && Start(ws[0]) && n < |ws|
    ensures Inv(ws[n])
  {
    if n > 0 {
      RunKeepsInv(ws, steps, n - 1);
      StepKeeps(ws[n - 1], steps[n - 1]);
    }
  }

  /** In every state of every run at most one probe is in flight. */
  lemma SingleFlight(ws: seq<World>, steps: seq<Step>, n: nat, p: nat, q: nat)
    requires Run(ws, steps) && Start(ws[0]) && n < |ws|
    requires InFlight(ws[n], p) && InFlight(ws[n], q)
    ensures p == q && !ws[n].gate.ready
  {
    RunKeepsInv(ws, steps, n);
  }

  /**
   No channel is ever closed twice, and none is forgotten: a caller that waits does so on a channel
   that is closed already or that the probe now in flight will close when it returns.
   */
  lemma NoLostWakeUp(ws: seq<World>, steps: seq<Step>, n: nat, p: nat)
    requires Run(ws, steps) && Start(ws[0]) && n < |ws|
    requires p in ws[n].callers && ws[n].callers[p].Waiting?
    ensures var c := ws[n].callers[p].c;
      || ws[n].gate.closes[c] == 1
      || (ws[n].gate.closes[c] == 0 && exists q ::
            InFlight(ws[n], q) && forall ok :: After(ws[n], ProbeReturns(q, ok)).gate.closes[c] == 1)
  {
    RunKeepsInv(ws, steps, n);
    var w := ws[n];
    var c := w.callers[p].c;
    if w.gate.closes[c] != 1 {
      assert w.gate.waitC == Some(c) && w.gate.probing;
      var q :| InFlight(w, q);
      assert w.callers[q].c == c;
      assert forall ok :: After(w, ProbeReturns(q, ok)).gate.closes == w.gate.closes + multiset{c};
    }
  }

  // ---- the channels -----------------------------------------------------------------------------

  ghost predicate HasEnded(log: seq<Event>, c: nat) {
    Ended(c, true) in log || Ended(c, false) in log
  }

  ghost predicate Running(w: World, c: nat) {
    exists p :: InFlight(w, p) && w.callers[p].c == c
  }

  /** Channels are made by the probes, and closed by those that have ended. */
  ghost predicate Logged(w: World) {
    && (forall c: nat :: Began(c) in w.log <==> c < w.gate.nextC)
    && (forall c: nat :: HasEnded(w.log, c) <==> c in w.gate.closes)
  }

  lemma StepKeepsLogged(w: World, step: Step)
    requires Inv(w) && Logged(w) && Enabled(w, step)
    ensures Logged(After(w, step))
  {
    match step
    case LookAgain(p) =>
      if w.gate.probing {
        var q :| InFlight(w, q);
        assert w.gate.waitC == Some(w.callers[q].c);
      }
    case ProbeReturns(p, ok) => assert InFlight(w, p);
    case _ =>
  }

  lemma {:induction false} RunKeepsLogged(ws: seq<World>, steps: seq<Step>, n: nat)
    requires Run(ws, steps) && Start(ws[0]) && n < |ws|
    ensures Logged(ws[n])
  {
    if n > 0 {
      RunKeepsLogged(ws, steps, n - 1);
      RunKeepsInv(ws, steps, n - 1);
      StepKeepsLogged(ws[n - 1], steps[n - 1]);
    }
  }

  /**
   A channel has been closed once if its probe has ended and not at all otherwise, and a probe that
   began either still runs or has ended.
   */
  lemma ClosedExactlyOnce(ws: seq<World>, steps: seq<Step>, n: nat, c: nat)
    requires Run(ws, steps) && Start(ws[0]) && n < |ws|
    ensures ws[n].gate.closes[c] == if HasEnded(ws[n].log, c) then 1 else 0
    ensures Began(c) in ws[n].log ==> (HasEnded(ws[n].log, c) <==> !Running(ws[n], c))
  {
    RunKeepsInv(ws, steps, n);
    RunKeepsLogged(ws, steps, n);
  }

  /**
   Whenever a caller returns without an error, then at that very step a probe has succeeded that
   began after the latest withdrawal.
   */
  lemma NilIsJustified(ws: seq<World>, steps: seq<Step>, n: nat, p: nat)
    requires Run(ws, steps) && Start(ws[0]) && n < |steps|
    requires ReturnsNil(ws[n], steps[n], p)
    ensures Justified(ws[n + 1].log) && ws[n + 1].gate.ready
  {
    RunKeepsInv(ws, steps, n);
    RunKeepsInv(ws, steps, n + 1);
  }

  /**
   What a look comes to: an open gate lets the caller pass, a probe in flight makes it wait on that
   probe's channel, and otherwise it probes itself, on a new channel.
   */
  lemma LookComesTo(ws: seq<World>, steps: seq<Step>, n: nat, p: nat)
    requires Run(ws, steps) && Start(ws[0]) && n < |ws| && Enabled(ws[n], LookAgain(p))
    ensures var w, w' := ws[n], After(ws[n], LookAgain(p));
      && (w.gate.ready ==> ReturnsNil(w, LookAgain(p), p) && w'.gate == w.gate)
      && (forall q :: InFlight(w, q) ==>
            p in w'.callers && w'.callers[p] == Waiting(w.callers[q].c) && w'.gate == w.gate)
      && (!w.gate.ready && (forall q :: !InFlight(w, q)) ==>
            InFlight(w', p) && w'.callers[p].generation == w.gate.generation && Began(w'.callers[p].c) !in w.log)
  {
    RunKeepsInv(ws, steps, n);
    RunKeepsLogged(ws, steps, n);
  }

  /** A caller's own probe sends it away with an error if it failed, and back to looking if it is stale. */
  lemma ProbeComesTo(ws: seq<World>, steps: seq<Step>, n: nat, p: nat, ok: bool)
    requires Run(ws, steps) && Start(ws[0]) && n < |ws| && InFlight(ws[n], p)
    ensures var w, w' := ws[n], After(ws[n], ProbeReturns(p, ok)); var stale := w.callers[p].generation != w.gate.generation;
      && (if ok && stale then p in w'.callers && w'.callers[p] == Looking else p !in w'.callers)
      && (w'.gate.ready <==> ok && !stale) && !w'.gate.probing
  {
    RunKeepsInv(ws, steps, n);
  }

  /** Every state in which the gate says ready is justified in the same way. */
  lemma ReadyIsJustified(ws: seq<World>, steps: seq<Step>, n: nat)
    requires Run(ws, steps) && Start(ws[0]) && n < |ws| && ws[n].gate.ready
    ensures Justified(ws[n].log)
  {
    RunKeepsInv(ws, steps, n);
  }

  /** A withdrawal while a probe is in flight makes its success worthless: the gate stays closed. */
  lemma StaleSuccessDoesNotOpen(ws: seq<World>, steps: seq<Step>, n: nat, p: nat)
    requires Run(ws, steps) && Start(ws[0]) && n < |ws| && InFlight(ws[n], p)
    ensures var w := After(ws[n], Withdraw);
      !After(w, ProbeReturns(p, true)).gate.ready && !ReturnsNil(w, ProbeReturns(p, true), p)
  {
    RunKeepsInv(ws, steps, n);
    assert OnRecord(ws[n], p);
  }

  // ---- the gate object ------------------------------------------------------------------------

  class SimAuthGate {
    var generation: nat
    var ready: bool
    var probing: bool
    var waitC: Option<nat>
    var nextC: nat
    ghost var closes: multiset<nat>

    ghost function Value(): Gate
      reads this
    {
      Gate(generation, ready, probing, waitC, nextC, closes)
    }

    constructor ()
      ensures Value() == Gate(0, false, false, None, 0, multiset{})
    {
      generation, ready, probing, waitC, nextC, closes := 0, false, false, None, 0, multiset{};
    }

    method Invalidate()
      modifies this
      ensures Value() == Invalidated(old(Value()))
    {
      generation := generation + 1;
      ready := false;
    }

    /** The first critical section of the waiting loop. */
    method Decide() returns (d: Decision)
      modifies this
      ensures (d, Value()) == Look(old(Value()))
    {
      if ready {
        return Ready;
      }
      if probing {
        var c := waitC;
        if c.None? {
          c := Some(nextC);
          nextC := nextC + 1;
          waitC := c;
        }
        return Wait(c.value);
      }
      var c := nextC;
      nextC := nextC + 1;
      probing := true;
      waitC := Some(c);
      return Probe(generation, c);
    }

    /** The second critical section, after the probe has returned. */
    method Finish(started: nat, c: nat, ok: bool) returns (stale: bool)
      modifies this
      ensures stale == (old(generation) != started)
      ensures Value() == Finished(old(Value()), started, c, ok)
    {
      stale := generation != started;
      if !stale {
        ready := ok;
      }
      if waitC == Some(c) {
        closes := closes + multiset{c};
        waitC := None;
      }
      probing := false;
    }
  }
}
