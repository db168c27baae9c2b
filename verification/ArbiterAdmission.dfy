/**
 Who gets in, said in terms of the tickets and leases alone: an independent account of the cascade of
 tests, and what a barrier that has got in keeps out until it leaves.
 */
module ArbiterAdmission {
  import opened ArbiterProtocol
  import opened ArbiterRuns
  import opened ArbiterScheduling

  /** No active barrier names the class. */
  predicate Unfenced(s: State, cls: string) {
    forall b :: b in s.barriers ==> cls !in b.ticket.blocked
  }

  /** The ticket would be alone, or one more QMI channel transport among sound ones on other channels, within the limit. */
  predicate FitsBeside(s: State, t: Ticket) {
    || s.transports == []
    || (t.scope == QMIChannel && |s.transports| < s.opts.maxQMITransports
        && forall l :: l in s.transports ==> l.ticket.scope == QMIChannel && !l.suspect && l.ticket.channel != t.channel)
  }

  /** The ticket waits for nothing but its channel. */
  ghost predicate FitsElsewhere(s: State, t: Ticket) {
    exists channel: int :: channel > 0 && FitsBeside(s, t.(channel := channel))
  }

  /** A transport that lets those queued behind it be looked at. */
  ghost predicate LetsPass(s: State, t: Ticket) {
    t.leaseType == Transport && (!Unfenced(s, t.cls) || FitsBeside(s, t) || FitsElsewhere(s, t))
  }

  ghost predicate Admissible(s: State, i: nat)
    requires i < |s.queue|
  {
    && s.queue[i].leaseType == Transport && Unfenced(s, s.queue[i].cls) && FitsBeside(s, s.queue[i])
    && forall j :: 0 <= j < i ==> LetsPass(s, s.queue[j])
  }

  /** Half a second of waiting comes first, then the authentication class, then everything else. */
  function Precedence(t: Ticket, now: int): nat {
    if t.cls == "USIMAKA" then 1 else if now - t.enqueued >= 500_000_000 then 2 else 0
  }

  /** Position i goes before every other admissible one: by precedence, then by place in the queue. */
  ghost predicate GoesFirst(s: State, i: nat, now: int)
    requires i < |s.queue|
  {
    forall j: nat | j < |s.queue| && j != i && Admissible(s, j) ::
      var mine, other := Precedence(s.queue[i], now), Precedence(s.queue[j], now);
      other < mine || (other == mine && i < j)
  }

  /** May the ticket at position i go now? */
  ghost predicate MayGo(s: State, i: nat, now: int)
    requires i < |s.queue|
  {
    match s.queue[i].leaseType
    case Session =>
      i == 0 && Unfenced(s, s.queue[i].cls) && s.oneshot == [] && s.transports == [] && |s.sessions| < s.opts.maxSessions
    case OneShot =>
      i == 0 && Unfenced(s, s.queue[i].cls) && s.sessions == [] && s.oneshot == [] && s.transports == []
    case Transport =>
      s.sessions == [] && s.oneshot == [] && Admissible(s, i) && GoesFirst(s, i, now)
    case Barrier =>
      && s.sessions == [] && s.oneshot == [] && s.transports == []
      && forall j :: 0 <= j < i ==> s.queue[j].leaseType != Barrier
  }

  // ---- the tests, one by one -----------------------------------------------------------------------

  lemma UnfencedIff(s: State, cls: string)
    ensures Unfenced(s, cls) <==> !Blocked(s, cls)
  {
    if !Unfenced(s, cls) {
      var b :| b in s.barriers && cls in b.ticket.blocked;
      var i :| 0 <= i < |s.barriers| && s.barriers[i] == b;
    }
  }

  lemma {:induction false} CountAll(ls: seq<ActiveLease>)
    requires !HasExclusive(ls)
    ensures QMICount(ls) == |ls|
  {
    if ls != [] {
      var front := ls[..|ls| - 1];
      assert forall i :: 0 <= i < |front| ==> front[i] == ls[i];
      CountAll(front);
    }
  }

  lemma FitsIff(s: State, t: Ticket)
    requires s.opts.Normal() && t.leaseType == Transport
    ensures CanTransportNow(s, t) <==> FitsBeside(s, t)
  {
    var ls := s.transports;
    if !HasExclusive(ls) {
      CountAll(ls);
    }
    if CanTransportNow(s, t) && ls != [] {
      forall l | l in ls
        ensures l.ticket.scope == QMIChannel && !l.suspect && l.ticket.channel != t.channel
      {
        var i :| 0 <= i < |ls| && ls[i] == l;
      }
    }
  }

  lemma {:induction false} FreshChannel(ls: seq<ActiveLease>) returns (channel: int)
    ensures channel > 0 && forall l :: l in ls ==> l.ticket.channel < channel
  {
    if ls == [] {
      channel := 1;
    } else {
      var n := |ls| - 1;
      channel := FreshChannel(ls[..n]);
      if ls[n].ticket.channel >= channel {
        channel := ls[n].ticket.channel + 1;
      }
      assert ls == ls[..n] + [ls[n]];
    }
  }

  /** A transport that cannot go holds the others back exactly if no other channel would help it. */
  lemma GatesIff(s: State, t: Ticket)
    requires s.opts.Normal() && t.leaseType == Transport && !CanTransportNow(s, t)
    ensures GatesQueue(s, t) <==> !FitsElsewhere(s, t)
  {
    var ls := s.transports;
    FitsIff(s, t);
    if !GatesQueue(s, t) {
      CountAll(ls);
      var channel := FreshChannel(ls);
      forall l | l in ls
        ensures l.ticket.scope == QMIChannel && !l.suspect && l.ticket.channel != channel
      {
        var i :| 0 <= i < |ls| && ls[i] == l;
      }
      assert FitsBeside(s, t.(channel := channel));
    }
    if channel :| channel > 0 && FitsBeside(s, t.(channel := channel)) {
      FitsIff(s, t.(channel := channel));
    }
  }

  lemma LetsPassIff(s: State, j: nat)
    requires s.opts.Normal() && j < |s.queue|
    ensures EndsScan(s, j) <==> !LetsPass(s, s.queue[j])
  {
    var t := s.queue[j];
    UnfencedIff(s, t.cls);
    if t.leaseType == Transport {
      FitsIff(s, t);
      if !CanTransportNow(s, t) {
        GatesIff(s, t);
      }
    }
  }

  lemma AdmissibleIff(s: State, i: nat)
    requires s.opts.Normal() && i < |s.queue|
    ensures Eligible(s, i) <==> Admissible(s, i)
  {
    forall j: nat | j <= i
      ensures EndsScan(s, j) <==> !LetsPass(s, s.queue[j])
    {
      LetsPassIff(s, j);
    }
    UnfencedIff(s, s.queue[i].cls);
    if s.queue[i].leaseType == Transport {
      FitsIff(s, s.queue[i]);
    }
  }

  lemma AllAdmissibleIff(s: State)
    requires s.opts.Normal()
    ensures forall i: nat | i < |s.queue| :: Eligible(s, i) <==> Admissible(s, i)
  {
    forall i: nat | i < |s.queue|
      ensures Eligible(s, i) <==> Admissible(s, i)
    {
      AdmissibleIff(s, i);
    }
  }

  lemma SelectedIff(s: State, i: nat, now: int)
    requires s.opts.Normal() && i < |s.queue|
    ensures Selected(s, i, now) <==> Admissible(s, i) && GoesFirst(s, i, now)
  {
    AllAdmissibleIff(s);
    if Selected(s, i, now) {
      forall j: nat | j < |s.queue| && j != i && Admissible(s, j)
        ensures Precedence(s.queue[j], now) < Precedence(s.queue[i], now)
             || (Precedence(s.queue[j], now) == Precedence(s.queue[i], now) && i < j)
      {
        assert Eligible(s, j);
      }
    }
    if Admissible(s, i) && GoesFirst(s, i, now) {
      FirstIsSelected(s, i, now);
    }
  }

  lemma FirstIsSelected(s: State, i: nat, now: int)
    requires s.opts.Normal() && i < |s.queue| && Admissible(s, i) && GoesFirst(s, i, now)
    ensures Selected(s, i, now)
  {
    AllAdmissibleIff(s);
    var k := SomeTransportSelected(s, i, now);
    assert Eligible(s, k) && Admissible(s, k);
    assert k != i ==> Precedence(s.queue[i], now) <= Precedence(s.queue[k], now);
    assert k == i;
  }

  /** The arbiter's tests let a ticket go exactly when it may go. */
  lemma GrantableIff(s: State, i: nat, now: int)
    requires s.opts.Normal() && i < |s.queue|
    ensures Grantable(s, i, now) <==> MayGo(s, i, now)
  {
    UnfencedIff(s, s.queue[i].cls);
    if s.queue[i].leaseType == Transport {
      SelectedIff(s, i, now);
      if Admissible(s, i) {
        forall j | 0 <= j < i
          ensures s.queue[j].leaseType == Transport
        {
          assert LetsPass(s, s.queue[j]);
        }
      }
    }
  }

  // ---- what that means for a ticket on its own -----------------------------------------------------------

  /** A transport alone in the queue: other QMI channel transports may be active beside it. */
  lemma TransportAlone(s: State, now: int)
    requires s.opts.Normal() && |s.queue| == 1 && s.queue[0].leaseType == Transport
    ensures var t := s.queue[0];
      Grantable(s, 0, now) <==>
        && (forall b :: b in s.barriers ==> t.cls !in b.ticket.blocked)
        && s.sessions == [] && s.oneshot == []
        && (|| s.transports == []
            || (t.scope == QMIChannel && |s.transports| < s.opts.maxQMITransports
                && forall l :: l in s.transports ==>
                     l.ticket.scope == QMIChannel && !l.suspect && l.ticket.channel != t.channel))
  {
    GrantableIff(s, 0, now);
  }

  /** A session at the head: other sessions may be active beside it, up to their limit. */
  lemma SessionAtHead(s: State, now: int)
    requires s.opts.Normal() && s.queue != [] && s.queue[0].leaseType == Session
    ensures Grantable(s, 0, now) <==>
            && (forall b :: b in s.barriers ==> s.queue[0].cls !in b.ticket.blocked)
            && s.oneshot == [] && s.transports == [] && |s.sessions| < s.opts.maxSessions
  {
    GrantableIff(s, 0, now);
  }

  // ---- what a barrier keeps out ----------------------------------------------------------------------------

  predicate Raised(s: State, t: Ticket) {
    exists b :: 0 <= b < |s.barriers| && s.barriers[b].ticket == t
  }

  predicate Lifts(w: World, step: Step, t: Ticket)
    requires Enabled(w, step)
  {
    step.Leave? && w.s.barriers[step.b].ticket == t
  }

  predicate Raises(w: World, step: Step, t: Ticket)
    requires Enabled(w, step)
  {
    step.Enter? && w.s.queue[step.i] == t && t.leaseType == Barrier
  }

  lemma DistinctBarriers(w: World, i: nat, j: nat)
    requires UniqueIds(w) && i < |w.s.barriers| && j < |w.s.barriers| && i != j
    ensures w.s.barriers[i].ticket.id != w.s.barriers[j].ticket.id
  {
    var q := BarrierIds(w.s.barriers);
    OccursAt(q, i);
    assert Occurs(q, q[i]) <= Copies(w.s, q[i]) <= 1;
    assert q[j] != q[i];
  }

  lemma LeaveLowers(w: World, b: nat, t: Ticket)
    requires Inv(w) && Enabled(w, Leave(b))
    ensures Raised(After(w, Leave(b)).s, t) <==> Raised(w.s, t) && w.s.barriers[b].ticket != t
  {
    var bs, bs' := w.s.barriers, After(w, Leave(b)).s.barriers;
    assert forall j :: 0 <= j < |bs'| ==> bs'[j] == bs[if j < b then j else j + 1];
    if i :| 0 <= i < |bs| && bs[i].ticket == t && i != b {
      DistinctBarriers(w, i, b);
      assert bs'[if i < b then i else i - 1].ticket == t;
    }
    if j :| 0 <= j < |bs'| && bs'[j].ticket == t {
      DistinctBarriers(w, if j < b then j else j + 1, b);
    }
  }

  lemma EnterRaises(w: World, i: nat, now: int, t: Ticket)
    requires Enabled(w, Enter(i, now))
    ensures Raised(After(w, Enter(i, now)).s, t) <==> Raised(w.s, t) || (w.s.queue[i] == t && t.leaseType == Barrier)
  {
    var bs, bs' := w.s.barriers, After(w, Enter(i, now)).s.barriers;
    assert forall j :: 0 <= j < |bs| ==> bs'[j] == bs[j];
    if w.s.queue[i].leaseType == Barrier {
      assert bs'[|bs|].ticket == w.s.queue[i];
    }
  }

  lemma LostOwnerKeeps(w: World, b: nat, t: Ticket)
    requires Enabled(w, OwnerLost(b))
    ensures Raised(After(w, OwnerLost(b)).s, t) <==> Raised(w.s, t)
  {
    var bs, bs' := w.s.barriers, After(w, OwnerLost(b)).s.barriers;
    assert forall j :: 0 <= j < |bs| ==> bs'[j].ticket == bs[j].ticket;
  }

  lemma OtherBarriers(w: World, step: Step)
    requires Enabled(w, step) && !step.Enter? && !step.Leave? && !step.OwnerLost?
    ensures After(w, step).s.barriers == w.s.barriers
  {
    match step
    case Join(_) =>
    case GiveUp(_) =>
    case Progress(_, _, _) =>
    case Watchdog(_, _, _) =>
    case ResetReturns(_, _) =>
    case Release(_) =>
  }

  /** What each step does to the list of active barriers: one joins it, leaves it or is marked when its owner is lost. */
  lemma BarriersAfter(w: World, step: Step)
    requires Enabled(w, step)
    ensures var bs, bs' := w.s.barriers, After(w, step).s.barriers;
      match step {
        case Enter(i, now) =>
          bs' == if w.s.queue[i].leaseType == Barrier then bs + [ActiveBarrier(w.s.queue[i], now, false)] else bs
        case Leave(b) => bs' == bs[..b] + bs[b + 1..]
        case OwnerLost(b) => bs' == bs[b := ActiveBarrier(bs[b].ticket, bs[b].acquiredAt, true)]
        case _ => bs' == bs
      }
  {
    if !step.Enter? && !step.Leave? && !step.OwnerLost? {
      OtherBarriers(w, step);
    }
  }

  /** A barrier is active from the step it enters at to the step it leaves at, whatever becomes of its owner. */
  lemma BarrierStep(w: World, step: Step, t: Ticket)
    requires Inv(w) && Enabled(w, step)
    ensures Raised(After(w, step).s, t) <==> Raises(w, step, t) || (Raised(w.s, t) && !Lifts(w, step, t))
  {
    match step
    case Enter(i, now) => EnterRaises(w, i, now, t);
    case Leave(b) => LeaveLowers(w, b, t);
    case OwnerLost(b) => LostOwnerKeeps(w, b, t);
    case _ => OtherBarriers(w, step);
  }

  lemma RaisedBlocks(w: World, i: nat, now: int, t: Ticket)
    requires Inv(w) && Raised(w.s, t) && Enabled(w, Enter(i, now)) && w.s.queue[i].leaseType != Barrier
    ensures w.s.queue[i].cls !in t.blocked
  {
    GrantableIff(w.s, i, now);
    var b :| 0 <= b < |w.s.barriers| && w.s.barriers[b].ticket == t;
    assert w.s.barriers[b] in w.s.barriers;
  }

  /** Once up the barrier stays up, from one state of the run to the next. */
  ghost predicate StaysRaised(ws: seq<World>, t: Ticket, a: nat, n: nat) {
    a < n < |ws| && Raised(ws[a + 1].s, t) && forall j :: a < j < n && Raised(ws[j].s, t) ==> Raised(ws[j + 1].s, t)
  }

  lemma {:induction false} RaisedAlong(ws: seq<World>, t: Ticket, a: nat, n: nat)
    requires StaysRaised(ws, t, a, n)
    ensures Raised(ws[n].s, t)
    decreases n
  {
    if n > a + 1 {
      RaisedAlong(ws, t, a, n - 1);
    }
  }

  lemma RunRaises(ws: seq<World>, steps: seq<Step>, a: nat, n: nat)
    requires Run(ws, steps) && Inv(ws[0]) && a < n < |ws|
    requires steps[a].Enter? && ws[a].s.queue[steps[a].i].leaseType == Barrier
    requires forall j :: a < j < n ==> !Lifts(ws[j], steps[j], ws[a].s.queue[steps[a].i])
    ensures Raised(ws[n].s, ws[a].s.queue[steps[a].i])
  {
    var t := ws[a].s.queue[steps[a].i];
    RunKeepsInv(ws, steps, a);
    BarrierStep(ws[a], steps[a], t);
    forall j | a < j < n && Raised(ws[j].s, t)
      ensures Raised(ws[j + 1].s, t)
    {
      RunKeepsInv(ws, steps, j);
      BarrierStep(ws[j], steps[j], t);
    }
    RaisedAlong(ws, t, a, n);
  }

  /** From the step a barrier enters at until one at which it leaves, no lease of a class it blocks is granted. */
  lemma BarrierFences(ws: seq<World>, steps: seq<Step>, a: nat, n: nat)
    requires Run(ws, steps) && Inv(ws[0]) && a < n < |steps|
    requires steps[a].Enter? && ws[a].s.queue[steps[a].i].leaseType == Barrier
    requires forall j :: a < j < n ==> !Lifts(ws[j], steps[j], ws[a].s.queue[steps[a].i])
    requires steps[n].Enter? && ws[n].s.queue[steps[n].i].leaseType != Barrier
    ensures ws[n].s.queue[steps[n].i].cls !in ws[a].s.queue[steps[a].i].blocked
  {
    RunRaises(ws, steps, a, n);
    RunKeepsInv(ws, steps, n);
    RaisedBlocks(ws[n], steps[n].i, steps[n].now, ws[a].s.queue[steps[a].i]);
  }
}
