/** Who the arbiter may grant, who it must not, and when it cannot be stuck. */
module ArbiterScheduling {
  import opened ArbiterProtocol
  import opened ArbiterRuns

  // ---- one decision -----------------------------------------------------------------------

  /** No lease queued behind a barrier is ever granted, whatever classes the barrier blocks. */
  lemma LeaseWaitsForBarrierAhead(s: State, i: nat, now: int, b: nat)
    requires i < |s.queue| && b < |s.queue|
    requires s.queue[b].leaseType == Barrier && s.queue[i].leaseType != Barrier
    requires Grantable(s, i, now)
    ensures i < b
  {
    assert EndsScan(s, b);
    assert s.queue[i].leaseType == Transport ==> Eligible(s, i);
  }

  /** So the separate test for a blocking barrier ahead never decides anything. */
  lemma PendingBarrierTestIsRedundant(s: State, i: nat, now: int)
    requires i < |s.queue| && s.queue[i].leaseType != Barrier
    requires PendingBarrierAhead(s, i)
    ensures i != 0 && !Selected(s, i, now)
  {
    var b :| 0 <= b < i && s.queue[b].leaseType == Barrier && s.queue[i].cls in s.queue[b].blocked;
    assert EndsScan(s, b);
    assert Selected(s, i, now) ==> Eligible(s, i);
  }

  /** Ahead of an eligible transport every exclusive transport that no barrier blocks is eligible too. */
  lemma EligibleAhead(s: State, i: nat)
    requires i < |s.queue| && Eligible(s, i)
    ensures forall a: nat | a < i && s.queue[a].leaseType == Transport && s.queue[a].scope == Exclusive ::
      !Blocked(s, s.queue[a].cls) ==> Eligible(s, a)
  {
    forall a: nat | a < i && s.queue[a].leaseType == Transport && s.queue[a].scope == Exclusive
      ensures !Blocked(s, s.queue[a].cls) ==> Eligible(s, a)
    {
      assert !EndsScan(s, a);
    }
  }

  /** An exclusive, unblocked transport outside the authentication class that has aged is not overtaken. */
  lemma AgedIsNotOvertaken(s: State, i: nat, now: int, a: nat)
    requires i < |s.queue| && a < |s.queue|
    requires var t := s.queue[a]; t.leaseType == Transport && t.scope == Exclusive && !Blocked(s, t.cls) && Aged(t, now)
    requires s.queue[i].leaseType != Barrier && Grantable(s, i, now)
    ensures i <= a
  {
    if s.queue[i].leaseType == Transport {
      EligibleAhead(s, i);
    }
  }

  /** Before it has aged, only the authentication class overtakes it, if tickets queued in time order. */
  lemma OnlyAKAOvertakes(s: State, i: nat, now: int, a: nat)
    requires a < i < |s.queue|
    requires var t := s.queue[a]; t.leaseType == Transport && t.scope == Exclusive && !Blocked(s, t.cls) && t.cls != USIM_AKA
    requires forall j :: a <= j <= i ==> s.queue[a].enqueued <= s.queue[j].enqueued
    requires s.queue[i].leaseType != Barrier && Grantable(s, i, now)
    ensures s.queue[i].cls == USIM_AKA && !Aged(s.queue[a], now)
  {
    EligibleAhead(s, i);
  }

  // ---- a transport is selected whenever one is eligible -------------------------------------

  lemma FirstSatisfying(n: nat, p: nat -> bool) returns (i: nat)
    requires exists j: nat :: j < n && p(j)
    ensures i < n && p(i) && forall j: nat :: j < i ==> !p(j)
  {
    i := 0;
    while !p(i)
      invariant i <= n
      invariant forall j: nat :: j < i ==> !p(j)
      decreases n - i
    {
      i := i + 1;
    }
  }

  lemma SomeTransportSelected(s: State, e: nat, now: int) returns (i: nat)
    requires e < |s.queue| && Eligible(s, e)
    ensures i < |s.queue| && Selected(s, i, now)
  {
    var n := |s.queue|;
    if AnyAged(s, now) {
      var p := (j: nat) => j < n && Eligible(s, j) && Aged(s.queue[j], now);
      var w: nat :| w < n && Eligible(s, w) && Aged(s.queue[w], now);
      assert p(w);
      i := FirstSatisfying(n, p);
      assert forall j: nat :: j < i && Eligible(s, j) && Aged(s.queue[j], now) ==> p(j);
    } else if AnyAKA(s) {
      var p := (j: nat) => j < n && Eligible(s, j) && s.queue[j].cls == USIM_AKA;
      var w: nat :| w < n && Eligible(s, w) && s.queue[w].cls == USIM_AKA;
      assert p(w);
      i := FirstSatisfying(n, p);
      assert forall j: nat :: j < i && Eligible(s, j) && s.queue[j].cls == USIM_AKA ==> p(j);
    } else {
      var p := (j: nat) => j < n && Eligible(s, j);
      assert p(e);
      i := FirstSatisfying(n, p);
      assert forall j: nat :: j < i && Eligible(s, j) ==> p(j);
    }
  }

  /** At most one transport is selected. */
  lemma SelectionIsUnique(s: State, i: nat, j: nat, now: int)
    requires i < |s.queue| && j < |s.queue|
    requires Selected(s, i, now) && Selected(s, j, now)
    ensures i == j
  {
  }

  // ---- progress ---------------------------------------------------------------------------

  /** A lease ticket with only transports ahead of it, no barrier on its class, and its turn in sight. */
  predicate InReach(s: State, i: nat)
    requires i < |s.queue|
  {
    && s.queue[i].leaseType != Barrier
    && (forall j :: 0 <= j < i ==> s.queue[j].leaseType == Transport)
    && (i == 0 || s.queue[i].leaseType == Transport)
    && !Blocked(s, s.queue[i].cls)
  }

  /**
   With no lease active, something can be granted exactly when a barrier is queued or an unblocked
   lease is within reach.
   */
  lemma IdleArbiterProgress(s: State, now: int)
    requires s.opts.Normal() && NoLease(s)
    ensures (exists i: nat :: i < |s.queue| && Grantable(s, i, now))
       <==> (exists i: nat :: i < |s.queue| && (s.queue[i].leaseType == Barrier || InReach(s, i)))
  {
    if i: nat :| i < |s.queue| && Grantable(s, i, now) && s.queue[i].leaseType != Barrier {
      if s.queue[i].leaseType == Transport {
        assert Eligible(s, i);
        forall j | 0 <= j < i
          ensures s.queue[j].leaseType == Transport
        {
          assert !EndsScan(s, j);
        }
      }
      assert InReach(s, i);
    }
    if b: nat :| b < |s.queue| && s.queue[b].leaseType == Barrier {
      var p := (j: nat) => j < |s.queue| && s.queue[j].leaseType == Barrier;
      assert p(b);
      var i := FirstSatisfying(|s.queue|, p);
      assert forall j: nat :: j < i && s.queue[j].leaseType == Barrier ==> p(j);
      assert Grantable(s, i, now);
    } else if r: nat :| r < |s.queue| && InReach(s, r) {
      LeaseInReachProgress(s, r, now);
    }
  }

  lemma LeaseInReachProgress(s: State, r: nat, now: int)
    requires s.opts.Normal() && NoLease(s)
    requires forall i :: 0 <= i < |s.queue| ==> s.queue[i].leaseType != Barrier
    requires r < |s.queue| && InReach(s, r)
    ensures exists i: nat :: i < |s.queue| && Grantable(s, i, now)
  {
    if s.queue[r].leaseType == Transport {
      assert CanTransportNow(s, s.queue[r]);
      forall j | 0 <= j <= r
        ensures !EndsScan(s, j)
      {
        assert s.queue[j].leaseType == Transport;
        assert CanTransportNow(s, s.queue[j]);
      }
      var i := SomeTransportSelected(s, r, now);
      assert Eligible(s, i);
      assert Grantable(s, i, now);
    } else {
      assert Grantable(s, 0, now);
    }
  }

  /** With only transports and barriers queued and no lease active, the queue is stuck exactly when all are blocked transports. */
  lemma StuckOnlyWhenAllBlocked(s: State, now: int)
    requires s.opts.Normal() && NoLease(s)
    requires forall i :: 0 <= i < |s.queue| ==> s.queue[i].leaseType == Transport || s.queue[i].leaseType == Barrier
    ensures (exists i: nat :: i < |s.queue| && Grantable(s, i, now))
       <==> !(forall i :: 0 <= i < |s.queue| ==> s.queue[i].leaseType == Transport && Blocked(s, s.queue[i].cls))
  {
    IdleArbiterProgress(s, now);
    if forall i: nat :: i < |s.queue| ==> s.queue[i].leaseType == Transport {
      if r: nat :| r < |s.queue| && !Blocked(s, s.queue[r].cls) {
        assert InReach(s, r);
      }
    }
  }

  /** With neither lease nor barrier active, a non-empty queue always has someone to grant. */
  lemma QuietArbiterIsNeverStuck(s: State, now: int)
    requires s.opts.Normal() && NoLease(s) && s.barriers == [] && s.queue != []
    ensures exists i: nat :: i < |s.queue| && Grantable(s, i, now)
  {
    assert s.queue[0].leaseType == Barrier || InReach(s, 0);
    IdleArbiterProgress(s, now);
  }

  // ---- whole runs: who goes before a waiting ticket -------------------------------------------

  /** What a step does to the queue. */
  predicate QueueMove(q: seq<Ticket>, step: Step, q': seq<Ticket>) {
    match step
    case Join(t) => q' == q + [t]
    case Enter(i, _) => i < |q| && q' == RemoveAt(q, i)
    case GiveUp(i) => i < |q| && q' == RemoveAt(q, i)
    case _ => q' == q
  }

  predicate DistinctIds(q: seq<Ticket>) {
    forall i, j :: 0 <= i < j < |q| ==> q[i].id != q[j].id
  }

  /** The queues a run goes through. */
  ghost predicate QueueRun(qs: seq<seq<Ticket>>, steps: seq<Step>) {
    && |qs| == |steps| + 1
    && (forall j :: 0 <= j < |qs| ==> DistinctIds(qs[j]))
    && (forall j :: 0 <= j < |steps| ==> QueueMove(qs[j], steps[j], qs[j + 1]))
  }

  predicate At(q: seq<Ticket>, p: nat, t: Ticket) {
    p < |q| && q[p] == t
  }

  predicate GrantsLease(q: seq<Ticket>, step: Step) {
    step.Enter? && step.i < |q| && q[step.i].leaseType != Barrier
  }

  function LeaseGrants(qs: seq<seq<Ticket>>, steps: seq<Step>): nat
    requires |qs| == |steps| + 1
  {
    if steps == [] then 0
    else var n := |steps| - 1;
         LeaseGrants(qs[..n + 1], steps[..n]) + (if GrantsLease(qs[n], steps[n]) then 1 else 0)
  }

  function NewPosition(step: Step, p: nat): nat {
    if (step.Enter? || step.GiveUp?) && step.i < p then p - 1 else p
  }

  lemma StaysElsewhere(q: seq<Ticket>, i: nat, p: nat, t: Ticket)
    requires i < |q| && DistinctIds(q) && At(q, p, t) && t in RemoveAt(q, i)
    ensures i != p
  {
    var j: nat :| j < |RemoveAt(q, i)| && RemoveAt(q, i)[j] == t;
    assert t == q[if j < i then j else j + 1];
  }

  lemma PositionRemoved(q: seq<Ticket>, i: nat, p: nat, t: Ticket)
    requires i < |q| && i != p && At(q, p, t)
    ensures var k := if i < p then p - 1 else p;
      At(RemoveAt(q, i), k, t) && RemoveAt(q, i)[..k] == if i < p then RemoveAt(q[..p], i) else q[..p]
  {
  }

  /** What is ahead of a waiting ticket after a step: what was ahead of it, less the one that left. */
  function AheadAfter(ahead: seq<Ticket>, step: Step): seq<Ticket> {
    if (step.Enter? || step.GiveUp?) && step.i < |ahead| then RemoveAt(ahead, step.i) else ahead
  }

  /** A ticket that stays queued keeps its place, or moves up when one ahead of it leaves; nothing new gets ahead of it. */
  lemma PositionAfter(q: seq<Ticket>, step: Step, q': seq<Ticket>, p: nat, t: Ticket)
    requires QueueMove(q, step, q') && DistinctIds(q) && At(q, p, t) && t in q'
    ensures At(q', NewPosition(step, p), t)
    ensures q'[..NewPosition(step, p)] == AheadAfter(q[..p], step)
  {
    match step
    case Enter(i, _) =>
      StaysElsewhere(q, i, p, t);
      PositionRemoved(q, i, p, t);
    case GiveUp(i) =>
      StaysElsewhere(q, i, p, t);
      PositionRemoved(q, i, p, t);
    case Join(_) => assert q'[..p] == q[..p];
    case _ =>
  }

  /** How many of the tickets ask for a lease. */
  function LeasesIn(q: seq<Ticket>): nat {
    if q == [] then 0 else LeasesIn(q[..|q| - 1]) + if q[|q| - 1].leaseType != Barrier then 1 else 0
  }

  lemma {:induction false} LeasesInRemove(q: seq<Ticket>, i: nat)
    requires i < |q|
    ensures LeasesIn(RemoveAt(q, i)) + (if q[i].leaseType != Barrier then 1 else 0) == LeasesIn(q)
  {
    var n := |q| - 1;
    if i < n {
      LeasesInRemove(q[..n], i);
      var rest := RemoveAt(q, i);
      assert rest[..n - 1] == RemoveAt(q[..n], i) && rest[n - 1] == q[n];
      assert LeasesIn(rest) == LeasesIn(rest[..n - 1]) + if q[n].leaseType != Barrier then 1 else 0;
    } else {
      assert RemoveAt(q, i) == q[..n];
    }
  }

  /** A grant from ahead takes one lease from those ahead; no step adds any. */
  lemma LeasesAheadAfter(ahead: seq<Ticket>, step: Step)
    ensures LeasesIn(AheadAfter(ahead, step)) + (if GrantsLease(ahead, step) then 1 else 0) <= LeasesIn(ahead)
    ensures forall x :: x in AheadAfter(ahead, step) ==> x in ahead
  {
    if (step.Enter? || step.GiveUp?) && step.i < |ahead| {
      LeasesInRemove(ahead, step.i);
    }
  }

  /** While a ticket waits, no step grants a lease queued behind it. */
  ghost predicate NeverOvertaken(qs: seq<seq<Ticket>>, steps: seq<Step>, t: Ticket)
    requires |qs| == |steps| + 1
  {
    forall j, p :: 0 <= j < |steps| && GrantsLease(qs[j], steps[j]) && At(qs[j], p, t) ==> steps[j].i < p
  }

  ghost predicate WaitsThroughout(qs: seq<seq<Ticket>>, t: Ticket) {
    forall j :: 0 <= j < |qs| ==> t in qs[j]
  }

  lemma {:induction false} GrantsComeFromAhead(qs: seq<seq<Ticket>>, steps: seq<Step>, p: nat, t: Ticket) returns (q: nat)
    requires QueueRun(qs, steps)
    requires At(qs[0], p, t) && WaitsThroughout(qs, t) && NeverOvertaken(qs, steps, t)
    ensures At(qs[|steps|], q, t) && LeaseGrants(qs, steps) + LeasesIn(qs[|steps|][..q]) <= LeasesIn(qs[0][..p])
    ensures forall x :: x in qs[|steps|][..q] ==> x in qs[0][..p]
    ensures forall j :: 0 <= j < |steps| && GrantsLease(qs[j], steps[j]) ==> qs[j][steps[j].i] in qs[0][..p]
  {
    if steps == [] {
      q := p;
    } else {
      var n := |steps| - 1;
      var qs', steps' := qs[..n + 1], steps[..n];
      var r := GrantsComeFromAhead(qs', steps', p, t);
      PositionAfter(qs[n], steps[n], qs[n + 1], r, t);
      LeasesAheadAfter(qs[n][..r], steps[n]);
      q := NewPosition(steps[n], r);
      assert GrantsLease(qs[n], steps[n]) ==> GrantsLease(qs[n][..r], steps[n]);
      forall j | 0 <= j < |steps| && GrantsLease(qs[j], steps[j])
        ensures qs[j][steps[j].i] in qs[0][..p]
      {
        if j < n {
          assert GrantsLease(qs'[j], steps'[j]);
        } else {
          assert qs[n][steps[n].i] in qs[n][..r];
        }
      }
    }
  }

  function Queues(ws: seq<World>): seq<seq<Ticket>> {
    seq(|ws|, j requires 0 <= j < |ws| => ws[j].s.queue)
  }

  lemma QueueStays(w: World, step: Step)
    requires Enabled(w, step) && !step.Join? && !step.Enter? && !step.GiveUp?
    ensures After(w, step).s.queue == w.s.queue
  {
    match step
    case Progress(_, _, _) =>
    case Watchdog(_, _, _) =>
    case ResetReturns(_, _) =>
    case Release(_) =>
    case Leave(_) =>
    case OwnerLost(_) =>
  }

  lemma QueueAfter(w: World, step: Step)
    requires Enabled(w, step)
    ensures QueueMove(w.s.queue, step, After(w, step).s.queue)
  {
    match step
    case Join(_) =>
    case Enter(_, _) =>
    case GiveUp(_) =>
    case _ => QueueStays(w, step);
  }

  lemma QueuedIsUsed(w: World, i: nat)
    requires Inv(w) && i < |w.s.queue|
    ensures w.s.queue[i].id in w.used
  {
    OccursAt(QueueIds(w.s.queue), i);
    assert Copies(w.s, w.s.queue[i].id) > 0;
  }

  predicate NotAmong(q: seq<Ticket>, id: nat) {
    forall i :: 0 <= i < |q| ==> q[i].id != id
  }

  lemma StaysOut(q: seq<Ticket>, step: Step, q': seq<Ticket>, id: nat)
    requires QueueMove(q, step, q') && NotAmong(q, id) && (step.Join? ==> step.t.id != id)
    ensures NotAmong(q', id)
  {
    if step.Enter? || step.GiveUp? {
      assert forall j :: 0 <= j < |q'| ==> q'[j] == q[if j < step.i then j else j + 1];
    }
  }

  lemma GoneIsNotQueuedAgain(w: World, step: Step, id: nat)
    requires Enabled(w, step) && id in w.used && !Queued(w.s, id)
    ensures id in After(w, step).used && !Queued(After(w, step).s, id)
  {
    QueueAfter(w, step);
    StaysOut(w.s.queue, step, After(w, step).s.queue, id);
  }

  lemma InvMeansDistinct(w: World)
    requires Inv(w)
    ensures DistinctIds(w.s.queue)
  {
    forall i, j | 0 <= i < j < |w.s.queue|
      ensures w.s.queue[i].id != w.s.queue[j].id
    {
      DistinctQueued(w, i, j);
    }
  }

  lemma RunOfQueues(ws: seq<World>, steps: seq<Step>)
    requires Run(ws, steps) && Inv(ws[0])
    ensures QueueRun(Queues(ws), steps)
  {
    forall j | 0 <= j < |ws|
      ensures DistinctIds(Queues(ws)[j])
    {
      RunKeepsInv(ws, steps, j);
      InvMeansDistinct(ws[j]);
    }
    forall j | 0 <= j < |steps|
      ensures QueueMove(Queues(ws)[j], steps[j], Queues(ws)[j + 1])
    {
      QueueAfter(ws[j], steps[j]);
    }
  }

  /** All leases granted in a period were ahead of position p when it began, and number at most the leases that were. */
  ghost predicate BoundedBy(ws: seq<World>, steps: seq<Step>, p: nat)
    requires |ws| == |steps| + 1 && p <= |ws[0].s.queue|
  {
    && LeaseGrants(Queues(ws), steps) <= LeasesIn(ws[0].s.queue[..p])
    && forall j :: 0 <= j < |steps| && GrantsLease(ws[j].s.queue, steps[j]) ==>
         ws[j].s.queue[steps[j].i] in ws[0].s.queue[..p]
  }

  /**
   However long a barrier waits and whatever happens meanwhile, only leases that were ahead of it
   when the period began are granted, and no more of them than there were.
   */
  lemma BarrierWaitIsBounded(ws: seq<World>, steps: seq<Step>, p: nat)
    requires Run(ws, steps) && Inv(ws[0])
    requires p < |ws[0].s.queue| && ws[0].s.queue[p].leaseType == Barrier
    requires WaitsThroughout(Queues(ws), ws[0].s.queue[p])
    ensures BoundedBy(ws, steps, p)
  {
    var t, qs := ws[0].s.queue[p], Queues(ws);
    RunOfQueues(ws, steps);
    forall j, q | 0 <= j < |steps| && GrantsLease(qs[j], steps[j]) && At(qs[j], q, t)
      ensures steps[j].i < q
    {
      LeaseWaitsForBarrierAhead(ws[j].s, steps[j].i, steps[j].now, q);
    }
    var q := GrantsComeFromAhead(qs, steps, p, t);
    assert forall j :: 0 <= j < |steps| ==> qs[j] == ws[j].s.queue;
  }

  // ---- when a waiting barrier's turn has come --------------------------------------------------

  ghost function Tickets(ls: seq<ActiveLease>): set<Ticket> {
    set l | l in ls :: l.ticket
  }

  /** The tickets that have an active lease. */
  ghost function Holders(s: State): set<Ticket> {
    Tickets(s.sessions) + Tickets(s.oneshot) + Tickets(s.transports)
  }

  lemma NoHolders(s: State)
    ensures NoLease(s) <==> Holders(s) == {}
  {
    assert forall ls: seq<ActiveLease> :: ls != [] ==> ls[0].ticket in Tickets(ls);
  }

  lemma UpdatedHolders(s: State, lt: LeaseType, k: nat, l: ActiveLease)
    requires k < |Leases(s, lt)| && l.ticket == Leases(s, lt)[k].ticket
    ensures Holders(UpdateLease(s, lt, k, l)) <= Holders(s)
  {
    var ls := Leases(s, lt);
    assert forall x :: x in ls[k := l] ==> x in ls || x == l;
    assert Tickets(ls[k := l]) <= Tickets(ls);
  }

  lemma RemovedHolders(s: State, lt: LeaseType, k: nat)
    requires k < |Leases(s, lt)|
    ensures Holders(RemoveLease(s, lt, k)) <= Holders(s)
  {
    var ls := Leases(s, lt);
    assert forall x :: x in RemoveAt(ls, k) ==> x in ls;
    assert Tickets(RemoveAt(ls, k)) <= Tickets(ls);
  }

  lemma GrantedHolders(s: State, i: nat, now: int)
    requires i < |s.queue|
    ensures Holders(Grant(s, i, now)) <= Holders(s) + if s.queue[i].leaseType != Barrier then {s.queue[i]} else {}
  {
    assert forall ls: seq<ActiveLease>, l :: Tickets(ls + [l]) == Tickets(ls) + {l.ticket};
  }

  lemma HoldersAfterRelease(w: World, step: Step)
    requires Enabled(w, step) && (step.ResetReturns? || step.Release?)
    ensures Holders(After(w, step).s) <= Holders(w.s)
  {
    var ls, k := Leases(w.s, step.ref.lt), IndexOf(Leases(w.s, step.ref.lt), step.ref.id);
    if k < |ls| {
      RemovedHolders(w.s, step.ref.lt, k);
      UpdatedHolders(w.s, step.ref.lt, k, ls[k].(recovering := false));
      UpdatedHolders(w.s, step.ref.lt, k, ls[k].(ownerDone := true));
    }
  }

  /** After a step no ticket has a lease but those that had one and the one it grants. */
  lemma HoldersAfter(w: World, step: Step)
    requires Enabled(w, step)
    ensures Holders(After(w, step).s) <= Holders(w.s) + if GrantsLease(w.s.queue, step) then {w.s.queue[step.i]} else {}
  {
    match step
    case Enter(i, now) => GrantedHolders(w.s, i, now);
    case Progress(lt, k, now) => UpdatedHolders(w.s, lt, k, Leases(w.s, lt)[k].(expiresAt := now + w.s.opts.maxLeaseHold));
    case Watchdog(lt, k, _) =>
      UpdatedHolders(w.s, lt, k, Leases(w.s, lt)[k].(suspect := true, recovering := w.s.opts.canRecover));
    case ResetReturns(_, _) => HoldersAfterRelease(w, step);
    case Release(_) => HoldersAfterRelease(w, step);
    case _ =>
  }

  /** Who holds a lease along a run. */
  ghost predicate HolderRun(hs: seq<set<Ticket>>, qs: seq<seq<Ticket>>, steps: seq<Step>) {
    && |hs| == |qs| == |steps| + 1
    && forall j :: 0 <= j < |steps| ==> hs[j + 1] <= hs[j] + if GrantsLease(qs[j], steps[j]) then {qs[j][steps[j].i]} else {}
  }

  lemma {:induction false} HoldersWithin(hs: seq<set<Ticket>>, qs: seq<seq<Ticket>>, steps: seq<Step>, from: set<Ticket>, n: nat)
    requires HolderRun(hs, qs, steps) && n < |hs| && hs[0] <= from
    requires forall j :: 0 <= j < |steps| && GrantsLease(qs[j], steps[j]) ==> qs[j][steps[j].i] in from
    ensures hs[n] <= from
  {
    if n > 0 {
      HoldersWithin(hs, qs, steps, from, n - 1);
    }
  }

  ghost function AllHolders(ws: seq<World>): seq<set<Ticket>> {
    seq(|ws|, j requires 0 <= j < |ws| => Holders(ws[j].s))
  }

  lemma RunOfHolders(ws: seq<World>, steps: seq<Step>)
    requires Run(ws, steps)
    ensures HolderRun(AllHolders(ws), Queues(ws), steps)
  {
    forall j | 0 <= j < |steps|
      ensures AllHolders(ws)[j + 1] <=
              AllHolders(ws)[j] + if GrantsLease(Queues(ws)[j], steps[j]) then {Queues(ws)[j][steps[j].i]} else {}
    {
      HoldersAfter(ws[j], steps[j]);
    }
  }

  /** A ticket that was ahead of position p is still among the first q, or has left the queue for good. */
  ghost predicate AheadOrOut(w: World, q: nat, x: Ticket) {
    q <= |w.s.queue| && (x in w.s.queue[..q] || (x.id in w.used && NotAmong(w.s.queue, x.id)))
  }

  lemma LeavesTheQueue(q: seq<Ticket>, i: nat)
    requires DistinctIds(q) && i < |q|
    ensures NotAmong(RemoveAt(q, i), q[i].id)
  {
    assert forall j :: 0 <= j < |q| - 1 ==> RemoveAt(q, i)[j] == q[if j < i then j else j + 1];
  }

  lemma StillAhead(q: seq<Ticket>, step: Step, q': seq<Ticket>, p: nat, t: Ticket, x: Ticket)
    requires QueueMove(q, step, q') && DistinctIds(q) && At(q, p, t) && t in q' && x in q[..p]
    ensures NewPosition(step, p) <= |q'| && (x in q'[..NewPosition(step, p)] || NotAmong(q', x.id))
  {
    PositionAfter(q, step, q', p, t);
    if step.Enter? || step.GiveUp? {
      LeavesTheQueue(q, step.i);
      if q[step.i] != x && step.i < p {
        var j :| 0 <= j < p && q[..p][j] == x;
        assert RemoveAt(q[..p], step.i)[if j < step.i then j else j - 1] == x;
      }
    }
  }

  lemma AheadOrOutAfter(w: World, step: Step, p: nat, t: Ticket, x: Ticket)
    requires Inv(w) && Enabled(w, step) && At(w.s.queue, p, t) && t in After(w, step).s.queue && AheadOrOut(w, p, x)
    ensures AheadOrOut(After(w, step), NewPosition(step, p), x)
  {
    QueueAfter(w, step);
    InvMeansDistinct(w);
    PositionAfter(w.s.queue, step, After(w, step).s.queue, p, t);
    if x in w.s.queue[..p] {
      var j :| 0 <= j < p && w.s.queue[j] == x;
      QueuedIsUsed(w, j);
      StillAhead(w.s.queue, step, After(w, step).s.queue, p, t, x);
    } else {
      StaysOut(w.s.queue, step, After(w, step).s.queue, x.id);
    }
  }

  lemma {:induction false} OrderIsKept(ws: seq<World>, steps: seq<Step>, p: nat, t: Ticket, n: nat) returns (q: nat)
    requires Run(ws, steps) && Inv(ws[0]) && n < |ws| && At(ws[0].s.queue, p, t) && WaitsThroughout(Queues(ws), t)
    ensures At(ws[n].s.queue, q, t)
    ensures forall x :: x in ws[0].s.queue[..p] ==> AheadOrOut(ws[n], q, x)
    ensures forall x :: x in ws[n].s.queue[..q] ==> x in ws[0].s.queue[..p]
  {
    if n == 0 {
      q := p;
    } else {
      var w, step := ws[n - 1], steps[n - 1];
      var r := OrderIsKept(ws, steps, p, t, n - 1);
      RunKeepsInv(ws, steps, n - 1);
      assert t in Queues(ws)[n];
      QueueAfter(w, step);
      InvMeansDistinct(w);
      PositionAfter(w.s.queue, step, ws[n].s.queue, r, t);
      LeasesAheadAfter(w.s.queue[..r], step);
      q := NewPosition(step, r);
      forall x | x in ws[0].s.queue[..p]
        ensures AheadOrOut(ws[n], q, x)
      {
        AheadOrOutAfter(w, step, r, t, x);
      }
    }
  }

  /**
   A waiting barrier's turn has come exactly when every lease that was active or ahead of it at the
   start is no longer active and no barrier that was ahead of it is still queued. What came later never counts.
   */
  lemma BarrierTurn(ws: seq<World>, steps: seq<Step>, p: nat, now: int) returns (q: nat)
    requires Run(ws, steps) && Inv(ws[0])
    requires p < |ws[0].s.queue| && ws[0].s.queue[p].leaseType == Barrier
    requires WaitsThroughout(Queues(ws), ws[0].s.queue[p])
    ensures var w, ahead := ws[|steps|], ws[0].s.queue[..p];
      && At(w.s.queue, q, ws[0].s.queue[p])
      && (Grantable(w.s, q, now) <==>
            && (forall x :: x in Holders(ws[0].s) || x in ahead ==> x !in Holders(w.s))
            && (forall x :: x in ahead && x.leaseType == Barrier ==> x !in w.s.queue))
  {
    var t, w, ahead := ws[0].s.queue[p], ws[|steps|], ws[0].s.queue[..p];
    q := OrderIsKept(ws, steps, p, t, |steps|);
    BarrierWaitIsBounded(ws, steps, p);
    NoHolders(w.s);
    RunOfHolders(ws, steps);
    HoldersWithin(AllHolders(ws), Queues(ws), steps, Holders(ws[0].s) + (set x | x in ahead), |steps|);
    forall x | x in ahead && x.leaseType == Barrier
      ensures x in w.s.queue <==> x in w.s.queue[..q]
    {
      assert AheadOrOut(w, q, x);
    }
    assert FirstBarrier(w.s, q) <==> forall x :: x in w.s.queue[..q] ==> x.leaseType != Barrier;
  }

  // ---- aged transports ----------------------------------------------------------------------------

  /**
   The same bound for an exclusive transport outside the authentication class, over any period in
   which it has aged and no active barrier blocks it whenever a lease is granted.
   */
  lemma AgedWaitIsBounded(ws: seq<World>, steps: seq<Step>, p: nat)
    requires Run(ws, steps) && Inv(ws[0]) && p < |ws[0].s.queue|
    requires var t := ws[0].s.queue[p];
      && t.leaseType == Transport && t.scope == Exclusive
      && WaitsThroughout(Queues(ws), t)
      && forall j :: 0 <= j < |steps| && GrantsLease(ws[j].s.queue, steps[j]) ==>
           Aged(t, steps[j].now) && !Blocked(ws[j].s, t.cls)
    ensures BoundedBy(ws, steps, p)
  {
    var t, qs := ws[0].s.queue[p], Queues(ws);
    RunOfQueues(ws, steps);
    forall j, q | 0 <= j < |steps| && GrantsLease(qs[j], steps[j]) && At(qs[j], q, t)
      ensures steps[j].i < q
    {
      AgedIsNotOvertaken(ws[j].s, steps[j].i, steps[j].now, q);
      GrantedLeavesQueue(qs[j], steps[j], qs[j + 1]);
      assert t in qs[j + 1];
    }
    var q := GrantsComeFromAhead(qs, steps, p, t);
    assert forall j :: 0 <= j < |steps| ==> qs[j] == ws[j].s.queue;
  }

  lemma GrantedLeavesQueue(q: seq<Ticket>, step: Step, q': seq<Ticket>)
    requires DistinctIds(q) && step.Enter? && QueueMove(q, step, q')
    ensures q[step.i] !in q'
  {
    var i := step.i;
    forall j | 0 <= j < |q'|
      ensures q'[j] != q[i]
    {
      assert q'[j] == q[if j < i then j else j + 1];
    }
  }
}
