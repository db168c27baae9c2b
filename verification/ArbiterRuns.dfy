/**
 Runs of the APDU arbiter: every interleaving of its critical sections, of the watchdog, of the
 resets it starts and of the owners' releases, and what holds in every state such a run reaches.
 */
module ArbiterRuns {
  import opened ArbiterProtocol

  /** A lease as its handle names it. */
  datatype Ref = Ref(lt: LeaseType, id: nat)

  /**
   The arbiter with what surrounds it: the ticket ids handed out, the handles already released
   (a handle releases once), and the resets in flight.
   */
  datatype World = World(s: State, used: set<nat>, released: set<Ref>, resets: multiset<Ref>)

  datatype Step =
    | Join(t: Ticket)
    | Enter(i: nat, now: int)
    | GiveUp(i: nat)
    | Progress(lt: LeaseType, k: nat, now: int)
    | Watchdog(lt: LeaseType, k: nat, now: int)
    | ResetReturns(ref: Ref, ok: bool)
    | Release(ref: Ref)
    | Leave(b: nat)
    | OwnerLost(b: nat)

  predicate WellFormed(t: Ticket) {
    && t.id > 0
    && (t.scope == QMIChannel ==> t.leaseType == Transport && t.channel > 0)
    && (t.blocked != {} <==> t.leaseType == Barrier)
  }

  function IndexOf(ls: seq<ActiveLease>, id: nat): (k: nat)
    ensures k <= |ls|
    ensures k < |ls| ==> ls[k].ticket.id == id
    ensures forall j :: 0 <= j < k ==> ls[j].ticket.id != id
  {
    if ls == [] then 0
    else if ls[0].ticket.id == id then 0
    else 1 + IndexOf(ls[1..], id)
  }

  predicate Queued(s: State, id: nat) {
    exists i :: 0 <= i < |s.queue| && s.queue[i].id == id
  }

  ghost predicate Enabled(w: World, step: Step) {
    match step
    case Join(t) => WellFormed(t) && t.id !in w.used
    case Enter(i, now) => i < |w.s.queue| && Grantable(w.s, i, now)
    case GiveUp(i) => i < |w.s.queue|
    case Progress(lt, k, _) => k < |Leases(w.s, lt)|
    case Watchdog(lt, k, _) => k < |Leases(w.s, lt)|
    case ResetReturns(ref, _) => ref in w.resets
    case Release(ref) => ref !in w.released && ref.id in w.used && !Queued(w.s, ref.id)
    case Leave(b) => b < |w.s.barriers|
    case OwnerLost(b) => b < |w.s.barriers|
  }

  ghost function After(w: World, step: Step): World
    requires Enabled(w, step)
  {
    var s := w.s;
    match step
    case Join(t) => w.(s := Enqueue(s, t), used := w.used + {t.id})
    case Enter(i, now) => w.(s := Grant(s, i, now))
    case GiveUp(i) => w.(s := Withdraw(s, i))
    case Progress(lt, k, now) => w.(s := Touch(s, lt, k, now))
    case Watchdog(lt, k, now) =>
      var l := Leases(s, lt)[k];
      var resets := if now >= l.expiresAt && s.opts.canRecover
                    then w.resets + multiset{Ref(lt, l.ticket.id)} else w.resets;
      w.(s := Expire(s, lt, k, now), resets := resets)
    case ResetReturns(ref, ok) =>
      var k := IndexOf(Leases(s, ref.lt), ref.id);
      var w1 := w.(resets := w.resets - multiset{ref});
      if k == |Leases(s, ref.lt)| then w1
      else w1.(s := if ok then ResetSucceeded(s, ref.lt, k) else ResetFailed(s, ref.lt, k))
    case Release(ref) =>
      var k := IndexOf(Leases(s, ref.lt), ref.id);
      var w1 := w.(released := w.released + {ref});
      if k == |Leases(s, ref.lt)| then w1 else w1.(s := OwnerRelease(s, ref.lt, k))
    case Leave(b) => w.(s := BarrierLeave(s, b))
    case OwnerLost(b) => w.(s := BarrierSuspect(s, b))
  }

  ghost predicate Start(w: World) {
    && w.s.opts.Normal()
    && w == World(State(w.s.opts, [], [], [], [], []), {}, {}, multiset{})
  }

  /** ws[0] leads to ws[|steps|] by the given steps. */
  ghost predicate Run(ws: seq<World>, steps: seq<Step>) {
    && |ws| == |steps| + 1
    && forall i :: 0 <= i < |steps| ==> Enabled(ws[i], steps[i]) && ws[i + 1] == After(ws[i], steps[i])
  }

  // ---- the invariant ----------------------------------------------------------------------

  /** Lists hold tickets of their own kind, and every ticket is well formed. */
  ghost predicate Typed(s: State) {
    && (forall i :: 0 <= i < |s.queue| ==> WellFormed(s.queue[i]))
    && (forall lt, k :: 0 <= k < |Leases(s, lt)| ==>
          WellFormed(Leases(s, lt)[k].ticket) && Leases(s, lt)[k].ticket.leaseType == lt)
    && (forall b :: 0 <= b < |s.barriers| ==>
          WellFormed(s.barriers[b].ticket) && s.barriers[b].ticket.leaseType == Barrier)
  }

  ghost predicate DistinctChannels(ls: seq<ActiveLease>) {
    forall i, j :: 0 <= i < j < |ls| && ls[i].ticket.scope == QMIChannel && ls[j].ticket.scope == QMIChannel ==>
      ls[i].ticket.channel != ls[j].ticket.channel
  }

  ghost predicate Exclusion(s: State) {
    && (s.sessions == [] || (s.oneshot == [] && s.transports == []))
    && (s.oneshot == [] || s.transports == [])
    && |s.oneshot| <= 1
    && |s.sessions| <= s.opts.maxSessions
    && (HasExclusive(s.transports) ==> |s.transports| == 1)
    && QMICount(s.transports) <= s.opts.maxQMITransports
    && DistinctChannels(s.transports)
  }

  /** No active lease has a class that an active barrier blocks. */
  ghost predicate Fenced(s: State) {
    forall lt, k :: 0 <= k < |Leases(s, lt)| ==> !Blocked(s, Leases(s, lt)[k].ticket.cls)
  }

  function QueueIds(q: seq<Ticket>): seq<nat> {
    seq(|q|, i requires 0 <= i < |q| => q[i].id)
  }

  function LeaseIds(ls: seq<ActiveLease>): seq<nat> {
    seq(|ls|, i requires 0 <= i < |ls| => ls[i].ticket.id)
  }

  function BarrierIds(bs: seq<ActiveBarrier>): seq<nat> {
    seq(|bs|, i requires 0 <= i < |bs| => bs[i].ticket.id)
  }

  function Occurs(q: seq<nat>, id: nat): nat {
    if q == [] then 0
    else Occurs(q[..|q| - 1], id) + (if q[|q| - 1] == id then 1 else 0)
  }

  /** In how many places the arbiter holds a ticket id. */
  function Copies(s: State, id: nat): nat {
    Occurs(QueueIds(s.queue), id) + Occurs(LeaseIds(s.sessions), id) + Occurs(LeaseIds(s.oneshot), id)
    + Occurs(LeaseIds(s.transports), id) + Occurs(BarrierIds(s.barriers), id)
  }

  ghost predicate UniqueIds(w: World) {
    forall id: nat :: Copies(w.s, id) <= 1 && (Copies(w.s, id) > 0 ==> id in w.used)
  }

  /** The recovery flags mean what they say. */
  ghost predicate Recovery(w: World) {
    forall lt, k :: 0 <= k < |Leases(w.s, lt)| ==>
      var l := Leases(w.s, lt)[k];
      && (l.recovering ==> l.suspect && w.s.opts.canRecover && Ref(lt, l.ticket.id) in w.resets)
      && (l.ownerDone ==> l.suspect && Ref(lt, l.ticket.id) in w.released)
      && (Ref(lt, l.ticket.id) in w.released ==> l.ownerDone)
  }

  /** A released handle belonged to a ticket that has left the queue. */
  ghost predicate Handles(w: World) {
    forall ref :: ref in w.released ==> ref.id in w.used && !Queued(w.s, ref.id)
  }

  ghost predicate StateOk(s: State) {
    s.opts.Normal() && Typed(s) && Exclusion(s) && Fenced(s)
  }

  ghost predicate Inv(w: World) {
    StateOk(w.s) && UniqueIds(w) && Recovery(w) && Handles(w)
  }

  // ---- counting lemmas --------------------------------------------------------------------

  lemma {:induction false} QMICountSameTickets(ls: seq<ActiveLease>, ls': seq<ActiveLease>)
    requires |ls| == |ls'| && forall i :: 0 <= i < |ls| ==> ls'[i].ticket == ls[i].ticket
    ensures QMICount(ls') == QMICount(ls)
  {
    if ls != [] {
      QMICountSameTickets(ls[..|ls| - 1], ls'[..|ls| - 1]);
    }
  }

  lemma {:induction false} QMICountRemove(ls: seq<ActiveLease>, k: nat)
    requires k < |ls|
    ensures QMICount(RemoveAt(ls, k)) <= QMICount(ls)
  {
    var n := |ls| - 1;
    var init := ls[..n];
    if k == n {
      assert RemoveAt(ls, k) == init;
    } else {
      QMICountRemove(init, k);
      assert RemoveAt(ls, k)[..n - 1] == RemoveAt(init, k);
      assert RemoveAt(ls, k)[n - 1] == ls[n];
    }
  }

  lemma QMICountAppend(ls: seq<ActiveLease>, l: ActiveLease)
    ensures QMICount(ls + [l]) == QMICount(ls) + (if l.ticket.scope == QMIChannel then 1 else 0)
  {
    assert (ls + [l])[..|ls|] == ls;
  }

  lemma OccursAppend(q: seq<nat>, x: nat, id: nat)
    ensures Occurs(q + [x], id) == Occurs(q, id) + (if x == id then 1 else 0)
  {
    assert (q + [x])[..|q|] == q;
  }

  lemma {:induction false} OccursRemove(q: seq<nat>, i: nat, id: nat)
    requires i < |q|
    ensures Occurs(RemoveAt(q, i), id) == Occurs(q, id) - (if q[i] == id then 1 else 0)
  {
    var n := |q| - 1;
    if i == n {
      assert RemoveAt(q, i) == q[..n];
    } else {
      OccursRemove(q[..n], i, id);
      assert RemoveAt(q, i)[..n - 1] == RemoveAt(q[..n], i);
    }
  }

  lemma {:induction false} OccursAt(q: seq<nat>, i: nat)
    requires i < |q|
    ensures Occurs(q, q[i]) >= 1
    ensures forall j :: 0 <= j < |q| && j != i && q[j] == q[i] ==> Occurs(q, q[i]) >= 2
  {
    OccursRemove(q, i, q[i]);
    var q' := RemoveAt(q, i);
    forall j | 0 <= j < |q| && j != i && q[j] == q[i]
      ensures Occurs(q, q[i]) >= 2
    {
      var j' := if j < i then j else j - 1;
      assert q'[j'] == q[i];
      OccursRemove(q', j', q[i]);
    }
  }

  // ---- what each kind of change keeps -----------------------------------------------------

  /** How many copies of an id one list holds, by the list's name. */
  function In(s: State, lt: LeaseType, id: nat): nat {
    Occurs(LeaseIds(Leases(s, lt)), id)
  }

  lemma CopiesSetLeases(s: State, lt: LeaseType, ls: seq<ActiveLease>, id: nat)
    requires lt != Barrier
    ensures Copies(SetLeases(s, lt, ls), id) == Copies(s, id) - In(s, lt, id) + Occurs(LeaseIds(ls), id)
  {
  }

  lemma LeasesSetLeases(s: State, lt: LeaseType, ls: seq<ActiveLease>, other: LeaseType)
    requires lt != Barrier
    ensures Leases(SetLeases(s, lt, ls), other) == if other == lt then ls else Leases(s, other)
  {
  }

  /** Changing the flags of a lease changes no ticket, hence nothing that depends on tickets only. */
  lemma UpdateKeeps(s: State, lt: LeaseType, k: nat, l: ActiveLease)
    requires Typed(s) && Exclusion(s) && Fenced(s)
    requires k < |Leases(s, lt)| && l.ticket == Leases(s, lt)[k].ticket
    ensures var s' := UpdateLease(s, lt, k, l);
      Typed(s') && Exclusion(s') && Fenced(s')
  {
    var ls := Leases(s, lt);
    var ls' := ls[k := l];
    var s' := UpdateLease(s, lt, k, l);
    forall other
      ensures Leases(s', other) == if other == lt then ls' else Leases(s, other)
    {
      LeasesSetLeases(s, lt, ls', other);
    }
    assert forall cls :: Blocked(s', cls) == Blocked(s, cls);
    QMICountSameTickets(s.transports, s'.transports);
    if HasExclusive(s'.transports) {
      var i :| 0 <= i < |s'.transports| && s'.transports[i].ticket.scope != QMIChannel;
      assert s.transports[i].ticket.scope != QMIChannel;
    }
  }

  lemma UpdateKeepsIds(s: State, lt: LeaseType, k: nat, l: ActiveLease, id: nat)
    requires k < |Leases(s, lt)| && l.ticket == Leases(s, lt)[k].ticket
    ensures Copies(UpdateLease(s, lt, k, l), id) == Copies(s, id)
  {
    var ls := Leases(s, lt);
    assert LeaseIds(ls[k := l]) == LeaseIds(ls);
    CopiesSetLeases(s, lt, ls[k := l], id);
  }

  /** What the transport list promises on its own. */
  ghost predicate TransportsOk(ls: seq<ActiveLease>, max: int) {
    && (HasExclusive(ls) ==> |ls| == 1)
    && QMICount(ls) <= max
    && DistinctChannels(ls)
  }

  lemma RemoveTransport(ls: seq<ActiveLease>, k: nat, max: int)
    requires k < |ls| && TransportsOk(ls, max)
    ensures TransportsOk(RemoveAt(ls, k), max)
  {
    var ls' := RemoveAt(ls, k);
    QMICountRemove(ls, k);
    if !HasExclusive(ls) {
      assert forall i :: 0 <= i < |ls'| ==> ls'[i] == ls[if i < k then i else i + 1];
    }
  }

  lemma RemoveKeepsIds(s: State, lt: LeaseType, k: nat, id: nat)
    requires k < |Leases(s, lt)|
    ensures Copies(RemoveLease(s, lt, k), id) ==
      Copies(s, id) - (if Leases(s, lt)[k].ticket.id == id then 1 else 0)
  {
    var ls := Leases(s, lt);
    assert LeaseIds(RemoveAt(ls, k)) == RemoveAt(LeaseIds(ls), k);
    OccursRemove(LeaseIds(ls), k, id);
    CopiesSetLeases(s, lt, RemoveAt(ls, k), id);
  }

  lemma RemoveKeepsShape(s: State, lt: LeaseType, k: nat)
    requires Typed(s) && Fenced(s)
    requires k < |Leases(s, lt)|
    ensures var s' := RemoveLease(s, lt, k); Typed(s') && Fenced(s')
  {
    var s' := RemoveLease(s, lt, k);
    assert forall cls :: Blocked(s', cls) == Blocked(s, cls);
    forall other, j | 0 <= j < |Leases(s', other)|
      ensures exists i :: 0 <= i < |Leases(s, other)| && Leases(s, other)[i] == Leases(s', other)[j]
    {
      LeasesSetLeases(s, lt, RemoveAt(Leases(s, lt), k), other);
      var i := if other == lt && j >= k then j + 1 else j;
      assert Leases(s, other)[i] == Leases(s', other)[j];
    }
  }

  lemma RemoveKeepsExclusion(s: State, lt: LeaseType, k: nat)
    requires Exclusion(s)
    requires k < |Leases(s, lt)|
    ensures Exclusion(RemoveLease(s, lt, k))
  {
    if lt == Transport {
      RemoveTransport(s.transports, k, s.opts.maxQMITransports);
    }
  }

  lemma AddTransport(s: State, t: Ticket, l: ActiveLease)
    requires TransportsOk(s.transports, s.opts.maxQMITransports) && s.opts.Normal()
    requires CanTransportNow(s, t) && l.ticket == t
    ensures TransportsOk(s.transports + [l], s.opts.maxQMITransports)
  {
    var ls := s.transports;
    QMICountAppend(ls, l);
    if t.scope == QMIChannel {
      assert !HasExclusive(ls);
      assert forall j :: 0 <= j < |ls + [l]| ==> (ls + [l])[j].ticket.scope == QMIChannel;
    }
  }

  lemma GrantKeepsExclusion(s: State, i: nat, now: int)
    requires s.opts.Normal() && Exclusion(s)
    requires i < |s.queue| && Grantable(s, i, now)
    ensures Exclusion(Grant(s, i, now))
  {
    var t := s.queue[i];
    if t.leaseType == Transport {
      AddTransport(s, t, NewLease(s, t, now));
    }
  }

  lemma WithdrawIds(s: State, i: nat, id: nat)
    requires i < |s.queue|
    ensures Copies(Withdraw(s, i), id) == Copies(s, id) - (if s.queue[i].id == id then 1 else 0)
  {
    assert QueueIds(Withdraw(s, i).queue) == RemoveAt(QueueIds(s.queue), i);
    OccursRemove(QueueIds(s.queue), i, id);
  }

  lemma AddLeaseIds(s: State, lt: LeaseType, l: ActiveLease, id: nat)
    requires lt != Barrier
    ensures Copies(SetLeases(s, lt, Leases(s, lt) + [l]), id) == Copies(s, id) + (if l.ticket.id == id then 1 else 0)
  {
    var ls := Leases(s, lt);
    assert LeaseIds(ls + [l]) == LeaseIds(ls) + [l.ticket.id];
    OccursAppend(LeaseIds(ls), l.ticket.id, id);
    CopiesSetLeases(s, lt, ls + [l], id);
  }

  lemma AddBarrierIds(s: State, b: ActiveBarrier, id: nat)
    ensures Copies(s.(barriers := s.barriers + [b]), id) == Copies(s, id) + (if b.ticket.id == id then 1 else 0)
  {
    assert BarrierIds(s.barriers + [b]) == BarrierIds(s.barriers) + [b.ticket.id];
    OccursAppend(BarrierIds(s.barriers), b.ticket.id, id);
  }

  lemma GrantKeepsIds(s: State, i: nat, now: int, id: nat)
    requires i < |s.queue|
    ensures Copies(Grant(s, i, now), id) == Copies(s, id)
  {
    var t := s.queue[i];
    WithdrawIds(s, i, id);
    if t.leaseType == Barrier {
      AddBarrierIds(Withdraw(s, i), ActiveBarrier(t, now, false), id);
    } else {
      AddLeaseIds(Withdraw(s, i), t.leaseType, NewLease(s, t, now), id);
    }
  }

  lemma RemoveFromQueueKeepsShape(s: State, i: nat)
    requires Typed(s) && Fenced(s) && i < |s.queue|
    ensures var s' := Withdraw(s, i); Typed(s') && Fenced(s')
  {
    var s' := Withdraw(s, i);
    assert forall lt :: Leases(s', lt) == Leases(s, lt);
    assert forall cls :: Blocked(s', cls) == Blocked(s, cls);
    forall j | 0 <= j < |s'.queue|
      ensures WellFormed(s'.queue[j])
    {
      assert s'.queue[j] == s.queue[if j < i then j else j + 1];
    }
  }

  lemma AddLeaseKeepsShape(s: State, lt: LeaseType, l: ActiveLease)
    requires Typed(s) && Fenced(s) && lt != Barrier
    requires WellFormed(l.ticket) && l.ticket.leaseType == lt && !Blocked(s, l.ticket.cls)
    ensures var s' := SetLeases(s, lt, Leases(s, lt) + [l]); Typed(s') && Fenced(s')
  {
    var ls := Leases(s, lt) + [l];
    var s' := SetLeases(s, lt, ls);
    assert forall cls :: Blocked(s', cls) == Blocked(s, cls);
    forall other
      ensures Leases(s', other) == if other == lt then ls else Leases(s, other)
    {
      LeasesSetLeases(s, lt, ls, other);
    }
  }

  lemma GrantKeepsShape(s: State, i: nat, now: int)
    requires Typed(s) && Fenced(s)
    requires i < |s.queue| && Grantable(s, i, now)
    ensures var s' := Grant(s, i, now); Typed(s') && Fenced(s')
  {
    var s' := Grant(s, i, now);
    var t := s.queue[i];
    var s1 := Withdraw(s, i);
    RemoveFromQueueKeepsShape(s, i);
    if t.leaseType == Barrier {
      assert forall lt :: Leases(s', lt) == [];
    } else {
      assert !Blocked(s, t.cls);
      assert Blocked(s1, t.cls) == Blocked(s, t.cls);
      AddLeaseKeepsShape(s1, t.leaseType, NewLease(s, t, now));
    }
  }

  lemma DistinctLeases(w: World, lt: LeaseType, i: nat, j: nat)
    requires UniqueIds(w)
    requires i < |Leases(w.s, lt)| && j < |Leases(w.s, lt)| && i != j
    ensures Leases(w.s, lt)[i].ticket.id != Leases(w.s, lt)[j].ticket.id
  {
    var q := LeaseIds(Leases(w.s, lt));
    OccursAt(q, i);
    assert Occurs(q, q[i]) <= Copies(w.s, q[i]) <= 1;
    assert q[j] != q[i];
  }

  lemma DistinctQueued(w: World, i: nat, j: nat)
    requires UniqueIds(w)
    requires i < |w.s.queue| && j < |w.s.queue| && i != j
    ensures w.s.queue[i].id != w.s.queue[j].id
  {
    var q := QueueIds(w.s.queue);
    OccursAt(q, i);
    assert Occurs(q, q[i]) <= Copies(w.s, q[i]) <= 1;
    assert q[j] != q[i];
  }

  lemma LeaseIdHeld(w: World, lt: LeaseType, k: nat)
    requires UniqueIds(w) && k < |Leases(w.s, lt)|
    ensures var id := Leases(w.s, lt)[k].ticket.id; id in w.used && !Queued(w.s, id)
  {
    var q, ls := QueueIds(w.s.queue), LeaseIds(Leases(w.s, lt));
    var id := ls[k];
    OccursAt(ls, k);
    assert Copies(w.s, id) >= Occurs(ls, id) + Occurs(q, id);
    forall i | 0 <= i < |w.s.queue|
      ensures w.s.queue[i].id != id
    {
      OccursAt(q, i);
      assert q[i] == id ==> Copies(w.s, id) >= 2;
    }
  }

  // ---- every step keeps the invariant -----------------------------------------------------

  lemma JoinKeepsState(s: State, t: Ticket)
    requires StateOk(s) && WellFormed(t)
    ensures StateOk(Enqueue(s, t))
  {
    var s' := Enqueue(s, t);
    assert forall lt :: Leases(s', lt) == Leases(s, lt);
    assert forall cls :: Blocked(s', cls) == Blocked(s, cls);
  }

  lemma JoinIds(w: World, t: Ticket)
    requires UniqueIds(w) && t.id !in w.used
    ensures UniqueIds(w.(s := Enqueue(w.s, t), used := w.used + {t.id}))
  {
    var s' := Enqueue(w.s, t);
    assert QueueIds(s'.queue) == QueueIds(w.s.queue) + [t.id];
    forall id: nat
      ensures Copies(s', id) == Copies(w.s, id) + (if id == t.id then 1 else 0)
    {
      OccursAppend(QueueIds(w.s.queue), t.id, id);
    }
    assert Copies(w.s, t.id) == 0;
  }

  lemma JoinQueued(s: State, t: Ticket, id: nat)
    ensures Queued(Enqueue(s, t), id) <==> Queued(s, id) || id == t.id
  {
    var s' := Enqueue(s, t);
    assert s'.queue[|s.queue|] == t;
    assert forall i :: 0 <= i < |s.queue| ==> s'.queue[i] == s.queue[i];
  }

  lemma JoinKeeps(w: World, t: Ticket)
    requires Inv(w) && Enabled(w, Join(t))
    ensures Inv(After(w, Join(t)))
  {
    var w' := After(w, Join(t));
    JoinKeepsState(w.s, t);
    JoinIds(w, t);
    assert forall lt :: Leases(w'.s, lt) == Leases(w.s, lt);
    forall ref | ref in w'.released
      ensures !Queued(w'.s, ref.id)
    {
      JoinQueued(w.s, t, ref.id);
    }
  }

  lemma DequeueKeepsReleased(s: State, i: nat)
    requires i < |s.queue|
    ensures forall id :: Queued(Withdraw(s, i), id) ==> Queued(s, id)
  {
    var q := RemoveAt(s.queue, i);
    assert forall j :: 0 <= j < |q| ==> q[j] == s.queue[if j < i then j else j + 1];
  }

  /** After a grant each lease is either the new one or one that was there. */
  lemma GrantLeases(s: State, i: nat, now: int, lt: LeaseType, k: nat)
    requires i < |s.queue| && k < |Leases(Grant(s, i, now), lt)|
    ensures var l := Leases(Grant(s, i, now), lt)[k];
      || (l == NewLease(s, s.queue[i], now) && lt == s.queue[i].leaseType)
      || (k < |Leases(s, lt)| && l == Leases(s, lt)[k])
  {
    var t := s.queue[i];
    if t.leaseType != Barrier {
      LeasesSetLeases(Withdraw(s, i), t.leaseType, Leases(s, t.leaseType) + [NewLease(s, t, now)], lt);
    }
  }

  lemma EnterKeepsRecovery(w: World, i: nat, now: int)
    requires Recovery(w) && Handles(w) && i < |w.s.queue|
    ensures Recovery(w.(s := Grant(w.s, i, now))) && Handles(w.(s := Grant(w.s, i, now)))
  {
    var s' := Grant(w.s, i, now);
    DequeueKeepsReleased(w.s, i);
    assert s'.queue == Withdraw(w.s, i).queue && s'.opts == w.s.opts;
    assert forall id :: Queued(s', id) ==> Queued(w.s, id);
    assert Queued(w.s, w.s.queue[i].id);
    forall lt, k | 0 <= k < |Leases(s', lt)|
      ensures var l := Leases(s', lt)[k];
        l == NewLease(w.s, w.s.queue[i], now) || (k < |Leases(w.s, lt)| && l == Leases(w.s, lt)[k])
    {
      GrantLeases(w.s, i, now, lt, k);
    }
  }

  lemma EnterKeeps(w: World, i: nat, now: int)
    requires Inv(w) && Enabled(w, Enter(i, now))
    ensures Inv(After(w, Enter(i, now)))
  {
    GrantKeepsShape(w.s, i, now);
    GrantKeepsExclusion(w.s, i, now);
    forall id: nat
      ensures Copies(Grant(w.s, i, now), id) == Copies(w.s, id)
    {
      GrantKeepsIds(w.s, i, now, id);
    }
    EnterKeepsRecovery(w, i, now);
    assert Grant(w.s, i, now).opts == w.s.opts;
  }

  lemma GiveUpKeeps(w: World, i: nat)
    requires Inv(w) && i < |w.s.queue|
    ensures Inv(After(w, GiveUp(i)))
  {
    var s' := Withdraw(w.s, i);
    RemoveFromQueueKeepsShape(w.s, i);
    DequeueKeepsReleased(w.s, i);
    forall id: nat
      ensures Copies(s', id) <= Copies(w.s, id)
    {
      WithdrawIds(w.s, i, id);
    }
    assert forall lt :: Leases(s', lt) == Leases(w.s, lt);
  }

  ghost predicate OthersKeep(w: World, me: Ref, released: set<Ref>, resets: multiset<Ref>) {
    forall ref :: ref != me ==> (ref in released <==> ref in w.released) && resets[ref] == w.resets[ref]
  }

  ghost predicate FlagsFit(l: ActiveLease, me: Ref, canRecover: bool, released: set<Ref>, resets: multiset<Ref>) {
    && (l.recovering ==> l.suspect && canRecover && me in resets)
    && (l.ownerDone ==> l.suspect)
    && (me in released <==> l.ownerDone)
  }

  lemma FlagsKeepRecovery(w: World, lt: LeaseType, k: nat, l: ActiveLease, released: set<Ref>, resets: multiset<Ref>)
    requires Recovery(w) && UniqueIds(w) && k < |Leases(w.s, lt)| && l.ticket == Leases(w.s, lt)[k].ticket
    requires var me := Ref(lt, l.ticket.id);
      OthersKeep(w, me, released, resets) && FlagsFit(l, me, w.s.opts.canRecover, released, resets)
    ensures Recovery(World(UpdateLease(w.s, lt, k, l), w.used, released, resets))
  {
    var s' := UpdateLease(w.s, lt, k, l);
    forall other, j | 0 <= j < |Leases(s', other)|
      ensures var m := Leases(s', other)[j];
        FlagsFit(m, Ref(other, m.ticket.id), s'.opts.canRecover, released, resets)
    {
      LeasesSetLeases(w.s, lt, Leases(w.s, lt)[k := l], other);
      if other == lt && j != k {
        DistinctLeases(w, lt, j, k);
      }
    }
  }

  /** A step that rewrites one lease's flags keeps the invariant if the new flags fit the new surroundings. */
  lemma FlagsKeep(w: World, lt: LeaseType, k: nat, l: ActiveLease, released: set<Ref>, resets: multiset<Ref>)
    requires Inv(w) && k < |Leases(w.s, lt)| && l.ticket == Leases(w.s, lt)[k].ticket
    requires var me := Ref(lt, l.ticket.id);
      OthersKeep(w, me, released, resets) && FlagsFit(l, me, w.s.opts.canRecover, released, resets)
    ensures Inv(World(UpdateLease(w.s, lt, k, l), w.used, released, resets))
  {
    var s' := UpdateLease(w.s, lt, k, l);
    UpdateKeeps(w.s, lt, k, l);
    FlagsKeepRecovery(w, lt, k, l, released, resets);
    LeaseIdHeld(w, lt, k);
    forall id: nat
      ensures Copies(s', id) == Copies(w.s, id)
    {
      UpdateKeepsIds(w.s, lt, k, l, id);
    }
    assert s'.queue == w.s.queue;
    assert forall id :: Queued(s', id) == Queued(w.s, id);
  }

  lemma DropKeepsRecovery(w: World, lt: LeaseType, k: nat, released: set<Ref>, resets: multiset<Ref>)
    requires Recovery(w) && UniqueIds(w) && k < |Leases(w.s, lt)|
    requires OthersKeep(w, Ref(lt, Leases(w.s, lt)[k].ticket.id), released, resets)
    ensures Recovery(World(RemoveLease(w.s, lt, k), w.used, released, resets))
  {
    var s' := RemoveLease(w.s, lt, k);
    forall other, j | 0 <= j < |Leases(s', other)|
      ensures var m := Leases(s', other)[j];
        FlagsFit(m, Ref(other, m.ticket.id), s'.opts.canRecover, released, resets)
    {
      LeasesSetLeases(w.s, lt, RemoveAt(Leases(w.s, lt), k), other);
      var i := if other == lt && j >= k then j + 1 else j;
      assert Leases(s', other)[j] == Leases(w.s, other)[i];
      if other == lt {
        DistinctLeases(w, lt, i, k);
      }
    }
  }

  /** A step that drops one lease keeps the invariant whatever becomes of its own handle and resets. */
  lemma DropKeeps(w: World, lt: LeaseType, k: nat, released: set<Ref>, resets: multiset<Ref>)
    requires Inv(w) && k < |Leases(w.s, lt)|
    requires OthersKeep(w, Ref(lt, Leases(w.s, lt)[k].ticket.id), released, resets)
    ensures Inv(World(RemoveLease(w.s, lt, k), w.used, released, resets))
  {
    var s' := RemoveLease(w.s, lt, k);
    RemoveKeepsShape(w.s, lt, k);
    RemoveKeepsExclusion(w.s, lt, k);
    forall id: nat
      ensures Copies(s', id) <= Copies(w.s, id)
    {
      RemoveKeepsIds(w.s, lt, k, id);
    }
    LeaseIdHeld(w, lt, k);
    DropKeepsRecovery(w, lt, k, released, resets);
    assert s'.queue == w.s.queue;
    assert forall id :: Queued(s', id) == Queued(w.s, id);
  }

  lemma ProgressKeeps(w: World, lt: LeaseType, k: nat, now: int)
    requires Inv(w) && k < |Leases(w.s, lt)|
    ensures Inv(After(w, Progress(lt, k, now)))
  {
    var l := Leases(w.s, lt)[k];
    var l' := l.(expiresAt := now + w.s.opts.maxLeaseHold);
    if !l.suspect {
      FlagsKeep(w, lt, k, l', w.released, w.resets);
      assert After(w, Progress(lt, k, now)) == World(UpdateLease(w.s, lt, k, l'), w.used, w.released, w.resets);
    } else {
      assert After(w, Progress(lt, k, now)) == w;
    }
  }

  lemma WatchdogKeeps(w: World, lt: LeaseType, k: nat, now: int)
    requires Inv(w) && k < |Leases(w.s, lt)|
    ensures Inv(After(w, Watchdog(lt, k, now)))
  {
    var l := Leases(w.s, lt)[k];
    var w' := After(w, Watchdog(lt, k, now));
    if now >= l.expiresAt {
      FlagsKeep(w, lt, k, l.(suspect := true, recovering := w.s.opts.canRecover), w.released, w'.resets);
    }
  }

  lemma ResetReturnsKeeps(w: World, ref: Ref, ok: bool)
    requires Inv(w) && ref in w.resets
    ensures Inv(After(w, ResetReturns(ref, ok)))
  {
    var k := IndexOf(Leases(w.s, ref.lt), ref.id);
    var resets := w.resets - multiset{ref};
    if k < |Leases(w.s, ref.lt)| {
      var l := Leases(w.s, ref.lt)[k];
      if !l.suspect {
        FlagsKeep(w, ref.lt, k, l, w.released, resets);
        assert UpdateLease(w.s, ref.lt, k, l) == w.s by {
          assert Leases(w.s, ref.lt)[k := l] == Leases(w.s, ref.lt);
        }
      } else if ok {
        DropKeeps(w, ref.lt, k, w.released, resets);
      } else {
        FlagsKeep(w, ref.lt, k, l.(recovering := false), w.released, resets);
      }
    }
  }

  lemma ReleaseKeeps(w: World, ref: Ref)
    requires Inv(w) && Enabled(w, Release(ref))
    ensures Inv(After(w, Release(ref)))
  {
    var k := IndexOf(Leases(w.s, ref.lt), ref.id);
    var released := w.released + {ref};
    if k < |Leases(w.s, ref.lt)| {
      var l := Leases(w.s, ref.lt)[k];
      if l.recovering {
        FlagsKeep(w, ref.lt, k, l.(ownerDone := true), released, w.resets);
      } else {
        DropKeeps(w, ref.lt, k, released, w.resets);
      }
    }
  }

  predicate HasTicket(bs: seq<ActiveBarrier>, t: Ticket) {
    exists c :: 0 <= c < |bs| && bs[c].ticket == t
  }

  lemma BarrierListKeepsState(s: State, bs: seq<ActiveBarrier>)
    requires StateOk(s)
    requires forall b :: 0 <= b < |bs| ==> HasTicket(s.barriers, bs[b].ticket)
    ensures StateOk(s.(barriers := bs))
  {
    var s' := s.(barriers := bs);
    assert forall lt :: Leases(s', lt) == Leases(s, lt);
    assert forall cls :: Blocked(s', cls) ==> Blocked(s, cls);
  }

  lemma BarrierListKeepsRest(w: World, bs: seq<ActiveBarrier>)
    requires UniqueIds(w) && Recovery(w) && Handles(w)
    requires forall id: nat :: Occurs(BarrierIds(bs), id) <= Occurs(BarrierIds(w.s.barriers), id)
    ensures var w' := w.(s := w.s.(barriers := bs)); UniqueIds(w') && Recovery(w') && Handles(w')
  {
    var s' := w.s.(barriers := bs);
    assert forall lt :: Leases(s', lt) == Leases(w.s, lt);
    assert forall id: nat :: Copies(s', id) <= Copies(w.s, id);
    assert forall id :: Queued(s', id) == Queued(w.s, id);
  }

  lemma BarrierListKeeps(w: World, bs: seq<ActiveBarrier>)
    requires Inv(w)
    requires forall b :: 0 <= b < |bs| ==> HasTicket(w.s.barriers, bs[b].ticket)
    requires forall id: nat :: Occurs(BarrierIds(bs), id) <= Occurs(BarrierIds(w.s.barriers), id)
    ensures Inv(w.(s := w.s.(barriers := bs)))
  {
    BarrierListKeepsState(w.s, bs);
    BarrierListKeepsRest(w, bs);
  }

  lemma LeaveKeeps(w: World, b: nat)
    requires Inv(w) && b < |w.s.barriers|
    ensures Inv(After(w, Leave(b)))
  {
    var before := w.s.barriers;
    var bs := RemoveAt(before, b);
    assert BarrierIds(bs) == RemoveAt(BarrierIds(before), b);
    forall id: nat
      ensures Occurs(BarrierIds(bs), id) <= Occurs(BarrierIds(before), id)
    {
      OccursRemove(BarrierIds(before), b, id);
    }
    forall c | 0 <= c < |bs|
      ensures HasTicket(before, bs[c].ticket)
    {
      assert before[if c < b then c else c + 1].ticket == bs[c].ticket;
    }
    BarrierListKeeps(w, bs);
  }

  lemma OwnerLostKeeps(w: World, b: nat)
    requires Inv(w) && b < |w.s.barriers|
    ensures Inv(After(w, OwnerLost(b)))
  {
    var bs := w.s.barriers[b := w.s.barriers[b].(suspect := true)];
    assert BarrierIds(bs) == BarrierIds(w.s.barriers);
    assert forall c :: 0 <= c < |bs| ==> w.s.barriers[c].ticket == bs[c].ticket;
    BarrierListKeeps(w, bs);
  }

  lemma StepKeeps(w: World, step: Step)
    requires Inv(w) && Enabled(w, step)
    ensures Inv(After(w, step))
  {
    match step
    case Join(t) => JoinKeeps(w, t);
    case Enter(i, now) => EnterKeeps(w, i, now);
    case GiveUp(i) => GiveUpKeeps(w, i);
    case Progress(lt, k, now) => ProgressKeeps(w, lt, k, now);
    case Watchdog(lt, k, now) => WatchdogKeeps(w, lt, k, now);
    case ResetReturns(ref, ok) => ResetReturnsKeeps(w, ref, ok);
    case Release(ref) => ReleaseKeeps(w, ref);
    case Leave(b) => LeaveKeeps(w, b);
    case OwnerLost(b) => OwnerLostKeeps(w, b);
  }

  /** A fresh arbiter satisfies the invariant. */
  lemma StartHolds(w: World)
    requires Start(w)
    ensures Inv(w)
  {
    assert forall lt :: Leases(w.s, lt) == [];
    assert forall id: nat :: Copies(w.s, id) == 0;
  }

  /** And so does every state of every run that begins where it holds. */
  lemma {:induction false} RunKeepsInv(ws: seq<World>, steps: seq<Step>, n: nat)
    requires Run(ws, steps) && Inv(ws[0]) && n < |ws|
    ensures Inv(ws[n])
  {
    if n > 0 {
      RunKeepsInv(ws, steps, n - 1);
      StepKeeps(ws[n - 1], steps[n - 1]);
    }
  }
}
