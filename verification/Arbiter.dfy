/**
 The arbiter object: its fields, and one method per critical section, each proved to make exactly
 the move of ArbiterProtocol.
 */
module Arbiter {
  import opened ArbiterProtocol
  import opened ArbiterRuns
  import opened Text
  import opened Wrappers

  datatype Request = Request(owner: string, mode: string, cls: string, channel: int, scope: string)

  const QMI_CHANNEL_SCOPE := "qmi_channel"

  function NormalizeOwner(owner: string): string {
    var o := TrimSpace(owner);
    if o == "" then "unknown" else o
  }

  function NormalizeMode(mode: string): string {
    var m := ToUpper(TrimSpace(mode));
    if m == "" then "UNKNOWN" else m
  }

  function NormalizeClass(cls: string, lt: LeaseType): string {
    if cls != "" then cls
    else if lt == OneShot then USIM_AKA
    else EUICC_WRITE
  }

  function NormalizeScope(scope: string, mode: string, channel: int, lt: LeaseType): string {
    if lt == Transport && scope == QMI_CHANNEL_SCOPE && mode == "QMI" && channel > 0 then QMI_CHANNEL_SCOPE
    else "exclusive"
  }

  function NormalizeRequest(req: Request, lt: LeaseType): Request {
    var mode := NormalizeMode(req.mode);
    Request(NormalizeOwner(req.owner), mode, NormalizeClass(req.cls, lt), req.channel,
            NormalizeScope(req.scope, mode, req.channel, lt))
  }

  /** A transport request is normalised twice on its way in; the second time changes nothing. */
  lemma NormalizeTwice(req: Request, lt: LeaseType)
    ensures NormalizeRequest(NormalizeRequest(req, lt), lt) == NormalizeRequest(req, lt)
  {
    var owner, mode := TrimSpace(req.owner), TrimSpace(req.mode);
    TrimSpaceShape(req.owner);
    TrimSpaceShape(req.mode);
    UpperTrim(mode);
    TrimSpaceShape(ToUpper(mode));
    TrimSpaceShape("unknown");
    TrimSpaceShape("UNKNOWN");
    assert Trimmed("unknown") && Trimmed("UNKNOWN");
    assert ToUpper("UNKNOWN") == "UNKNOWN";
  }

  function LeaseTicket(id: nat, req: Request, lt: LeaseType, now: int): Ticket {
    var r := NormalizeRequest(req, lt);
    Ticket(id, r.owner, r.mode, r.cls, r.channel,
           if r.scope == QMI_CHANNEL_SCOPE then QMIChannel else Exclusive, lt, {}, now)
  }

  function BlockedClasses(classes: seq<string>): set<string> {
    var blocked := set c | c in classes :: NormalizeClass(c, OneShot);
    if blocked == {} then {USIM_AKA, SMSC} else blocked
  }

  function BarrierTicket(id: nat, req: Request, classes: seq<string>, now: int): Ticket {
    Ticket(id, NormalizeOwner(req.owner), NormalizeMode(req.mode),
           if req.cls == "" then SWITCH_BARRIER else req.cls, req.channel,
           Exclusive, Barrier, BlockedClasses(classes), now)
  }

  /** What is filled in for the blanks of a lease request, and when a transport shares the modem by channel. */
  lemma RequestsAreFilledIn(id: nat, req: Request, lt: LeaseType, now: int)
    requires lt != Barrier
    ensures var t := LeaseTicket(id, req, lt, now);
      && t.id == id && t.leaseType == lt && t.channel == req.channel && t.enqueued == now && t.blocked == {}
      && t.owner == (if TrimSpace(req.owner) == "" then "unknown" else TrimSpace(req.owner))
      && t.mode == (if TrimSpace(req.mode) == "" then "UNKNOWN" else ToUpper(TrimSpace(req.mode)))
      && (req.cls != "" ==> t.cls == req.cls)
      && (req.cls == "" ==> t.cls == if lt == OneShot then "USIMAKA" else "EUICCWrite")
      && (t.scope == QMIChannel <==>
            lt == Transport && req.scope == "qmi_channel" && ToUpper(TrimSpace(req.mode)) == "QMI" && req.channel > 0)
  {
    assert QMI_CHANNEL_SCOPE != "exclusive" by {
      assert |QMI_CHANNEL_SCOPE| != |"exclusive"|;
    }
  }

  /** And of a barrier request; a barrier that names no classes blocks those the SIM's own traffic needs. */
  lemma BarriersAreFilledIn(id: nat, req: Request, classes: seq<string>, now: int)
    ensures var t := BarrierTicket(id, req, classes, now);
      && t.id == id && t.leaseType == Barrier && t.scope == Exclusive && t.enqueued == now
      && t.cls == (if req.cls == "" then "SwitchBarrier" else req.cls)
      && (classes == [] ==> t.blocked == {"USIMAKA", "SMSC"})
      && (classes != [] ==> forall c :: c in t.blocked <==> (c != "" && c in classes) || (c == "USIMAKA" && "" in classes))
  {
    var named := set c | c in classes :: NormalizeClass(c, OneShot);
    if classes != [] {
      assert classes[0] in classes && NormalizeClass(classes[0], OneShot) in named;
      assert BlockedClasses(classes) == named;
    }
  }

  /** Every request, however it is filled in, yields a ticket the runs admit. */
  lemma RequestsAreWellFormed(id: nat, req: Request, lt: LeaseType, classes: seq<string>, now: int)
    requires id > 0
    ensures lt != Barrier ==> WellFormed(LeaseTicket(id, req, lt, now))
    ensures WellFormed(BarrierTicket(id, req, classes, now))
    ensures USIM_AKA in BlockedClasses([])
  {
    assert QMI_CHANNEL_SCOPE != "exclusive" by {
      assert |QMI_CHANNEL_SCOPE| != |"exclusive"|;
    }
  }

  /** The first eligible position below i that satisfies p, or None. */
  ghost predicate FirstBelow(s: State, i: nat, found: Option<nat>, p: Ticket -> bool)
    requires i <= |s.queue|
  {
    match found
    case None => forall j :: 0 <= j < i && Eligible(s, j) ==> !p(s.queue[j])
    case Some(f) => f < i && Eligible(s, f) && p(s.queue[f])
                    && forall j :: 0 <= j < f && Eligible(s, j) ==> !p(s.queue[j])
  }

  /** What the selection scan knows when it is about to look at position i. */
  ghost predicate Scanned(s: State, now: int, i: nat, e: Option<nat>, a: Option<nat>, k: Option<nat>) {
    && i <= |s.queue|
    && (forall j :: 0 <= j < i ==> !EndsScan(s, j))
    && FirstBelow(s, i, e, (t: Ticket) => true)
    && FirstBelow(s, i, a, (t: Ticket) => Aged(t, now))
    && FirstBelow(s, i, k, (t: Ticket) => t.cls == USIM_AKA)
  }

  lemma ScanSkips(s: State, now: int, i: nat, e: Option<nat>, a: Option<nat>, k: Option<nat>)
    requires i < |s.queue| && Scanned(s, now, i, e, a, k)
    requires !EndsScan(s, i) && !Eligible(s, i)
    ensures Scanned(s, now, i + 1, e, a, k)
  {
  }

  function Or(found: Option<nat>, here: bool, i: nat): Option<nat> {
    if found.None? && here then Some(i) else found
  }

  lemma ScanTakes(s: State, now: int, i: nat, e: Option<nat>, a: Option<nat>, k: Option<nat>)
    requires i < |s.queue| && Scanned(s, now, i, e, a, k)
    requires s.queue[i].leaseType == Transport && !Blocked(s, s.queue[i].cls) && CanTransportNow(s, s.queue[i])
    ensures var t := s.queue[i];
      Scanned(s, now, i + 1, Or(e, true, i), Or(a, Aged(t, now), i), Or(k, t.cls == USIM_AKA, i))
  {
    assert Eligible(s, i);
  }

  /** Where the scan stops, nothing further is eligible, so what it remembers decides the selection. */
  lemma ScanEnds(s: State, now: int, i: nat, e: Option<nat>, a: Option<nat>, k: Option<nat>)
    requires Scanned(s, now, i, e, a, k) && (i < |s.queue| ==> EndsScan(s, i))
    ensures a.Some? ==> Selected(s, a.value, now)
    ensures a.None? && k.Some? ==> Selected(s, k.value, now)
    ensures a.None? && k.None? && e.Some? ==> Selected(s, e.value, now)
    ensures a.None? && k.None? && e.None? ==> forall j :: 0 <= j < |s.queue| ==> !Selected(s, j, now)
  {
    forall j | i <= j < |s.queue|
      ensures !Eligible(s, j)
    {
      assert EndsScan(s, i);
    }
    assert a.None? ==> !AnyAged(s, now);
    assert k.None? ==> !AnyAKA(s);
  }

  /** To grant a lease is to take the ticket from the queue and add the lease to those of its type. */
  lemma GrantIsAdding(s: State, i: nat, now: int)
    requires i < |s.queue| && s.queue[i].leaseType != Barrier && Grantable(s, i, now)
    ensures var lt := s.queue[i].leaseType;
      Grant(s, i, now) == SetLeases(Withdraw(s, i), lt, Leases(Withdraw(s, i), lt) + [NewLease(s, s.queue[i], now)])
    ensures s.queue[i].leaseType == OneShot ==> s.oneshot == []
  {
  }

  class Arbiter {
    const opts: Options
    var queue: seq<Ticket>
    var activeSessions: seq<ActiveLease>
    var activeOneshot: Option<ActiveLease>
    var activeTransports: seq<ActiveLease>
    var activeBarriers: seq<ActiveBarrier>

    ghost function St(): State
      reads this
    {
      State(opts, queue, activeSessions,
            match activeOneshot { case None => [] case Some(l) => [l] },
            activeTransports, activeBarriers)
    }

    /** What callers may rely on between critical sections. */
    ghost predicate Valid()
      reads this
    {
      && opts.Normal()
      && (forall i :: 0 <= i < |queue| ==> queue[i].id > 0)
      && (forall i, j :: 0 <= i < j < |queue| ==> queue[i].id != queue[j].id)
      && (forall i, j :: 0 <= i < j < |activeBarriers| ==> activeBarriers[i].ticket.id != activeBarriers[j].ticket.id)
    }

    constructor (o: Options)
      ensures Valid() && St() == State(opts, [], [], [], [], [])
      ensures opts.maxLeaseHold == if o.maxLeaseHold > 0 then o.maxLeaseHold else 120 * 1_000_000_000
      ensures opts.maxSessions == if o.maxSessions > 0 then o.maxSessions else 1
      ensures opts.maxQMITransports == if o.maxQMITransports > 0 then o.maxQMITransports else 1
      ensures opts.canRecover == o.canRecover
    {
      opts := Options(
        if o.maxLeaseHold <= 0 then 120_000_000_000 else o.maxLeaseHold,
        if o.maxSessions <= 0 then 1 else o.maxSessions,
        if o.maxQMITransports <= 0 then 1 else o.maxQMITransports,
        o.canRecover);
      queue, activeSessions, activeOneshot, activeTransports, activeBarriers := [], [], None, [], [];
    }

    // ---- scans ----------------------------------------------------------------------------

    method IsBlockedByActiveBarrier(cls: string) returns (r: bool)
      ensures r == Blocked(St(), cls)
    {
      for i := 0 to |activeBarriers|
        invariant forall j :: 0 <= j < i ==> cls !in activeBarriers[j].ticket.blocked
      {
        if cls in activeBarriers[i].ticket.blocked {
          return true;
        }
      }
      return false;
    }

    method HasPendingBarrierAhead(ticket: Ticket, ghost at: nat) returns (r: bool)
      requires Valid() && at < |queue| && queue[at] == ticket
      ensures r == PendingBarrierAhead(St(), at)
    {
      for i := 0 to |queue|
        invariant i <= at
        invariant forall j :: 0 <= j < i ==> !(queue[j].leaseType == Barrier && ticket.cls in queue[j].blocked)
      {
        if queue[i].id == ticket.id {
          return false;
        }
        if queue[i].leaseType != Barrier {
          continue;
        }
        if ticket.cls in queue[i].blocked {
          return true;
        }
      }
      return false;
    }

    method HasSuspectTransport() returns (r: bool)
      ensures r == HasSuspect(St().transports)
    {
      for i := 0 to |activeTransports|
        invariant forall j :: 0 <= j < i ==> !activeTransports[j].suspect
      {
        if activeTransports[i].suspect {
          return true;
        }
      }
      return false;
    }

    method HasActiveExclusiveTransport() returns (r: bool)
      ensures r == HasExclusive(St().transports)
    {
      for i := 0 to |activeTransports|
        invariant forall j :: 0 <= j < i ==> activeTransports[j].ticket.scope == QMIChannel
      {
        if activeTransports[i].ticket.scope != QMIChannel {
          return true;
        }
      }
      return false;
    }

    method ActiveQMITransportCount() returns (count: nat)
      ensures count == QMICount(St().transports)
    {
      count := 0;
      for i := 0 to |activeTransports|
        invariant count == QMICount(activeTransports[..i])
      {
        assert activeTransports[..i + 1][..i] == activeTransports[..i];
        if activeTransports[i].ticket.scope == QMIChannel {
          count := count + 1;
        }
      }
      assert activeTransports[..|activeTransports|] == activeTransports;
    }

    method HasActiveTransportOnChannel(channel: int) returns (r: bool)
      ensures r == OnChannel(St().transports, channel)
    {
      for i := 0 to |activeTransports|
        invariant forall j :: 0 <= j < i ==>
          !(activeTransports[j].ticket.scope == QMIChannel && activeTransports[j].ticket.channel == channel)
      {
        if activeTransports[i].ticket.scope == QMIChannel && activeTransports[i].ticket.channel == channel {
          return true;
        }
      }
      return false;
    }

    method CanAcquireTransportNow(ticket: Ticket) returns (r: bool)
      ensures r == CanTransportNow(St(), ticket)
    {
      if ticket.leaseType != Transport {
        return false;
      }
      var suspect := HasSuspectTransport();
      if suspect {
        return false;
      }
      if ticket.scope != QMIChannel {
        return |activeTransports| == 0;
      }
      var exclusive := HasActiveExclusiveTransport();
      if exclusive {
        return false;
      }
      var count := ActiveQMITransportCount();
      if count >= opts.maxQMITransports {
        return false;
      }
      var busy := HasActiveTransportOnChannel(ticket.channel);
      return !busy;
    }

    method TransportWaitGatesQueue(ticket: Ticket) returns (r: bool)
      ensures r == GatesQueue(St(), ticket)
    {
      if ticket.leaseType != Transport {
        return true;
      }
      var suspect := HasSuspectTransport();
      if suspect {
        return true;
      }
      if ticket.scope != QMIChannel {
        return true;
      }
      var exclusive := HasActiveExclusiveTransport();
      var count := ActiveQMITransportCount();
      return exclusive || count >= opts.maxQMITransports;
    }

    method SelectedBarrier() returns (id: nat)
      requires Valid()
      ensures id == 0 ==> forall i :: 0 <= i < |queue| ==> !FirstBarrier(St(), i)
      ensures id != 0 ==> exists i :: 0 <= i < |queue| && queue[i].id == id && FirstBarrier(St(), i)
    {
      for i := 0 to |queue|
        invariant forall j :: 0 <= j < i ==> queue[j].leaseType != Barrier
      {
        if queue[i].leaseType == Barrier {
          assert FirstBarrier(St(), i);
          return queue[i].id;
        }
      }
      return 0;
    }

    /** What the scan makes of one position: it stops there, passes over it, or takes note of it. */
    method Examine(i: nat) returns (stop: bool, take: bool)
      requires i < |queue|
      ensures stop == EndsScan(St(), i)
      ensures take == (queue[i].leaseType == Transport && !Blocked(St(), queue[i].cls) && CanTransportNow(St(), queue[i]))
    {
      var ticket := queue[i];
      if ticket.leaseType != Transport {
        return true, false;
      }
      var blocked := IsBlockedByActiveBarrier(ticket.cls);
      if blocked {
        return false, false;
      }
      var can := CanAcquireTransportNow(ticket);
      if !can {
        var gates := TransportWaitGatesQueue(ticket);
        return gates, false;
      }
      return false, true;
    }

    /** The scan over the queue: what it remembers are positions, None where nothing was found yet. */
    method ScanQueue(now: int) returns (oldestEligible: Option<nat>, oldestAgedNonAKA: Option<nat>, oldestAKA: Option<nat>)
      ensures exists i :: 0 <= i <= |queue| && (i < |queue| ==> EndsScan(St(), i))
                       && Scanned(St(), now, i, oldestEligible, oldestAgedNonAKA, oldestAKA)
    {
      oldestEligible, oldestAgedNonAKA, oldestAKA := None, None, None;
      ghost var s := St();
      var i := 0;
      while i < |queue|
        invariant i <= |queue|
        invariant Scanned(s, now, i, oldestEligible, oldestAgedNonAKA, oldestAKA)
      {
        var ticket := queue[i];
        var stop, take := Examine(i);
        if stop {
          assert Scanned(St(), now, i, oldestEligible, oldestAgedNonAKA, oldestAKA);
          return;
        }
        if !take {
          ScanSkips(s, now, i, oldestEligible, oldestAgedNonAKA, oldestAKA);
          i := i + 1;
          continue;
        }
        ScanTakes(s, now, i, oldestEligible, oldestAgedNonAKA, oldestAKA);
        ghost var e, a, k := oldestEligible, oldestAgedNonAKA, oldestAKA;
        if oldestEligible.None? {
          oldestEligible := Some(i);
        }
        if ticket.cls == USIM_AKA {
          if oldestAKA.None? {
            oldestAKA := Some(i);
          }
        } else if oldestAgedNonAKA.None? && now - ticket.enqueued >= TRANSPORT_PRIORITY_AGING {
          oldestAgedNonAKA := Some(i);
        }
        assert oldestEligible == Or(e, true, i);
        assert oldestAgedNonAKA == Or(a, Aged(ticket, now), i);
        assert oldestAKA == Or(k, ticket.cls == USIM_AKA, i);
        i := i + 1;
      }
      assert Scanned(St(), now, i, oldestEligible, oldestAgedNonAKA, oldestAKA);
    }

    method SelectedTransport(now: int) returns (id: nat)
      requires Valid()
      ensures id == 0 ==> forall i :: 0 <= i < |queue| ==> !Selected(St(), i, now)
      ensures id != 0 ==> exists i :: 0 <= i < |queue| && queue[i].id == id && Selected(St(), i, now)
    {
      var oldestEligible, oldestAgedNonAKA, oldestAKA := ScanQueue(now);
      ghost var i :| 0 <= i <= |queue| && (i < |queue| ==> EndsScan(St(), i))
                     && Scanned(St(), now, i, oldestEligible, oldestAgedNonAKA, oldestAKA);
      ScanEnds(St(), now, i, oldestEligible, oldestAgedNonAKA, oldestAKA);
      if oldestAgedNonAKA.Some? {
        return queue[oldestAgedNonAKA.value].id;
      }
      if oldestAKA.Some? {
        return queue[oldestAKA.value].id;
      }
      if oldestEligible.Some? {
        return queue[oldestEligible.value].id;
      }
      return 0;
    }

    // ---- decisions ------------------------------------------------------------------------

    method CanAcquireLease(ticket: Ticket, now: int, ghost at: nat) returns (r: bool)
      requires Valid() && at < |queue| && queue[at] == ticket && ticket.leaseType != Barrier
      ensures r == Grantable(St(), at, now)
    {
      var blocked := IsBlockedByActiveBarrier(ticket.cls);
      if blocked {
        return false;
      }
      var pending := HasPendingBarrierAhead(ticket, at);
      if pending {
        return false;
      }
      match ticket.leaseType
      case Session =>
        return queue[0].id == ticket.id && activeOneshot.None? && |activeTransports| == 0
            && |activeSessions| < opts.maxSessions;
      case OneShot =>
        return queue[0].id == ticket.id && |activeSessions| == 0 && activeOneshot.None? && |activeTransports| == 0;
      case Transport =>
        if |activeSessions| > 0 || activeOneshot.Some? {
          return false;
        }
        var selected := SelectedTransport(now);
        return selected == ticket.id;
    }

    method CanAcquireBarrier(ticket: Ticket, now: int, ghost at: nat) returns (r: bool)
      requires Valid() && at < |queue| && queue[at] == ticket && ticket.leaseType == Barrier
      ensures r == Grantable(St(), at, now)
    {
      if |activeTransports| > 0 || |activeSessions| > 0 || activeOneshot.Some? {
        return false;
      }
      var selected := SelectedBarrier();
      return selected == ticket.id;
    }

    // ---- critical sections ----------------------------------------------------------------

    method Enqueue(ticket: Ticket)
      requires Valid() && ticket.id > 0 && forall i :: 0 <= i < |queue| ==> queue[i].id != ticket.id
      modifies this`queue
      ensures Valid() && St() == ArbiterProtocol.Enqueue(old(St()), ticket)
    {
      queue := queue + [ticket];
    }

    method RemoveTicket(id: nat, ghost at: nat) returns (removed: bool)
      requires Valid()
      requires at < |queue| ==> queue[at].id == id
      requires at >= |queue| ==> forall i :: 0 <= i < |queue| ==> queue[i].id != id
      modifies this`queue
      ensures removed <==> at < |old(queue)|
      ensures Valid() && queue == if removed then RemoveAt(old(queue), at) else old(queue)
    {
      for i := 0 to |queue|
        invariant queue == old(queue)
        invariant forall j :: 0 <= j < i ==> queue[j].id != id
      {
        if queue[i].id != id {
          continue;
        }
        assert i == at;
        queue := queue[..i] + queue[i + 1..];
        return true;
      }
      return false;
    }

    /** The new lease joins the active ones of its type. */
    method AddActive(active: ActiveLease)
      requires Valid() && active.ticket.leaseType != Barrier
      requires active.ticket.leaseType == OneShot ==> activeOneshot.None?
      modifies this`activeSessions, this`activeOneshot, this`activeTransports
      ensures var lt := active.ticket.leaseType;
        Valid() && St() == SetLeases(old(St()), lt, Leases(old(St()), lt) + [active])
    {
      match active.ticket.leaseType {
        case Session => activeSessions := activeSessions + [active];
        case OneShot => activeOneshot := Some(active);
        case Transport => activeTransports := activeTransports + [active];
      }
    }

    /** One round of the waiting loop of a lease: either it gets through, or nothing changes. */
    method TryAcquire(ticket: Ticket, now: int, ghost at: nat) returns (granted: bool)
      requires Valid() && at < |queue| && queue[at] == ticket && ticket.leaseType != Barrier
      requires |St().oneshot| <= 1
      modifies this`queue, this`activeSessions, this`activeOneshot, this`activeTransports
      ensures granted == old(Grantable(St(), at, now))
      ensures Valid() && St() == if granted then Grant(old(St()), at, now) else old(St())
    {
      granted := CanAcquireLease(ticket, now, at);
      if granted {
        GrantIsAdding(St(), at, now);
        var removed := RemoveTicket(ticket.id, at);
        AddActive(ActiveLease(ticket, now, now + opts.maxLeaseHold, false, false, false));
      }
    }

    method TryBarrier(ticket: Ticket, now: int, ghost at: nat) returns (granted: bool)
      requires Valid() && at < |queue| && queue[at] == ticket && ticket.leaseType == Barrier
      requires forall b :: 0 <= b < |activeBarriers| ==> activeBarriers[b].ticket.id != ticket.id
      modifies this`queue, this`activeBarriers
      ensures granted == old(Grantable(St(), at, now))
      ensures Valid() && St() == if granted then Grant(old(St()), at, now) else old(St())
    {
      granted := CanAcquireBarrier(ticket, now, at);
      if granted {
        var removed := RemoveTicket(ticket.id, at);
        activeBarriers := activeBarriers + [ActiveBarrier(ticket, now, false)];
      }
    }

    /** The waiter's context ended first. */
    method GiveUp(ticket: Ticket, ghost at: nat)
      requires Valid() && at < |queue| && queue[at] == ticket
      modifies this`queue
      ensures Valid() && St() == Withdraw(old(St()), at)
    {
      var removed := RemoveTicket(ticket.id, at);
    }

    function ActiveOf(lt: LeaseType): seq<ActiveLease>
      reads this
      ensures ActiveOf(lt) == Leases(St(), lt)
    {
      match lt
      case Session => activeSessions
      case OneShot => (match activeOneshot case None => [] case Some(l) => [l])
      case Transport => activeTransports
      case Barrier => []
    }

    method FindActive(id: nat, lt: LeaseType) returns (k: nat)
      ensures k == IndexOf(Leases(St(), lt), id)
    {
      var ls := ActiveOf(lt);
      k := 0;
      while k < |ls| && ls[k].ticket.id != id
        invariant k <= IndexOf(ls, id)
      {
        k := k + 1;
      }
    }

    /** Rewrites one active lease in place. */
    method Rewrite(lt: LeaseType, k: nat, l: ActiveLease)
      requires Valid() && k < |Leases(St(), lt)|
      modifies this`activeSessions, this`activeOneshot, this`activeTransports
      ensures Valid() && St() == UpdateLease(old(St()), lt, k, l)
    {
      match lt
      case Session => activeSessions := activeSessions[k := l];
      case OneShot => activeOneshot := Some(l);
      case Transport => activeTransports := activeTransports[k := l];
    }

    method RemoveActive(lt: LeaseType, k: nat)
      requires Valid() && k < |Leases(St(), lt)|
      modifies this`activeSessions, this`activeOneshot, this`activeTransports
      ensures Valid() && St() == RemoveLease(old(St()), lt, k)
    {
      match lt
      case Session => activeSessions := activeSessions[..k] + activeSessions[k + 1..];
      case OneShot => activeOneshot := None;
      case Transport => activeTransports := activeTransports[..k] + activeTransports[k + 1..];
    }

    method Touch(id: nat, lt: LeaseType, now: int) returns (ok: bool)
      requires Valid()
      modifies this`activeSessions, this`activeOneshot, this`activeTransports
      ensures Valid()
      ensures var k := IndexOf(old(Leases(St(), lt)), id); var held := k < |old(Leases(St(), lt))|;
        && ok == (held && !old(Leases(St(), lt))[k].suspect)
        && St() == if held then ArbiterProtocol.Touch(old(St()), lt, k, now) else old(St())
    {
      var k := FindActive(id, lt);
      var ls := ActiveOf(lt);
      if k == |ls| {
        return false;
      }
      if ls[k].suspect {
        return false;
      }
      Rewrite(lt, k, ls[k].(expiresAt := now + opts.maxLeaseHold));
      return true;
    }

    method Release(id: nat, lt: LeaseType)
      requires Valid()
      modifies this`activeSessions, this`activeOneshot, this`activeTransports
      ensures Valid()
      ensures var k := IndexOf(old(Leases(St(), lt)), id);
        St() == if k < |old(Leases(St(), lt))| then OwnerRelease(old(St()), lt, k) else old(St())
    {
      var k := FindActive(id, lt);
      var ls := ActiveOf(lt);
      if k == |ls| {
        return;
      }
      if ls[k].recovering {
        Rewrite(lt, k, ls[k].(ownerDone := true));
        return;
      }
      RemoveActive(lt, k);
    }

    /** The watchdog's first critical section; it tells whether a reset is to be started. */
    method ReleaseExpired(id: nat, lt: LeaseType, now: int) returns (recover: bool)
      requires Valid()
      modifies this`activeSessions, this`activeOneshot, this`activeTransports
      ensures Valid()
      ensures var ls := old(Leases(St(), lt)); var k := IndexOf(ls, id); var held := k < |ls|;
        && recover == (held && now >= ls[k].expiresAt && opts.canRecover)
        && St() == if held then Expire(old(St()), lt, k, now) else old(St())
    {
      var k := FindActive(id, lt);
      var ls := ActiveOf(lt);
      if k == |ls| {
        return false;
      }
      if ls[k].expiresAt - now > 0 {
        return false;
      }
      Rewrite(lt, k, ls[k].(suspect := true, recovering := opts.canRecover));
      return opts.canRecover;
    }

    /** The watchdog's second critical section, once the reset has returned. */
    method ResetReturned(id: nat, lt: LeaseType, ok: bool)
      requires Valid()
      modifies this`activeSessions, this`activeOneshot, this`activeTransports
      ensures Valid()
      ensures var ls := old(Leases(St(), lt)); var k := IndexOf(ls, id);
        St() == if k == |ls| then old(St())
                else if ok then ResetSucceeded(old(St()), lt, k) else ResetFailed(old(St()), lt, k)
    {
      var k := FindActive(id, lt);
      var ls := ActiveOf(lt);
      if k == |ls| || !ls[k].suspect {
        return;
      }
      if ok {
        RemoveActive(lt, k);
      } else {
        Rewrite(lt, k, ls[k].(recovering := false));
      }
    }

    method ReleaseBarrier(id: nat, ghost at: nat)
      requires Valid()
      requires at < |activeBarriers| ==> activeBarriers[at].ticket.id == id
      requires at >= |activeBarriers| ==> forall b :: 0 <= b < |activeBarriers| ==> activeBarriers[b].ticket.id != id
      modifies this`activeBarriers
      ensures Valid()
      ensures St() == if at < |old(activeBarriers)| then BarrierLeave(old(St()), at) else old(St())
    {
      for i := 0 to |activeBarriers|
        invariant activeBarriers == old(activeBarriers)
        invariant forall j :: 0 <= j < i ==> activeBarriers[j].ticket.id != id
      {
        if activeBarriers[i].ticket.id != id {
          continue;
        }
        assert i == at;
        activeBarriers := activeBarriers[..i] + activeBarriers[i + 1..];
        return;
      }
    }

    method MarkBarrierSuspect(id: nat, ghost at: nat)
      requires Valid()
      requires at < |activeBarriers| ==> activeBarriers[at].ticket.id == id
      requires at >= |activeBarriers| ==> forall b :: 0 <= b < |activeBarriers| ==> activeBarriers[b].ticket.id != id
      modifies this`activeBarriers
      ensures Valid()
      ensures St() == if at < |old(activeBarriers)| then BarrierSuspect(old(St()), at) else old(St())
    {
      for i := 0 to |activeBarriers|
        invariant activeBarriers == old(activeBarriers)
        invariant forall j :: 0 <= j < i ==>
          activeBarriers[j].ticket.id != id || (j == at && activeBarriers[j].suspect)
      {
        if activeBarriers[i].ticket.id != id || activeBarriers[i].suspect {
          continue;
        }
        activeBarriers := activeBarriers[i := activeBarriers[i].(suspect := true)];
        return;
      }
      assert at < |activeBarriers| ==> activeBarriers[at := activeBarriers[at].(suspect := true)] == activeBarriers;
    }
  }
}
