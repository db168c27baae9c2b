/**
 The APDU arbiter as a protocol: its state as a value, the conditions under which a waiting
 ticket may proceed, and one function per critical section. Every section runs under one
 mutex, so it is one atomic step.
 */
module ArbiterProtocol {

  const USIM_AKA := "USIMAKA"
  const SMSC := "SMSC"
  const EUICC_WRITE := "EUICCWrite"
  const SWITCH_BARRIER := "SwitchBarrier"

  /** The age, in nanoseconds, at which a waiting transport outranks the authentication class. */
  const TRANSPORT_PRIORITY_AGING: int := 500_000_000

  /** The program's lease type; its wait kind is `barrier` exactly for the `Barrier` type. */
  datatype LeaseType = Session | OneShot | Transport | Barrier

  datatype Scope = Exclusive | QMIChannel

  datatype Ticket = Ticket(
    id: nat,
    owner: string,
    mode: string,
    cls: string,
    channel: int,
    scope: Scope,
    leaseType: LeaseType,
    blocked: set<string>,
    enqueued: int)

  datatype ActiveLease = ActiveLease(
    ticket: Ticket,
    acquiredAt: int,
    expiresAt: int,
    suspect: bool,
    recovering: bool,
    ownerDone: bool)

  datatype ActiveBarrier = ActiveBarrier(ticket: Ticket, acquiredAt: int, suspect: bool)

  datatype Options = Options(maxLeaseHold: int, maxSessions: int, maxQMITransports: int, canRecover: bool) {
    predicate Normal() {
      maxLeaseHold > 0 && maxSessions > 0 && maxQMITransports > 0
    }
  }

  datatype State = State(
    opts: Options,
    queue: seq<Ticket>,
    sessions: seq<ActiveLease>,
    oneshot: seq<ActiveLease>,
    transports: seq<ActiveLease>,
    barriers: seq<ActiveBarrier>)

  /** The active leases of one type; the single one-shot slot is a list of at most one. */
  function Leases(s: State, lt: LeaseType): seq<ActiveLease> {
    match lt
    case Session => s.sessions
    case OneShot => s.oneshot
    case Transport => s.transports
    case Barrier => []
  }

  function SetLeases(s: State, lt: LeaseType, ls: seq<ActiveLease>): State {
    match lt
    case Session => s.(sessions := ls)
    case OneShot => s.(oneshot := ls)
    case Transport => s.(transports := ls)
    case Barrier => s
  }

  function RemoveAt<T>(q: seq<T>, i: nat): seq<T>
    requires i < |q|
  {
    q[..i] + q[i + 1..]
  }

  // ---- conditions -------------------------------------------------------------------------

  predicate Blocked(s: State, cls: string) {
    exists i :: 0 <= i < |s.barriers| && cls in s.barriers[i].ticket.blocked
  }

  predicate NoLease(s: State) {
    s.sessions == [] && s.oneshot == [] && s.transports == []
  }

  predicate HasSuspect(ls: seq<ActiveLease>) {
    exists i :: 0 <= i < |ls| && ls[i].suspect
  }

  predicate HasExclusive(ls: seq<ActiveLease>) {
    exists i :: 0 <= i < |ls| && ls[i].ticket.scope != QMIChannel
  }

  predicate OnChannel(ls: seq<ActiveLease>, channel: int) {
    exists i :: 0 <= i < |ls| && ls[i].ticket.scope == QMIChannel && ls[i].ticket.channel == channel
  }

  function QMICount(ls: seq<ActiveLease>): nat {
    if ls == [] then 0
    else QMICount(ls[..|ls| - 1]) + (if ls[|ls| - 1].ticket.scope == QMIChannel then 1 else 0)
  }

  predicate CanTransportNow(s: State, t: Ticket) {
    && t.leaseType == Transport
    && !HasSuspect(s.transports)
    && if t.scope != QMIChannel then
         s.transports == []
       else
         && !HasExclusive(s.transports)
         && QMICount(s.transports) < s.opts.maxQMITransports
         && !OnChannel(s.transports, t.channel)
  }

  /** A transport that cannot go now also holds back everything queued behind it. */
  predicate GatesQueue(s: State, t: Ticket) {
    || t.leaseType != Transport
    || HasSuspect(s.transports)
    || t.scope != QMIChannel
    || HasExclusive(s.transports)
    || QMICount(s.transports) >= s.opts.maxQMITransports
  }

  /** The selection scan never looks past position k. */
  predicate EndsScan(s: State, k: nat)
    requires k < |s.queue|
  {
    var t := s.queue[k];
    || t.leaseType != Transport
    || (!Blocked(s, t.cls) && !CanTransportNow(s, t) && GatesQueue(s, t))
  }

  predicate Eligible(s: State, k: nat)
    requires k < |s.queue|
  {
    && (forall j :: 0 <= j <= k ==> !EndsScan(s, j))
    && !Blocked(s, s.queue[k].cls)
    && CanTransportNow(s, s.queue[k])
  }

  predicate Aged(t: Ticket, now: int) {
    t.cls != USIM_AKA && now - t.enqueued >= TRANSPORT_PRIORITY_AGING
  }

  /** Among the eligible: the first aged one, else the first of the authentication class, else the first. */
  ghost predicate Selected(s: State, i: nat, now: int)
    requires i < |s.queue|
  {
    && Eligible(s, i)
    && if AnyAged(s, now) then
         Aged(s.queue[i], now) && forall j :: 0 <= j < i && Eligible(s, j) ==> !Aged(s.queue[j], now)
       else if AnyAKA(s) then
         s.queue[i].cls == USIM_AKA && forall j :: 0 <= j < i && Eligible(s, j) ==> s.queue[j].cls != USIM_AKA
       else
         forall j :: 0 <= j < i ==> !Eligible(s, j)
  }

  ghost predicate AnyAged(s: State, now: int) {
    exists j :: 0 <= j < |s.queue| && Eligible(s, j) && Aged(s.queue[j], now)
  }

  ghost predicate AnyAKA(s: State) {
    exists j :: 0 <= j < |s.queue| && Eligible(s, j) && s.queue[j].cls == USIM_AKA
  }

  predicate PendingBarrierAhead(s: State, i: nat)
    requires i < |s.queue|
  {
    exists j :: 0 <= j < i && s.queue[j].leaseType == Barrier && s.queue[i].cls in s.queue[j].blocked
  }

  predicate FirstBarrier(s: State, i: nat)
    requires i < |s.queue|
  {
    s.queue[i].leaseType == Barrier && forall j :: 0 <= j < i ==> s.queue[j].leaseType != Barrier
  }

  /** The ticket at position i would get through if its owner looked now. */
  ghost predicate Grantable(s: State, i: nat, now: int)
    requires i < |s.queue|
  {
    var t := s.queue[i];
    match t.leaseType
    case Barrier =>
      NoLease(s) && FirstBarrier(s, i)
    case Session =>
      && !Blocked(s, t.cls) && !PendingBarrierAhead(s, i)
      && i == 0 && s.oneshot == [] && s.transports == [] && |s.sessions| < s.opts.maxSessions
    case OneShot =>
      && !Blocked(s, t.cls) && !PendingBarrierAhead(s, i)
      && i == 0 && s.sessions == [] && s.oneshot == [] && s.transports == []
    case Transport =>
      && !Blocked(s, t.cls) && !PendingBarrierAhead(s, i)
      && s.sessions == [] && s.oneshot == []
      && Selected(s, i, now)
  }

  // ---- critical sections ------------------------------------------------------------------

  function Enqueue(s: State, t: Ticket): State {
    s.(queue := s.queue + [t])
  }

  function NewLease(s: State, t: Ticket, now: int): ActiveLease {
    ActiveLease(t, now, now + s.opts.maxLeaseHold, false, false, false)
  }

  /** The ticket leaves the queue and becomes an active lease or an active barrier. */
  function Grant(s: State, i: nat, now: int): State
    requires i < |s.queue|
  {
    var t := s.queue[i];
    var s1 := s.(queue := RemoveAt(s.queue, i));
    if t.leaseType == Barrier then s1.(barriers := s.barriers + [ActiveBarrier(t, now, false)])
    else SetLeases(s1, t.leaseType, Leases(s, t.leaseType) + [NewLease(s, t, now)])
  }

  function Withdraw(s: State, i: nat): State
    requires i < |s.queue|
  {
    s.(queue := RemoveAt(s.queue, i))
  }

  function UpdateLease(s: State, lt: LeaseType, k: nat, l: ActiveLease): State
    requires k < |Leases(s, lt)|
  {
    SetLeases(s, lt, Leases(s, lt)[k := l])
  }

  function RemoveLease(s: State, lt: LeaseType, k: nat): State
    requires k < |Leases(s, lt)|
  {
    SetLeases(s, lt, RemoveAt(Leases(s, lt), k))
  }

  function Touch(s: State, lt: LeaseType, k: nat, now: int): State
    requires k < |Leases(s, lt)|
  {
    var l := Leases(s, lt)[k];
    if l.suspect then s else UpdateLease(s, lt, k, l.(expiresAt := now + s.opts.maxLeaseHold))
  }

  /** The watchdog fires: a lease past its deadline turns suspect, and a reset starts if one is configured. */
  function Expire(s: State, lt: LeaseType, k: nat, now: int): State
    requires k < |Leases(s, lt)|
  {
    var l := Leases(s, lt)[k];
    if now < l.expiresAt then s
    else UpdateLease(s, lt, k, l.(suspect := true, recovering := s.opts.canRecover))
  }

  function ResetFailed(s: State, lt: LeaseType, k: nat): State
    requires k < |Leases(s, lt)|
  {
    var l := Leases(s, lt)[k];
    if l.suspect then UpdateLease(s, lt, k, l.(recovering := false)) else s
  }

  function ResetSucceeded(s: State, lt: LeaseType, k: nat): State
    requires k < |Leases(s, lt)|
  {
    if Leases(s, lt)[k].suspect then RemoveLease(s, lt, k) else s
  }

  /** The owner lets go; while a reset is in flight that is only noted. */
  function OwnerRelease(s: State, lt: LeaseType, k: nat): State
    requires k < |Leases(s, lt)|
  {
    var l := Leases(s, lt)[k];
    if l.recovering then UpdateLease(s, lt, k, l.(ownerDone := true)) else RemoveLease(s, lt, k)
  }

  function BarrierLeave(s: State, b: nat): State
    requires b < |s.barriers|
  {
    s.(barriers := RemoveAt(s.barriers, b))
  }

  function BarrierSuspect(s: State, b: nat): State
    requires b < |s.barriers|
  {
    s.(barriers := s.barriers[b := s.barriers[b].(suspect := true)])
  }
}
