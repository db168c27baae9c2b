/** Fail-closed recovery: what a suspect lease holds back, and the only ways it ends. */
module ArbiterRecovery {
  import opened ArbiterProtocol
  import opened ArbiterRuns
  import opened ArbiterScheduling
  import opened Wrappers

  function Find(ls: seq<ActiveLease>, id: nat): Option<ActiveLease> {
    var k := IndexOf(ls, id);
    if k < |ls| then Some(ls[k]) else None
  }

  function Held(w: World, ref: Ref): Option<ActiveLease> {
    Find(Leases(w.s, ref.lt), ref.id)
  }

  predicate Suspect(w: World, ref: Ref) {
    Held(w, ref).Some? && Held(w, ref).value.suspect
  }

  // ---- nothing is granted while a transport is suspect ------------------------------------

  lemma SuspectTransportGrantsNothing(s: State, i: nat, now: int)
    requires i < |s.queue| && HasSuspect(s.transports)
    ensures !Grantable(s, i, now)
  {
    assert !CanTransportNow(s, s.queue[i]);
    assert !Eligible(s, i);
  }

  // ---- one lease through one step -----------------------------------------------------------

  predicate LeaseIdsDistinct(ls: seq<ActiveLease>) {
    forall i, j :: 0 <= i < j < |ls| ==> ls[i].ticket.id != ls[j].ticket.id
  }

  /** What the invariant says of one handle. */
  ghost predicate Tracked(w: World, ref: Ref) {
    && LeaseIdsDistinct(Leases(w.s, ref.lt))
    && (Held(w, ref).Some? ==> ref.id in w.used && !Queued(w.s, ref.id))
  }

  lemma InvMeansTracked(w: World, ref: Ref)
    requires Inv(w)
    ensures Tracked(w, ref)
  {
    forall i, j | 0 <= i < j < |Leases(w.s, ref.lt)|
      ensures Leases(w.s, ref.lt)[i].ticket.id != Leases(w.s, ref.lt)[j].ticket.id
    {
      DistinctLeases(w, ref.lt, i, j);
    }
    if Held(w, ref).Some? {
      LeaseIdHeld(w, ref.lt, IndexOf(Leases(w.s, ref.lt), ref.id));
    }
  }

  lemma FindUpdate(ls: seq<ActiveLease>, k: nat, l: ActiveLease, id: nat)
    requires LeaseIdsDistinct(ls) && k < |ls| && l.ticket == ls[k].ticket
    ensures Find(ls[k := l], id) == if ls[k].ticket.id == id then Some(l) else Find(ls, id)
  {
    var ls' := ls[k := l];
    assert forall j :: 0 <= j < |ls| ==> ls'[j].ticket == ls[j].ticket;
    var i, i' := IndexOf(ls, id), IndexOf(ls', id);
    assert i < |ls| ==> ls'[i].ticket.id == id;
    assert i' < |ls| ==> ls[i'].ticket.id == id;
  }

  lemma FindRemove(ls: seq<ActiveLease>, k: nat, id: nat)
    requires LeaseIdsDistinct(ls) && k < |ls|
    ensures Find(RemoveAt(ls, k), id) == if ls[k].ticket.id == id then None else Find(ls, id)
  {
    var ls' := RemoveAt(ls, k);
    assert forall j :: 0 <= j < |ls'| ==> ls'[j] == ls[if j < k then j else j + 1];
    var i, i' := IndexOf(ls, id), IndexOf(ls', id);
    if i < |ls| && i != k {
      assert ls'[if i < k then i else i - 1] == ls[i];
    }
  }

  lemma FindAppend(ls: seq<ActiveLease>, l: ActiveLease, id: nat)
    ensures Find(ls + [l], id) ==
      if Find(ls, id).Some? then Find(ls, id) else if l.ticket.id == id then Some(l) else None
  {
    var ls' := ls + [l];
    assert forall j :: 0 <= j < |ls| ==> ls'[j] == ls[j];
    assert ls'[|ls|] == l;
    var i, i' := IndexOf(ls, id), IndexOf(ls', id);
    assert i < |ls| ==> ls'[i].ticket.id == id;
    assert i' < |ls| ==> ls[i'].ticket.id == id;
  }

  /** How a step affects the lease a handle names. */
  datatype Effect = Unchanged | Set(l: ActiveLease) | Dropped

  ghost function EffectOn(w: World, step: Step, ref: Ref): Effect
    requires Enabled(w, step)
  {
    match step
    case Enter(i, now) =>
      var t := w.s.queue[i];
      if t.leaseType == ref.lt != Barrier && t.id == ref.id then Set(ActiveLease(t, now, now + w.s.opts.maxLeaseHold, false, false, false)) else Unchanged
    case Progress(lt, k, now) =>
      var l := Leases(w.s, lt)[k];
      if lt == ref.lt && l.ticket.id == ref.id && !l.suspect
      then Set(l.(expiresAt := now + w.s.opts.maxLeaseHold)) else Unchanged
    case Watchdog(lt, k, now) =>
      var l := Leases(w.s, lt)[k];
      if lt == ref.lt && l.ticket.id == ref.id && now >= l.expiresAt
      then Set(l.(suspect := true, recovering := w.s.opts.canRecover)) else Unchanged
    case ResetReturns(r, ok) =>
      if r == ref && Suspect(w, ref)
      then if ok then Dropped else Set(Held(w, ref).value.(recovering := false))
      else Unchanged
    case Release(r) =>
      if r == ref && Held(w, ref).Some?
      then if Held(w, ref).value.recovering then Set(Held(w, ref).value.(ownerDone := true)) else Dropped
      else Unchanged
    case _ => Unchanged
  }

  function Apply(before: Option<ActiveLease>, e: Effect): Option<ActiveLease> {
    match e
    case Unchanged => before
    case Set(l) => Some(l)
    case Dropped => None
  }

  /** Every step does exactly that to the lease, and nothing to any other. */
  lemma StepOnLease(w: World, step: Step, ref: Ref)
    requires Tracked(w, ref) && Enabled(w, step)
    ensures Held(After(w, step), ref) == Apply(Held(w, ref), EffectOn(w, step, ref))
  {
    match step
    case Enter(i, now) => EnterOnLease(w, i, now, ref);
    case Progress(lt, k, now) => ProgressOnLease(w, lt, k, now, ref);
    case Watchdog(lt, k, now) => WatchdogOnLease(w, lt, k, now, ref);
    case ResetReturns(r, ok) => ResetOnLease(w, r, ok, ref);
    case Release(r) => ReleaseOnLease(w, r, ref);
    case _ => OtherOnLease(w, step, ref.lt);
  }

  lemma OtherOnLease(w: World, step: Step, lt: LeaseType)
    requires Enabled(w, step) && (step.Join? || step.GiveUp? || step.Leave? || step.OwnerLost?)
    ensures Leases(After(w, step).s, lt) == Leases(w.s, lt)
  {
  }

  lemma ProgressOnLease(w: World, lt: LeaseType, k: nat, now: int, ref: Ref)
    requires Tracked(w, ref) && k < |Leases(w.s, lt)|
    ensures var step := Progress(lt, k, now);
      Held(After(w, step), ref) == Apply(Held(w, ref), EffectOn(w, step, ref))
  {
    UpdateOnLease(w.s, lt, k, Leases(w.s, lt)[k].(expiresAt := now + w.s.opts.maxLeaseHold), ref);
  }

  lemma WatchdogOnLease(w: World, lt: LeaseType, k: nat, now: int, ref: Ref)
    requires Tracked(w, ref) && k < |Leases(w.s, lt)|
    ensures var step := Watchdog(lt, k, now);
      Held(After(w, step), ref) == Apply(Held(w, ref), EffectOn(w, step, ref))
  {
    UpdateOnLease(w.s, lt, k, Leases(w.s, lt)[k].(suspect := true, recovering := w.s.opts.canRecover), ref);
  }

  lemma EnterOnLease(w: World, i: nat, now: int, ref: Ref)
    requires Tracked(w, ref) && Enabled(w, Enter(i, now))
    ensures Held(After(w, Enter(i, now)), ref) == Apply(Held(w, ref), EffectOn(w, Enter(i, now), ref))
  {
    var t := w.s.queue[i];
    var l := NewLease(w.s, t, now);
    if t.leaseType != Barrier {
      LeasesSetLeases(Withdraw(w.s, i), t.leaseType, Leases(w.s, t.leaseType) + [l], ref.lt);
      FindAppend(Leases(w.s, ref.lt), l, ref.id);
      assert Queued(w.s, t.id);
    }
  }

  lemma UpdateOnLease(s: State, lt: LeaseType, k: nat, l: ActiveLease, ref: Ref)
    requires LeaseIdsDistinct(Leases(s, ref.lt)) && k < |Leases(s, lt)| && l.ticket == Leases(s, lt)[k].ticket
    ensures Find(Leases(UpdateLease(s, lt, k, l), ref.lt), ref.id) ==
      if lt == ref.lt && l.ticket.id == ref.id then Some(l) else Find(Leases(s, ref.lt), ref.id)
    ensures lt == ref.lt && l.ticket.id == ref.id ==> Find(Leases(s, ref.lt), ref.id) == Some(Leases(s, lt)[k])
  {
    LeasesSetLeases(s, lt, Leases(s, lt)[k := l], ref.lt);
    if lt == ref.lt {
      FindUpdate(Leases(s, lt), k, l, ref.id);
    }
  }

  lemma RemoveOnLease(s: State, lt: LeaseType, k: nat, ref: Ref)
    requires LeaseIdsDistinct(Leases(s, ref.lt)) && k < |Leases(s, lt)|
    ensures Find(Leases(RemoveLease(s, lt, k), ref.lt), ref.id) ==
      if lt == ref.lt && Leases(s, lt)[k].ticket.id == ref.id then None else Find(Leases(s, ref.lt), ref.id)
  {
    LeasesSetLeases(s, lt, RemoveAt(Leases(s, lt), k), ref.lt);
    if lt == ref.lt {
      FindRemove(Leases(s, lt), k, ref.id);
    }
  }

  lemma ResetOnLease(w: World, r: Ref, ok: bool, ref: Ref)
    requires Tracked(w, ref) && Enabled(w, ResetReturns(r, ok))
    ensures Held(After(w, ResetReturns(r, ok)), ref) == Apply(Held(w, ref), EffectOn(w, ResetReturns(r, ok), ref))
  {
    var ls := Leases(w.s, r.lt);
    var k := IndexOf(ls, r.id);
    if k < |ls| {
      UpdateOnLease(w.s, r.lt, k, ls[k].(recovering := false), ref);
      RemoveOnLease(w.s, r.lt, k, ref);
    }
  }

  lemma ReleaseOnLease(w: World, r: Ref, ref: Ref)
    requires Tracked(w, ref) && Enabled(w, Release(r))
    ensures Held(After(w, Release(r)), ref) == Apply(Held(w, ref), EffectOn(w, Release(r), ref))
  {
    var ls := Leases(w.s, r.lt);
    var k := IndexOf(ls, r.id);
    if k < |ls| {
      UpdateOnLease(w.s, r.lt, k, ls[k].(ownerDone := true), ref);
      RemoveOnLease(w.s, r.lt, k, ref);
    }
  }

  // ---- the only ways a suspect lease ends -----------------------------------------------------

  /** The step that ends a suspect lease: its reset succeeded, or its owner released it and no reset is marked running. */
  ghost predicate Ends(w: World, step: Step, ref: Ref) {
    || step == ResetReturns(ref, true)
    || (step == Release(ref) && Held(w, ref).Some? && !Held(w, ref).value.recovering)
  }

  lemma EffectOnSuspect(w: World, step: Step, ref: Ref)
    requires Tracked(w, ref) && Enabled(w, step) && Suspect(w, ref)
    ensures EffectOn(w, step, ref).Dropped? <==> Ends(w, step, ref)
    ensures EffectOn(w, step, ref).Set? ==> EffectOn(w, step, ref).l.suspect
  {
    if step.Enter? {
      assert Queued(w.s, w.s.queue[step.i].id);
    } else if step.Progress? {
      UpdateOnLease(w.s, step.lt, step.k, Leases(w.s, step.lt)[step.k], ref);
    }
  }

  lemma SuspectEndsOnlyBy(w: World, step: Step, ref: Ref)
    requires Inv(w) && Enabled(w, step) && Suspect(w, ref)
    ensures Held(After(w, step), ref).None? <==> Ends(w, step, ref)
    ensures !Ends(w, step, ref) ==> Suspect(After(w, step), ref)
  {
    InvMeansTracked(w, ref);
    StepOnLease(w, step, ref);
    EffectOnSuspect(w, step, ref);
  }

  /** A ticket that was handed out and is neither queued nor held is gone for good. */
  ghost predicate Gone(w: World, ref: Ref) {
    ref.id in w.used && !Queued(w.s, ref.id) && Held(w, ref).None?
  }

  lemma EffectOnGone(w: World, step: Step, ref: Ref)
    requires Tracked(w, ref) && Enabled(w, step) && Gone(w, ref)
    ensures EffectOn(w, step, ref).Unchanged?
  {
    if step.Enter? {
      assert Queued(w.s, w.s.queue[step.i].id);
    } else if step.Progress? || step.Watchdog? {
      UpdateOnLease(w.s, step.lt, step.k, Leases(w.s, step.lt)[step.k], ref);
    }
  }

  lemma GoneStaysGone(w: World, step: Step, ref: Ref)
    requires Inv(w) && Enabled(w, step) && Gone(w, ref)
    ensures Gone(After(w, step), ref)
  {
    InvMeansTracked(w, ref);
    StepOnLease(w, step, ref);
    EffectOnGone(w, step, ref);
    GoneIsNotQueuedAgain(w, step, ref.id);
  }

  // ---- the watchdog respects progress -----------------------------------------------------------

  /** The lease is not suspect and not due before the deadline, or it has been let go. */
  ghost predicate Sound(w: World, ref: Ref, deadline: int) {
    match Held(w, ref)
    case None => Gone(w, ref)
    case Some(l) => !l.suspect && l.expiresAt >= deadline
  }

  /** The clock of the step: the watchdog looks before the deadline, and progress is not in the past. */
  predicate InTime(w: World, step: Step, deadline: int) {
    && (step.Watchdog? ==> step.now < deadline)
    && (step.Progress? ==> step.now + w.s.opts.maxLeaseHold >= deadline)
  }

  lemma EffectOnSound(w: World, step: Step, ref: Ref, deadline: int)
    requires Tracked(w, ref) && Enabled(w, step) && Held(w, ref).Some? && !Held(w, ref).value.recovering
    requires Sound(w, ref, deadline) && InTime(w, step, deadline)
    ensures var e := EffectOn(w, step, ref); e.Set? ==> !e.l.suspect && e.l.expiresAt >= deadline
  {
    if step.Enter? {
      assert Queued(w.s, w.s.queue[step.i].id);
    } else if step.Progress? || step.Watchdog? {
      UpdateOnLease(w.s, step.lt, step.k, Leases(w.s, step.lt)[step.k], ref);
    }
  }

  lemma SoundStep(w: World, step: Step, ref: Ref, deadline: int)
    requires Inv(w) && Enabled(w, step) && Sound(w, ref, deadline) && InTime(w, step, deadline)
    ensures Sound(After(w, step), ref, deadline)
  {
    InvMeansTracked(w, ref);
    if Held(w, ref).None? {
      GoneStaysGone(w, step, ref);
    } else {
      var k := IndexOf(Leases(w.s, ref.lt), ref.id);
      assert !Leases(w.s, ref.lt)[k].recovering;
      StepOnLease(w, step, ref);
      EffectOnSound(w, step, ref, deadline);
      GoneIsNotQueuedAgain(w, step, ref.id);
    }
  }

  lemma {:induction false} SoundAlong(ws: seq<World>, steps: seq<Step>, ref: Ref, deadline: int, n: nat)
    requires Run(ws, steps) && Inv(ws[0]) && n < |ws| && Sound(ws[0], ref, deadline)
    requires forall j :: 0 <= j < n ==> InTime(ws[j], steps[j], deadline)
    ensures Sound(ws[n], ref, deadline)
  {
    if n > 0 {
      SoundAlong(ws, steps, ref, deadline, n - 1);
      RunKeepsInv(ws, steps, n - 1);
      SoundStep(ws[n - 1], steps[n - 1], ref, deadline);
    }
  }

  /** While the watchdog's clock is before a lease's deadline, whether set at its grant or by a touch, it does not turn suspect. */
  lemma ProgressHoldsOffWatchdog(ws: seq<World>, steps: seq<Step>, ref: Ref, n: nat)
    requires Run(ws, steps) && Inv(ws[0]) && n < |ws|
    requires Held(ws[0], ref).Some? && !Suspect(ws[0], ref)
    requires forall j :: 0 <= j < n ==> InTime(ws[j], steps[j], Held(ws[0], ref).value.expiresAt)
    ensures Sound(ws[n], ref, Held(ws[0], ref).value.expiresAt)
  {
    SoundAlong(ws, steps, ref, Held(ws[0], ref).value.expiresAt, n);
  }

  /** A touch of a sound lease moves its deadline a whole hold time ahead. */
  lemma TouchMovesDeadline(w: World, k: nat, lt: LeaseType, now: int)
    requires Inv(w) && k < |Leases(w.s, lt)| && !Leases(w.s, lt)[k].suspect
    ensures var ref := Ref(lt, Leases(w.s, lt)[k].ticket.id);
      var w' := After(w, Progress(lt, k, now));
      Held(w', ref).Some? && !Suspect(w', ref) && Held(w', ref).value.expiresAt == now + w.s.opts.maxLeaseHold
  {
    var ref := Ref(lt, Leases(w.s, lt)[k].ticket.id);
    InvMeansTracked(w, ref);
    StepOnLease(w, Progress(lt, k, now), ref);
  }

  lemma SuspectStaysAt(ws: seq<World>, steps: seq<Step>, ref: Ref, j: nat)
    requires Run(ws, steps) && Inv(ws[0]) && j < |steps| && Suspect(ws[j], ref) && !Ends(ws[j], steps[j], ref)
    ensures Suspect(ws[j + 1], ref)
  {
    RunKeepsInv(ws, steps, j);
    SuspectEndsOnlyBy(ws[j], steps[j], ref);
  }

  /** The lease's suspicion alone, without the steps. */
  ghost predicate StaysSuspect(ws: seq<World>, ref: Ref, n: nat)
    requires n < |ws|
  {
    forall j :: 0 <= j < n && Suspect(ws[j], ref) ==> Suspect(ws[j + 1], ref)
  }

  lemma {:induction false} SuspectThroughout(ws: seq<World>, ref: Ref, n: nat)
    requires n < |ws| && StaysSuspect(ws, ref, n) && Suspect(ws[0], ref)
    ensures Suspect(ws[n], ref)
  {
    if n > 0 {
      SuspectThroughout(ws, ref, n - 1);
    }
  }

  lemma SuspectAlong(ws: seq<World>, steps: seq<Step>, ref: Ref, n: nat)
    requires Run(ws, steps) && Inv(ws[0]) && n < |ws| && Suspect(ws[0], ref)
    requires forall j :: 0 <= j < n ==> !Ends(ws[j], steps[j], ref)
    ensures Suspect(ws[n], ref)
  {
    forall j: nat | j < n && Suspect(ws[j], ref)
      ensures Suspect(ws[j + 1], ref)
    {
      SuspectStaysAt(ws, steps, ref, j);
    }
    SuspectThroughout(ws, ref, n);
  }

  lemma NothingGrantable(w: World, id: nat)
    requires Suspect(w, Ref(Transport, id))
    ensures forall i: nat, now: int :: i < |w.s.queue| ==> !Grantable(w.s, i, now)
    ensures forall step: Step :: step.Enter? ==> !Enabled(w, step)
  {
    var k := IndexOf(w.s.transports, id);
    assert w.s.transports[k].suspect;
    assert HasSuspect(w.s.transports);
    forall i: nat, now: int | i < |w.s.queue|
      ensures !Grantable(w.s, i, now)
    {
      SuspectTransportGrantsNothing(w.s, i, now);
    }
  }

  /**
   From the moment a transport is suspect, and for as long as no step ends it, it stays suspect and
   nothing at all is granted: no lease of any kind and no barrier.
   */
  lemma FailClosed(ws: seq<World>, steps: seq<Step>, id: nat, n: nat)
    requires Run(ws, steps) && Inv(ws[0]) && n < |ws|
    requires Suspect(ws[0], Ref(Transport, id))
    requires forall j :: 0 <= j < n ==> !Ends(ws[j], steps[j], Ref(Transport, id))
    ensures Suspect(ws[n], Ref(Transport, id))
    ensures forall i: nat, now: int :: i < |ws[n].s.queue| ==> !Grantable(ws[n].s, i, now)
    ensures forall j :: 0 <= j < n ==> !steps[j].Enter?
  {
    SuspectAlong(ws, steps, Ref(Transport, id), n);
    NothingGrantable(ws[n], id);
    forall j: nat | j < n
      ensures !steps[j].Enter?
    {
      SuspectAlong(ws, steps, Ref(Transport, id), j);
      NothingGrantable(ws[j], id);
    }
  }

  lemma EndingIsGone(w: World, step: Step, ref: Ref)
    requires Inv(w) && Enabled(w, step) && Suspect(w, ref) && Ends(w, step, ref)
    ensures Gone(After(w, step), ref)
  {
    SuspectEndsOnlyBy(w, step, ref);
    InvMeansTracked(w, ref);
    GoneIsNotQueuedAgain(w, step, ref.id);
  }

  lemma {:induction false} GoneAlong(ws: seq<World>, steps: seq<Step>, ref: Ref, i: nat, n: nat)
    requires Run(ws, steps) && Inv(ws[0]) && i <= n < |ws| && Gone(ws[i], ref)
    ensures Gone(ws[n], ref)
    decreases n
  {
    if i < n {
      GoneAlong(ws, steps, ref, i, n - 1);
      RunKeepsInv(ws, steps, n - 1);
      GoneStaysGone(ws[n - 1], steps[n - 1], ref);
    }
  }

  /** Once ended, it never comes back, so it leaves exactly once. */
  lemma EndsOnce(ws: seq<World>, steps: seq<Step>, ref: Ref, n: nat)
    requires Run(ws, steps) && Inv(ws[0]) && 0 < n < |ws|
    requires Suspect(ws[0], ref) && Ends(ws[0], steps[0], ref)
    ensures Gone(ws[n], ref)
  {
    EndingIsGone(ws[0], steps[0], ref);
    GoneAlong(ws, steps, ref, 1, n);
  }

  // ---- "no reset marked running" and "no reset running" -------------------------------------

  /** The watchdog callback fires on a lease that is not suspect yet: once per lease. */
  ghost predicate SingleShot(w: World, step: Step) {
    step.Watchdog? && step.k < |Leases(w.s, step.lt)| ==> !Leases(w.s, step.lt)[step.k].suspect
  }

  /** A reset in flight is the only one for its lease, and the lease is held and marked recovering. */
  ghost predicate ResetsMarked(w: World) {
    forall ref :: ref in w.resets ==> Marked(w, ref)
  }

  ghost predicate Marked(w: World, ref: Ref) {
    w.resets[ref] == 1 && Held(w, ref).Some? && Held(w, ref).value.suspect && Held(w, ref).value.recovering
  }

  lemma SingleShotKeepsMark(w: World, step: Step, ref: Ref)
    requires Tracked(w, ref) && Enabled(w, step) && SingleShot(w, step)
    requires ref in w.resets ==> Marked(w, ref)
    requires Held(w, ref).Some? && Held(w, ref).value.recovering ==> Held(w, ref).value.suspect
    ensures ref in After(w, step).resets ==> Marked(After(w, step), ref)
  {
    StepOnLease(w, step, ref);
    if step.Progress? || step.Watchdog? {
      UpdateOnLease(w.s, step.lt, step.k, Leases(w.s, step.lt)[step.k], ref);
    } else if step.Enter? {
      assert Queued(w.s, w.s.queue[step.i].id);
    }
  }

  lemma SingleShotKeepsMarks(w: World, step: Step)
    requires Inv(w) && ResetsMarked(w) && Enabled(w, step) && SingleShot(w, step)
    ensures ResetsMarked(After(w, step))
  {
    forall ref | ref in After(w, step).resets
      ensures Marked(After(w, step), ref)
    {
      InvMeansTracked(w, ref);
      SingleShotKeepsMark(w, step, ref);
    }
  }

  /**
   If callbacks fire once per lease, an owner's release drops a suspect lease only when no reset of
   it is in flight, in every state of every run.
   */
  lemma {:induction false} ReleaseNeverRacesReset(ws: seq<World>, steps: seq<Step>, n: nat)
    requires Run(ws, steps) && Start(ws[0]) && n < |ws|
    requires forall j :: 0 <= j < n ==> SingleShot(ws[j], steps[j])
    ensures ResetsMarked(ws[n])
    ensures forall ref :: Suspect(ws[n], ref) && Ends(ws[n], Release(ref), ref) ==> ref !in ws[n].resets
  {
    if n > 0 {
      ReleaseNeverRacesReset(ws, steps, n - 1);
      StartHolds(ws[0]);
      RunKeepsInv(ws, steps, n - 1);
      SingleShotKeepsMarks(ws[n - 1], steps[n - 1]);
    }
  }

  // ---- with a second callback it can ------------------------------------------------------------

  /** Resets are in flight only where a way to reset is configured. */
  ghost predicate Hooked(w: World) {
    forall ref :: ref in w.resets ==> w.s.opts.canRecover
  }

  /** What never changes or only grows along a run. */
  lemma {:induction false} AlongRun(ws: seq<World>, steps: seq<Step>, n: nat)
    requires Run(ws, steps) && n < |ws|
    ensures ws[n].s.opts == ws[0].s.opts && ws[0].released <= ws[n].released
    ensures Hooked(ws[0]) ==> Hooked(ws[n])
  {
    if n > 0 {
      AlongRun(ws, steps, n - 1);
      StepGrows(ws[n - 1], steps[n - 1]);
    }
  }

  lemma StepGrows(w: World, step: Step)
    requires Enabled(w, step)
    ensures After(w, step).s.opts == w.s.opts && w.released <= After(w, step).released
    ensures Hooked(w) ==> Hooked(After(w, step))
  {
  }

  lemma RunCons(w: World, step: Step, ws: seq<World>, steps: seq<Step>)
    requires Run(ws, steps) && Enabled(w, step) && ws[0] == After(w, step)
    ensures Run([w] + ws, [step] + steps)
  {
    var ws', steps' := [w] + ws, [step] + steps;
    forall i | 0 <= i < |steps'|
      ensures Enabled(ws'[i], steps'[i]) && ws'[i + 1] == After(ws'[i], steps'[i])
    {
      if i > 0 {
        assert ws'[i] == ws[i - 1] && steps'[i] == steps[i - 1] && ws'[i + 1] == ws[i];
      }
    }
  }

  /** The owner's release drops the lease although a reset of it is in flight. */
  ghost predicate DropsUnderReset(w: World, step: Step, ref: Ref) {
    step == Release(ref) && Held(w, ref).Some? && !Held(w, ref).value.recovering && ref in w.resets
  }

  /** A run from w whose last step does so. */
  ghost predicate RaceRun(w: World, ref: Ref, ws: seq<World>, steps: seq<Step>) {
    Run(ws, steps) && ws[0] == w && steps != [] && DropsUnderReset(ws[|steps| - 1], steps[|steps| - 1], ref)
  }

  ghost predicate CanRace(w: World, ref: Ref) {
    exists ws, steps :: RaceRun(w, ref, ws, steps)
  }

  lemma RaceAfter(w: World, step: Step, ref: Ref)
    requires Enabled(w, step) && CanRace(After(w, step), ref)
    ensures CanRace(w, ref)
  {
    var ws, steps :| RaceRun(After(w, step), ref, ws, steps);
    RunCons(w, step, ws, steps);
    assert RaceRun(w, ref, [w] + ws, [step] + steps);
  }

  lemma RaceNow(w: World, ref: Ref)
    requires Enabled(w, Release(ref)) && DropsUnderReset(w, Release(ref), ref)
    ensures CanRace(w, ref)
  {
    assert RaceRun(w, ref, [w, After(w, Release(ref))], [Release(ref)]);
  }

  function PositionOf(w: World, ref: Ref): nat {
    IndexOf(Leases(w.s, ref.lt), ref.id)
  }

  /** The watchdog fires on an overdue lease while a way to reset is configured. */
  lemma FireOn(w: World, ref: Ref, now: int)
    requires Inv(w) && Held(w, ref).Some? && now >= Held(w, ref).value.expiresAt && w.s.opts.canRecover
    ensures var fire := Watchdog(ref.lt, PositionOf(w, ref), now);
      && Enabled(w, fire) && Inv(After(w, fire))
      && Held(After(w, fire), ref) == Some(Held(w, ref).value.(suspect := true, recovering := true))
      && After(w, fire).resets == w.resets + multiset{ref} && After(w, fire).released == w.released
      && After(w, fire).s.opts == w.s.opts
  {
    var fire := Watchdog(ref.lt, PositionOf(w, ref), now);
    InvMeansTracked(w, ref);
    StepOnLease(w, fire, ref);
    StepKeeps(w, fire);
  }

  lemma FailOn(w: World, ref: Ref)
    requires Inv(w) && Suspect(w, ref) && ref in w.resets
    ensures var fail := ResetReturns(ref, false);
      && Enabled(w, fail) && Inv(After(w, fail))
      && Held(After(w, fail), ref) == Some(Held(w, ref).value.(recovering := false))
      && After(w, fail).resets == w.resets - multiset{ref} && After(w, fail).released == w.released
      && After(w, fail).s.opts == w.s.opts
  {
    InvMeansTracked(w, ref);
    StepOnLease(w, ResetReturns(ref, false), ref);
    StepKeeps(w, ResetReturns(ref, false));
  }

  lemma ReleaseEnabled(w: World, ref: Ref)
    requires Inv(w) && Held(w, ref).Some? && ref !in w.released
    ensures Enabled(w, Release(ref))
  {
    InvMeansTracked(w, ref);
  }

  /**
   Two callbacks for one lease start two resets; the failure of one clears the mark, and the owner's
   release then drops the lease under the other. Nothing but a way to reset and the owner's handle is needed.
   */
  lemma DoubleFiringRacesReset(w: World, ref: Ref)
    requires Inv(w) && Held(w, ref).Some? && ref !in w.released && w.s.opts.canRecover
    ensures CanRace(w, ref)
  {
    var now := Held(w, ref).value.expiresAt;
    FireOn(w, ref, now);
    var w1 := After(w, Watchdog(ref.lt, PositionOf(w, ref), now));
    FireOn(w1, ref, now);
    var w2 := After(w1, Watchdog(ref.lt, PositionOf(w1, ref), now));
    FailOn(w2, ref);
    var w3 := After(w2, ResetReturns(ref, false));
    ReleaseEnabled(w3, ref);
    RaceNow(w3, ref);
    RaceAfter(w2, ResetReturns(ref, false), ref);
    RaceAfter(w1, Watchdog(ref.lt, PositionOf(w1, ref), now), ref);
    RaceAfter(w, Watchdog(ref.lt, PositionOf(w, ref), now), ref);
  }

  /**
   With callbacks that may fire any number of times, a release can drop a granted lease under a reset
   exactly when the lease is still held, its handle unused and a way to reset configured.
   */
  lemma RaceIff(w: World, ref: Ref)
    requires Inv(w) && Hooked(w) && ref.id in w.used && !Queued(w.s, ref.id)
    ensures CanRace(w, ref) <==> Held(w, ref).Some? && ref !in w.released && w.s.opts.canRecover
  {
    if CanRace(w, ref) {
      var ws, steps :| RaceRun(w, ref, ws, steps);
      var n := |steps| - 1;
      AlongRun(ws, steps, n);
      if Held(w, ref).None? {
        GoneAlong(ws, steps, ref, 0, n);
      }
    }
    if Held(w, ref).Some? && ref !in w.released && w.s.opts.canRecover {
      DoubleFiringRacesReset(w, ref);
    }
  }

  // ---- a release swallowed by a failing reset -----------------------------------------------

  /** The owner has used its handle and no reset is in flight: nobody is left to end the lease. */
  ghost predicate Stranded(w: World, ref: Ref) {
    Suspect(w, ref) && ref in w.released && ref !in w.resets
  }

  ghost predicate SingleShots(ws: seq<World>, steps: seq<Step>)
    requires |ws| == |steps| + 1
  {
    forall j :: 0 <= j < |steps| ==> SingleShot(ws[j], steps[j])
  }

  /** A run from w, with callbacks firing once per lease, that strands the lease. */
  ghost predicate StrandRun(w: World, ref: Ref, ws: seq<World>, steps: seq<Step>) {
    Run(ws, steps) && ws[0] == w && SingleShots(ws, steps) && Stranded(ws[|steps|], ref)
  }

  ghost predicate CanStrand(w: World, ref: Ref) {
    exists ws, steps :: StrandRun(w, ref, ws, steps)
  }

  lemma StrandAfter(w: World, step: Step, ref: Ref)
    requires Enabled(w, step) && SingleShot(w, step) && CanStrand(After(w, step), ref)
    ensures CanStrand(w, ref)
  {
    var ws, steps :| StrandRun(After(w, step), ref, ws, steps);
    RunCons(w, step, ws, steps);
    var ws', steps' := [w] + ws, [step] + steps;
    assert forall j :: 1 <= j < |steps'| ==> ws'[j] == ws[j - 1] && steps'[j] == steps[j - 1];
    assert StrandRun(w, ref, ws', steps');
  }

  lemma StrandNow(w: World, ref: Ref)
    requires Stranded(w, ref)
    ensures CanStrand(w, ref)
  {
    assert StrandRun(w, ref, [w], []);
  }

  /** The owner lets go while a reset runs: that is only noted, and uses up the handle. */
  lemma NoteOn(w: World, ref: Ref)
    requires Inv(w) && Held(w, ref).Some? && Held(w, ref).value.recovering && ref !in w.released
    ensures Enabled(w, Release(ref)) && Inv(After(w, Release(ref)))
    ensures Held(After(w, Release(ref)), ref) == Some(Held(w, ref).value.(ownerDone := true))
    ensures After(w, Release(ref)).resets == w.resets && ref in After(w, Release(ref)).released
  {
    ReleaseEnabled(w, ref);
    InvMeansTracked(w, ref);
    StepOnLease(w, Release(ref), ref);
    StepKeeps(w, Release(ref));
  }

  /**
   How a lease gets there: it is overdue, its reset starts, the owner releases it meanwhile, and the
   reset fails. Every callback fires once.
   */
  lemma SwallowedReleaseIsReachable(w: World, ref: Ref)
    requires Inv(w) && Held(w, ref).Some? && !Suspect(w, ref) && ref !in w.released && ref !in w.resets && w.s.opts.canRecover
    ensures CanStrand(w, ref)
  {
    var now := Held(w, ref).value.expiresAt;
    var fire := Watchdog(ref.lt, PositionOf(w, ref), now);
    FireOn(w, ref, now);
    var w1 := After(w, fire);
    NoteOn(w1, ref);
    var w2 := After(w1, Release(ref));
    FailOn(w2, ref);
    var w3 := After(w2, ResetReturns(ref, false));
    StrandNow(w3, ref);
    StrandAfter(w2, ResetReturns(ref, false), ref);
    StrandAfter(w1, Release(ref), ref);
    StrandAfter(w, fire, ref);
  }

  lemma StrandedStays(w: World, step: Step, ref: Ref)
    requires Inv(w) && Enabled(w, step) && SingleShot(w, step) && Stranded(w, ref)
    ensures !Ends(w, step, ref) && Stranded(After(w, step), ref)
  {
    SuspectEndsOnlyBy(w, step, ref);
    InvMeansTracked(w, ref);
    if step.Watchdog? {
      UpdateOnLease(w.s, step.lt, step.k, Leases(w.s, step.lt)[step.k], ref);
    }
  }

  lemma {:induction false} StrandedAlong(ws: seq<World>, steps: seq<Step>, ref: Ref, n: nat)
    requires Run(ws, steps) && Inv(ws[0]) && n < |ws| && Stranded(ws[0], ref) && SingleShots(ws, steps)
    ensures Stranded(ws[n], ref) && forall j :: 0 <= j < n ==> !Ends(ws[j], steps[j], ref)
  {
    if n > 0 {
      StrandedAlong(ws, steps, ref, n - 1);
      RunKeepsInv(ws, steps, n - 1);
      StrandedStays(ws[n - 1], steps[n - 1], ref);
    }
  }

  /**
   A stranded transport stays suspect in every continuation in which callbacks fire once per lease,
   and the arbiter never grants anything again.
   */
  lemma SwallowedReleaseIsPermanent(ws: seq<World>, steps: seq<Step>, id: nat, n: nat)
    requires Run(ws, steps) && Inv(ws[0]) && n < |ws| && SingleShots(ws, steps)
    requires Stranded(ws[0], Ref(Transport, id))
    ensures Stranded(ws[n], Ref(Transport, id))
    ensures forall j :: 0 <= j < n ==> !Ends(ws[j], steps[j], Ref(Transport, id)) && !steps[j].Enter?
    ensures forall i: nat, now: int :: i < |ws[n].s.queue| ==> !Grantable(ws[n].s, i, now)
  {
    StrandedAlong(ws, steps, Ref(Transport, id), n);
    FailClosed(ws, steps, id, n);
  }

  /** A run from w, with callbacks firing once per lease, whose last step ends the lease. */
  ghost predicate EndRun(w: World, ref: Ref, ws: seq<World>, steps: seq<Step>) {
    Run(ws, steps) && ws[0] == w && steps != [] && SingleShots(ws, steps) && Ends(ws[|steps| - 1], steps[|steps| - 1], ref)
  }

  ghost predicate CanEnd(w: World, ref: Ref) {
    exists ws, steps :: EndRun(w, ref, ws, steps)
  }

  /** With callbacks that fire once per lease, a suspect lease can still end exactly when it is not stranded. */
  lemma CanEndIff(w: World, ref: Ref)
    requires Inv(w) && Suspect(w, ref)
    ensures CanEnd(w, ref) <==> ref !in w.released || ref in w.resets
  {
    if CanEnd(w, ref) && Stranded(w, ref) {
      var ws, steps :| EndRun(w, ref, ws, steps);
      StrandedAlong(ws, steps, ref, |steps|);
    } else if ref in w.resets {
      EndRunOfOne(w, ref, ResetReturns(ref, true));
    } else if ref !in w.released {
      ReleaseEnabled(w, ref);
      assert !Leases(w.s, ref.lt)[PositionOf(w, ref)].recovering;
      EndRunOfOne(w, ref, Release(ref));
    }
  }

  lemma EndRunOfOne(w: World, ref: Ref, step: Step)
    requires Enabled(w, step) && !step.Watchdog? && Ends(w, step, ref)
    ensures CanEnd(w, ref)
  {
    assert EndRun(w, ref, [w, After(w, step)], [step]);
  }
}
