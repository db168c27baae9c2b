/**
 The watchdog's timers: every grant arms one, a touch arms it again, and a timer that has fired has
 started a callback that still has to take the arbiter's lock. A touch may come in between; then a
 second callback can start before the first has run. Time does not go back.
 */
module ArbiterTimers {
  import opened ArbiterProtocol
  import opened ArbiterRuns
  import opened ArbiterScheduling
  import opened ArbiterRecovery
  import opened Wrappers

  /** `armed`: when a lease's timer fires next; `started`: callbacks that have fired and not yet run. */
  datatype Timed = Timed(w: World, armed: map<Ref, int>, started: multiset<Ref>, clock: int)

  datatype Event =
    | Plain(step: Step)
    | Granted(i: nat, now: int)
    | Touched(lt: LeaseType, k: nat, now: int)
    | Fires(ref: Ref, now: int)
    | Runs(ref: Ref, now: int)
    | Released(ref: Ref)

  predicate NeedsNoTimer(step: Step) {
    !step.Enter? && !step.Progress? && !step.Watchdog? && !step.Release?
  }

  predicate Overdue(w: World, ref: Ref, now: int) {
    Held(w, ref).Some? && now >= Held(w, ref).value.expiresAt
  }

  /** The critical section an event runs, if it runs one that changes anything. */
  function Section(x: Timed, e: Event): Option<Step> {
    match e
    case Plain(step) => Some(step)
    case Granted(i, now) => Some(Enter(i, now))
    case Touched(lt, k, now) => Some(Progress(lt, k, now))
    case Fires(_, _) => None
    case Runs(ref, now) => if Overdue(x.w, ref, now) then Some(Watchdog(ref.lt, PositionOf(x.w, ref), now)) else None
    case Released(ref) => Some(Release(ref))
  }

  function TimeOf(x: Timed, e: Event): int {
    match e
    case Plain(_) | Released(_) => x.clock
    case Granted(_, now) => now
    case Touched(_, _, now) => now
    case Fires(_, now) => now
    case Runs(_, now) => now
  }

  ghost predicate Possible(x: Timed, e: Event) {
    && TimeOf(x, e) >= x.clock
    && (Section(x, e).Some? ==> Enabled(x.w, Section(x, e).value))
    && (e.Plain? ==> NeedsNoTimer(e.step))
    && (e.Fires? ==> e.ref in x.armed && e.now >= x.armed[e.ref])
    && (e.Runs? ==> e.ref in x.started)
  }

  /** Once a lease is suspect its timer is forgotten: it is neither armed again nor stopped. */
  ghost function Armed(x: Timed, e: Event): map<Ref, int>
    requires Possible(x, e)
  {
    match e
    case Granted(i, now) =>
      var t := x.w.s.queue[i];
      if t.leaseType == Barrier then x.armed else x.armed[Ref(t.leaseType, t.id) := now + x.w.s.opts.maxLeaseHold]
    case Touched(lt, k, now) =>
      var l := Leases(x.w.s, lt)[k];
      if l.suspect then x.armed else x.armed[Ref(lt, l.ticket.id) := now + x.w.s.opts.maxLeaseHold]
    case Fires(ref, _) => x.armed - {ref}
    case Runs(ref, now) =>
      if Held(x.w, ref).Some? && !Suspect(x.w, ref) && !Overdue(x.w, ref, now)
      then x.armed[ref := Held(x.w, ref).value.expiresAt] else x.armed
    case Released(ref) => if Held(x.w, ref).Some? && !Suspect(x.w, ref) then x.armed - {ref} else x.armed
    case Plain(_) => x.armed
  }

  ghost function Next(x: Timed, e: Event): Timed
    requires Possible(x, e)
  {
    Timed(
      match Section(x, e) { case None => x.w case Some(step) => After(x.w, step) },
      Armed(x, e),
      if e.Fires? then x.started + multiset{e.ref} else if e.Runs? then x.started - multiset{e.ref} else x.started,
      TimeOf(x, e))
  }

  ghost predicate TimedRun(xs: seq<Timed>, es: seq<Event>) {
    && |xs| == |es| + 1
    && forall i :: 0 <= i < |es| ==> Possible(xs[i], es[i]) && xs[i + 1] == Next(xs[i], es[i])
  }

  ghost predicate TimedStart(x: Timed) {
    Start(x.w) && x.armed == map[] && x.started == multiset{}
  }

  /** Callbacks of the lease that have started or will. */
  function Charges(x: Timed, ref: Ref): nat {
    (if ref in x.armed then 1 else 0) + x.started[ref]
  }

  // ---- what every timed run keeps ---------------------------------------------------------------

  /** A ticket that has been handed out and is not queued. */
  ghost predicate Known(w: World, ref: Ref) {
    ref.id in w.used && !Queued(w.s, ref.id)
  }

  ghost predicate Live(w: World, ref: Ref) {
    Held(w, ref).Some? && !Suspect(w, ref)
  }

  /** What is known of one lease's timers. */
  ghost predicate Timing(x: Timed, ref: Ref) {
    && (Charges(x, ref) > 0 ==> Known(x.w, ref))
    && (Live(x.w, ref) ==> Charges(x, ref) > 0)
    && (Suspect(x.w, ref) ==> x.clock >= Held(x.w, ref).value.expiresAt)
  }

  ghost predicate TimedInv(x: Timed) {
    Inv(x.w) && Hooked(x.w) && forall ref :: Timing(x, ref)
  }

  /** What one event does to the lease a handle names: what its critical section does. */
  lemma EventOnLease(x: Timed, e: Event, ref: Ref)
    requires Inv(x.w) && Possible(x, e)
    ensures Held(Next(x, e).w, ref) ==
            match Section(x, e) { case None => Held(x.w, ref) case Some(step) => Apply(Held(x.w, ref), EffectOn(x.w, step, ref)) }
  {
    InvMeansTracked(x.w, ref);
    if Section(x, e).Some? {
      StepOnLease(x.w, Section(x, e).value, ref);
    }
  }

  lemma EventKeepsWorld(x: Timed, e: Event)
    requires Inv(x.w) && Hooked(x.w) && Possible(x, e)
    ensures Inv(Next(x, e).w) && Hooked(Next(x, e).w)
    ensures Next(x, e).w.s.opts == x.w.s.opts && x.w.released <= Next(x, e).w.released
  {
    if Section(x, e).Some? {
      StepKeeps(x.w, Section(x, e).value);
      StepGrows(x.w, Section(x, e).value);
    }
  }

  lemma UsedStays(w: World, step: Step, id: nat)
    requires Enabled(w, step) && id in w.used && !Queued(w.s, id)
    ensures id in After(w, step).used && !Queued(After(w, step).s, id)
  {
    GoneIsNotQueuedAgain(w, step, id);
  }

  /** An event that grants, touches or drops some other lease leaves this one's timers alone. */
  lemma OtherCharges(x: Timed, e: Event, ref: Ref)
    requires Possible(x, e) && Subject(x, e) != Some(ref)
    ensures Charges(Next(x, e), ref) == Charges(x, ref)
  {
  }

  /** The lease whose timers an event may change. */
  ghost function Subject(x: Timed, e: Event): Option<Ref>
    requires Possible(x, e)
  {
    match e
    case Plain(_) => None
    case Granted(i, _) => var t := x.w.s.queue[i]; Some(Ref(t.leaseType, t.id))
    case Touched(lt, k, _) => Some(Ref(lt, Leases(x.w.s, lt)[k].ticket.id))
    case Fires(ref, _) => Some(ref)
    case Runs(ref, _) => Some(ref)
    case Released(ref) => Some(ref)
  }

  lemma KnownStays(x: Timed, e: Event, ref: Ref)
    requires Possible(x, e) && Known(x.w, ref)
    ensures Known(Next(x, e).w, ref)
  {
    if Section(x, e).Some? {
      UsedStays(x.w, Section(x, e).value, ref.id);
    }
  }

  lemma GrantedIsOut(w: World, i: nat, now: int)
    requires Inv(w) && Enabled(w, Enter(i, now))
    ensures w.s.queue[i].id in w.used && !Queued(After(w, Enter(i, now)).s, w.s.queue[i].id)
  {
    InvMeansDistinct(w);
    QueueAfter(w, Enter(i, now));
    QueuedIsUsed(w, i);
    var q := After(w, Enter(i, now)).s.queue;
    assert q == RemoveAt(w.s.queue, i);
    assert forall j :: 0 <= j < |q| ==> q[j] == w.s.queue[if j < i then j else j + 1];
  }

  lemma TouchedIsHeld(x: Timed, lt: LeaseType, k: nat, now: int)
    requires Inv(x.w) && Possible(x, Touched(lt, k, now))
    ensures var ref := Subject(x, Touched(lt, k, now)).value;
      Held(x.w, ref) == Some(Leases(x.w.s, lt)[k]) && Known(x.w, ref)
  {
    var ref := Subject(x, Touched(lt, k, now)).value;
    InvMeansTracked(x.w, ref);
    UpdateOnLease(x.w.s, lt, k, Leases(x.w.s, lt)[k], ref);
  }

  lemma ChargesAppear(x: Timed, e: Event, ref: Ref)
    requires Possible(x, e) && Charges(x, ref) == 0 && Charges(Next(x, e), ref) > 0
    ensures (e.Granted? || e.Touched?) && Subject(x, e) == Some(ref)
  {
    if Subject(x, e) != Some(ref) {
      OtherCharges(x, e, ref);
    }
  }

  lemma KnownStep(x: Timed, e: Event, ref: Ref)
    requires TimedInv(x) && Possible(x, e)
    ensures Charges(Next(x, e), ref) > 0 ==> Known(Next(x, e).w, ref)
  {
    assert Timing(x, ref);
    if Charges(x, ref) > 0 {
      KnownStays(x, e, ref);
    } else if Charges(Next(x, e), ref) > 0 {
      ChargesAppear(x, e, ref);
      if e.Granted? {
        GrantedIsOut(x.w, e.i, e.now);
      } else {
        TouchedIsHeld(x, e.lt, e.k, e.now);
        KnownStays(x, e, ref);
      }
    }
  }

  lemma SectionElse(x: Timed, e: Event, ref: Ref)
    requires Inv(x.w) && Possible(x, e) && Section(x, e).Some? && Subject(x, e) != Some(ref)
    ensures var f := EffectOn(x.w, Section(x, e).value, ref);
      f.Set? ==> f.l.suspect && Suspect(x.w, ref) && f.l.expiresAt == Held(x.w, ref).value.expiresAt
  {
    InvMeansTracked(x.w, ref);
  }

  /** What a critical section can do to a lease: nothing, note something about it, renew, mark or drop it. */
  lemma SectionEffect(x: Timed, e: Event, ref: Ref)
    requires Inv(x.w) && Possible(x, e) && Section(x, e).Some?
    ensures var f := EffectOn(x.w, Section(x, e).value, ref);
      && (Subject(x, e) != Some(ref) && f.Set? ==> f.l.suspect && Suspect(x.w, ref) && f.l.expiresAt == Held(x.w, ref).value.expiresAt)
      && (f.Set? && Suspect(x.w, ref) ==> f.l.suspect && f.l.expiresAt == Held(x.w, ref).value.expiresAt)
  {
    var step := Section(x, e).value;
    InvMeansTracked(x.w, ref);
    if Subject(x, e) != Some(ref) {
      SectionElse(x, e, ref);
    } else if e.Granted? {
      assert Queued(x.w.s, x.w.s.queue[e.i].id);
    } else if step.Progress? || step.Watchdog? {
      UpdateOnLease(x.w.s, step.lt, step.k, Leases(x.w.s, step.lt)[step.k], ref);
    }
  }

  lemma LiveBefore(x: Timed, e: Event, ref: Ref)
    requires Inv(x.w) && Possible(x, e) && Subject(x, e) != Some(ref) && Live(Next(x, e).w, ref)
    ensures Live(x.w, ref)
  {
    EventOnLease(x, e, ref);
    if Section(x, e).Some? {
      SectionEffect(x, e, ref);
    }
  }

  lemma LiveTouched(x: Timed, lt: LeaseType, k: nat, now: int)
    requires TimedInv(x) && Possible(x, Touched(lt, k, now))
    ensures var ref := Subject(x, Touched(lt, k, now)).value; var y := Next(x, Touched(lt, k, now));
      Live(y.w, ref) ==> Charges(y, ref) > 0
  {
    var e := Touched(lt, k, now);
    TouchedIsHeld(x, lt, k, now);
    EventOnLease(x, e, Subject(x, e).value);
  }

  lemma LiveRuns(x: Timed, ref: Ref, now: int)
    requires TimedInv(x) && Possible(x, Runs(ref, now))
    ensures var y := Next(x, Runs(ref, now)); Live(y.w, ref) ==> Charges(y, ref) > 0
  {
    EventOnLease(x, Runs(ref, now), ref);
  }

  lemma LiveReleased(x: Timed, ref: Ref)
    requires TimedInv(x) && Possible(x, Released(ref))
    ensures !Live(Next(x, Released(ref)).w, ref)
  {
    EventOnLease(x, Released(ref), ref);
    NotRecovering(x.w, ref);
  }

  lemma LiveOwn(x: Timed, e: Event, ref: Ref)
    requires TimedInv(x) && Possible(x, e) && Subject(x, e) == Some(ref)
    ensures Live(Next(x, e).w, ref) ==> Charges(Next(x, e), ref) > 0
  {
    match e
    case Plain(_) =>
    case Granted(_, _) =>
    case Fires(_, _) =>
    case Touched(lt, k, now) => LiveTouched(x, lt, k, now);
    case Runs(r, now) => LiveRuns(x, r, now);
    case Released(r) => LiveReleased(x, r);
  }

  lemma LiveStep(x: Timed, e: Event, ref: Ref)
    requires TimedInv(x) && Possible(x, e)
    ensures Live(Next(x, e).w, ref) ==> Charges(Next(x, e), ref) > 0
  {
    if Subject(x, e) == Some(ref) {
      LiveOwn(x, e, ref);
    } else if Live(Next(x, e).w, ref) {
      LiveBefore(x, e, ref);
      OtherCharges(x, e, ref);
      assert Timing(x, ref);
    }
  }

  lemma DueStep(x: Timed, e: Event, ref: Ref)
    requires TimedInv(x) && Possible(x, e) && Suspect(Next(x, e).w, ref)
    ensures Next(x, e).clock >= Held(Next(x, e).w, ref).value.expiresAt
  {
    assert Timing(x, ref);
    SuspectOnlyByRun(x, e, ref);
    EventOnLease(x, e, ref);
    if Section(x, e).Some? {
      SectionEffect(x, e, ref);
    }
  }

  lemma FiresTiming(x: Timed, r: Ref, now: int, ref: Ref)
    requires TimedInv(x) && Possible(x, Fires(r, now))
    ensures Charges(Next(x, Fires(r, now)), ref) == Charges(x, ref)
  {
  }

  lemma NotRecovering(w: World, ref: Ref)
    requires Inv(w)
    ensures Held(w, ref).Some? && Held(w, ref).value.recovering ==> Suspect(w, ref) && ref in w.resets && w.s.opts.canRecover
    ensures Held(w, ref).Some? && ref in w.released ==> Held(w, ref).value.ownerDone && Suspect(w, ref)
  {
    var k := PositionOf(w, ref);
    assert k < |Leases(w.s, ref.lt)| ==> Leases(w.s, ref.lt)[k].ticket.id == ref.id;
  }

  lemma EventKeepsInv(x: Timed, e: Event)
    requires TimedInv(x) && Possible(x, e)
    ensures TimedInv(Next(x, e))
  {
    EventKeepsWorld(x, e);
    forall ref
      ensures Timing(Next(x, e), ref)
    {
      KnownStep(x, e, ref);
      LiveStep(x, e, ref);
      if Suspect(Next(x, e).w, ref) {
        DueStep(x, e, ref);
      }
    }
  }

  lemma TimedStartHolds(x: Timed)
    requires TimedStart(x)
    ensures TimedInv(x)
  {
    StartHolds(x.w);
    forall ref
      ensures Held(x.w, ref).None?
    {
      assert Leases(x.w.s, ref.lt) == [];
    }
  }

  /** Timed runs keep the arbiter's invariant, and every granted lease that is not suspect has a callback to come. */
  lemma {:induction false} TimedRunKeepsInv(xs: seq<Timed>, es: seq<Event>, n: nat)
    requires TimedRun(xs, es) && TimedInv(xs[0]) && n < |xs|
    ensures TimedInv(xs[n])
  {
    if n > 0 {
      TimedRunKeepsInv(xs, es, n - 1);
      EventKeepsInv(xs[n - 1], es[n - 1]);
    }
  }

  // ---- one callback at a time ---------------------------------------------------------------------

  /** No touch comes between a timer's firing and its callback's turn. */
  ghost predicate Calm(x: Timed, e: Event)
    requires Possible(x, e)
  {
    e.Touched? ==> Subject(x, e).value !in x.started
  }

  ghost predicate OneCharge(x: Timed, ref: Ref) {
    Charges(x, ref) <= 1 && (Suspect(x.w, ref) ==> Charges(x, ref) == 0)
  }

  ghost predicate Single(x: Timed) {
    ResetsMarked(x.w) && forall ref :: OneCharge(x, ref)
  }

  lemma SingleSection(x: Timed, e: Event)
    requires TimedInv(x) && Possible(x, e) && Single(x)
    ensures Section(x, e).Some? ==> SingleShot(x.w, Section(x, e).value)
  {
    if e.Runs? {
      assert OneCharge(x, e.ref);
    }
  }

  lemma EffectIsSuspect(w: World, step: Step, ref: Ref)
    requires Tracked(w, ref) && Enabled(w, step) && EffectOn(w, step, ref).Set? && EffectOn(w, step, ref).l.suspect
    ensures Suspect(w, ref) || (step.Watchdog? && step.lt == ref.lt && Leases(w.s, step.lt)[step.k].ticket.id == ref.id)
  {
    if step.Release? {
      assert Held(w, ref).Some?;
    }
  }

  /** Only its own callback turns a lease suspect. */
  lemma SuspectOnlyByRun(x: Timed, e: Event, ref: Ref)
    requires Inv(x.w) && Possible(x, e)
    ensures Suspect(Next(x, e).w, ref) ==> Suspect(x.w, ref) || (e.Runs? && e.ref == ref)
  {
    EventOnLease(x, e, ref);
    InvMeansTracked(x.w, ref);
    if Section(x, e).Some? {
      var effect := EffectOn(x.w, Section(x, e).value, ref);
      if effect.Set? && effect.l.suspect {
        EffectIsSuspect(x.w, Section(x, e).value, ref);
      }
    }
  }

  lemma OneChargeGranted(x: Timed, i: nat, now: int, ref: Ref)
    requires TimedInv(x) && Possible(x, Granted(i, now)) && OneCharge(x, ref)
    ensures OneCharge(Next(x, Granted(i, now)), ref)
  {
    SuspectOnlyByRun(x, Granted(i, now), ref);
    InvMeansTracked(x.w, ref);
    assert Timing(x, ref) && Queued(x.w.s, x.w.s.queue[i].id);
  }

  lemma OneChargeTouched(x: Timed, lt: LeaseType, k: nat, now: int, ref: Ref)
    requires TimedInv(x) && Possible(x, Touched(lt, k, now)) && Calm(x, Touched(lt, k, now)) && OneCharge(x, ref)
    ensures OneCharge(Next(x, Touched(lt, k, now)), ref)
  {
    SuspectOnlyByRun(x, Touched(lt, k, now), ref);
    InvMeansTracked(x.w, ref);
    UpdateOnLease(x.w.s, lt, k, Leases(x.w.s, lt)[k], ref);
  }

  lemma OneChargeRuns(x: Timed, r: Ref, now: int, ref: Ref)
    requires TimedInv(x) && Possible(x, Runs(r, now)) && OneCharge(x, ref)
    ensures OneCharge(Next(x, Runs(r, now)), ref)
  {
    var e := Runs(r, now);
    SuspectOnlyByRun(x, e, ref);
    if r == ref && !Overdue(x.w, ref, now) {
      assert Next(x, e).w == x.w;
    }
  }

  lemma OneChargeStep(x: Timed, e: Event, ref: Ref)
    requires TimedInv(x) && Possible(x, e) && Calm(x, e) && OneCharge(x, ref)
    ensures OneCharge(Next(x, e), ref)
  {
    match e
    case Granted(i, now) => OneChargeGranted(x, i, now, ref);
    case Touched(lt, k, now) => OneChargeTouched(x, lt, k, now, ref);
    case Runs(r, now) => OneChargeRuns(x, r, now, ref);
    case Plain(_) => SuspectOnlyByRun(x, e, ref);
    case Released(_) => SuspectOnlyByRun(x, e, ref);
    case Fires(r, now) => FiresTiming(x, r, now, ref);
  }

  /** Without such touches callbacks fire once per lease, so no release ever races a reset. */
  lemma {:induction false} CalmRunsNeverRace(xs: seq<Timed>, es: seq<Event>, n: nat)
    requires TimedRun(xs, es) && TimedStart(xs[0]) && n < |xs|
    requires forall j :: 0 <= j < n ==> Calm(xs[j], es[j])
    ensures TimedInv(xs[n]) && Single(xs[n])
    ensures forall ref :: !DropsUnderReset(xs[n].w, Release(ref), ref)
  {
    if n == 0 {
      TimedStartHolds(xs[0]);
      NothingHeld(xs[0].w);
    } else {
      CalmRunsNeverRace(xs, es, n - 1);
      CalmStep(xs[n - 1], es[n - 1]);
      EventKeepsInv(xs[n - 1], es[n - 1]);
    }
    MarkedNeverRaces(xs[n].w);
  }

  lemma NothingHeld(w: World)
    requires Start(w)
    ensures forall ref :: Held(w, ref).None?
  {
    assert forall lt :: Leases(w.s, lt) == [];
  }

  lemma MarksStep(x: Timed, e: Event)
    requires TimedInv(x) && Possible(x, e) && Single(x)
    ensures ResetsMarked(Next(x, e).w)
  {
    SingleSection(x, e);
    if Section(x, e).Some? {
      SingleShotKeepsMarks(x.w, Section(x, e).value);
    }
  }

  lemma CalmStep(x: Timed, e: Event)
    requires TimedInv(x) && Possible(x, e) && Calm(x, e) && Single(x)
    ensures Single(Next(x, e))
  {
    MarksStep(x, e);
    forall ref
      ensures OneCharge(Next(x, e), ref)
    {
      OneChargeStep(x, e, ref);
    }
  }

  lemma MarkedNeverRaces(w: World)
    requires ResetsMarked(w)
    ensures forall ref :: !DropsUnderReset(w, Release(ref), ref)
  {
    forall ref | ref in w.resets
      ensures Held(w, ref).Some? && Held(w, ref).value.recovering
    {
      assert Marked(w, ref);
    }
  }
}
