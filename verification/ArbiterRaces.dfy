/** Exactly when a release can race a reset, and when a suspect lease can still end, with timers that run as they do. */
module ArbiterRaces {
  import opened ArbiterProtocol
  import opened ArbiterRuns
  import opened ArbiterScheduling
  import opened ArbiterRecovery
  import opened ArbiterTimers
  import opened Wrappers

  ghost predicate RunBetween(x: Timed, y: Timed, xs: seq<Timed>, es: seq<Event>) {
    TimedRun(xs, es) && xs[0] == x && xs[|es|] == y
  }

  /** Some timed run leads from x to y. */
  ghost predicate Reach(x: Timed, y: Timed) {
    exists xs, es :: RunBetween(x, y, xs, es)
  }

  lemma ReachSelf(x: Timed)
    ensures Reach(x, x)
  {
    assert RunBetween(x, x, [x], []);
  }

  lemma TimedCons(x: Timed, e: Event, xs: seq<Timed>, es: seq<Event>)
    requires Possible(x, e) && TimedRun(xs, es) && xs[0] == Next(x, e)
    ensures TimedRun([x] + xs, [e] + es)
  {
    var xs', es' := [x] + xs, [e] + es;
    forall i | 0 <= i < |es'|
      ensures Possible(xs'[i], es'[i]) && xs'[i + 1] == Next(xs'[i], es'[i])
    {
      if i > 0 {
        assert xs'[i] == xs[i - 1] && es'[i] == es[i - 1] && xs'[i + 1] == xs[i];
      }
    }
  }

  lemma ReachBy(x: Timed, e: Event, y: Timed)
    requires Possible(x, e) && Reach(Next(x, e), y)
    ensures Reach(x, y)
  {
    var xs, es :| RunBetween(Next(x, e), y, xs, es);
    TimedCons(x, e, xs, es);
    assert RunBetween(x, y, [x] + xs, [e] + es);
  }

  function Max(a: int, b: int): int {
    if a > b then a else b
  }

  // ---- what the events of one lease do ------------------------------------------------------------

  lemma FiresOn(x: Timed, ref: Ref)
    requires TimedInv(x) && ref in x.armed
    ensures var e := Fires(ref, Max(x.clock, x.armed[ref]));
      && Possible(x, e) && TimedInv(Next(x, e)) && Next(x, e).w == x.w
      && Next(x, e).armed == x.armed - {ref} && Next(x, e).started == x.started + multiset{ref}
  {
    EventKeepsInv(x, Fires(ref, Max(x.clock, x.armed[ref])));
  }

  lemma RunsOn(x: Timed, ref: Ref)
    requires TimedInv(x) && ref in x.started && Held(x.w, ref).Some? && x.w.s.opts.canRecover
    ensures var e := Runs(ref, Max(x.clock, Held(x.w, ref).value.expiresAt)); var y := Next(x, e);
      && Possible(x, e) && TimedInv(y) && y.w.s.opts == x.w.s.opts && y.w.released == x.w.released
      && Held(y.w, ref) == Some(Held(x.w, ref).value.(suspect := true, recovering := true))
      && y.w.resets == x.w.resets + multiset{ref} && y.armed == x.armed && y.started == x.started - multiset{ref}
  {
    var now := Max(x.clock, Held(x.w, ref).value.expiresAt);
    FireOn(x.w, ref, now);
    EventKeepsInv(x, Runs(ref, now));
  }

  lemma TouchOn(x: Timed, ref: Ref)
    requires TimedInv(x) && Held(x.w, ref).Some? && !Suspect(x.w, ref)
    ensures var e := Touched(ref.lt, PositionOf(x.w, ref), x.clock); var y := Next(x, e);
      && Possible(x, e) && TimedInv(y) && y.w.s.opts == x.w.s.opts && y.w.released == x.w.released && y.w.resets == x.w.resets
      && Held(y.w, ref).Some? && !Suspect(y.w, ref) && ref in y.armed && y.started == x.started
  {
    var e := Touched(ref.lt, PositionOf(x.w, ref), x.clock);
    EventOnLease(x, e, ref);
    EventKeepsInv(x, e);
  }

  lemma FailsOn(x: Timed, ref: Ref)
    requires TimedInv(x) && Suspect(x.w, ref) && ref in x.w.resets
    ensures var e := Plain(ResetReturns(ref, false)); var y := Next(x, e);
      && Possible(x, e) && TimedInv(y) && y.w.s.opts == x.w.s.opts && y.w.released == x.w.released
      && Held(y.w, ref) == Some(Held(x.w, ref).value.(recovering := false))
      && y.w.resets == x.w.resets - multiset{ref} && y.armed == x.armed && y.started == x.started
  {
    FailOn(x.w, ref);
    EventKeepsInv(x, Plain(ResetReturns(ref, false)));
  }

  lemma NoteReleased(x: Timed, ref: Ref)
    requires TimedInv(x) && Suspect(x.w, ref) && Held(x.w, ref).value.recovering && ref !in x.w.released
    ensures Possible(x, Released(ref))
    ensures var y := Next(x, Released(ref));
      && TimedInv(y) && y.w.s.opts == x.w.s.opts && ref in y.w.released
      && Held(y.w, ref) == Some(Held(x.w, ref).value.(ownerDone := true))
      && y.w.resets == x.w.resets && y.armed == x.armed && y.started == x.started
  {
    NoteOn(x.w, ref);
    EventKeepsInv(x, Released(ref));
    StepGrows(x.w, Release(ref));
  }

  // ---- the race -------------------------------------------------------------------------------------

  ghost predicate RaceReady(x: Timed, ref: Ref) {
    Possible(x, Released(ref)) && DropsUnderReset(x.w, Release(ref), ref)
  }

  ghost predicate TimedCanRace(x: Timed, ref: Ref) {
    exists y :: Reach(x, y) && RaceReady(y, ref)
  }

  lemma RaceBy(x: Timed, e: Event, ref: Ref)
    requires Possible(x, e) && TimedCanRace(Next(x, e), ref)
    ensures TimedCanRace(x, ref)
  {
    var y :| Reach(Next(x, e), y) && RaceReady(y, ref);
    ReachBy(x, e, y);
  }

  /** A suspect lease has room for a race if a reset runs without its mark, or two resets run or can still start. */
  ghost predicate Room(x: Timed, ref: Ref) {
    || !Suspect(x.w, ref)
    || (ref in x.w.resets && !Held(x.w, ref).value.recovering)
    || x.w.resets[ref] + Charges(x, ref) >= 2
  }

  lemma RaceFromUnmarked(x: Timed, ref: Ref)
    requires TimedInv(x) && Suspect(x.w, ref) && ref !in x.w.released && ref in x.w.resets && !Held(x.w, ref).value.recovering
    ensures TimedCanRace(x, ref)
  {
    ReleaseEnabled(x.w, ref);
    ReachSelf(x);
    assert RaceReady(x, ref);
  }

  lemma {:induction false} RaceFromTwo(x: Timed, ref: Ref)
    requires TimedInv(x) && Suspect(x.w, ref) && ref !in x.w.released && x.w.s.opts.canRecover
    requires x.w.resets[ref] + Charges(x, ref) >= 2
    ensures TimedCanRace(x, ref)
    decreases (if ref in x.armed then 2 else 0) + x.started[ref]
  {
    if ref in x.armed {
      var e := Fires(ref, Max(x.clock, x.armed[ref]));
      FiresOn(x, ref);
      RaceFromTwo(Next(x, e), ref);
      RaceBy(x, e, ref);
    } else if ref in x.started {
      var e := Runs(ref, Max(x.clock, Held(x.w, ref).value.expiresAt));
      RunsOn(x, ref);
      RaceFromTwo(Next(x, e), ref);
      RaceBy(x, e, ref);
    } else {
      FailsOn(x, ref);
      RaceFromUnmarked(Next(x, Plain(ResetReturns(ref, false))), ref);
      RaceBy(x, Plain(ResetReturns(ref, false)), ref);
    }
  }

  /** A second callback can start while the first still waits for the lock, if a touch comes in between. */
  lemma RaceFromTouch(x: Timed, ref: Ref)
    requires TimedInv(x) && Held(x.w, ref).Some? && !Suspect(x.w, ref) && ref !in x.w.released && x.w.s.opts.canRecover
    requires ref in x.started
    ensures TimedCanRace(x, ref)
  {
    var touch := Touched(ref.lt, PositionOf(x.w, ref), x.clock);
    TouchOn(x, ref);
    var x1 := Next(x, touch);
    var fire := Fires(ref, Max(x1.clock, x1.armed[ref]));
    FiresOn(x1, ref);
    var x2 := Next(x1, fire);
    var run := Runs(ref, Max(x2.clock, Held(x2.w, ref).value.expiresAt));
    RunsOn(x2, ref);
    RaceFromTwo(Next(x2, run), ref);
    RaceBy(x2, run, ref);
    RaceBy(x1, fire, ref);
    RaceBy(x, touch, ref);
  }

  lemma RaceFromSound(x: Timed, ref: Ref)
    requires TimedInv(x) && Held(x.w, ref).Some? && !Suspect(x.w, ref) && ref !in x.w.released && x.w.s.opts.canRecover
    ensures TimedCanRace(x, ref)
  {
    if ref in x.started {
      RaceFromTouch(x, ref);
    } else {
      assert Timing(x, ref);
      var e := Fires(ref, Max(x.clock, x.armed[ref]));
      FiresOn(x, ref);
      RaceFromTouch(Next(x, e), ref);
      RaceBy(x, e, ref);
    }
  }

  // ---- and nothing else -----------------------------------------------------------------------------

  /** At most one reset of the suspect lease runs or can still start, and one that runs is marked. */
  ghost predicate Spent(x: Timed, ref: Ref) {
    Suspect(x.w, ref) && !Room(x, ref)
  }

  ghost predicate Hopeless(x: Timed, ref: Ref) {
    Gone(x.w, ref) || ref in x.w.released || !x.w.s.opts.canRecover || Spent(x, ref)
  }

  lemma HopelessNeverRaces(x: Timed, ref: Ref)
    requires TimedInv(x) && Hopeless(x, ref)
    ensures !RaceReady(x, ref)
  {
  }

  lemma GrantedNotHeld(x: Timed, i: nat, now: int)
    requires TimedInv(x) && Possible(x, Granted(i, now))
    ensures var ref := Subject(x, Granted(i, now)).value; Held(x.w, ref).None? && Charges(x, ref) == 0
  {
    var ref := Subject(x, Granted(i, now)).value;
    InvMeansTracked(x.w, ref);
    assert Timing(x, ref) && Queued(x.w.s, ref.id);
  }

  lemma TouchedSuspect(x: Timed, lt: LeaseType, k: nat, now: int)
    requires Inv(x.w) && Possible(x, Touched(lt, k, now))
    ensures Suspect(x.w, Subject(x, Touched(lt, k, now)).value) ==> Next(x, Touched(lt, k, now)).armed == x.armed
  {
    TouchedIsHeld(x, lt, k, now);
  }

  lemma OwnSuspectCharges(x: Timed, e: Event, ref: Ref)
    requires TimedInv(x) && Possible(x, e) && Suspect(x.w, ref) && (e.Fires? || e.Runs? || e.Released?) && e.ref == ref
    ensures Charges(Next(x, e), ref) <= Charges(x, ref)
  {
  }

  /** A suspect lease's timer is never armed again. */
  lemma SuspectCharges(x: Timed, e: Event, ref: Ref)
    requires TimedInv(x) && Possible(x, e) && Suspect(x.w, ref)
    ensures Charges(Next(x, e), ref) <= Charges(x, ref)
  {
    match e
    case Plain(_) => OtherCharges(x, e, ref);
    case Granted(i, now) =>
      GrantedNotHeld(x, i, now);
      OtherCharges(x, e, ref);
    case Touched(lt, k, now) =>
      TouchedSuspect(x, lt, k, now);
      if Subject(x, e) != Some(ref) {
        OtherCharges(x, e, ref);
      }
    case Fires(r, _) => if r == ref { OwnSuspectCharges(x, e, ref); } else { OtherCharges(x, e, ref); }
    case Runs(r, _) => if r == ref { OwnSuspectCharges(x, e, ref); } else { OtherCharges(x, e, ref); }
    case Released(r) => if r == ref { OwnSuspectCharges(x, e, ref); } else { OtherCharges(x, e, ref); }
  }

  ghost predicate SpentMark(w: World, ref: Ref, charges: nat) {
    && Suspect(w, ref) && (Held(w, ref).value.recovering || ref !in w.resets)
    && w.resets[ref] + charges <= 1
  }

  lemma SpentReset(w: World, ok: bool, ref: Ref, charges: nat)
    requires Inv(w) && Enabled(w, ResetReturns(ref, ok)) && SpentMark(w, ref, charges)
    ensures var w' := After(w, ResetReturns(ref, ok)); Held(w', ref).None? || SpentMark(w', ref, charges)
  {
    InvMeansTracked(w, ref);
    StepOnLease(w, ResetReturns(ref, ok), ref);
  }

  lemma SpentRelease(w: World, ref: Ref, charges: nat)
    requires Inv(w) && Enabled(w, Release(ref)) && SpentMark(w, ref, charges)
    ensures var w' := After(w, Release(ref)); Held(w', ref).None? || SpentMark(w', ref, charges)
  {
    InvMeansTracked(w, ref);
    StepOnLease(w, Release(ref), ref);
  }

  lemma SpentElse(w: World, step: Step, ref: Ref)
    requires Inv(w) && Enabled(w, step) && Suspect(w, ref)
    requires (step.ResetReturns? || step.Release?) ==> step.ref != ref
    requires step.Watchdog? ==> Ref(step.lt, Leases(w.s, step.lt)[step.k].ticket.id) != ref
    ensures Held(After(w, step), ref) == Held(w, ref) && After(w, step).resets[ref] == w.resets[ref]
  {
    InvMeansTracked(w, ref);
    StepOnLease(w, step, ref);
    if step.Enter? {
      assert Queued(w.s, w.s.queue[step.i].id);
    } else if step.Progress? {
      UpdateOnLease(w.s, step.lt, step.k, Leases(w.s, step.lt)[step.k], ref);
    }
  }

  /** No section but the lease's own watchdog gives a spent lease room again. */
  lemma SpentSection(w: World, step: Step, ref: Ref, charges: nat)
    requires Inv(w) && Enabled(w, step) && SpentMark(w, ref, charges)
    requires step.Watchdog? ==> Ref(step.lt, Leases(w.s, step.lt)[step.k].ticket.id) != ref
    ensures Held(After(w, step), ref).None? || SpentMark(After(w, step), ref, charges)
  {
    if step.ResetReturns? && step.ref == ref {
      SpentReset(w, step.ok, ref, charges);
    } else if step.Release? && step.ref == ref {
      SpentRelease(w, ref, charges);
    } else {
      SpentElse(w, step, ref);
    }
  }

  lemma SuspectRunsCharges(x: Timed, now: int, ref: Ref)
    requires Possible(x, Runs(ref, now)) && Suspect(x.w, ref)
    ensures Charges(Next(x, Runs(ref, now)), ref) == Charges(x, ref) - 1
  {
    assert Next(x, Runs(ref, now)).armed == x.armed;
  }

  lemma SuspectIsDue(x: Timed, now: int, ref: Ref)
    requires TimedInv(x) && Possible(x, Runs(ref, now)) && Suspect(x.w, ref)
    ensures now >= Held(x.w, ref).value.expiresAt
    ensures Next(x, Runs(ref, now)).w == After(x.w, Watchdog(ref.lt, PositionOf(x.w, ref), now))
  {
    assert Timing(x, ref);
  }

  lemma SuspectRunsOn(x: Timed, now: int, ref: Ref)
    requires TimedInv(x) && Possible(x, Runs(ref, now)) && Suspect(x.w, ref) && x.w.s.opts.canRecover
    ensures var y := Next(x, Runs(ref, now));
      && Held(y.w, ref) == Some(Held(x.w, ref).value.(suspect := true, recovering := true))
      && y.w.resets[ref] + Charges(y, ref) == x.w.resets[ref] + Charges(x, ref)
  {
    SuspectIsDue(x, now, ref);
    SuspectRunsCharges(x, now, ref);
    FireOn(x.w, ref, now);
  }

  lemma SpentOwnRun(x: Timed, now: int, ref: Ref)
    requires TimedInv(x) && Possible(x, Runs(ref, now)) && Spent(x, ref) && x.w.s.opts.canRecover
    ensures Spent(Next(x, Runs(ref, now)), ref)
  {
    SuspectRunsOn(x, now, ref);
  }

  lemma SpentEvent(x: Timed, e: Event, ref: Ref)
    requires TimedInv(x) && Possible(x, e) && Spent(x, ref) && !(e.Runs? && e.ref == ref)
    ensures var w' := Next(x, e).w; Held(w', ref).None? || SpentMark(w', ref, Charges(x, ref))
  {
    assert SpentMark(x.w, ref, Charges(x, ref));
    if Section(x, e).Some? {
      SpentSection(x.w, Section(x, e).value, ref, Charges(x, ref));
    }
  }

  lemma SpentOther(x: Timed, e: Event, ref: Ref)
    requires TimedInv(x) && Possible(x, e) && Spent(x, ref) && !(e.Runs? && e.ref == ref)
    ensures Gone(Next(x, e).w, ref) || Spent(Next(x, e), ref)
  {
    SuspectCharges(x, e, ref);
    InvMeansTracked(x.w, ref);
    KnownStays(x, e, ref);
    SpentEvent(x, e, ref);
  }

  lemma HopelessStays(x: Timed, e: Event, ref: Ref)
    requires TimedInv(x) && Possible(x, e) && Hopeless(x, ref)
    ensures Hopeless(Next(x, e), ref)
  {
    EventKeepsWorld(x, e);
    if Gone(x.w, ref) {
      if Section(x, e).Some? {
        GoneStaysGone(x.w, Section(x, e).value, ref);
      }
    } else if ref !in x.w.released && x.w.s.opts.canRecover {
      if e.Runs? && e.ref == ref {
        SpentOwnRun(x, e.now, ref);
      } else {
        SpentOther(x, e, ref);
      }
    }
  }

  ghost predicate HopelessAt(x: Timed, ref: Ref) {
    TimedInv(x) && Hopeless(x, ref)
  }

  lemma HopelessNext(x: Timed, e: Event, ref: Ref)
    requires Possible(x, e) && HopelessAt(x, ref)
    ensures HopelessAt(Next(x, e), ref)
  {
    HopelessStays(x, e, ref);
    EventKeepsInv(x, e);
  }

  lemma {:induction false} HopelessAlong(xs: seq<Timed>, es: seq<Event>, ref: Ref, n: nat)
    requires TimedRun(xs, es) && HopelessAt(xs[0], ref) && n < |xs|
    ensures HopelessAt(xs[n], ref)
  {
    if n > 0 {
      HopelessAlong(xs, es, ref, n - 1);
      HopelessNext(xs[n - 1], es[n - 1], ref);
    }
  }

  /**
   From any state, some run of the arbiter with its timers lets the owner's release of a granted lease
   race a reset of it, exactly when the lease is held, its handle unused, a way to reset configured,
   and it is either not suspect yet or has room for a race.
   */
  lemma TimedRaceIff(x: Timed, ref: Ref)
    requires TimedInv(x) && ref.id in x.w.used && !Queued(x.w.s, ref.id)
    ensures TimedCanRace(x, ref) <==>
            Held(x.w, ref).Some? && ref !in x.w.released && x.w.s.opts.canRecover && Room(x, ref)
  {
    if Hopeless(x, ref) {
      forall y | Reach(x, y)
        ensures !RaceReady(y, ref)
      {
        var xs, es :| RunBetween(x, y, xs, es);
        HopelessAlong(xs, es, ref, |es|);
        HopelessNeverRaces(y, ref);
      }
    } else if !Suspect(x.w, ref) {
      RaceFromSound(x, ref);
    } else if ref in x.w.resets && !Held(x.w, ref).value.recovering {
      RaceFromUnmarked(x, ref);
    } else {
      RaceFromTwo(x, ref);
    }
  }

  // ---- the end of a suspect lease -------------------------------------------------------------------

  /** Some event that is possible now ends the lease. */
  ghost predicate EndReady(x: Timed, ref: Ref) {
    exists e :: Possible(x, e) && Section(x, e).Some? && Ends(x.w, Section(x, e).value, ref)
  }

  ghost predicate TimedCanEnd(x: Timed, ref: Ref) {
    exists y :: Reach(x, y) && EndReady(y, ref)
  }

  lemma EndBy(x: Timed, e: Event, ref: Ref)
    requires Possible(x, e) && TimedCanEnd(Next(x, e), ref)
    ensures TimedCanEnd(x, ref)
  {
    var y :| Reach(Next(x, e), y) && EndReady(y, ref);
    ReachBy(x, e, y);
  }

  /** Suspect, its handle used, no reset running, and none that could still start. */
  ghost predicate Stuck(x: Timed, ref: Ref) {
    Stranded(x.w, ref) && (Charges(x, ref) == 0 || !x.w.s.opts.canRecover)
  }

  lemma EndNow(x: Timed, e: Event, ref: Ref)
    requires Possible(x, e) && Section(x, e).Some? && Ends(x.w, Section(x, e).value, ref)
    ensures TimedCanEnd(x, ref)
  {
    ReachSelf(x);
    assert EndReady(x, ref);
  }

  lemma EndFromStarted(x: Timed, ref: Ref)
    requires TimedInv(x) && Suspect(x.w, ref) && x.w.s.opts.canRecover && ref in x.started
    ensures TimedCanEnd(x, ref)
  {
    var run := Runs(ref, Max(x.clock, Held(x.w, ref).value.expiresAt));
    RunsOn(x, ref);
    EndNow(Next(x, run), Plain(ResetReturns(ref, true)), ref);
    EndBy(x, run, ref);
  }

  lemma StuckStays(x: Timed, e: Event, ref: Ref)
    requires TimedInv(x) && Possible(x, e) && Stuck(x, ref)
    ensures Stuck(Next(x, e), ref)
    ensures Section(x, e).Some? ==> !Ends(x.w, Section(x, e).value, ref)
  {
    EventKeepsWorld(x, e);
    EventOnLease(x, e, ref);
    InvMeansTracked(x.w, ref);
    if Section(x, e).Some? {
      EffectOnSuspect(x.w, Section(x, e).value, ref);
    }
    StuckCharges(x, e, ref);
  }

  /** Only the lease's own watchdog starts a reset of it. */
  lemma ResetsOnlyByWatchdog(w: World, step: Step, ref: Ref)
    requires Enabled(w, step) && ref !in w.resets && ref in After(w, step).resets
    ensures step.Watchdog? && w.s.opts.canRecover && ref == Ref(step.lt, Leases(w.s, step.lt)[step.k].ticket.id)
  {
  }

  lemma StuckCharges(x: Timed, e: Event, ref: Ref)
    requires TimedInv(x) && Possible(x, e) && Stuck(x, ref)
    ensures ref !in Next(x, e).w.resets
    ensures Charges(x, ref) == 0 ==> Charges(Next(x, e), ref) == 0
  {
    SuspectCharges(x, e, ref);
    if ref in Next(x, e).w.resets {
      ResetsOnlyByWatchdog(x.w, Section(x, e).value, ref);
    }
  }

  ghost predicate StuckAt(x: Timed, ref: Ref) {
    TimedInv(x) && Stuck(x, ref)
  }

  lemma StuckNext(x: Timed, e: Event, ref: Ref)
    requires Possible(x, e) && StuckAt(x, ref)
    ensures StuckAt(Next(x, e), ref)
  {
    StuckStays(x, e, ref);
    EventKeepsInv(x, e);
  }

  lemma {:induction false} StuckAlong(xs: seq<Timed>, es: seq<Event>, ref: Ref, n: nat)
    requires TimedRun(xs, es) && StuckAt(xs[0], ref) && n < |xs|
    ensures StuckAt(xs[n], ref)
  {
    if n > 0 {
      StuckAlong(xs, es, ref, n - 1);
      StuckNext(xs[n - 1], es[n - 1], ref);
    }
  }

  lemma StuckNeverEnds(x: Timed, ref: Ref)
    requires TimedInv(x) && Stuck(x, ref)
    ensures !TimedCanEnd(x, ref)
  {
    forall y | Reach(x, y)
      ensures !EndReady(y, ref)
    {
      var xs, es :| RunBetween(x, y, xs, es);
      StuckAlong(xs, es, ref, |es|);
      forall e | Possible(y, e)
        ensures Section(y, e).Some? ==> !Ends(y.w, Section(y, e).value, ref)
      {
        StuckStays(y, e, ref);
      }
    }
  }

  lemma EndFromCharge(x: Timed, ref: Ref)
    requires TimedInv(x) && Suspect(x.w, ref) && x.w.s.opts.canRecover && Charges(x, ref) > 0
    ensures TimedCanEnd(x, ref)
  {
    if ref in x.started {
      EndFromStarted(x, ref);
    } else {
      var fire := Fires(ref, Max(x.clock, x.armed[ref]));
      FiresOn(x, ref);
      EndFromStarted(Next(x, fire), ref);
      EndBy(x, fire, ref);
    }
  }

  lemma EndFromHandle(x: Timed, ref: Ref)
    requires TimedInv(x) && Suspect(x.w, ref) && ref !in x.w.released && ref !in x.w.resets
    ensures TimedCanEnd(x, ref)
  {
    NotRecovering(x.w, ref);
    ReleaseEnabled(x.w, ref);
    EndNow(x, Released(ref), ref);
  }

  /** A suspect lease can still end exactly when its handle is unused, a reset of it runs, or a callback can still start one. */
  lemma TimedEndIff(x: Timed, ref: Ref)
    requires TimedInv(x) && Suspect(x.w, ref)
    ensures TimedCanEnd(x, ref) <==>
            ref !in x.w.released || ref in x.w.resets || (Charges(x, ref) > 0 && x.w.s.opts.canRecover)
  {
    if Stuck(x, ref) {
      StuckNeverEnds(x, ref);
    } else if ref in x.w.resets {
      EndNow(x, Plain(ResetReturns(ref, true)), ref);
    } else if ref !in x.w.released {
      EndFromHandle(x, ref);
    } else {
      EndFromCharge(x, ref);
    }
  }

  // ---- both from a fresh arbiter ---------------------------------------------------------------------

  lemma JoinedFromStart(x: Timed, t: Ticket)
    requires TimedStart(x) && WellFormed(t) && t.leaseType != Barrier
    ensures var join := Plain(Join(t)); Possible(x, join) && Possible(Next(x, join), Granted(0, x.clock))
  {
    var x1 := Next(x, Plain(Join(t)));
    assert x1.w.s.queue == [t];
    QuietArbiterIsNeverStuck(x1.w.s, x.clock);
  }

  lemma GrantedLease(x: Timed, i: nat, now: int)
    requires TimedInv(x) && Possible(x, Granted(i, now)) && x.w.s.queue[i].leaseType != Barrier
    ensures var ref := Subject(x, Granted(i, now)).value; var y := Next(x, Granted(i, now));
      && Held(y.w, ref) == Some(NewLease(x.w.s, x.w.s.queue[i], now)) && Charges(y, ref) == 1 && ref in y.armed
      && y.w.s.opts == x.w.s.opts && y.w.released == x.w.released && y.w.resets == x.w.resets && y.clock == now
  {
    GrantedNotHeld(x, i, now);
    EventOnLease(x, Granted(i, now), Subject(x, Granted(i, now)).value);
  }

  lemma JoinOn(x: Timed, t: Ticket)
    requires TimedInv(x) && x.w.s.queue == [] && Possible(x, Plain(Join(t)))
    ensures var y := Next(x, Plain(Join(t)));
      && TimedInv(y) && y.w.s.queue == [t] && y.w.s.opts == x.w.s.opts && y.clock == x.clock
      && y.w.released == x.w.released && y.w.resets == x.w.resets
  {
    EventKeepsInv(x, Plain(Join(t)));
  }

  lemma GrantFirst(x: Timed, t: Ticket)
    requires TimedInv(x) && x.w.s.queue == [t] && t.leaseType != Barrier && Possible(x, Granted(0, x.clock))
    ensures var ref := Ref(t.leaseType, t.id); var y := Next(x, Granted(0, x.clock));
      && TimedInv(y) && Held(y.w, ref) == Some(NewLease(x.w.s, t, y.clock)) && y.w.s.opts == x.w.s.opts
      && y.w.released == x.w.released && y.w.resets == x.w.resets && Charges(y, ref) == 1 && ref in y.armed
  {
    GrantedLease(x, 0, x.clock);
    EventKeepsInv(x, Granted(0, x.clock));
  }

  /** A ticket that joins an empty arbiter is granted at once. */
  lemma GrantFromStart(x: Timed, t: Ticket) returns (x1: Timed, y: Timed)
    requires TimedStart(x) && WellFormed(t) && t.leaseType != Barrier
    ensures Possible(x, Plain(Join(t))) && x1 == Next(x, Plain(Join(t)))
    ensures Possible(x1, Granted(0, x.clock)) && y == Next(x1, Granted(0, x.clock))
    ensures var ref := Ref(t.leaseType, t.id);
      && TimedInv(y) && Held(y.w, ref).Some? && !Suspect(y.w, ref) && y.w.s.opts == x.w.s.opts
      && y.w.released == {} && y.w.resets == multiset{} && Charges(y, ref) == 1 && ref in y.armed
  {
    TimedStartHolds(x);
    JoinedFromStart(x, t);
    JoinOn(x, t);
    x1 := Next(x, Plain(Join(t)));
    GrantFirst(x1, t);
    y := Next(x1, Granted(0, x.clock));
  }

  /** With a way to reset, every lease of every kind can come to a race, from a fresh arbiter on. */
  lemma EveryLeaseCanRace(x: Timed, t: Ticket)
    requires TimedStart(x) && x.w.s.opts.canRecover && WellFormed(t) && t.leaseType != Barrier
    ensures TimedCanRace(x, Ref(t.leaseType, t.id))
  {
    var ref := Ref(t.leaseType, t.id);
    var x1, y := GrantFromStart(x, t);
    RaceFromSound(y, ref);
    RaceBy(x1, Granted(0, x.clock), ref);
    RaceBy(x, Plain(Join(t)), ref);
  }

  /** And every lease can get stuck: overdue, released while its reset runs, and the reset fails. */
  lemma EveryLeaseCanGetStuck(x: Timed, t: Ticket) returns (z: Timed)
    requires TimedStart(x) && x.w.s.opts.canRecover && WellFormed(t) && t.leaseType != Barrier
    ensures Reach(x, z) && TimedInv(z) && Stuck(z, Ref(t.leaseType, t.id))
  {
    var x1, y := GrantFromStart(x, t);
    z := StuckFromSound(y, Ref(t.leaseType, t.id));
    ReachBy(x1, Granted(0, x.clock), z);
    ReachBy(x, Plain(Join(t)), z);
  }

  lemma StuckFromSound(y: Timed, ref: Ref) returns (z: Timed)
    requires TimedInv(y) && Held(y.w, ref).Some? && !Suspect(y.w, ref) && y.w.s.opts.canRecover
    requires ref !in y.w.released && ref !in y.w.resets && Charges(y, ref) == 1 && ref in y.armed
    ensures Reach(y, z) && TimedInv(z) && Stuck(z, ref)
  {
    var fire := Fires(ref, Max(y.clock, y.armed[ref]));
    FiresOn(y, ref);
    var y1 := Next(y, fire);
    var run := Runs(ref, Max(y1.clock, Held(y1.w, ref).value.expiresAt));
    RunsOn(y1, ref);
    var y2 := Next(y1, run);
    NoteReleased(y2, ref);
    var y3 := Next(y2, Released(ref));
    FailsOn(y3, ref);
    z := Next(y3, Plain(ResetReturns(ref, false)));
    ReachSelf(z);
    ReachBy(y3, Plain(ResetReturns(ref, false)), z);
    ReachBy(y2, Released(ref), z);
    ReachBy(y1, run, z);
    ReachBy(y, fire, z);
  }
}
