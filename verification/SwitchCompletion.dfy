/** A recovery pass nobody interferes with: where it ends, and why repeating it does nothing. */
module SwitchCompletion {
  import opened Text
  import opened Wrappers
  import opened SwitchJournal
  import opened SwitchJournalRuns
  import opened SwitchReconciler
  import opened SwitchRecovery

  ghost predicate Quiet(env: Env) {
    forall k: nat :: env.others(k) == []
  }

  function DeviceId(env: Env): string {
    TrimSpace(env.workerId)
  }

  /** The pass may start. */
  predicate Admitted(env: Env) {
    DeviceId(env) != "" && env.generation > 0 && env.journal && TrimSpace(Epoch(env)) != "" && env.current && env.lease
  }

  /** Nobody interferes, the worker stays registered, and every device call works. */
  ghost predicate Working(env: Env) {
    && Quiet(env) && Admitted(env)
    && !env.failpoint && env.physical && env.radioOk && env.networkOk && env.voWiFiOk
    && forall k: nat :: DeviceId(env) in env.workers(k) && env.workers(k)[DeviceId(env)] == env.generation
  }

  // ---- one request ------------------------------------------------------------------------------------

  ghost predicate Mine(rows: Rows, env: Env, op: Operation) {
    && op.id in rows && rows[op.id] == op && RowOk(op.id, op) && !op.terminal
    && op.device == DeviceId(env) && op.generation == env.generation && op.ownerEpoch == Epoch(env)
  }

  /** The row now is in this phase, still about the same thing; every other row is untouched. */
  ghost predicate MovedTo(rows: Rows, rows': Rows, op: Operation, phase: Phase) {
    && op.id in rows' && rows'.Keys == rows.Keys && (forall id :: id in rows && id != op.id ==> rows'[id] == rows[id])
    && rows'[op.id].phase == phase && SameSubject(op, rows'[op.id])
  }

  lemma StillMine(rows: Rows, env: Env, k: nat, op: Operation)
    requires Working(env) && Mine(rows, env, op)
    ensures StillOwned(env, k, op) && env.others(k) == []
  {
    EpochIsTrimmed(env);
  }

  lemma TransitionAlone(rows: Rows, env: Env, op: Operation, next: Phase, acceptance: Acceptance, code: string, now: int)
    requires Mine(rows, env, op)
    requires ValidTransition(op.phase, next) && ValidPhaseAcceptance(next, acceptance)
    requires code == ERROR_NONE || code == ERROR_PROFILE_AMBIGUOUS
    ensures var i := Request(op, next, acceptance, code); var moved := Moved(op, i, now);
      Transition(rows, i, now) == (rows[op.id := moved], Ok(moved))
  {
    RequestIsValid(op, next, acceptance, code);
  }

  lemma MovedIsMine(rows: Rows, env: Env, op: Operation, next: Phase, acceptance: Acceptance, code: string, now: int)
    requires Mine(rows, env, op)
    requires ValidTransition(op.phase, next) && ValidPhaseAcceptance(next, acceptance)
    requires code == ERROR_NONE || code == ERROR_PROFILE_AMBIGUOUS
    ensures var moved := Moved(op, Request(op, next, acceptance, code), now);
      var rows' := rows[op.id := moved];
      moved.id == op.id && MovedTo(rows, rows', op, next) && (!IsTerminal(next) ==> Mine(rows', env, moved))
  {
    RequestIsValid(op, next, acceptance, code);
  }

  lemma AskStepsAlone(env: Env, k: nat, op: Operation, i: TransitionInput)
    requires StillOwned(env, k, op) && env.others(k) == []
    ensures AskSteps(env, k, op, i) == [DoTransition(i, env.clock(k))]
  {
  }

  lemma AskAlone(rows: Rows, env: Env, k: nat, op: Operation, next: Phase, acceptance: Acceptance, code: string)
    requires Working(env) && Mine(rows, env, op)
    requires ValidTransition(op.phase, next) && ValidPhaseAcceptance(next, acceptance)
    requires code == ERROR_NONE || code == ERROR_PROFILE_AMBIGUOUS
    ensures var i := Request(op, next, acceptance, code);
      var r, rows' := Ask(rows, env, k, op, i), AfterAll(rows, AskSteps(env, k, op, i));
      && r.Ok? && MovedTo(rows, rows', op, next) && rows'[op.id] == r.value && r.value.id == op.id
      && (!IsTerminal(next) ==> Mine(rows', env, r.value))
  {
    var i := Request(op, next, acceptance, code);
    StillMine(rows, env, k, op);
    AskStepsAlone(env, k, op, i);
    AfterOne(rows, DoTransition(i, env.clock(k)));
    TransitionAlone(rows, env, op, next, acceptance, code, env.clock(k));
    MovedIsMine(rows, env, op, next, acceptance, code, env.clock(k));
  }

  lemma AfterOne(rows: Rows, s: Step)
    ensures AfterAll(rows, [s]) == After(rows, s)
  {
    assert [s][..0] == [];
  }

  // ---- the pass -----------------------------------------------------------------------------------------

  /** There is a network controller if the operation needs one. */
  predicate Fit(d: Device, op: Operation) {
    op.networkConnected || op.networkEnabled ==> d.network.Some?
  }

  ghost predicate Closes(rows: Rows, p: Pass, op: Operation, phase: Phase) {
    p.outcome == Done && MovedTo(rows, RowsAfter(rows, p), op, phase)
  }

  lemma ThenCloses(rows: Rows, p: Pass, steps: seq<Step>, a: Asked, op: Operation, op': Operation, phase: Phase)
    requires MovedTo(rows, AfterAll(rows, steps), op, op'.phase) && AfterAll(rows, steps)[op.id] == op' && op'.id == op.id
    requires Closes(AfterAll(rows, steps), p, op', phase)
    ensures Closes(rows, Then(p, steps, a), op, phase)
  {
    AfterAllConcat(rows, steps, p.steps);
  }

  lemma RestoredSame(d: Device, a: Operation, b: Operation)
    requires SameSubject(a, b)
    ensures Restored(d, a) <==> Restored(d, b)
    ensures Fit(d, a) <==> Fit(d, b)
  {
  }

  lemma FinishCloses(rows: Rows, d: Device, env: Env, op: Operation)
    requires Working(env) && Mine(rows, env, op) && op.phase == Restoring && Fit(d, op)
    ensures var p := Finish(rows, d, env, op); Closes(rows, p, op, Succeeded) && Restored(p.device, op)
  {
    AskAlone(rows, env, 4, op, Succeeded, AcceptanceAccepted, ERROR_NONE);
    RestoreRestores(d, op, env);
  }

  lemma AdvanceCloses(rows: Rows, d: Device, env: Env, op: Operation)
    requires Working(env) && Mine(rows, env, op) && (op.phase == Accepted || op.phase == Restoring) && Fit(d, op)
    ensures var p := Advance(rows, d, env, op); Closes(rows, p, op, Succeeded) && Restored(p.device, op)
  {
    if op.phase == Restoring {
      FinishCloses(rows, d, env, op);
    } else {
      AskAlone(rows, env, 3, op, Restoring, AcceptanceAccepted, ERROR_NONE);
      var i := Request(op, Restoring, AcceptanceAccepted, ERROR_NONE);
      var r, steps := Ask(rows, env, 3, op, i), AskSteps(env, 3, op, i);
      var rows' := AfterAll(rows, steps);
      FinishCloses(rows', d, env, r.value);
      ThenCloses(rows, Finish(rows', d, env, r.value), steps, Asked(op, i, r), op, r.value, Succeeded);
    }
  }

  /** The SIM reports the operation's target. */
  predicate Confirmed(env: Env, op: Operation) {
    env.live.Some? && SameSIM(env.live.value, op.target)
  }

  /** Where a pass takes an operation it has claimed. */
  function Destination(env: Env, op: Operation): Phase {
    if op.phase == Intent then FailedBeforeApply
    else if op.phase == Accepted || op.phase == Restoring || Confirmed(env, op) then Succeeded
    else if env.live.Some? then NeedsReconciliation
    else op.phase
  }

  lemma MarkCloses(rows: Rows, d: Device, env: Env, op: Operation)
    requires Working(env) && Mine(rows, env, op)
    requires op.phase == TeardownPlanned || op.phase == ApplyPlanned || op.phase == NeedsReconciliation
    ensures Closes(rows, MarkAmbiguous(rows, d, env, op), op, NeedsReconciliation)
  {
    if op.phase != NeedsReconciliation {
      AskAlone(rows, env, 2, op, NeedsReconciliation, AcceptanceUnknown, ERROR_PROFILE_AMBIGUOUS);
    }
  }

  lemma AcceptCloses(rows: Rows, d: Device, env: Env, op: Operation)
    requires Working(env) && Mine(rows, env, op) && Fit(d, op) && ValidTransition(op.phase, Accepted)
    ensures var p := Accept(rows, d, env, op); Closes(rows, p, op, Succeeded) && Restored(p.device, op)
  {
    AskAlone(rows, env, 2, op, Accepted, AcceptanceAccepted, ERROR_NONE);
    var i := Request(op, Accepted, AcceptanceAccepted, ERROR_NONE);
    var r, steps := Ask(rows, env, 2, op, i), AskSteps(env, 2, op, i);
    var rows' := AfterAll(rows, steps);
    var p := Advance(rows', d, env, r.value);
    RestoredSame(d, op, r.value);
    AdvanceCloses(rows', d, env, r.value);
    RestoredSame(p.device, op, r.value);
    ThenCloses(rows, p, steps, Asked(op, i, r), op, r.value, Succeeded);
  }

  lemma RecoverCloses(rows: Rows, d: Device, env: Env, op: Operation)
    requires Working(env) && Mine(rows, env, op) && (Destination(env, op) == Succeeded ==> Fit(d, op))
    ensures var p := Recover(rows, d, env, op);
      Closes(rows, p, op, Destination(env, op)) && (Destination(env, op) == Succeeded ==> Restored(p.device, op))
  {
    if op.phase == Intent {
      AskAlone(rows, env, 2, op, FailedBeforeApply, AcceptanceUnknown, ERROR_NONE);
    } else if op.phase == Accepted || op.phase == Restoring {
      AdvanceCloses(rows, d, env, op);
    } else if Confirmed(env, op) {
      AcceptCloses(rows, d, env, op);
    } else if env.live.Some? {
      MarkCloses(rows, d, env, op);
    }
  }

  // ---- the claim ------------------------------------------------------------------------------------------

  predicate ClaimedBy(op: Operation, env: Env) {
    op.reconcileOwner == TrimSpace(Epoch(env)) && op.reconcileGeneration == env.generation
  }

  lemma ClaimAlone(rows: Rows, env: Env, op: Operation, now: int)
    requires Inv(rows) && Admitted(env) && IsBlocking(rows, DeviceId(env), op)
    ensures if ClaimedBy(op, env) then Claim(rows, ClaimOf(op, env), now) == (rows, Err(Stale))
            else Claim(rows, ClaimOf(op, env), now) == (rows[op.id := Claimed(op, ClaimOf(op, env), now)],
                                                       Ok(Claimed(op, ClaimOf(op, env), now)))
  {
    TrimmedIsFixed(op.id);
    TrimmedIsFixed(op.ownerEpoch);
  }

  /** The shape of a pass when nobody interferes before or at the claim. */
  lemma QuietPass(rows: Rows, d: Device, env: Env)
    requires Inv(rows) && Quiet(env) && Admitted(env)
    ensures match Blocking(rows, DeviceId(env))
      case None => Reconcile(rows, d, env) == Pass([], d, [], Done)
      case Some(op) =>
        var claim := DoClaim(ClaimOf(op, env), env.clock(1));
        if ClaimedBy(op, env) then Reconcile(rows, d, env) == Pass([claim], d, [], Done) && After(rows, claim) == rows
        else
          var op', rows' := Claimed(op, ClaimOf(op, env), env.clock(1)), After(rows, claim);
          var p := Recover(rows', d, env, op');
          rows' == rows[op.id := op'] && Reconcile(rows, d, env) == p.(steps := [claim] + p.steps)
  {
    assert env.others(0) == [] && env.others(1) == [];
    BlockingIs(rows, DeviceId(env));
    match Blocking(rows, DeviceId(env))
    case None =>
    case Some(op) =>
      var claim := DoClaim(ClaimOf(op, env), env.clock(1));
      ClaimAlone(rows, env, op, env.clock(1));
      AfterOne(rows, claim);
      assert env.others(0) + env.others(1) + [claim] == [claim];
      assert env.others(0) + env.others(1) == [];
  }

  lemma ClaimedIsMine(rows: Rows, env: Env, op: Operation, now: int)
    requires Inv(rows) && Working(env) && IsBlocking(rows, DeviceId(env), op)
    ensures var op' := Claimed(op, ClaimOf(op, env), now); var rows' := rows[op.id := op'];
      Mine(rows', env, op') && MovedTo(rows, rows', op, op.phase) && Destination(env, op') == Destination(env, op)
  {
    EpochIsTrimmed(env);
    assert RowOk(op.id, rows[op.id]);
  }

  lemma PassCloses(rows: Rows, d: Device, env: Env, op: Operation)
    requires Inv(rows) && Working(env) && !ClaimedBy(op, env) && (Destination(env, op) == Succeeded ==> Fit(d, op))
    requires IsBlocking(rows, DeviceId(env), op) && Blocking(rows, DeviceId(env)) == Some(op)
    ensures var p := Reconcile(rows, d, env);
      Closes(rows, p, op, Destination(env, op)) && (Destination(env, op) == Succeeded ==> Restored(p.device, op))
  {
    var claim := DoClaim(ClaimOf(op, env), env.clock(1));
    var op', rows' := Claimed(op, ClaimOf(op, env), env.clock(1)), After(rows, claim);
    QuietPass(rows, d, env);
    ClaimedIsMine(rows, env, op, env.clock(1));
    RestoredSame(d, op, op');
    RecoverCloses(rows', d, env, op');
    var q := Recover(rows', d, env, op');
    AfterOne(rows, claim);
    AfterAllConcat(rows, [claim], q.steps);
    RestoredSame(q.device, op, op');
  }

  lemma BlockingOf(rows: Rows, device: string, op: Operation)
    requires Inv(rows) && IsBlocking(rows, device, op)
    ensures Blocking(rows, device) == Some(op)
  {
    BlockingIs(rows, device);
    assert Blocks(rows[op.id], device);
    BlockingIsUnique(rows, device, op, Blocking(rows, device).value);
  }

  lemma DestinationIsTerminal(rows: Rows, env: Env, op: Operation)
    requires Inv(rows) && IsBlocking(rows, DeviceId(env), op)
    ensures IsTerminal(Destination(env, op)) <==> op.phase in {Intent, Accepted, Restoring} || Confirmed(env, op)
  {
    assert RowOk(op.id, rows[op.id]);
  }

  /**
   One uninterrupted pass of a working device over an operation it had not claimed before: the intent
   alone is written off, an accepted switch is restored and closed, anything in between is closed
   exactly when the SIM reports the target, and otherwise kept open for a human.
   */
  lemma PassAlone(rows: Rows, d: Device, env: Env, op: Operation)
    requires Inv(rows) && Working(env) && IsBlocking(rows, DeviceId(env), op) && !ClaimedBy(op, env)
    requires Destination(env, op) == Succeeded ==> Fit(d, op)
    ensures var p := Reconcile(rows, d, env);
      && Closes(rows, p, op, Destination(env, op))
      && (Destination(env, op) == Succeeded ==> Restored(p.device, op))
      && (!Blocked(RowsAfter(rows, p), DeviceId(env)) <==>
            op.phase in {Intent, Accepted, Restoring} || Confirmed(env, op))
  {
    BlockingOf(rows, DeviceId(env), op);
    PassCloses(rows, d, env, op);
    var p := Reconcile(rows, d, env);
    AllKeepInv(rows, p.steps);
    FreedOrNot(rows, RowsAfter(rows, p), op, Destination(env, op));
    DestinationIsTerminal(rows, env, op);
  }

  lemma FreedOrNot(rows: Rows, rows': Rows, op: Operation, phase: Phase)
    requires Inv(rows) && Inv(rows') && IsBlocking(rows, op.device, op) && MovedTo(rows, rows', op, phase)
    ensures Blocked(rows', op.device) <==> !IsTerminal(phase)
  {
    assert RowOk(op.id, rows'[op.id]);
    if !IsTerminal(phase) {
      assert Blocks(rows'[op.id], op.device);
    }
    forall id | id in rows' && id != op.id
      ensures !Blocks(rows'[id], op.device)
    {
      assert rows'[id] == rows[id];
    }
  }

  // ---- a second pass -----------------------------------------------------------------------------------------

  /** No rows come or go, none reopens, and none changes its last claimant. */
  ghost predicate KeepsClaims(rows: Rows, rows': Rows) {
    && rows'.Keys == rows.Keys
    && forall id | id in rows ::
         && rows'[id].reconcileOwner == rows[id].reconcileOwner && rows'[id].reconcileGeneration == rows[id].reconcileGeneration
         && (rows[id].terminal ==> rows'[id].terminal) && rows'[id].device == rows[id].device
  }

  lemma TransitionKeepsClaims(rows: Rows, s: Step)
    requires s.DoTransition?
    ensures KeepsClaims(rows, After(rows, s))
  {
  }

  lemma {:induction false} TransitionsKeepClaims(rows: Rows, steps: seq<Step>)
    requires forall s :: s in steps ==> s.DoTransition?
    ensures KeepsClaims(rows, AfterAll(rows, steps))
  {
    if steps != [] {
      TransitionsKeepClaims(rows, steps[..|steps| - 1]);
      TransitionKeepsClaims(AfterAll(rows, steps[..|steps| - 1]), steps[|steps| - 1]);
    }
  }

  ghost predicate Transitions(steps: seq<Step>) {
    forall s :: s in steps ==> s.DoTransition?
  }

  lemma AskTransitions(env: Env, k: nat, op: Operation, i: TransitionInput)
    requires Quiet(env)
    ensures Transitions(AskSteps(env, k, op, i))
  {
    assert env.others(k) == [];
  }

  lemma FinishTransitions(rows: Rows, d: Device, env: Env, op: Operation)
    requires Quiet(env)
    ensures Transitions(Finish(rows, d, env, op).steps)
  {
    AskTransitions(env, 4, op, Request(op, Succeeded, AcceptanceAccepted, ERROR_NONE));
  }

  lemma AdvanceTransitions(rows: Rows, d: Device, env: Env, op: Operation)
    requires Quiet(env)
    ensures Transitions(Advance(rows, d, env, op).steps)
  {
    var i := Request(op, Restoring, AcceptanceAccepted, ERROR_NONE);
    var r, rows' := Ask(rows, env, 3, op, i), AfterAll(rows, AskSteps(env, 3, op, i));
    AskTransitions(env, 3, op, i);
    if op.phase != Accepted {
      FinishTransitions(rows, d, env, op);
    } else if r.Ok? {
      FinishTransitions(rows', d, env, r.value);
    }
  }

  lemma OnlyTransitions(rows: Rows, d: Device, env: Env, op: Operation)
    requires Quiet(env)
    ensures Transitions(Recover(rows, d, env, op).steps)
  {
    if op.phase == Intent {
      AskTransitions(env, 2, op, Request(op, FailedBeforeApply, AcceptanceUnknown, ERROR_NONE));
    } else if op.phase == Accepted || op.phase == Restoring {
      AdvanceTransitions(rows, d, env, op);
    } else if Confirmed(env, op) {
      AcceptTransitions(rows, d, env, op);
    } else if env.live.Some? && op.phase != NeedsReconciliation {
      var acceptance := if op.acceptance == AcceptanceAccepted then AcceptanceAccepted else AcceptanceUnknown;
      AskTransitions(env, 2, op, Request(op, NeedsReconciliation, acceptance, ERROR_PROFILE_AMBIGUOUS));
    }
  }

  lemma AcceptTransitions(rows: Rows, d: Device, env: Env, op: Operation)
    requires Quiet(env)
    ensures Transitions(Accept(rows, d, env, op).steps)
  {
    var i := Request(op, Accepted, AcceptanceAccepted, ERROR_NONE);
    var r, rows' := Ask(rows, env, 2, op, i), AfterAll(rows, AskSteps(env, 2, op, i));
    AskTransitions(env, 2, op, i);
    if r.Ok? {
      AdvanceTransitions(rows', d, env, r.value);
    }
  }

  /** Whoever claimed the open operation last, or finds none open, does nothing. */
  lemma NothingToDo(rows: Rows, d: Device, env: Env)
    requires Inv(rows) && Quiet(env)
    requires Blocking(rows, DeviceId(env)).Some? ==> ClaimedBy(Blocking(rows, DeviceId(env)).value, env)
    ensures var p := Reconcile(rows, d, env); RowsAfter(rows, p) == rows && p.device == d && p.asked == []
  {
    if Admitted(env) {
      QuietPass(rows, d, env);
      if Blocking(rows, DeviceId(env)).Some? {
        AfterOne(rows, DoClaim(ClaimOf(Blocking(rows, DeviceId(env)).value, env), env.clock(1)));
      }
    }
  }

  // ---- a second pass after anything else ----------------------------------------------------------------------

  /** Every successful claim of the operation among the steps is this worker's own. */
  ghost predicate NoForeignClaim(rows: Rows, steps: seq<Step>, id: string, env: Env) {
    forall k: nat :: k < |steps| && steps[k].DoClaim? && Updates(AfterAll(rows, steps[..k]), steps[k], id) ==>
      ClaimsFor(AfterAll(rows, steps[..k]), steps[k], id, TrimSpace(Epoch(env)), env.generation)
  }

  lemma ClaimantStep(rows: Rows, s: Step, id: string)
    requires id in rows
    ensures var a, b := rows[id], After(rows, s)[id];
      || (b.reconcileOwner == a.reconcileOwner && b.reconcileGeneration == a.reconcileGeneration)
      || (s.DoClaim? && Updates(rows, s, id) && ClaimsFor(rows, s, id, b.reconcileOwner, b.reconcileGeneration))
  {
  }

  lemma {:induction false} ClaimLasts(rows: Rows, steps: seq<Step>, id: string, env: Env)
    requires id in rows && ClaimedBy(rows[id], env) && NoForeignClaim(rows, steps, id, env)
    ensures id in AfterAll(rows, steps) && ClaimedBy(AfterAll(rows, steps)[id], env)
  {
    if steps != [] {
      var n := |steps| - 1;
      var front := steps[..n];
      assert forall k: nat :: k < n ==> front[..k] == steps[..k] && front[k] == steps[k];
      ClaimLasts(rows, front, id, env);
      ClaimantStep(AfterAll(rows, front), steps[n], id);
      RowStep(AfterAll(rows, front), steps[n], id);
    }
  }

  /** The steps of others a pass that asks for nothing sees go by. */
  ghost function Seen(rows: Rows, env: Env): seq<Step> {
    if !Admitted(env) then []
    else if Blocking(AfterAll(rows, env.others(0)), DeviceId(env)).None? then env.others(0)
    else env.others(0) + env.others(1)
  }

  /** The worker's claim on what it found is refused if it was the last to claim it. */
  lemma OwnClaimIsRefused(rows: Rows, env: Env, found: Operation, now: int)
    requires RowOk(found.id, found) && Admitted(env)
    requires found.id in rows && ClaimedBy(rows[found.id], env)
    ensures Claim(rows, ClaimOf(found, env), now) == (rows, Err(Stale))
  {
    TrimmedIsFixed(found.id);
    TrimmedIsFixed(found.ownerEpoch);
  }

  lemma AfterSnoc(rows: Rows, steps: seq<Step>, s: Step)
    ensures AfterAll(rows, steps + [s]) == After(AfterAll(rows, steps), s)
  {
    assert (steps + [s])[..|steps|] == steps;
  }

  lemma RefusedShape(rows: Rows, d: Device, env: Env, found: Operation)
    requires Admitted(env) && Blocking(AfterAll(rows, env.others(0)), DeviceId(env)) == Some(found)
    requires Claim(AfterAll(rows, env.others(0) + env.others(1)), ClaimOf(found, env), env.clock(1)).1 == Err(Stale)
    ensures Reconcile(rows, d, env) ==
            Pass(env.others(0) + env.others(1) + [DoClaim(ClaimOf(found, env), env.clock(1))], d, [], Done)
  {
  }

  lemma RefusedPass(rows: Rows, d: Device, env: Env)
    requires Inv(rows) && Admitted(env)
    requires Blocking(AfterAll(rows, env.others(0)), DeviceId(env)).Some?
    requires var id := Blocking(AfterAll(rows, env.others(0)), DeviceId(env)).value.id;
      var seen := AfterAll(rows, env.others(0) + env.others(1)); id in seen && ClaimedBy(seen[id], env)
    ensures var p := Reconcile(rows, d, env); RowsAfter(rows, p) == AfterAll(rows, Seen(rows, env)) && p.device == d && p.asked == []
  {
    var before, looked := env.others(0) + env.others(1), AfterAll(rows, env.others(0));
    var found := Blocking(looked, DeviceId(env)).value;
    BlockingIs(looked, DeviceId(env));
    AllKeepInv(rows, env.others(0));
    assert RowOk(found.id, looked[found.id]);
    OwnClaimIsRefused(AfterAll(rows, before), env, found, env.clock(1));
    RefusedShape(rows, d, env, found);
    AfterSnoc(rows, before, DoClaim(ClaimOf(found, env), env.clock(1)));
  }

  lemma AllConcat(rows: Rows, a: seq<Step>, b: seq<Step>, c: seq<Step>)
    ensures AfterAll(rows, a + b + c) == AfterAll(AfterAll(AfterAll(rows, a), b), c)
  {
    AfterAllConcat(rows, a + b, c);
    AfterAllConcat(rows, a, b);
  }

  /**
   A worker that has claimed an operation gets no second pass at it until another owner claims it:
   whatever became of the first pass, whatever others did during it, since and meanwhile, a later pass
   that finds this operation or none asks for nothing and leaves journal and device to the others.
   */
  lemma SecondPassDoesNothing(rows: Rows, d: Device, env: Env, op: Operation, between: seq<Step>, d': Device, again: Env)
    requires Inv(rows) && Admitted(env)
    requires again.workerId == env.workerId && again.entropy == env.entropy && again.generation == env.generation
    requires Blocking(AfterAll(rows, env.others(0)), DeviceId(env)) == Some(op)
    requires Claim(AfterAll(rows, env.others(0) + env.others(1)), ClaimOf(op, env), env.clock(1)).1.Ok?
    requires
      var claim := DoClaim(ClaimOf(op, env), env.clock(1));
      var claimed := AfterAll(rows, env.others(0) + env.others(1) + [claim]);
      var mine := Claim(AfterAll(rows, env.others(0) + env.others(1)), claim.claim, claim.now).1.value;
      NoForeignClaim(claimed, Recover(claimed, d, env, mine).steps + between + Seen(LaterRows(rows, d, env, between), again), op.id, again)
    requires
      var found := Blocking(AfterAll(LaterRows(rows, d, env, between), again.others(0)), DeviceId(again));
      found.Some? ==> found.value.id == op.id
    ensures var rows' := LaterRows(rows, d, env, between); var p' := Reconcile(rows', d', again);
      RowsAfter(rows', p') == AfterAll(rows', Seen(rows', again)) && p'.device == d' && p'.asked == []
  {
    var before, claim := env.others(0) + env.others(1), DoClaim(ClaimOf(op, env), env.clock(1));
    var claimed := AfterAll(rows, before + [claim]);
    var mine := Claim(AfterAll(rows, before), claim.claim, claim.now).1.value;
    var q, rows' := Recover(claimed, d, env, mine), LaterRows(rows, d, env, between);
    AllKeepInv(rows, Reconcile(rows, d, env).steps + between);
    AfterAllConcat(rows, Reconcile(rows, d, env).steps, between);
    if Admitted(again) && Blocking(AfterAll(rows', again.others(0)), DeviceId(again)).Some? {
      AfterAllConcat(rows, before + [claim], q.steps);
      AllConcat(claimed, q.steps, between, Seen(rows', again));
      OwnClaimStands(rows, env, op);
      ClaimLasts(claimed, q.steps + between + Seen(rows', again), op.id, again);
      RefusedPass(rows', d', again);
    }
  }

  /** The journal when a later pass begins: the first pass, then whatever others did. */
  ghost function LaterRows(rows: Rows, d: Device, env: Env, between: seq<Step>): Rows {
    AfterAll(RowsAfter(rows, Reconcile(rows, d, env)), between)
  }

  lemma OwnClaimStands(rows: Rows, env: Env, op: Operation)
    requires Inv(rows) && Blocking(AfterAll(rows, env.others(0)), DeviceId(env)) == Some(op)
    requires Claim(AfterAll(rows, env.others(0) + env.others(1)), ClaimOf(op, env), env.clock(1)).1.Ok?
    ensures var claimed := AfterAll(rows, env.others(0) + env.others(1) + [DoClaim(ClaimOf(op, env), env.clock(1))]);
      op.id in claimed && ClaimedBy(claimed[op.id], env)
  {
    var before, looked := env.others(0) + env.others(1), AfterAll(rows, env.others(0));
    AllKeepInv(rows, env.others(0));
    BlockingIs(looked, DeviceId(env));
    assert RowOk(op.id, looked[op.id]);
    TrimmedIsFixed(op.id);
    AfterSnoc(rows, before, DoClaim(ClaimOf(op, env), env.clock(1)));
  }

  /** In particular a second pass straight after a first, with nobody else about, changes neither the journal nor the device. */
  lemma SecondPassAlone(rows: Rows, d: Device, env: Env, again: Env)
    requires Inv(rows) && Quiet(env) && Quiet(again) && Admitted(env)
    requires again.workerId == env.workerId && again.entropy == env.entropy && again.generation == env.generation
    ensures var p := Reconcile(rows, d, env); var rows' := RowsAfter(rows, p);
      var p' := Reconcile(rows', p.device, again);
      RowsAfter(rows', p') == rows' && p'.device == p.device && p'.asked == []
  {
    var p := Reconcile(rows, d, env);
    var rows' := RowsAfter(rows, p);
    AllKeepInv(rows, p.steps);
    BlockingIs(rows', DeviceId(env));
    if Blocking(rows', DeviceId(env)).Some? {
      ClaimIsMine(rows, d, env, Blocking(rows', DeviceId(env)).value);
    }
    NothingToDo(rows', p.device, again);
  }

  lemma ClaimIsMine(rows: Rows, d: Device, env: Env, left: Operation)
    requires Inv(rows) && Quiet(env) && Admitted(env)
    requires IsBlocking(RowsAfter(rows, Reconcile(rows, d, env)), DeviceId(env), left)
    ensures ClaimedBy(left, env)
  {
    QuietPass(rows, d, env);
    BlockingIs(rows, DeviceId(env));
    match Blocking(rows, DeviceId(env))
    case None =>
    case Some(op) =>
      var claim := DoClaim(ClaimOf(op, env), env.clock(1));
      AfterOne(rows, claim);
      if !ClaimedBy(op, env) {
        var op', rows' := Claimed(op, ClaimOf(op, env), env.clock(1)), After(rows, claim);
        var q := Recover(rows', d, env, op');
        OnlyTransitions(rows', d, env, op');
        AfterAllConcat(rows, [claim], q.steps);
        TransitionsKeepClaims(rows', q.steps);
        ClaimIsKept(rows, rows', RowsAfter(rows, Reconcile(rows, d, env)), env, op, left);
      }
  }

  lemma ClaimIsKept(rows: Rows, claimed: Rows, rows': Rows, env: Env, op: Operation, left: Operation)
    requires Inv(rows) && IsBlocking(rows, DeviceId(env), op) && IsBlocking(rows', DeviceId(env), left)
    requires claimed == rows[op.id := Claimed(op, ClaimOf(op, env), env.clock(1))] && KeepsClaims(claimed, rows')
    ensures ClaimedBy(left, env)
  {
    var id := left.id;
    assert id in claimed && !claimed[id].terminal && claimed[id].device == DeviceId(env);
    assert id in rows && !rows[id].terminal && rows[id].device == DeviceId(env);
    assert id == op.id;
  }
}
