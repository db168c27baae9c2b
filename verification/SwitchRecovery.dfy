/** What one recovery pass guarantees, alone and with others changing the journal in between. */
module SwitchRecovery {
  import opened Text
  import opened Wrappers
  import opened SwitchJournal
  import opened SwitchJournalRuns
  import opened SwitchReconciler

  // ---- rows under the steps of others ---------------------------------------------------------------

  lemma {:induction false} AllKeepRow(rows: Rows, steps: seq<Step>, id: string)
    requires id in rows
    ensures id in AfterAll(rows, steps) && SameSubject(rows[id], AfterAll(rows, steps)[id])
    ensures AfterAll(rows, steps)[id].version >= rows[id].version
  {
    if steps != [] {
      var front := steps[..|steps| - 1];
      AllKeepRow(rows, front, id);
      RowStep(AfterAll(rows, front), steps[|steps| - 1], id);
    }
  }

  lemma AllSplit(rows: Rows, steps: seq<Step>, m: nat)
    requires m < |steps|
    ensures AfterAll(rows, steps) == AfterAll(After(AfterAll(rows, steps[..m]), steps[m]), steps[m + 1..])
  {
    assert steps[..m + 1][..m] == steps[..m];
    assert steps == steps[..m + 1] + steps[m + 1..];
    AfterAllConcat(rows, steps[..m + 1], steps[m + 1..]);
  }

  lemma UpdateBumps(rows: Rows, s: Step, id: string)
    requires id in rows && Updates(rows, s, id)
    ensures id in After(rows, s) && After(rows, s)[id].version == rows[id].version + 1
  {
    RowStep(rows, s, id);
  }

  lemma UpdateShows(rows: Rows, steps: seq<Step>, m: nat, id: string)
    requires id in rows && m < |steps| && Updates(AfterAll(rows, steps[..m]), steps[m], id)
    ensures id in AfterAll(rows, steps) && AfterAll(rows, steps)[id].version > rows[id].version
  {
    var at := AfterAll(rows, steps[..m]);
    AllKeepRow(rows, steps[..m], id);
    UpdateBumps(at, steps[m], id);
    AllKeepRow(After(at, steps[m]), steps[m + 1..], id);
    AllSplit(rows, steps, m);
  }

  /** An update by anyone else since the snapshot makes the pass's next request stale. */
  lemma ForeignUpdateIsNoticed(rows: Rows, env: Env, k: nat, op: Operation, i: TransitionInput, m: nat)
    requires op.id in rows && rows[op.id] == op && m < |env.others(k)|
    requires Updates(AfterAll(rows, env.others(k)[..m]), env.others(k)[m], op.id)
    requires !TransitionInvalid(i) && TrimSpace(i.id) == op.id && i.version == op.version
    ensures Ask(rows, env, k, op, i) == Err(Stale)
  {
    UpdateShows(rows, env.others(k), m, op.id);
  }

  // ---- every request is admissible ------------------------------------------------------------------

  /** The snapshot a request is made from: a stored row of the operation, not necessarily its latest. */
  ghost predicate Snapshot(rows: Rows, op: Operation) {
    RowOk(op.id, op) && !op.terminal && op.id in rows && SameSubject(rows[op.id], op)
  }

  ghost predicate AskedOk(a: Asked, env: Env, rows: Rows) {
    && Snapshot(rows, a.op) && !TransitionInvalid(a.input)
    && a.input.id == a.op.id && a.input.phase == a.op.phase && a.input.version == a.op.version
    && a.result != Err(Invalid)
    && (a.input.nextPhase == Accepted ==> env.live.Some? && SameSIM(env.live.value, a.op.target))
  }

  lemma RequestIsValid(op: Operation, next: Phase, acceptance: Acceptance, code: string)
    requires RowOk(op.id, op) && ValidTransition(op.phase, next) && ValidPhaseAcceptance(next, acceptance)
    requires code == ERROR_NONE || code == ERROR_PROFILE_AMBIGUOUS
    ensures !TransitionInvalid(Request(op, next, acceptance, code))
    ensures TrimSpace(op.id) == op.id && TrimSpace(op.ownerEpoch) == op.ownerEpoch && TrimSpace(code) == code
  {
    TrimmedIsFixed(op.id);
    TrimmedIsFixed(op.ownerEpoch);
    TrimmedIsFixed(code);
  }

  lemma SnapshotStays(rows: Rows, steps: seq<Step>, op: Operation)
    requires Snapshot(rows, op)
    ensures Snapshot(AfterAll(rows, steps), op)
  {
    AllKeepRow(rows, steps, op.id);
  }

  /** A granted request stores the row it returns. */
  lemma GrantedIsStored(rows: Rows, env: Env, k: nat, op: Operation, i: TransitionInput)
    requires Inv(rows) && Snapshot(rows, op) && TrimSpace(i.id) == op.id
    ensures var rows' := AfterAll(rows, AskSteps(env, k, op, i)); var r := Ask(rows, env, k, op, i);
      && Inv(rows') && Snapshot(rows', op)
      && (r.Ok? ==> op.id in rows' && rows'[op.id] == r.value && r.value.phase == i.nextPhase && SameSubject(r.value, op))
  {
    var steps := AskSteps(env, k, op, i);
    AllKeepInv(rows, steps);
    SnapshotStays(rows, steps, op);
    SnapshotStays(rows, env.others(k), op);
    AllKeepInv(rows, env.others(k));
    if StillOwned(env, k, op) && Ask(rows, env, k, op, i).Ok? {
      assert steps[..|steps| - 1] == env.others(k);
      GrantedRow(AfterAll(rows, env.others(k)), i, env.clock(k), op);
    }
  }

  lemma GrantedRow(rows: Rows, i: TransitionInput, now: int, op: Operation)
    requires Inv(rows) && Snapshot(rows, op) && TrimSpace(i.id) == op.id && Transition(rows, i, now).1.Ok?
    ensures var rows' := After(rows, DoTransition(i, now)); var v := Transition(rows, i, now).1.value;
      op.id in rows' && rows'[op.id] == v && v.phase == i.nextPhase && SameSubject(v, op)
  {
  }

  lemma LastIsOk(rows: Rows, d: Device, env: Env, k: nat, op: Operation, next: Phase, acceptance: Acceptance, code: string)
    requires Inv(rows) && Snapshot(rows, op)
    requires ValidTransition(op.phase, next) && ValidPhaseAcceptance(next, acceptance) && next != Accepted
    requires code == ERROR_NONE || code == ERROR_PROFILE_AMBIGUOUS
    ensures PassOk(rows, Last(rows, d, env, k, op, Request(op, next, acceptance, code)), env)
  {
    var i := Request(op, next, acceptance, code);
    RequestIsValid(op, next, acceptance, code);
    GrantedIsStored(rows, env, k, op, i);
  }

  ghost predicate PassOk(rows: Rows, p: Pass, env: Env) {
    Inv(RowsAfter(rows, p)) && forall a :: a in p.asked ==> AskedOk(a, env, RowsAfter(rows, p))
  }

  lemma FinishIsOk(rows: Rows, d: Device, env: Env, op: Operation)
    requires Inv(rows) && Snapshot(rows, op)
    ensures PassOk(rows, Finish(rows, d, env, op), env)
  {
    if op.phase == Restoring && !env.failpoint && env.physical {
      var (d', ok) := Restore(d, op, env);
      LastIsOk(rows, d', env, 4, op, Succeeded, AcceptanceAccepted, ERROR_NONE);
    }
  }

  /** Prefixing a pass with a granted request. */
  lemma ThenIsOk(rows: Rows, p: Pass, steps: seq<Step>, a: Asked, env: Env)
    requires Snapshot(AfterAll(rows, steps), a.op) && PassOk(AfterAll(rows, steps), p, env)
    requires AskedOk(a, env, AfterAll(rows, steps))
    ensures PassOk(rows, Then(p, steps, a), env)
  {
    AfterAllConcat(rows, steps, p.steps);
    SnapshotStays(AfterAll(rows, steps), p.steps, a.op);
  }

  lemma AdvanceIsOk(rows: Rows, d: Device, env: Env, op: Operation)
    requires Inv(rows) && Snapshot(rows, op)
    ensures PassOk(rows, Advance(rows, d, env, op), env)
  {
    if op.phase != Accepted {
      FinishIsOk(rows, d, env, op);
    } else {
      var i := Request(op, Restoring, AcceptanceAccepted, ERROR_NONE);
      var r, steps := Ask(rows, env, 3, op, i), AskSteps(env, 3, op, i);
      RequestIsValid(op, Restoring, AcceptanceAccepted, ERROR_NONE);
      GrantedIsStored(rows, env, 3, op, i);
      assert AskedOk(Asked(op, i, r), env, AfterAll(rows, steps));
      if r.Ok? {
        FinishIsOk(AfterAll(rows, steps), d, env, r.value);
        ThenIsOk(rows, Finish(AfterAll(rows, steps), d, env, r.value), steps, Asked(op, i, r), env);
      }
    }
  }

  lemma AcceptIsOk(rows: Rows, d: Device, env: Env, op: Operation)
    requires Inv(rows) && Snapshot(rows, op) && ValidTransition(op.phase, Accepted)
    requires env.live.Some? && SameSIM(env.live.value, op.target)
    ensures PassOk(rows, Accept(rows, d, env, op), env)
  {
    var i := Request(op, Accepted, AcceptanceAccepted, ERROR_NONE);
    var r, steps := Ask(rows, env, 2, op, i), AskSteps(env, 2, op, i);
    RequestIsValid(op, Accepted, AcceptanceAccepted, ERROR_NONE);
    GrantedIsStored(rows, env, 2, op, i);
    assert AskedOk(Asked(op, i, r), env, AfterAll(rows, steps));
    if r.Ok? {
      AdvanceIsOk(AfterAll(rows, steps), d, env, r.value);
      ThenIsOk(rows, Advance(AfterAll(rows, steps), d, env, r.value), steps, Asked(op, i, r), env);
    }
  }

  lemma RecoverIsOk(rows: Rows, d: Device, env: Env, op: Operation)
    requires Inv(rows) && Snapshot(rows, op)
    ensures PassOk(rows, Recover(rows, d, env, op), env)
  {
    if op.phase == Intent {
      LastIsOk(rows, d, env, 2, op, FailedBeforeApply, AcceptanceUnknown, ERROR_NONE);
    } else if op.phase == Accepted || op.phase == Restoring {
      AdvanceIsOk(rows, d, env, op);
    } else if env.live.Some? && SameSIM(env.live.value, op.target) {
      AcceptIsOk(rows, d, env, op);
    } else if env.live.Some? && op.phase != NeedsReconciliation {
      var acceptance := if op.acceptance == AcceptanceAccepted then AcceptanceAccepted else AcceptanceUnknown;
      LastIsOk(rows, d, env, 2, op, NeedsReconciliation, acceptance, ERROR_PROFILE_AMBIGUOUS);
    }
  }

  lemma ClaimedIsSnapshot(rows: Rows, i: ClaimInput, now: int)
    requires Inv(rows) && Claim(rows, i, now).1.Ok?
    ensures var op := Claim(rows, i, now).1.value; var rows' := After(rows, DoClaim(i, now));
      && Inv(rows') && Snapshot(rows', op) && rows'[op.id] == op
      && op.ownerEpoch == TrimSpace(i.newOwner) && op.generation == i.newGeneration
  {
    StepKeeps(rows, DoClaim(i, now));
    var id, op, rows' := TrimSpace(i.id), Claim(rows, i, now).1.value, After(rows, DoClaim(i, now));
    assert RowOk(id, rows[id]);
    assert id in rows' && rows'[id] == op;
    assert RowOk(id, rows'[id]);
  }

  /**
   However the pool and other processes interfere, every transition the pass asks for is one the
   journal admits, none is ever refused as invalid, and Accepted is asked for only after the SIM
   itself reported the operation's target.
   */
  lemma RequestsAreAdmissible(rows: Rows, d: Device, env: Env)
    requires Inv(rows)
    ensures PassOk(rows, Reconcile(rows, d, env), env)
  {
    var p := Reconcile(rows, d, env);
    AllKeepInv(rows, p.steps);
    if p.asked != [] {
      var found := Blocking(AfterAll(rows, env.others(0)), TrimSpace(env.workerId)).value;
      var before := env.others(0) + env.others(1);
      var claim := DoClaim(ClaimOf(found, env), env.clock(1));
      AllKeepInv(rows, before);
      ClaimedIsSnapshot(AfterAll(rows, before), claim.claim, claim.now);
      assert (before + [claim])[..|before|] == before;
      var op := Claim(AfterAll(rows, before), claim.claim, claim.now).1.value;
      RecoverIsOk(AfterAll(rows, before + [claim]), d, env, op);
      AfterAllConcat(rows, before + [claim], Recover(AfterAll(rows, before + [claim]), d, env, op).steps);
    }
  }
}
