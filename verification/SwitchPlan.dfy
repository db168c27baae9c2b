/** What a recovery pass sets out to do, said apart from how it does it, and when two SIM identities are the same. */
module SwitchPlan {
  import opened Text
  import opened Wrappers
  import opened SwitchJournal
  import opened SwitchJournalRuns
  import opened SwitchReconciler
  import opened SwitchRecovery
  import opened SwitchCompletion

  // ---- SIM identities ------------------------------------------------------------------------------

  predicate AllDigits(s: string) {
    s != "" && forall i :: 0 <= i < |s| ==> '0' <= s[i] <= '9'
  }

  predicate AllBlank(s: string) {
    forall i :: 0 <= i < |s| ==> IsSpace(s[i])
  }

  lemma {:induction false} NothingToDrop(s: string)
    requires forall i :: 0 <= i < |s| ==> s[i] != ' '
    ensures WithoutBlanks(s) == s
  {
    if s != [] {
      NothingToDrop(s[1..]);
    }
  }

  lemma DigitsAreNormal(s: string)
    requires AllDigits(s)
    ensures NormalizeSIM(s) == s
  {
    TrimmedIsFixed(s);
    assert ToUpper(s) == s;
    NothingToDrop(s);
  }

  /** Between ICCIDs of digits only the comparison is equality. */
  lemma SameDigits(a: string, b: string)
    requires AllDigits(a) && AllDigits(b)
    ensures SameSIM(a, b) <==> a == b
  {
    DigitsAreNormal(a);
    DigitsAreNormal(b);
  }

  lemma {:induction false} TrimLeftConcat(a: string, b: string)
    ensures TrimLeft(a + b) == if AllBlank(a) then TrimLeft(b) else TrimLeft(a) + b
  {
    if a == [] {
      assert a + b == b;
    } else {
      assert (a + b)[1..] == a[1..] + b;
      TrimLeftConcat(a[1..], b);
      assert IsSpace(a[0]) ==> (AllBlank(a) <==> AllBlank(a[1..]));
    }
  }

  lemma {:induction false} TrimRightConcat(a: string, b: string)
    ensures TrimRight(a + b) == if AllBlank(b) then TrimRight(a) else a + TrimRight(b)
  {
    if b == [] {
      assert a + b == a;
    } else {
      var front := b[..|b| - 1];
      assert (a + b)[..|a + b| - 1] == a + front;
      TrimRightConcat(a, front);
      assert IsSpace(b[|b| - 1]) ==> (AllBlank(b) <==> AllBlank(front));
    }
  }

  lemma {:induction false} WithoutBlanksConcat(a: string, b: string)
    ensures WithoutBlanks(a + b) == WithoutBlanks(a) + WithoutBlanks(b)
  {
    if a == [] {
      assert a + b == b;
    } else {
      assert (a + b)[1..] == a[1..] + b;
      WithoutBlanksConcat(a[1..], b);
    }
  }

  lemma SpaceDropped(a: string, b: string)
    ensures WithoutBlanks(ToUpper(a + " " + b)) == WithoutBlanks(ToUpper(a + b))
  {
    assert ToUpper(a + " " + b) == ToUpper(a) + " " + ToUpper(b);
    assert ToUpper(a + b) == ToUpper(a) + ToUpper(b);
    WithoutBlanksConcat(ToUpper(a) + " ", ToUpper(b));
    WithoutBlanksConcat(ToUpper(a), " ");
    WithoutBlanksConcat(ToUpper(a), ToUpper(b));
  }

  lemma SpaceIsBlank(a: string)
    ensures AllBlank(a + " ") <==> AllBlank(a)
  {
    assert forall i :: 0 <= i < |a| ==> (a + " ")[i] == a[i];
  }

  /** Spaces do not matter, wherever they stand. */
  lemma SpacesIgnored(a: string, b: string)
    ensures NormalizeSIM(a + " " + b) == NormalizeSIM(a + b)
  {
    SpaceIsBlank(a);
    TrimLeftConcat(a + " ", b);
    TrimLeftConcat(a, " ");
    TrimLeftConcat(a, b);
    if !AllBlank(a) {
      var left := TrimLeft(a);
      assert TrimLeft(a + " " + b) == left + " " + b && TrimLeft(a + b) == left + b;
      TrimRightConcat(left + " ", b);
      TrimRightConcat(left, " ");
      TrimRightConcat(left, b);
      SpaceDropped(left, TrimRight(b));
    }
  }

  lemma CaseIgnoredBy(v: string, u: string)
    requires ToUpper(v) == ToUpper(u)
    ensures NormalizeSIM(v) == NormalizeSIM(u)
  {
    TrimUpper(v);
    TrimUpper(u);
  }

  /** Nor does case. */
  lemma CaseIgnored(v: string)
    ensures NormalizeSIM(ToUpper(v)) == NormalizeSIM(v) == NormalizeSIM(ToLower(v))
  {
    assert ToUpper(ToUpper(v)) == ToUpper(v);
    assert ToUpper(ToLower(v)) == ToUpper(v);
    CaseIgnoredBy(ToUpper(v), v);
    CaseIgnoredBy(ToLower(v), v);
  }

  /** Nor an F that fills up the last digit. */
  lemma FillIgnored(v: string)
    requires v == "" || !IsSpace(v[|v| - 1])
    ensures NormalizeSIM(v + "F") == NormalizeSIM(v)
  {
    TrimLeftConcat(v, "F");
    var left := TrimLeft(v);
    TrimLeftShape(v);
    assert v != "" ==> left != "" && left[|left| - 1] == v[|v| - 1];
    assert TrimSpace(v) == left && TrimSpace(v + "F") == left + "F";
    assert ToUpper(left + "F") == ToUpper(left) + "F";
    WithoutBlanksConcat(ToUpper(left), "F");
    assert WithoutBlanks("F") == "F";
    var bare := WithoutBlanks(ToUpper(left));
    assert (bare + "F")[..|bare|] == bare;
  }

  /** And an identity that is blank, or nothing but fill, is the same as none. */
  lemma NothingMatchesBlank(a: string, b: string)
    requires TrimSpace(a) == "" || TrimSpace(a) == "F"
    ensures !SameSIM(a, b) && !SameSIM(b, a)
  {
    assert ToUpper("") == "" && ToUpper("F") == "F" && WithoutBlanks("F") == "F" && WithoutBlanks("") == "";
    assert TrimFill("F") == TrimFill("F"[..0]);
  }

  // ---- the restore ------------------------------------------------------------------------------------

  /** A restore succeeds exactly when every call it needs does, and each setting waits for those before it. */
  lemma RestoreSucceedsIff(d: Device, op: Operation, env: Env)
    ensures var (d', ok) := Restore(d, op, env);
      var want, sets := op.networkConnected || op.networkEnabled, op.radio == RadioFlight || op.radio == RadioOnline;
      && (ok <==> (sets ==> env.radioOk) && (want ==> d.network.Some?)
                  && (d.network.Some? && d.network.value != want ==> env.networkOk) && (op.voWiFiActive ==> env.voWiFiOk))
      && d'.mode == (if sets && env.radioOk then op.radio else d.mode)
      && (d'.network != d.network ==> d'.network == Some(want) && d.network.Some? && env.networkOk && (sets ==> env.radioOk))
      && (d.voWiFi ==> d'.voWiFi) && (d'.voWiFi != d.voWiFi ==> ok && op.voWiFiActive)
  {
  }

  lemma RestoreSame(d: Device, a: Operation, b: Operation, env: Env)
    requires SameSubject(a, b)
    ensures Restore(d, a, env) == Restore(d, b, env)
  {
  }

  // ---- the plan ---------------------------------------------------------------------------------------

  datatype Move = Move(phase: Phase, acceptance: Acceptance, code: string)

  function MoveOf(i: TransitionInput): Move {
    Move(i.nextPhase, i.nextAcceptance, i.errorCode)
  }

  /** The moves still to make, given whether the SIM reports the target, if it can be read. */
  function Plan(phase: Phase, onTarget: Option<bool>): seq<Move> {
    match phase
    case Intent => [Move(FailedBeforeApply, AcceptanceUnknown, "")]
    case Accepted => [Move(Restoring, AcceptanceAccepted, ""), Move(Succeeded, AcceptanceAccepted, "")]
    case Restoring => [Move(Succeeded, AcceptanceAccepted, "")]
    case TeardownPlanned | ApplyPlanned | NeedsReconciliation =>
      if onTarget == Some(true) then
        [Move(Accepted, AcceptanceAccepted, ""), Move(Restoring, AcceptanceAccepted, ""), Move(Succeeded, AcceptanceAccepted, "")]
      else if onTarget == Some(false) && phase != NeedsReconciliation then
        [Move(NeedsReconciliation, AcceptanceUnknown, "profile_ambiguous")]
      else []
    case _ => []
  }

  /** The device cannot be restored in this pass. */
  predicate Unrestorable(d: Device, env: Env, op: Operation) {
    env.failpoint || !env.physical || !Restore(d, op, env).1
  }

  ghost predicate AllGranted(asked: seq<Asked>, n: nat) {
    n <= |asked| && forall k :: 0 <= k < n ==> asked[k].result.Ok?
  }

  /**
   The pass asks for the moves of the plan in order, each after the one before was granted; it stops at
   one that is refused, or before succeeded if the device cannot be restored, and is done if it made them all.
   */
  ghost predicate Follows(p: Pass, plan: seq<Move>, d: Device, env: Env, op: Operation) {
    var n := |p.asked|;
    && n <= |plan| && (forall k :: 0 <= k < n ==> MoveOf(p.asked[k].input) == plan[k])
    && (n > 0 ==> AllGranted(p.asked, n - 1))
    && (p.outcome == Done <==> n == |plan| && AllGranted(p.asked, n))
    && (n < |plan| && AllGranted(p.asked, n) ==> plan[n].phase == Succeeded && Unrestorable(d, env, op))
    && (n > 0 && plan[n - 1].phase == Succeeded ==> !Unrestorable(d, env, op) && p.device == Restore(d, op, env).0)
  }

  lemma OneGranted(p: Pass)
    requires |p.asked| == 1
    ensures AllGranted(p.asked, 1) <==> p.asked[0].result.Ok?
  {
  }

  lemma LastFollows(rows: Rows, d: Device, env: Env, k: nat, op: Operation, i: TransitionInput)
    requires i.nextPhase != Succeeded
    ensures Follows(Last(rows, d, env, k, op, i), [MoveOf(i)], d, env, op)
  {
    OneGranted(Last(rows, d, env, k, op, i));
  }

  lemma FinishFollows(rows: Rows, d: Device, env: Env, op: Operation)
    requires op.phase == Restoring
    ensures Follows(Finish(rows, d, env, op), [Move(Succeeded, AcceptanceAccepted, "")], d, env, op)
  {
    if !Unrestorable(d, env, op) {
      OneGranted(Finish(rows, d, env, op));
    }
  }

  lemma ThenFollows(p: Pass, plan: seq<Move>, steps: seq<Step>, a: Asked, d: Device, env: Env, op: Operation, op': Operation)
    requires Follows(p, plan, d, env, op') && SameSubject(op', op) && a.result.Ok? && a.input.nextPhase != Succeeded
    ensures Follows(Then(p, steps, a), [MoveOf(a.input)] + plan, d, env, op)
  {
    RestoreSame(d, op', op, env);
    var p', plan' := Then(p, steps, a), [MoveOf(a.input)] + plan;
    assert forall k :: 0 < k < |p'.asked| ==> p'.asked[k] == p.asked[k - 1];
    assert forall k :: 0 < k < |plan'| ==> plan'[k] == plan[k - 1];
    GrantedThen(a, p.asked, |p.asked|);
    if p.asked != [] {
      GrantedThen(a, p.asked, |p.asked| - 1);
    }
  }

  lemma GrantedThen(a: Asked, asked: seq<Asked>, n: nat)
    requires a.result.Ok? && n <= |asked|
    ensures AllGranted([a] + asked, n + 1) <==> AllGranted(asked, n)
  {
    var asked' := [a] + asked;
    assert forall k :: 0 <= k < n ==> asked[k] == asked'[k + 1];
    assert forall k :: 0 < k < n + 1 ==> asked'[k] == asked[k - 1];
  }

  lemma RefusedFollows(p: Pass, plan: seq<Move>, d: Device, env: Env, op: Operation)
    requires |p.asked| == 1 && plan != [] && MoveOf(p.asked[0].input) == plan[0] && plan[0].phase != Succeeded
    requires p.asked[0].result.Err? && p.outcome != Done
    ensures Follows(p, plan, d, env, op)
  {
    assert !AllGranted(p.asked, 1);
  }

  lemma AdvanceFollows(rows: Rows, d: Device, env: Env, op: Operation)
    requires Inv(rows) && Snapshot(rows, op) && (op.phase == Accepted || op.phase == Restoring)
    ensures Follows(Advance(rows, d, env, op), Plan(op.phase, None), d, env, op)
  {
    if op.phase == Restoring {
      FinishFollows(rows, d, env, op);
    } else {
      var i := Request(op, Restoring, AcceptanceAccepted, ERROR_NONE);
      if Ask(rows, env, 3, op, i).Ok? {
        AdvanceGranted(rows, d, env, op);
        assert [MoveOf(i)] + [Move(Succeeded, AcceptanceAccepted, "")] == Plan(Accepted, None);
      } else {
        RefusedFollows(Advance(rows, d, env, op), Plan(Accepted, None), d, env, op);
      }
    }
  }

  lemma AdvanceGranted(rows: Rows, d: Device, env: Env, op: Operation)
    requires Inv(rows) && Snapshot(rows, op) && op.phase == Accepted
    requires Ask(rows, env, 3, op, Request(op, Restoring, AcceptanceAccepted, ERROR_NONE)).Ok?
    ensures var i := Request(op, Restoring, AcceptanceAccepted, ERROR_NONE);
      Follows(Advance(rows, d, env, op), [MoveOf(i)] + [Move(Succeeded, AcceptanceAccepted, "")], d, env, op)
  {
    var i := Request(op, Restoring, AcceptanceAccepted, ERROR_NONE);
    var r, steps := Ask(rows, env, 3, op, i), AskSteps(env, 3, op, i);
    var rows' := AfterAll(rows, steps);
    RequestIsValid(op, Restoring, AcceptanceAccepted, ERROR_NONE);
    GrantedIsStored(rows, env, 3, op, i);
    FinishFollows(rows', d, env, r.value);
    var p := Finish(rows', d, env, r.value);
    ThenFollows(p, [Move(Succeeded, AcceptanceAccepted, "")], steps, Asked(op, i, r), d, env, op, r.value);
  }

  lemma AcceptFollows(rows: Rows, d: Device, env: Env, op: Operation)
    requires Inv(rows) && Snapshot(rows, op)
    requires op.phase == TeardownPlanned || op.phase == ApplyPlanned || op.phase == NeedsReconciliation
    ensures Follows(Accept(rows, d, env, op), Plan(op.phase, Some(true)), d, env, op)
  {
    var i := Request(op, Accepted, AcceptanceAccepted, ERROR_NONE);
    PlanFromAccepted(op.phase);
    if Ask(rows, env, 2, op, i).Ok? {
      AcceptGranted(rows, d, env, op);
    } else {
      AcceptRefused(rows, d, env, op);
      RefusedFollows(Accept(rows, d, env, op), Plan(op.phase, Some(true)), d, env, op);
    }
  }

  lemma AcceptRefused(rows: Rows, d: Device, env: Env, op: Operation)
    requires Ask(rows, env, 2, op, Request(op, Accepted, AcceptanceAccepted, ERROR_NONE)).Err?
    ensures var p := Accept(rows, d, env, op);
      && |p.asked| == 1 && MoveOf(p.asked[0].input) == Move(Accepted, AcceptanceAccepted, "")
      && p.asked[0].result.Err? && p.outcome != Done
  {
  }

  lemma PlanFromAccepted(phase: Phase)
    requires phase == TeardownPlanned || phase == ApplyPlanned || phase == NeedsReconciliation
    ensures Plan(phase, Some(true)) == [Move(Accepted, AcceptanceAccepted, "")] + Plan(Accepted, None)
  {
  }

  lemma AcceptGranted(rows: Rows, d: Device, env: Env, op: Operation)
    requires Inv(rows) && Snapshot(rows, op) && ValidTransition(op.phase, Accepted)
    requires Ask(rows, env, 2, op, Request(op, Accepted, AcceptanceAccepted, ERROR_NONE)).Ok?
    ensures Follows(Accept(rows, d, env, op), [Move(Accepted, AcceptanceAccepted, "")] + Plan(Accepted, None), d, env, op)
  {
    var i := Request(op, Accepted, AcceptanceAccepted, ERROR_NONE);
    var r, steps := Ask(rows, env, 2, op, i), AskSteps(env, 2, op, i);
    var rows' := AfterAll(rows, steps);
    RequestIsValid(op, Accepted, AcceptanceAccepted, ERROR_NONE);
    GrantedIsStored(rows, env, 2, op, i);
    AdvanceFollows(rows', d, env, r.value);
    ThenFollows(Advance(rows', d, env, r.value), Plan(Accepted, None), steps, Asked(op, i, r), d, env, op, r.value);
  }

  /** Whether the SIM reports the target. */
  function OnTarget(env: Env, target: string): Option<bool> {
    match env.live
    case None => None
    case Some(live) => Some(SameSIM(live, target))
  }

  lemma RecoverFollows(rows: Rows, d: Device, env: Env, op: Operation)
    requires Inv(rows) && Snapshot(rows, op)
    ensures Follows(Recover(rows, d, env, op), Plan(op.phase, OnTarget(env, op.target)), d, env, op)
  {
    if op.phase == Intent {
      LastFollows(rows, d, env, 2, op, Request(op, FailedBeforeApply, AcceptanceUnknown, ERROR_NONE));
    } else if op.phase == Accepted || op.phase == Restoring {
      AdvanceFollows(rows, d, env, op);
    } else if OnTarget(env, op.target) == Some(true) {
      AcceptFollows(rows, d, env, op);
    } else if env.live.Some? && op.phase != NeedsReconciliation {
      LastFollows(rows, d, env, 2, op, Request(op, NeedsReconciliation, AcceptanceUnknown, ERROR_PROFILE_AMBIGUOUS));
    }
  }

  /** The pass found this open operation and its claim of it was granted. */
  ghost predicate Claims(rows: Rows, env: Env, found: Operation) {
    && Admitted(env) && Blocking(AfterAll(rows, env.others(0)), DeviceId(env)) == Some(found)
    && Claim(AfterAll(rows, env.others(0) + env.others(1)), ClaimOf(found, env), env.clock(1)).1.Ok?
  }

  lemma PassAfterClaim(rows: Rows, d: Device, env: Env, found: Operation)
    requires Claims(rows, env, found)
    ensures var before, claim := env.others(0) + env.others(1), DoClaim(ClaimOf(found, env), env.clock(1));
      var op := Claim(AfterAll(rows, before), claim.claim, claim.now).1.value;
      var p, q := Reconcile(rows, d, env), Recover(AfterAll(rows, before + [claim]), d, env, op);
      p.asked == q.asked && p.outcome == q.outcome && p.device == q.device && p.steps == before + [claim] + q.steps
  {
  }

  lemma FollowsAlike(p: Pass, q: Pass, plan: seq<Move>, d: Device, env: Env, op: Operation, found: Operation)
    requires Follows(q, plan, d, env, op) && SameSubject(op, found)
    requires p.asked == q.asked && p.outcome == q.outcome && p.device == q.device
    ensures Follows(p, plan, d, env, found)
  {
    RestoreSame(d, op, found, env);
  }

  /** Whatever others do to the journal meanwhile, a pass follows the plan for the operation it claimed. */
  lemma PassFollowsPlan(rows: Rows, d: Device, env: Env, found: Operation)
    requires Inv(rows) && Claims(rows, env, found)
    ensures Follows(Reconcile(rows, d, env), Plan(found.phase, OnTarget(env, found.target)), d, env, found)
  {
    var before := env.others(0) + env.others(1);
    var claim := DoClaim(ClaimOf(found, env), env.clock(1));
    var op := Claim(AfterAll(rows, before), claim.claim, claim.now).1.value;
    ClaimedLikeFound(rows, env, found);
    AllKeepInv(rows, before);
    ClaimedIsSnapshot(AfterAll(rows, before), claim.claim, claim.now);
    assert (before + [claim])[..|before|] == before;
    RecoverFollows(AfterAll(rows, before + [claim]), d, env, op);
    PassAfterClaim(rows, d, env, found);
    FollowsAlike(Reconcile(rows, d, env), Recover(AfterAll(rows, before + [claim]), d, env, op),
                 Plan(found.phase, OnTarget(env, found.target)), d, env, op, found);
  }

  lemma ClaimedLikeFound(rows: Rows, env: Env, found: Operation)
    requires Inv(rows) && Claims(rows, env, found)
    ensures var op := Claim(AfterAll(rows, env.others(0) + env.others(1)), ClaimOf(found, env), env.clock(1)).1.value;
      op.phase == found.phase && SameSubject(op, found)
  {
    var looked := AfterAll(rows, env.others(0));
    BlockingIs(looked, DeviceId(env));
    AllKeepInv(rows, env.others(0));
    AfterAllConcat(rows, env.others(0), env.others(1));
    AllKeepRow(looked, env.others(1), found.id);
    assert RowOk(found.id, looked[found.id]);
    TrimmedIsFixed(found.id);
  }

  ghost predicate AsksFor(p: Pass, phase: Phase) {
    exists k :: 0 <= k < |p.asked| && p.asked[k].input.nextPhase == phase
  }

  /**
   The law of the recovery, on the identities as they are: over an operation whose outcome is open a
   pass asks for accepted exactly when the SIM reports the operation's target, and otherwise at most
   for needs_reconciliation; an unreadable SIM decides nothing.
   */
  lemma AcceptedExactlyOnTarget(rows: Rows, d: Device, env: Env, found: Operation)
    requires Inv(rows) && Claims(rows, env, found)
    requires found.phase in {TeardownPlanned, ApplyPlanned, NeedsReconciliation}
    requires AllDigits(found.target) && (env.live.Some? ==> AllDigits(env.live.value))
    ensures var p := Reconcile(rows, d, env);
      && (AsksFor(p, Accepted) <==> env.live == Some(found.target))
      && (env.live != Some(found.target) ==>
            (AsksFor(p, NeedsReconciliation) <==> env.live.Some? && found.phase != NeedsReconciliation)
            && !AsksFor(p, Restoring) && !AsksFor(p, Succeeded))
  {
    PassFollowsPlan(rows, d, env, found);
    if env.live.Some? {
      SameDigits(env.live.value, found.target);
    }
    LawOfThePlan(Reconcile(rows, d, env), OnTarget(env, found.target), d, env, found);
  }

  lemma LawOfThePlan(p: Pass, onTarget: Option<bool>, d: Device, env: Env, op: Operation)
    requires op.phase in {TeardownPlanned, ApplyPlanned, NeedsReconciliation} && Follows(p, Plan(op.phase, onTarget), d, env, op)
    ensures AsksFor(p, Accepted) <==> onTarget == Some(true)
    ensures onTarget != Some(true) ==> !AsksFor(p, Restoring) && !AsksFor(p, Succeeded)
    ensures onTarget != Some(true) ==>
              (AsksFor(p, NeedsReconciliation) <==> onTarget == Some(false) && op.phase != NeedsReconciliation)
  {
    FirstMove(p, Plan(op.phase, onTarget), d, env, op);
  }

  /** The first move of a plan is asked for, unless it is succeeded, and nothing that is not in the plan. */
  lemma FirstMove(p: Pass, plan: seq<Move>, d: Device, env: Env, op: Operation)
    requires Follows(p, plan, d, env, op)
    ensures plan != [] && plan[0].phase != Succeeded ==> AsksFor(p, plan[0].phase)
    ensures forall phase :: AsksFor(p, phase) ==> exists k :: 0 <= k < |plan| && plan[k].phase == phase
  {
    forall phase | AsksFor(p, phase)
      ensures exists k :: 0 <= k < |plan| && plan[k].phase == phase
    {
      var k :| 0 <= k < |p.asked| && p.asked[k].input.nextPhase == phase;
      assert plan[k] == MoveOf(p.asked[k].input);
    }
    if plan != [] && plan[0].phase != Succeeded {
      assert p.asked != [] && MoveOf(p.asked[0].input) == plan[0];
    }
  }

  // ---- passes that get nowhere ------------------------------------------------------------------------

  /** A pass that may not start says why and touches nothing. */
  lemma RefusedAtOnce(rows: Rows, d: Device, env: Env)
    ensures !Admitted(env) ==> Reconcile(rows, d, env) == Pass([], d, [], Failed(Journal(
              if TrimSpace(env.workerId) == "" || env.generation == 0 then Invalid
              else if !env.journal || env.entropy.None? || env.entropy == Some([]) then Unavailable
              else Stale)))
    ensures Admitted(env) ==> env.current && env.lease
  {
    EpochIsTrimmed(env);
    if env.entropy.Some? {
      HexHasNoBlanks(env.entropy.value);
    }
  }

  /** Without an open operation, or when its claim is refused, a pass is done without a request; no claim is ever invalid. */
  lemma NothingToClaim(rows: Rows, d: Device, env: Env)
    requires Inv(rows) && Admitted(env)
    ensures match Blocking(AfterAll(rows, env.others(0)), DeviceId(env)) {
      case None => Reconcile(rows, d, env) == Pass(env.others(0), d, [], Done)
      case Some(found) =>
        Claims(rows, env, found) || Reconcile(rows, d, env) ==
          Pass(env.others(0) + env.others(1) + [DoClaim(ClaimOf(found, env), env.clock(1))], d, [], Done)
    }
  {
    var looked := AfterAll(rows, env.others(0));
    AllKeepInv(rows, env.others(0));
    BlockingIs(looked, DeviceId(env));
    if Blocking(looked, DeviceId(env)).Some? {
      var found := Blocking(looked, DeviceId(env)).value;
      assert RowOk(found.id, looked[found.id]);
      TrimmedIsFixed(found.id);
      TrimmedIsFixed(found.ownerEpoch);
    }
  }

  /** The worker no longer runs for the pool at any step of the pass. */
  ghost predicate Replaced(env: Env) {
    forall k: nat :: DeviceId(env) in env.workers(k) ==> env.workers(k)[DeviceId(env)] != env.generation
  }

  /** A worker that has been replaced has every request refused, and leaves the device alone unless it was already restoring it. */
  lemma ReplacedWorkerIsRefused(rows: Rows, d: Device, env: Env, found: Operation)
    requires Inv(rows) && Claims(rows, env, found) && Replaced(env)
    ensures var p := Reconcile(rows, d, env);
      && (forall k :: 0 <= k < |p.asked| ==> p.asked[k].result == Err(Stale))
      && (found.phase != Restoring ==> p.device == d)
      && (forall s :: s in p.steps && s.DoTransition? ==> exists k: nat :: k <= 4 && s in env.others(k))
  {
    var before := env.others(0) + env.others(1);
    var claim := DoClaim(ClaimOf(found, env), env.clock(1));
    var op := Claim(AfterAll(rows, before), claim.claim, claim.now).1.value;
    ClaimedLikeFound(rows, env, found);
    ClaimedDevice(rows, env, found);
    var rows' := AfterAll(rows, before + [claim]);
    DisownedIsRefused(rows', d, env, op);
    PassAfterClaim(rows, d, env, found);
  }

  lemma DisownedIsRefused(rows: Rows, d: Device, env: Env, op: Operation)
    requires forall k: nat :: !StillOwned(env, k, op)
    ensures var p := Recover(rows, d, env, op);
      && (forall k :: 0 <= k < |p.asked| ==> p.asked[k].result == Err(Stale))
      && (op.phase != Restoring ==> p.device == d)
      && (forall s :: s in p.steps ==> exists k: nat :: 2 <= k <= 4 && s in env.others(k))
  {
  }

  lemma ClaimedDevice(rows: Rows, env: Env, found: Operation)
    requires Inv(rows) && Claims(rows, env, found)
    ensures var op := Claim(AfterAll(rows, env.others(0) + env.others(1)), ClaimOf(found, env), env.clock(1)).1.value;
      op.device == DeviceId(env) && op.generation == env.generation
  {
    ClaimedLikeFound(rows, env, found);
    BlockingIs(AfterAll(rows, env.others(0)), DeviceId(env));
  }
}
