/** Everything the journal can go through: creations, transitions and claims by any number of processes. */
module SwitchJournalRuns {
  import opened Text
  import opened Wrappers
  import opened SwitchJournal

  datatype Step =
    | DoCreate(create: CreateInput, keyFirst: bool, now: int)
    | DoTransition(move: TransitionInput, now: int)
    | DoClaim(claim: ClaimInput, now: int)

  function Outcome(rows: Rows, s: Step): (Rows, Result<Operation, JournalError>) {
    match s
    case DoCreate(i, keyFirst, now) => Create(rows, i, now, keyFirst)
    case DoTransition(i, now) => Transition(rows, i, now)
    case DoClaim(i, now) => Claim(rows, i, now)
  }

  function After(rows: Rows, s: Step): Rows {
    Outcome(rows, s).0
  }

  ghost predicate Run(js: seq<Rows>, steps: seq<Step>) {
    && |js| == |steps| + 1
    && forall i :: 0 <= i < |steps| ==> js[i + 1] == After(js[i], steps[i])
  }

  /** The step is a successful update of this operation's row. */
  predicate Updates(rows: Rows, s: Step, id: string) {
    match s
    case DoCreate(_, _, _) => false
    case DoTransition(i, now) => TrimSpace(i.id) == id && Transition(rows, i, now).1.Ok?
    case DoClaim(i, now) => TrimSpace(i.id) == id && Claim(rows, i, now).1.Ok?
  }

  predicate ExpectsVersion(s: Step, id: string, version: nat) {
    match s
    case DoCreate(_, _, _) => false
    case DoTransition(i, _) => TrimSpace(i.id) == id && i.version == version
    case DoClaim(i, _) => TrimSpace(i.id) == id && i.version == version
  }

  predicate ClaimsFor(rows: Rows, s: Step, id: string, owner: string, generation: nat) {
    s.DoClaim? && Updates(rows, s, id) && TrimSpace(s.claim.newOwner) == owner && s.claim.newGeneration == generation
  }

  function AfterAll(rows: Rows, steps: seq<Step>): Rows {
    if steps == [] then rows else After(AfterAll(rows, steps[..|steps| - 1]), steps[|steps| - 1])
  }

  lemma {:induction false} AfterAllConcat(rows: Rows, a: seq<Step>, b: seq<Step>)
    ensures AfterAll(rows, a + b) == AfterAll(AfterAll(rows, a), b)
  {
    if b == [] {
      assert a + b == a;
    } else {
      assert (a + b)[..|a + b| - 1] == a + b[..|b| - 1];
      AfterAllConcat(rows, a, b[..|b| - 1]);
    }
  }

  lemma {:induction false} AllKeepInv(rows: Rows, steps: seq<Step>)
    requires Inv(rows)
    ensures Inv(AfterAll(rows, steps))
  {
    if steps != [] {
      AllKeepInv(rows, steps[..|steps| - 1]);
      StepKeeps(AfterAll(rows, steps[..|steps| - 1]), steps[|steps| - 1]);
    }
  }

  // ---- one step ---------------------------------------------------------------------------------

  ghost predicate SameSubject(a: Operation, b: Operation) {
    && a.id == b.id && a.device == b.device && a.target == b.target && a.radio == b.radio && a.createdAt == b.createdAt
    && a.networkConnected == b.networkConnected && a.networkEnabled == b.networkEnabled && a.voWiFiActive == b.voWiFiActive
  }

  /** What one step may do to a row that is there. */
  ghost predicate RowAdvances(before: Operation, after: Operation) {
    && !before.terminal && SameSubject(before, after) && after.version == before.version + 1
    && (|| (ValidTransition(before.phase, after.phase) && after.ownerEpoch == before.ownerEpoch
              && after.generation == before.generation)
        || (before.phase == after.phase && before.acceptance == after.acceptance))
  }

  lemma CreateRow(rows: Rows, i: CreateInput, keyFirst: bool, now: int, id: string)
    requires id in rows
    ensures var rows' := After(rows, DoCreate(i, keyFirst, now)); id in rows' && rows'[id] == rows[id]
  {
  }

  lemma TransitionRow(rows: Rows, i: TransitionInput, now: int, id: string)
    requires id in rows
    ensures var s := DoTransition(i, now); var rows' := After(rows, s);
      id in rows' && if Updates(rows, s, id) then RowAdvances(rows[id], rows'[id]) else rows'[id] == rows[id]
  {
  }

  lemma ClaimRow(rows: Rows, i: ClaimInput, now: int, id: string)
    requires id in rows
    ensures var s := DoClaim(i, now); var rows' := After(rows, s);
      id in rows' && if Updates(rows, s, id) then RowAdvances(rows[id], rows'[id]) else rows'[id] == rows[id]
  {
  }

  lemma RowStep(rows: Rows, s: Step, id: string)
    requires id in rows
    ensures id in After(rows, s)
    ensures if Updates(rows, s, id) then RowAdvances(rows[id], After(rows, s)[id]) else After(rows, s)[id] == rows[id]
  {
    match s
    case DoCreate(i, keyFirst, now) => CreateRow(rows, i, keyFirst, now, id);
    case DoTransition(i, now) => TransitionRow(rows, i, now, id);
    case DoClaim(i, now) => ClaimRow(rows, i, now, id);
  }

  lemma StepKeepsRows(rows: Rows, s: Step)
    requires forall id :: id in rows ==> RowOk(id, rows[id])
    ensures forall id :: id in After(rows, s) ==> RowOk(id, After(rows, s)[id])
  {
    match s
    case DoCreate(i, keyFirst, now) =>
      TrimSpaceShape(i.id);
      TrimSpaceShape(i.device);
      TrimSpaceShape(i.ownerEpoch);
    case DoTransition(i, now) =>
    case DoClaim(i, now) =>
      TrimSpaceShape(i.newOwner);
  }

  lemma StepKeepsBlocking(rows: Rows, s: Step)
    requires Inv(rows)
    ensures OneBlockingPerDevice(After(rows, s))
  {
    match s
    case DoCreate(i, keyFirst, now) =>
    case DoTransition(i, now) =>
    case DoClaim(i, now) =>
  }

  lemma StepKeeps(rows: Rows, s: Step)
    requires Inv(rows)
    ensures Inv(After(rows, s))
  {
    StepKeepsRows(rows, s);
    StepKeepsBlocking(rows, s);
  }

  /** An error leaves every row as it was. */
  lemma ErrorsChangeNothing(rows: Rows, s: Step)
    requires Outcome(rows, s).1.Err?
    ensures After(rows, s) == rows
  {
  }

  lemma RowAlong(js: seq<Rows>, steps: seq<Step>, id: string, k: nat)
    requires Run(js, steps) && k < |steps| && id in js[k]
    ensures id in js[k + 1]
    ensures if Updates(js[k], steps[k], id) then RowAdvances(js[k][id], js[k + 1][id]) else js[k + 1][id] == js[k][id]
  {
    RowStep(js[k], steps[k], id);
  }

  // ---- whole runs -----------------------------------------------------------------------------------

  lemma {:induction false} RunKeepsInv(js: seq<Rows>, steps: seq<Step>, n: nat)
    requires Run(js, steps) && Inv(js[0]) && n < |js|
    ensures Inv(js[n])
  {
    if n > 0 {
      RunKeepsInv(js, steps, n - 1);
      StepKeeps(js[n - 1], steps[n - 1]);
    }
  }

  /** How many of the steps from i up to j updated the row. */
  ghost function Successes(js: seq<Rows>, steps: seq<Step>, id: string, i: nat, j: nat): nat
    requires |js| == |steps| + 1 && i <= j < |js|
    decreases j
  {
    if i == j then 0 else Successes(js, steps, id, i, j - 1) + if Updates(js[j - 1], steps[j - 1], id) then 1 else 0
  }

  /** The version counts the successful updates, and what the operation is about never changes. */
  lemma {:induction false} VersionCountsUpdates(js: seq<Rows>, steps: seq<Step>, id: string, i: nat, j: nat)
    requires Run(js, steps) && i <= j < |js| && id in js[i]
    ensures id in js[j] && js[j][id].version == js[i][id].version + Successes(js, steps, id, i, j)
    ensures SameSubject(js[i][id], js[j][id])
    decreases j
  {
    if i < j {
      VersionCountsUpdates(js, steps, id, i, j - 1);
      RowAlong(js, steps, id, j - 1);
    }
  }

  /** Of any two updates that expect the same version at most one succeeds, however far apart they are. */
  lemma SameVersionSucceedsOnce(js: seq<Rows>, steps: seq<Step>, id: string, version: nat, i: nat, j: nat)
    requires Run(js, steps) && i < j < |steps|
    requires ExpectsVersion(steps[i], id, version) && ExpectsVersion(steps[j], id, version)
    ensures !(Updates(js[i], steps[i], id) && Updates(js[j], steps[j], id))
  {
    if Updates(js[i], steps[i], id) {
      RowStep(js[i], steps[i], id);
      VersionCountsUpdates(js, steps, id, i + 1, j);
    }
  }

  lemma {:induction false} TerminalNeverChanges(js: seq<Rows>, steps: seq<Step>, id: string, i: nat, j: nat)
    requires Run(js, steps) && i <= j < |js| && id in js[i] && js[i][id].terminal
    ensures id in js[j] && js[j][id] == js[i][id]
    decreases j
  {
    if i < j {
      TerminalNeverChanges(js, steps, id, i, j - 1);
      RowAlong(js, steps, id, j - 1);
    }
  }

  /** The row was in this phase at some point strictly before j. */
  ghost predicate WasIn(js: seq<Rows>, id: string, phase: Phase, j: nat) {
    exists i: nat :: i < j && i < |js| && id in js[i] && js[i][id].phase == phase
  }

  /** The row's moves alone, without the steps that made them. */
  ghost predicate Moves(js: seq<Rows>, id: string, i: nat) {
    forall k :: i <= k < |js| - 1 ==>
      if id in js[k] then id in js[k + 1] && (js[k + 1][id] == js[k][id] || RowAdvances(js[k][id], js[k + 1][id]))
      else id in js[k + 1] ==> js[k + 1][id].phase == Intent
  }

  /** A row appears only by a creation, for a free device, at the very beginning of its life. */
  lemma Born(rows: Rows, s: Step, id: string)
    requires id !in rows && id in After(rows, s)
    ensures s.DoCreate? && !Blocked(rows, After(rows, s)[id].device)
    ensures var op := After(rows, s)[id];
      op.phase == Intent && op.acceptance == AcceptanceUnknown && op.version == 1 && !op.terminal && op.completedAt.None?
  {
  }

  lemma RunMoves(js: seq<Rows>, steps: seq<Step>, id: string, i: nat)
    requires Run(js, steps)
    ensures Moves(js, id, i)
  {
    forall k: nat | i <= k < |js| - 1
      ensures if id in js[k] then id in js[k + 1] && (js[k + 1][id] == js[k][id] || RowAdvances(js[k][id], js[k + 1][id]))
              else id in js[k + 1] ==> js[k + 1][id].phase == Intent
    {
      if id in js[k] {
        RowAlong(js, steps, id, k);
      } else if id in js[k + 1] {
        Born(js[k], steps[k], id);
      }
    }
  }

  lemma {:induction false} RestoringAfterAccepted(js: seq<Rows>, id: string, j: nat)
    requires j < |js| && Moves(js, id, 0) && id !in js[0] && id in js[j] && js[j][id].phase == Restoring
    ensures WasIn(js, id, Accepted, j)
  {
    if js[j - 1][id].phase == Restoring {
      RestoringAfterAccepted(js, id, j - 1);
    }
  }

  lemma {:induction false} SuccessAfterRestoring(js: seq<Rows>, id: string, j: nat)
    requires j < |js| && Moves(js, id, 0) && id !in js[0] && id in js[j] && js[j][id].phase == Succeeded
    ensures exists i: nat :: i < j && id in js[i] && js[i][id].phase == Restoring && WasIn(js, id, Accepted, i)
  {
    if js[j - 1][id].phase == Restoring {
      RestoringAfterAccepted(js, id, j - 1);
    } else {
      SuccessAfterRestoring(js, id, j - 1);
    }
  }

  /** Success is reached only through Accepted and then Restoring. */
  lemma SucceededThroughRestoring(js: seq<Rows>, steps: seq<Step>, id: string, j: nat)
    requires Run(js, steps) && id !in js[0] && j < |js| && id in js[j] && js[j][id].phase == Succeeded
    ensures exists i: nat :: i < j && id in js[i] && js[i][id].phase == Restoring && WasIn(js, id, Accepted, i)
  {
    RunMoves(js, steps, id, 0);
    SuccessAfterRestoring(js, id, j);
  }

  /** Intent is left for good, and FailedBeforeApply is entered from it alone. */
  lemma {:induction false} PhasesBefore(js: seq<Rows>, id: string, i: nat, j: nat)
    requires Moves(js, id, i) && i <= j < |js| && id in js[i]
    ensures id in js[j]
    ensures js[j][id].phase == Intent ==> js[i][id].phase == Intent
    ensures js[j][id].phase == FailedBeforeApply ==> js[i][id].phase == Intent || js[i][id].phase == FailedBeforeApply
    decreases j
  {
    if i < j {
      PhasesBefore(js, id, i, j - 1);
    }
  }

  /** An operation that failed before the physical switch never was in any phase but the intent. */
  lemma FailedOnlyFromIntent(js: seq<Rows>, steps: seq<Step>, id: string, i: nat, j: nat)
    requires Run(js, steps) && i <= j < |js| && id in js[i] && id in js[j] && js[j][id].phase == FailedBeforeApply
    ensures js[i][id].phase == Intent || js[i][id].phase == FailedBeforeApply
  {
    RunMoves(js, steps, id, i);
    PhasesBefore(js, id, i, j);
  }

  // ---- fencing --------------------------------------------------------------------------------------

  lemma OwnerStep(rows: Rows, s: Step, id: string)
    requires id in rows
    ensures var a, b := rows[id], After(rows, s)[id];
      (a.ownerEpoch, a.generation) == (b.ownerEpoch, b.generation) || ClaimsFor(rows, s, id, b.ownerEpoch, b.generation)
  {
  }

  /** Ownership comes only from a claim. */
  lemma {:induction false} OwnersClaimed(js: seq<Rows>, steps: seq<Step>, id: string, i: nat, j: nat)
    requires Run(js, steps) && i <= j < |js| && id in js[i] && id in js[j]
    requires (js[i][id].ownerEpoch, js[i][id].generation) != (js[j][id].ownerEpoch, js[j][id].generation)
    ensures exists k: nat :: i <= k < j && ClaimsFor(js[k], steps[k], id, js[j][id].ownerEpoch, js[j][id].generation)
    decreases j
  {
    VersionCountsUpdates(js, steps, id, i, j - 1);
    OwnerStep(js[j - 1], steps[j - 1], id);
    var a, b := js[j - 1][id], js[j][id];
    if (a.ownerEpoch, a.generation) == (b.ownerEpoch, b.generation) {
      OwnersClaimed(js, steps, id, i, j - 1);
    }
  }

  /** The step is a well-formed update of the row that presents these credentials. */
  predicate Presents(s: Step, id: string, owner: string, generation: nat) {
    match s
    case DoCreate(_, _, _) => false
    case DoTransition(i, _) => !TransitionInvalid(i) && TrimSpace(i.id) == id && TrimSpace(i.ownerEpoch) == owner && i.generation == generation
    case DoClaim(i, _) => !ClaimInvalid(i) && TrimSpace(i.id) == id && TrimSpace(i.ownerEpoch) == owner && i.generation == generation
  }

  /**
   Once another owner has claimed the operation, whatever the old owner asks is stale, until the old
   owner itself claims the operation again.
   */
  lemma OldOwnerIsFenced(js: seq<Rows>, steps: seq<Step>, id: string, i: nat, j: nat, owner: string, generation: nat)
    requires Run(js, steps) && i < j < |steps|
    requires steps[i].DoClaim? && Updates(js[i], steps[i], id)
    requires (owner, generation) != (TrimSpace(steps[i].claim.newOwner), steps[i].claim.newGeneration)
    requires Presents(steps[j], id, owner, generation)
    ensures Outcome(js[j], steps[j]).1 == Err(Stale)
         || exists k: nat :: i < k < j && ClaimsFor(js[k], steps[k], id, owner, generation)
  {
    VersionCountsUpdates(js, steps, id, i + 1, j);
    if Outcome(js[j], steps[j]).1 != Err(Stale) {
      OwnersClaimed(js, steps, id, i + 1, j);
    }
  }

  /** Whoever claimed last is refused a second claim, whatever it expects, until another owner claims. */
  lemma {:induction false} LastClaimantIsRefused(js: seq<Rows>, steps: seq<Step>, id: string, i: nat, j: nat)
    requires Run(js, steps) && i < j < |steps| && steps[i].DoClaim? && Updates(js[i], steps[i], id)
    requires steps[j].DoClaim? && TrimSpace(steps[j].claim.id) == id
    requires TrimSpace(steps[j].claim.newOwner) == TrimSpace(steps[i].claim.newOwner)
    requires steps[j].claim.newGeneration == steps[i].claim.newGeneration
    requires forall k | i < k < j :: !(steps[k].DoClaim? && Updates(js[k], steps[k], id))
    ensures Outcome(js[j], steps[j]).1.Err?
  {
    ReconcilerStays(js, steps, id, i, j);
  }

  lemma {:induction false} ReconcilerStays(js: seq<Rows>, steps: seq<Step>, id: string, i: nat, j: nat)
    requires Run(js, steps) && i < j < |js| && steps[i].DoClaim? && Updates(js[i], steps[i], id)
    requires forall k | i < k < j :: !(steps[k].DoClaim? && Updates(js[k], steps[k], id))
    ensures id in js[j] && js[j][id].reconcileOwner == TrimSpace(steps[i].claim.newOwner)
         && js[j][id].reconcileGeneration == steps[i].claim.newGeneration
    decreases j
  {
    if i + 1 < j {
      ReconcilerStays(js, steps, id, i, j - 1);
      RowStep(js[j - 1], steps[j - 1], id);
    }
  }
}
