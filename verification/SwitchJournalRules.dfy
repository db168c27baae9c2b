/** The journal's rules as a table: which updates it takes, what they write, and the way of an ordinary switch. */
module SwitchJournalRules {
  import opened Text
  import opened Wrappers
  import opened SwitchJournal
  import opened SwitchJournalRuns

  /** The moves a switch can make. */
  ghost predicate Listed(from: Phase, to: Phase) {
    (from, to) in {
      (Intent, TeardownPlanned), (Intent, FailedBeforeApply),
      (TeardownPlanned, ApplyPlanned), (TeardownPlanned, Accepted), (TeardownPlanned, NeedsReconciliation),
      (ApplyPlanned, Accepted), (ApplyPlanned, NeedsReconciliation),
      (Accepted, Restoring), (Accepted, NeedsReconciliation),
      (Restoring, Succeeded), (Restoring, NeedsReconciliation),
      (NeedsReconciliation, Accepted)}
  }

  /** Whether the modem took the profile: not known before it did, sure afterwards, open while a human is needed. */
  predicate Befits(a: Acceptance, phase: Phase) {
    if phase == NeedsReconciliation then a in {AcceptanceUnknown, AcceptanceAccepted, AcceptanceRejected}
    else a == if phase in {Accepted, Restoring, Succeeded} then AcceptanceAccepted else AcceptanceUnknown
  }

  predicate ListedCode(code: string) {
    code in {"", "journal_write_failed", "teardown_failed", "apply_result_unknown", "recovery_failed",
             "device_unavailable", "profile_ambiguous"}
  }

  /** The open row still stands as the caller last saw it. */
  predicate StandsAs(rows: Rows, id: string, owner: string, generation: nat, phase: Phase, version: nat) {
    && TrimSpace(id) in rows && !rows[TrimSpace(id)].terminal
    && rows[TrimSpace(id)].ownerEpoch == TrimSpace(owner) && rows[TrimSpace(id)].generation == generation
    && rows[TrimSpace(id)].phase == phase && rows[TrimSpace(id)].version == version
  }

  lemma ListedIff(from: Phase, to: Phase)
    ensures Listed(from, to) <==> ValidTransition(from, to)
  {
  }

  lemma BefitsIff(a: Acceptance, phase: Phase)
    requires ValidPhase(phase)
    ensures Befits(a, phase) <==> ValidPhaseAcceptance(phase, a) && ValidAcceptance(a)
  {
  }

  /** A transition goes through exactly if the row stands as expected and the move is listed, and then writes just this. */
  lemma TransitionIff(rows: Rows, i: TransitionInput, now: int)
    requires Inv(rows)
    ensures Transition(rows, i, now).1.Ok? <==>
            && StandsAs(rows, i.id, i.ownerEpoch, i.generation, i.phase, i.version)
            && Listed(i.phase, i.nextPhase) && Befits(i.nextAcceptance, i.nextPhase) && ListedCode(TrimSpace(i.errorCode))
    ensures Transition(rows, i, now).1.Ok? ==>
      var id, op := TrimSpace(i.id), Transition(rows, i, now).1.value; var ends := i.nextPhase in {FailedBeforeApply, Succeeded};
      && Transition(rows, i, now).0 == rows[id := op]
      && op == rows[id].(phase := i.nextPhase, acceptance := i.nextAcceptance, errorCode := TrimSpace(i.errorCode),
                         version := i.version + 1, updatedAt := now, terminal := ends,
                         completedAt := if ends then Some(now) else rows[id].completedAt)
  {
    ListedIff(i.phase, i.nextPhase);
    if ValidPhase(i.nextPhase) {
      BefitsIff(i.nextAcceptance, i.nextPhase);
    }
    if TrimSpace(i.id) in rows {
      assert RowOk(TrimSpace(i.id), rows[TrimSpace(i.id)]);
    }
  }

  /** A transition that fails is invalid if it could never succeed, and otherwise stale. */
  lemma TransitionErrors(rows: Rows, i: TransitionInput, now: int)
    ensures Transition(rows, i, now).1 == Err(Invalid) <==>
            || TrimSpace(i.id) == "" || TrimSpace(i.ownerEpoch) == "" || i.generation == 0 || i.version == 0
            || !Listed(i.phase, i.nextPhase) || !Befits(i.nextAcceptance, i.nextPhase) || !ListedCode(TrimSpace(i.errorCode))
    ensures Transition(rows, i, now).1.Err? ==> Transition(rows, i, now).1.error in {Invalid, Stale}
  {
    ListedIff(i.phase, i.nextPhase);
    if ValidPhase(i.nextPhase) {
      BefitsIff(i.nextAcceptance, i.nextPhase);
    }
  }

  /** So does a claim, unless the claimant already was the last to claim. */
  lemma ClaimIff(rows: Rows, i: ClaimInput, now: int)
    requires Inv(rows)
    ensures Claim(rows, i, now).1.Ok? <==>
            && StandsAs(rows, i.id, i.ownerEpoch, i.generation, i.phase, i.version)
            && TrimSpace(i.newOwner) != "" && i.newGeneration > 0
            && (rows[TrimSpace(i.id)].reconcileOwner, rows[TrimSpace(i.id)].reconcileGeneration) !=
               (TrimSpace(i.newOwner), i.newGeneration)
    ensures Claim(rows, i, now).1.Ok? ==>
      var id, op := TrimSpace(i.id), Claim(rows, i, now).1.value;
      && Claim(rows, i, now).0 == rows[id := op]
      && op == rows[id].(ownerEpoch := TrimSpace(i.newOwner), generation := i.newGeneration,
                         reconcileOwner := TrimSpace(i.newOwner), reconcileGeneration := i.newGeneration,
                         version := i.version + 1, updatedAt := now)
    ensures Claim(rows, i, now).1 == Err(Invalid) <==>
            || TrimSpace(i.id) == "" || TrimSpace(i.ownerEpoch) == "" || TrimSpace(i.newOwner) == ""
            || i.generation == 0 || i.newGeneration == 0 || i.version == 0 || i.phase.UnlistedPhase?
    ensures Claim(rows, i, now).1.Err? ==> Claim(rows, i, now).1.error in {Invalid, Stale}
  {
    if TrimSpace(i.id) in rows {
      assert RowOk(TrimSpace(i.id), rows[TrimSpace(i.id)]);
    }
  }

  /** A creation goes through exactly if its fields are filled in, the id is new and the device has no open operation. */
  lemma CreateIff(rows: Rows, i: CreateInput, now: int, keyFirst: bool)
    ensures Create(rows, i, now, keyFirst).1.Ok? <==>
            && TrimSpace(i.id) != "" && TrimSpace(i.device) != "" && TrimSpace(i.ownerEpoch) != "" && TrimSpace(i.target) != ""
            && i.generation > 0 && i.radio in {RadioUnknown, RadioOnline, RadioFlight}
            && TrimSpace(i.id) !in rows && forall id :: id in rows && rows[id].device == TrimSpace(i.device) ==> rows[id].terminal
    ensures Create(rows, i, now, keyFirst).1.Ok? ==>
      var op := Create(rows, i, now, keyFirst).1.value;
      && Create(rows, i, now, keyFirst).0 == rows[TrimSpace(i.id) := op]
      && op == Operation(TrimSpace(i.id), TrimSpace(i.device), TrimSpace(i.ownerEpoch), i.generation, TrimSpace(i.target),
                         i.networkConnected, i.networkEnabled, i.voWiFiActive, i.radio,
                         Intent, AcceptanceUnknown, 1, "", false, "", 0, now, now, None)
  {
  }

  // ---- an ordinary switch --------------------------------------------------------------------------------

  const WAY := [Intent, TeardownPlanned, ApplyPlanned, Accepted, Restoring, Succeeded]

  function OwnMove(i: CreateInput, k: nat): TransitionInput
    requires k < 5
  {
    TransitionInput(i.id, i.ownerEpoch, i.generation, WAY[k], k + 1, WAY[k + 1],
                    if k < 2 then AcceptanceUnknown else AcceptanceAccepted, "")
  }

  /** The creation and the owner's first n moves. */
  function Ordinary(i: CreateInput, now: int, n: nat): seq<Step>
    requires n <= 5
  {
    if n == 0 then [DoCreate(i, true, now)] else Ordinary(i, now, n - 1) + [DoTransition(OwnMove(i, n - 1), now)]
  }

  /** The new operation is in the n-th phase of its way, still its owner's, and nothing else has changed. */
  ghost predicate OnTheWay(rows: Rows, rows': Rows, i: CreateInput, n: nat)
    requires n <= 5
  {
    var id := TrimSpace(i.id);
    && Inv(rows') && id in rows' && rows' == rows[id := rows'[id]]
    && rows'[id].device == TrimSpace(i.device) && (rows'[id].terminal <==> n == 5)
    && StandsOpen(rows'[id], i, WAY[n], n + 1)
  }

  predicate StandsOpen(op: Operation, i: CreateInput, phase: Phase, version: nat) {
    op.ownerEpoch == TrimSpace(i.ownerEpoch) && op.generation == i.generation && op.phase == phase && op.version == version
  }

  lemma {:induction false} OrdinaryMoves(rows: Rows, i: CreateInput, now: int, n: nat)
    requires Inv(rows) && Create(rows, i, now, true).1.Ok? && n <= 5
    ensures OnTheWay(rows, AfterAll(rows, Ordinary(i, now, n)), i, n)
  {
    if n == 0 {
      assert [DoCreate(i, true, now)][..0] == [];
      StepKeeps(rows, DoCreate(i, true, now));
      CreateIff(rows, i, now, true);
    } else {
      OrdinaryMoves(rows, i, now, n - 1);
      var front, last := Ordinary(i, now, n - 1), DoTransition(OwnMove(i, n - 1), now);
      assert (front + [last])[..|front|] == front;
      NextOnTheWay(rows, AfterAll(rows, front), i, now, n - 1);
    }
  }

  lemma NextOnTheWay(rows: Rows, rows': Rows, i: CreateInput, now: int, k: nat)
    requires k < 5 && OnTheWay(rows, rows', i, k)
    ensures OnTheWay(rows, After(rows', DoTransition(OwnMove(i, k), now)), i, k + 1)
  {
    StepKeeps(rows', DoTransition(OwnMove(i, k), now));
    MoveOnTheWay(rows', i, now, k);
  }

  /** Undisturbed, the owner of a new operation takes it through every phase, and the device is free again at the end. */
  lemma OrdinarySwitch(rows: Rows, i: CreateInput, now: int)
    requires Inv(rows) && Create(rows, i, now, true).1.Ok?
    ensures var rows', id := AfterAll(rows, Ordinary(i, now, 5)), TrimSpace(i.id);
      && id in rows' && rows' == rows[id := rows'[id]] && rows'[id].phase == Succeeded && rows'[id].version == 6
      && !Blocked(rows', TrimSpace(i.device))
  {
    OrdinaryMoves(rows, i, now, 5);
    CreateIff(rows, i, now, true);
  }

  lemma MoveOnTheWay(rows: Rows, i: CreateInput, now: int, k: nat)
    requires Inv(rows) && k < 5 && StandsAs(rows, i.id, i.ownerEpoch, i.generation, WAY[k], k + 1)
    ensures Transition(rows, OwnMove(i, k), now).1.Ok?
    ensures var id := TrimSpace(i.id); var op := Transition(rows, OwnMove(i, k), now).1.value;
      && After(rows, DoTransition(OwnMove(i, k), now)) == rows[id := op]
      && op.phase == WAY[k + 1] && op.version == k + 2 && op.terminal == (k == 4)
      && op.ownerEpoch == rows[id].ownerEpoch && op.generation == rows[id].generation && op.device == rows[id].device
  {
    TrimmedIsFixed("");
    TransitionIff(rows, OwnMove(i, k), now);
  }
}
