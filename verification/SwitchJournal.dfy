/** The eSIM switch journal: one row per operation, changed only by compare-and-swap. */
module SwitchJournal {
  import opened Text
  import opened Wrappers

  datatype Phase =
    | Intent | TeardownPlanned | ApplyPlanned | Accepted | Restoring | NeedsReconciliation
    | FailedBeforeApply | Succeeded
    | UnlistedPhase(text: string)

  datatype Acceptance = AcceptanceUnknown | AcceptanceAccepted | AcceptanceRejected | UnlistedAcceptance(text: string)

  datatype Radio = RadioUnknown | RadioOnline | RadioFlight | UnlistedRadio(text: string)

  datatype JournalError = Unavailable | Invalid | InProgress | NotFound | Stale

  const ERROR_NONE := ""
  const ERROR_PROFILE_AMBIGUOUS := "profile_ambiguous"

  datatype Operation = Operation(
    id: string, device: string, ownerEpoch: string, generation: nat, target: string,
    networkConnected: bool, networkEnabled: bool, voWiFiActive: bool, radio: Radio,
    phase: Phase, acceptance: Acceptance, version: nat, errorCode: string, terminal: bool,
    reconcileOwner: string, reconcileGeneration: nat,
    createdAt: int, updatedAt: int, completedAt: Option<int>)

  type Rows = map<string, Operation>

  datatype CreateInput = CreateInput(
    id: string, device: string, ownerEpoch: string, generation: nat, target: string,
    networkConnected: bool, networkEnabled: bool, voWiFiActive: bool, radio: Radio)

  datatype TransitionInput = TransitionInput(
    id: string, ownerEpoch: string, generation: nat, phase: Phase, version: nat,
    nextPhase: Phase, nextAcceptance: Acceptance, errorCode: string)

  datatype ClaimInput = ClaimInput(
    id: string, ownerEpoch: string, generation: nat, phase: Phase, version: nat,
    newOwner: string, newGeneration: nat)

  // ---- the finite vocabularies -----------------------------------------------------------------

  predicate ValidRadio(r: Radio) {
    !r.UnlistedRadio?
  }

  predicate ValidPhase(p: Phase) {
    !p.UnlistedPhase?
  }

  predicate ValidTransition(from: Phase, to: Phase) {
    match from
    case Intent => to == TeardownPlanned || to == FailedBeforeApply
    case TeardownPlanned => to == ApplyPlanned || to == Accepted || to == NeedsReconciliation
    case ApplyPlanned => to == Accepted || to == NeedsReconciliation
    case Accepted => to == Restoring || to == NeedsReconciliation
    case Restoring => to == Succeeded || to == NeedsReconciliation
    case NeedsReconciliation => to == Accepted
    case _ => false
  }

  predicate ValidAcceptance(a: Acceptance) {
    !a.UnlistedAcceptance?
  }

  predicate ValidPhaseAcceptance(p: Phase, a: Acceptance) {
    match p
    case Intent | TeardownPlanned | ApplyPlanned | FailedBeforeApply => a == AcceptanceUnknown
    case Accepted | Restoring | Succeeded => a == AcceptanceAccepted
    case NeedsReconciliation => ValidAcceptance(a)
    case UnlistedPhase(_) => false
  }

  predicate ValidErrorCode(code: string) {
    code in {ERROR_NONE, "journal_write_failed", "teardown_failed", "apply_result_unknown", "recovery_failed",
             "device_unavailable", ERROR_PROFILE_AMBIGUOUS}
  }

  predicate IsTerminal(p: Phase) {
    p == FailedBeforeApply || p == Succeeded
  }

  // ---- the operations -----------------------------------------------------------------------------

  predicate Blocks(op: Operation, device: string) {
    op.device == device && !op.terminal
  }

  predicate Blocked(rows: Rows, device: string) {
    exists id :: id in rows && Blocks(rows[id], device)
  }

  predicate CreateInvalid(i: CreateInput) {
    || TrimSpace(i.id) == "" || TrimSpace(i.device) == "" || TrimSpace(i.ownerEpoch) == "" || TrimSpace(i.target) == ""
    || i.generation == 0 || !ValidRadio(i.radio)
  }

  function Created(i: CreateInput, now: int): Operation {
    Operation(TrimSpace(i.id), TrimSpace(i.device), TrimSpace(i.ownerEpoch), i.generation, TrimSpace(i.target),
              i.networkConnected, i.networkEnabled, i.voWiFiActive, i.radio,
              Intent, AcceptanceUnknown, 1, ERROR_NONE, false, "", 0, now, now, None)
  }

  /** `keyFirst`: whether the database names the primary key when both unique constraints are violated. */
  function Create(rows: Rows, i: CreateInput, now: int, keyFirst: bool): (Rows, Result<Operation, JournalError>) {
    if CreateInvalid(i) then (rows, Err(Invalid))
    else
      var op := Created(i, now);
      if op.id in rows && (keyFirst || !Blocked(rows, op.device)) then (rows, Err(Unavailable))
      else if Blocked(rows, op.device) then (rows, Err(InProgress))
      else (rows[op.id := op], Ok(op))
  }

  predicate TransitionInvalid(i: TransitionInput) {
    || TrimSpace(i.id) == "" || TrimSpace(i.ownerEpoch) == "" || i.generation == 0 || i.version == 0
    || !ValidPhase(i.phase) || !ValidPhase(i.nextPhase) || !ValidTransition(i.phase, i.nextPhase)
    || !ValidAcceptance(i.nextAcceptance) || !ValidPhaseAcceptance(i.nextPhase, i.nextAcceptance)
    || !ValidErrorCode(TrimSpace(i.errorCode))
  }

  /** The compare half of every compare-and-swap. */
  predicate Matches(rows: Rows, id: string, owner: string, generation: nat, phase: Phase, version: nat) {
    && id in rows && !rows[id].terminal
    && rows[id].ownerEpoch == owner && rows[id].generation == generation
    && rows[id].phase == phase && rows[id].version == version
  }

  function Moved(op: Operation, i: TransitionInput, now: int): Operation {
    op.(phase := i.nextPhase, acceptance := i.nextAcceptance, errorCode := TrimSpace(i.errorCode),
        terminal := IsTerminal(i.nextPhase), updatedAt := now, version := op.version + 1,
        completedAt := if IsTerminal(i.nextPhase) then Some(now) else op.completedAt)
  }

  function Transition(rows: Rows, i: TransitionInput, now: int): (Rows, Result<Operation, JournalError>) {
    var id := TrimSpace(i.id);
    if TransitionInvalid(i) then (rows, Err(Invalid))
    else if !Matches(rows, id, TrimSpace(i.ownerEpoch), i.generation, i.phase, i.version) then (rows, Err(Stale))
    else (rows[id := Moved(rows[id], i, now)], Ok(Moved(rows[id], i, now)))
  }

  predicate ClaimInvalid(i: ClaimInput) {
    || TrimSpace(i.id) == "" || TrimSpace(i.ownerEpoch) == "" || TrimSpace(i.newOwner) == ""
    || i.generation == 0 || i.newGeneration == 0 || i.version == 0 || !ValidPhase(i.phase)
  }

  function Claimed(op: Operation, i: ClaimInput, now: int): Operation {
    op.(ownerEpoch := TrimSpace(i.newOwner), generation := i.newGeneration,
        reconcileOwner := TrimSpace(i.newOwner), reconcileGeneration := i.newGeneration,
        updatedAt := now, version := op.version + 1)
  }

  /** A claim is refused to whoever claimed the operation last. */
  function Claim(rows: Rows, i: ClaimInput, now: int): (Rows, Result<Operation, JournalError>) {
    var id := TrimSpace(i.id);
    if ClaimInvalid(i) then (rows, Err(Invalid))
    else if !Matches(rows, id, TrimSpace(i.ownerEpoch), i.generation, i.phase, i.version)
         || (rows[id].reconcileOwner == TrimSpace(i.newOwner) && rows[id].reconcileGeneration == i.newGeneration)
    then (rows, Err(Stale))
    else (rows[id := Claimed(rows[id], i, now)], Ok(Claimed(rows[id], i, now)))
  }

  // ---- what every stored row satisfies ------------------------------------------------------------

  ghost predicate RowOk(id: string, op: Operation) {
    && op.id == id != "" && op.device != "" && op.ownerEpoch != "" && op.target != "" && op.generation > 0
    && op.version >= 1 && ValidPhase(op.phase) && ValidPhaseAcceptance(op.phase, op.acceptance)
    && (op.terminal <==> IsTerminal(op.phase)) && (op.terminal <==> op.completedAt.Some?)
    && ValidErrorCode(op.errorCode) && ValidRadio(op.radio)
    && Trimmed(op.id) && Trimmed(op.device) && Trimmed(op.ownerEpoch)
  }

  ghost predicate OneBlockingPerDevice(rows: Rows) {
    forall a, b | a in rows && b in rows && !rows[a].terminal && !rows[b].terminal :: rows[a].device == rows[b].device ==> a == b
  }

  ghost predicate Inv(rows: Rows) {
    && (forall id :: id in rows ==> RowOk(id, rows[id]))
    && OneBlockingPerDevice(rows)
  }

  /** The oldest-to-newest search is moot: a device has at most one open operation. */
  ghost predicate IsBlocking(rows: Rows, device: string, op: Operation) {
    op.id in rows && rows[op.id] == op && Blocks(op, device)
  }

  lemma BlockingIsUnique(rows: Rows, device: string, a: Operation, b: Operation)
    requires Inv(rows) && IsBlocking(rows, device, a) && IsBlocking(rows, device, b)
    ensures a == b
  {
  }
}
