/**
 Recovering an interrupted eSIM switch: one pass over a device's open operation, by a worker that
 claims it, checks the SIM, restores what the operation had saved and closes it. Between any two of
 its steps other processes may change the journal and the pool may replace the worker.
 */
module SwitchReconciler {
  import opened Text
  import opened Wrappers
  import opened SwitchJournal
  import opened SwitchJournalRuns

  /** `network` is None without a network controller, otherwise whether it is connected. */
  datatype Device = Device(mode: Radio, network: Option<bool>, voWiFi: bool)

  type byte = b: int | 0 <= b < 256

  /**
   What the surroundings answer during one pass; step k of the pass sees workers(k), others(k), clock(k).
   `entropy` is what the pool drew its owner epoch from, None if the random source failed.
   */
  datatype Env = Env(
    workerId: string, generation: nat, entropy: Option<seq<byte>>, journal: bool, current: bool, lease: bool,
    live: Option<string>, failpoint: bool, physical: bool, radioOk: bool, networkOk: bool, voWiFiOk: bool,
    workers: nat -> map<string, nat>, others: nat -> seq<Step>, clock: nat -> int)

  datatype Failure = Journal(error: JournalError) | Failpoint | Recovery

  datatype Outcome = Done | Failed(failure: Failure)

  /** One transition the pass asked for, from which snapshot, and what became of it. */
  datatype Asked = Asked(op: Operation, input: TransitionInput, result: Result<Operation, JournalError>)

  /** `steps` is every journal step of the pass, its own and those of others, in order. */
  datatype Pass = Pass(steps: seq<Step>, device: Device, asked: seq<Asked>, outcome: Outcome)

  // ---- the owner epoch ------------------------------------------------------------------------------

  const HEX_DIGITS := "0123456789abcdef"

  function Hex(bytes: seq<byte>): string {
    if bytes == [] then "" else Hex(bytes[..|bytes| - 1]) + [HEX_DIGITS[bytes[|bytes| - 1] / 16], HEX_DIGITS[bytes[|bytes| - 1] % 16]]
  }

  function Epoch(env: Env): string {
    match env.entropy
    case None => ""
    case Some(bytes) => Hex(bytes)
  }

  lemma {:induction false} HexHasNoBlanks(bytes: seq<byte>)
    ensures |Hex(bytes)| == 2 * |bytes|
    ensures forall i :: 0 <= i < |Hex(bytes)| ==> Hex(bytes)[i] in HEX_DIGITS
  {
    if bytes != [] {
      HexHasNoBlanks(bytes[..|bytes| - 1]);
    }
  }

  lemma HexDigitIsNoBlank(c: char)
    requires c in HEX_DIGITS
    ensures !IsSpace(c)
  {
  }

  /** Trimming leaves the owner epoch as it is, so the journal stores and the pool compares the same text. */
  lemma EpochIsTrimmed(env: Env)
    ensures Trimmed(Epoch(env)) && TrimSpace(Epoch(env)) == Epoch(env)
  {
    if env.entropy.Some? {
      HexHasNoBlanks(env.entropy.value);
      forall i | 0 <= i < |Epoch(env)|
        ensures !IsSpace(Epoch(env)[i])
      {
        HexDigitIsNoBlank(Epoch(env)[i]);
      }
    }
    TrimmedIsFixed(Epoch(env));
  }

  // ---- the SIM comparison -------------------------------------------------------------------------

  function WithoutBlanks(s: string): string {
    if s == [] then [] else (if s[0] == ' ' then [] else [s[0]]) + WithoutBlanks(s[1..])
  }

  function TrimFill(s: string): string {
    if s != [] && s[|s| - 1] == 'F' then TrimFill(s[..|s| - 1]) else s
  }

  function NormalizeSIM(v: string): string {
    TrimFill(WithoutBlanks(ToUpper(TrimSpace(v))))
  }

  predicate SameSIM(a: string, b: string) {
    NormalizeSIM(a) != "" && NormalizeSIM(b) != "" && NormalizeSIM(a) == NormalizeSIM(b)
  }

  // ---- restoring the device -------------------------------------------------------------------------

  /** Radio first, then network, then VoWiFi; the first call that fails ends it. */
  function Restore(d: Device, op: Operation, env: Env): (Device, bool) {
    var setsRadio := op.radio == RadioFlight || op.radio == RadioOnline;
    if setsRadio && !env.radioOk then (d, false)
    else
      var d1 := if setsRadio then d.(mode := op.radio) else d;
      var want := op.networkConnected || op.networkEnabled;
      if d1.network.None? && want then (d1, false)
      else if d1.network.Some? && d1.network.value != want && !env.networkOk then (d1, false)
      else
        var d2 := if d1.network.Some? then d1.(network := Some(want)) else d1;
        if !op.voWiFiActive then (d2, true)
        else if !env.voWiFiOk then (d2, false)
        else (d2.(voWiFi := true), true)
  }

  /** The device is as the operation found it, as far as the operation says. */
  predicate Restored(d: Device, op: Operation) {
    && (op.radio == RadioFlight || op.radio == RadioOnline ==> d.mode == op.radio)
    && (d.network.Some? ==> d.network.value == (op.networkConnected || op.networkEnabled))
    && (op.networkConnected || op.networkEnabled ==> d.network.Some?)
    && (op.voWiFiActive ==> d.voWiFi)
  }

  lemma RestoreRestores(d: Device, op: Operation, env: Env)
    ensures Restore(d, op, env).1 ==> Restored(Restore(d, op, env).0, op)
    ensures Restored(d, op) && env.radioOk && env.voWiFiOk ==> Restore(d, op, env) == (d, true)
  {
  }

  // ---- one pass ---------------------------------------------------------------------------------------

  /** The open operation of the device, if any; with the journal's invariant there is at most one. */
  ghost function Blocking(rows: Rows, device: string): Option<Operation> {
    if op: Operation :| IsBlocking(rows, device, op) then Some(op) else None
  }

  predicate StillOwned(env: Env, k: nat, op: Operation) {
    && op.device in env.workers(k) && env.workers(k)[op.device] == op.generation
    && TrimSpace(op.ownerEpoch) != "" && op.ownerEpoch == Epoch(env)
  }

  function Request(op: Operation, next: Phase, acceptance: Acceptance, code: string): TransitionInput {
    TransitionInput(op.id, op.ownerEpoch, op.generation, op.phase, op.version, next, acceptance, code)
  }

  /** The journal steps of request k: those of others, then its own unless the pool refuses it. */
  function AskSteps(env: Env, k: nat, op: Operation, i: TransitionInput): seq<Step> {
    env.others(k) + if StillOwned(env, k, op) then [DoTransition(i, env.clock(k))] else []
  }

  ghost function Ask(rows: Rows, env: Env, k: nat, op: Operation, i: TransitionInput): Result<Operation, JournalError> {
    if StillOwned(env, k, op) then Transition(AfterAll(rows, env.others(k)), i, env.clock(k)).1 else Err(Stale)
  }

  function Ending(r: Result<Operation, JournalError>): Outcome {
    match r
    case Ok(_) => Done
    case Err(e) => Failed(Journal(e))
  }

  /** A pass whose last act is a request. */
  ghost function Last(rows: Rows, d: Device, env: Env, k: nat, op: Operation, i: TransitionInput): Pass {
    var r := Ask(rows, env, k, op, i);
    Pass(AskSteps(env, k, op, i), d, [Asked(op, i, r)], Ending(r))
  }

  /** A request that must succeed, and then the rest of the pass. */
  ghost function Then(p: Pass, steps: seq<Step>, asked: Asked): Pass {
    p.(steps := steps + p.steps, asked := [asked] + p.asked)
  }

  ghost function Finish(rows: Rows, d: Device, env: Env, op: Operation): Pass {
    if op.phase != Restoring then Pass([], d, [], Failed(Journal(Stale)))
    else if env.failpoint then Pass([], d, [], Failed(Failpoint))
    else if !env.physical then Pass([], d, [], Failed(Recovery))
    else
      var (d', ok) := Restore(d, op, env);
      if !ok then Pass([], d', [], Failed(Recovery))
      else Last(rows, d', env, 4, op, Request(op, Succeeded, AcceptanceAccepted, ERROR_NONE))
  }

  ghost function Advance(rows: Rows, d: Device, env: Env, op: Operation): Pass {
    if op.phase != Accepted then Finish(rows, d, env, op)
    else
      var i := Request(op, Restoring, AcceptanceAccepted, ERROR_NONE);
      var r, steps := Ask(rows, env, 3, op, i), AskSteps(env, 3, op, i);
      match r
      case Err(e) => Pass(steps, d, [Asked(op, i, r)], Failed(Journal(e)))
      case Ok(op') => Then(Finish(AfterAll(rows, steps), d, env, op'), steps, Asked(op, i, r))
  }

  ghost function MarkAmbiguous(rows: Rows, d: Device, env: Env, op: Operation): Pass {
    if op.phase == NeedsReconciliation then Pass([], d, [], Done)
    else
      var acceptance := if op.acceptance == AcceptanceAccepted then AcceptanceAccepted else AcceptanceUnknown;
      Last(rows, d, env, 2, op, Request(op, NeedsReconciliation, acceptance, ERROR_PROFILE_AMBIGUOUS))
  }

  ghost function Accept(rows: Rows, d: Device, env: Env, op: Operation): Pass {
    var i := Request(op, Accepted, AcceptanceAccepted, ERROR_NONE);
    var r, steps := Ask(rows, env, 2, op, i), AskSteps(env, 2, op, i);
    match r
    case Err(e) => Pass(steps, d, [Asked(op, i, r)], Failed(Journal(e)))
    case Ok(op') => Then(Advance(AfterAll(rows, steps), d, env, op'), steps, Asked(op, i, r))
  }

  ghost function Recover(rows: Rows, d: Device, env: Env, op: Operation): Pass {
    if op.phase == Intent then
      Last(rows, d, env, 2, op, Request(op, FailedBeforeApply, AcceptanceUnknown, ERROR_NONE))
    else if op.phase == Accepted || op.phase == Restoring then Advance(rows, d, env, op)
    else if env.live.None? then Pass([], d, [], Done)
    else if SameSIM(env.live.value, op.target) then Accept(rows, d, env, op)
    else MarkAmbiguous(rows, d, env, op)
  }

  function ClaimOf(op: Operation, env: Env): ClaimInput {
    ClaimInput(op.id, op.ownerEpoch, op.generation, op.phase, op.version, Epoch(env), env.generation)
  }

  ghost function Reconcile(rows: Rows, d: Device, env: Env): Pass {
    if TrimSpace(env.workerId) == "" || env.generation == 0 then Pass([], d, [], Failed(Journal(Invalid)))
    else if !env.journal || TrimSpace(Epoch(env)) == "" then Pass([], d, [], Failed(Journal(Unavailable)))
    else if !env.current || !env.lease then Pass([], d, [], Failed(Journal(Stale)))
    else
      var before := env.others(0);
      match Blocking(AfterAll(rows, before), TrimSpace(env.workerId))
      case None => Pass(before, d, [], Done)
      case Some(found) =>
        var steps := before + env.others(1) + [DoClaim(ClaimOf(found, env), env.clock(1))];
        match Claim(AfterAll(rows, before + env.others(1)), ClaimOf(found, env), env.clock(1)).1
        case Err(e) => Pass(steps, d, [], if e == Stale then Done else Failed(Journal(e)))
        case Ok(op) =>
          var p := Recover(AfterAll(rows, steps), d, env, op);
          p.(steps := steps + p.steps)
  }

  ghost function RowsAfter(rows: Rows, p: Pass): Rows {
    AfterAll(rows, p.steps)
  }

  lemma BlockingIs(rows: Rows, device: string)
    ensures Blocking(rows, device).Some? ==> IsBlocking(rows, device, Blocking(rows, device).value)
    ensures (forall id :: id in rows ==> rows[id].id == id) ==> (Blocking(rows, device).Some? <==> Blocked(rows, device))
  {
    if forall id :: id in rows ==> rows[id].id == id {
      if Blocked(rows, device) {
        var id :| id in rows && Blocks(rows[id], device);
        assert IsBlocking(rows, device, rows[id]);
      }
    }
  }
}
