/** The recovery driver working on the journal store and the device in place. */
module SwitchDriver {
  import opened Text
  import opened Wrappers
  import opened SwitchJournal
  import opened SwitchJournalRuns
  import opened SwitchJournalStore
  import opened SwitchReconciler

  class Modem {
    var mode: Radio
    var network: Option<bool>
    var voWiFi: bool

    constructor (d: Device)
      ensures Value() == d
    {
      mode, network, voWiFi := d.mode, d.network, d.voWiFi;
    }

    ghost function Value(): Device
      reads this
    {
      Device(mode, network, voWiFi)
    }

    method RestoreReconciled(op: Operation, env: Env) returns (ok: bool)
      modifies this
      ensures (Value(), ok) == Restore(old(Value()), op, env)
      ensures ok ==> Restored(Value(), op)
    {
      if op.radio == RadioFlight || op.radio == RadioOnline {
        if !env.radioOk {
          return false;
        }
        mode := op.radio;
      }
      var want := op.networkConnected || op.networkEnabled;
      if network.Some? {
        if network.value != want {
          if !env.networkOk {
            return false;
          }
          network := Some(want);
        }
      } else if want {
        return false;
      }
      if op.voWiFiActive {
        if !env.voWiFiOk {
          return false;
        }
        voWiFi := true;
      }
      return true;
    }
  }

  class Driver {
    const store: JournalStore
    const modem: Modem

    constructor (store: JournalStore, modem: Modem)
      ensures this.store == store && this.modem == modem
    {
      this.store, this.modem := store, modem;
    }

    /** What other processes do to the journal in the meantime. */
    method OthersAct(steps: seq<Step>)
      requires Inv(store.rows)
      modifies store
      ensures store.rows == AfterAll(old(store.rows), steps) && Inv(store.rows)
    {
      for n := 0 to |steps|
        invariant store.rows == AfterAll(old(store.rows), steps[..n]) && Inv(store.rows)
      {
        assert steps[..n + 1][..n] == steps[..n];
        match steps[n]
        case DoCreate(i, keyFirst, now) => var _ := store.Create(i, now, keyFirst);
        case DoTransition(i, now) => var _ := store.Transition(i, now);
        case DoClaim(i, now) => var _ := store.ClaimForReconciliation(i, now);
      }
      assert steps[..|steps|] == steps;
    }

    /** Request k, refused by the pool unless the worker is still the registered one of this epoch. */
    method TransitionReconciled(env: Env, k: nat, op: Operation, next: Phase, acceptance: Acceptance, code: string)
      returns (r: Result<Operation, JournalError>)
      requires Inv(store.rows)
      modifies store
      ensures Inv(store.rows)
      ensures var i := Request(op, next, acceptance, code);
        r == Ask(old(store.rows), env, k, op, i) && store.rows == AfterAll(old(store.rows), AskSteps(env, k, op, i))
    {
      var i := Request(op, next, acceptance, code);
      OthersAct(env.others(k));
      if !StillOwned(env, k, op) {
        assert AskSteps(env, k, op, i) == env.others(k);
        return Err(Stale);
      }
      assert AskSteps(env, k, op, i)[..|env.others(k)|] == env.others(k);
      r := store.Transition(i, env.clock(k));
    }

    method Finish(env: Env, op: Operation) returns (outcome: Outcome)
      requires Inv(store.rows)
      modifies store, modem
      ensures Inv(store.rows)
      ensures var p := SwitchReconciler.Finish(old(store.rows), old(modem.Value()), env, op);
        store.rows == RowsAfter(old(store.rows), p) && modem.Value() == p.device && outcome == p.outcome
    {
      if op.phase != Restoring {
        return Failed(Journal(Stale));
      }
      if env.failpoint {
        return Failed(Failpoint);
      }
      if !env.physical {
        return Failed(SwitchReconciler.Recovery);
      }
      var ok := modem.RestoreReconciled(op, env);
      if !ok {
        return Failed(SwitchReconciler.Recovery);
      }
      var r := TransitionReconciled(env, 4, op, Succeeded, AcceptanceAccepted, ERROR_NONE);
      return Ending(r);
    }

    method Advance(env: Env, op: Operation) returns (outcome: Outcome)
      requires Inv(store.rows)
      modifies store, modem
      ensures Inv(store.rows)
      ensures var p := SwitchReconciler.Advance(old(store.rows), old(modem.Value()), env, op);
        store.rows == RowsAfter(old(store.rows), p) && modem.Value() == p.device && outcome == p.outcome
    {
      var operation := op;
      if operation.phase == Accepted {
        ghost var i := Request(op, Restoring, AcceptanceAccepted, ERROR_NONE);
        var r := TransitionReconciled(env, 3, operation, Restoring, AcceptanceAccepted, ERROR_NONE);
        if r.Err? {
          return Failed(Journal(r.error));
        }
        operation := r.value;
        AfterAllConcat(old(store.rows), AskSteps(env, 3, op, i), SwitchReconciler.Finish(store.rows, modem.Value(), env, operation).steps);
      }
      outcome := Finish(env, operation);
    }

    method MarkReconciledAmbiguous(env: Env, op: Operation) returns (outcome: Outcome)
      requires Inv(store.rows)
      modifies store
      ensures Inv(store.rows)
      ensures var p := MarkAmbiguous(old(store.rows), modem.Value(), env, op);
        store.rows == RowsAfter(old(store.rows), p) && outcome == p.outcome && p.device == modem.Value()
    {
      if op.phase == NeedsReconciliation {
        return Done;
      }
      var acceptance := op.acceptance;
      if acceptance != AcceptanceAccepted {
        acceptance := AcceptanceUnknown;
      }
      var r := TransitionReconciled(env, 2, op, NeedsReconciliation, acceptance, ERROR_PROFILE_AMBIGUOUS);
      return Ending(r);
    }

    method Recover(env: Env, op: Operation) returns (outcome: Outcome)
      requires Inv(store.rows)
      modifies store, modem
      ensures Inv(store.rows)
      ensures var p := SwitchReconciler.Recover(old(store.rows), old(modem.Value()), env, op);
        store.rows == RowsAfter(old(store.rows), p) && modem.Value() == p.device && outcome == p.outcome
    {
      if op.phase == Intent {
        var r := TransitionReconciled(env, 2, op, FailedBeforeApply, AcceptanceUnknown, ERROR_NONE);
        return Ending(r);
      }
      var operation := op;
      if operation.phase != Accepted && operation.phase != Restoring {
        if env.live.None? {
          return Done;
        }
        if !SameSIM(env.live.value, operation.target) {
          outcome := MarkReconciledAmbiguous(env, operation);
          return;
        }
        ghost var i := Request(op, Accepted, AcceptanceAccepted, ERROR_NONE);
        var r := TransitionReconciled(env, 2, operation, Accepted, AcceptanceAccepted, ERROR_NONE);
        if r.Err? {
          return Failed(Journal(r.error));
        }
        operation := r.value;
        AfterAllConcat(old(store.rows), AskSteps(env, 2, op, i), SwitchReconciler.Advance(store.rows, modem.Value(), env, operation).steps);
      }
      outcome := Advance(env, operation);
    }

    method FindOpen(workerId: string) returns (found: Option<Operation>)
      requires Inv(store.rows) && TrimSpace(workerId) != ""
      ensures found == Blocking(store.rows, TrimSpace(workerId))
    {
      var device := TrimSpace(workerId);
      var open := store.GetBlockingByDevice(workerId);
      BlockingIs(store.rows, device);
      match open
      case Err(_) => return None;
      case Ok(op) =>
        assert Blocks(store.rows[op.id], device);
        BlockingIsUnique(store.rows, device, op, Blocking(store.rows, device).value);
        return Some(op);
    }

    /** Looks up the device's open operation and claims it. */
    method FindAndClaim(env: Env) returns (found: Option<Operation>, r: Result<Operation, JournalError>)
      requires Inv(store.rows) && TrimSpace(env.workerId) != ""
      modifies store
      ensures Inv(store.rows)
      ensures var rows := old(store.rows);
        && found == Blocking(AfterAll(rows, env.others(0)), TrimSpace(env.workerId))
        && match found
           case None => store.rows == AfterAll(rows, env.others(0))
           case Some(f) =>
             var before := env.others(0) + env.others(1);
             && r == Claim(AfterAll(rows, before), ClaimOf(f, env), env.clock(1)).1
             && store.rows == AfterAll(rows, before + [DoClaim(ClaimOf(f, env), env.clock(1))])
    {
      OthersAct(env.others(0));
      found := FindOpen(env.workerId);
      match found
      case None => return None, Err(NotFound);
      case Some(op) =>
        OthersAct(env.others(1));
        ghost var before := env.others(0) + env.others(1);
        AfterAllConcat(old(store.rows), env.others(0), env.others(1));
        assert (before + [DoClaim(ClaimOf(op, env), env.clock(1))])[..|before|] == before;
        r := store.ClaimForReconciliation(ClaimOf(op, env), env.clock(1));
    }

    /** One pass of a worker over its device's open operation. */
    method ReconcileForWorker(env: Env) returns (outcome: Outcome)
      requires Inv(store.rows)
      modifies store, modem
      ensures Inv(store.rows)
      ensures var p := Reconcile(old(store.rows), old(modem.Value()), env);
        store.rows == RowsAfter(old(store.rows), p) && modem.Value() == p.device && outcome == p.outcome
    {
      if TrimSpace(env.workerId) == "" || env.generation == 0 {
        return Failed(Journal(Invalid));
      }
      if !env.journal || TrimSpace(Epoch(env)) == "" {
        return Failed(Journal(Unavailable));
      }
      if !env.current || !env.lease {
        return Failed(Journal(Stale));
      }
      var found, r := FindAndClaim(env);
      match found
      case None => return Done;
      case Some(f) =>
        match r
        case Err(e) => return if e == Stale then Done else Failed(Journal(e));
        case Ok(op) =>
          ghost var steps := env.others(0) + env.others(1) + [DoClaim(ClaimOf(f, env), env.clock(1))];
          AfterAllConcat(old(store.rows), steps, SwitchReconciler.Recover(store.rows, modem.Value(), env, op).steps);
          outcome := Recover(env, op);
    }
  }
}
