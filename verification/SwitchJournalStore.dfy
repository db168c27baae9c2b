/** The journal store as an object over its table. */
module SwitchJournalStore {
  import opened Text
  import opened Wrappers
  import opened SwitchJournal
  import Runs = SwitchJournalRuns

  class JournalStore {
    var rows: Rows

    constructor ()
      ensures rows == map[] && Inv(rows)
    {
      rows := map[];
    }

    /** The partial unique index: is there an open operation for this device? */
    method HasOpen(device: string) returns (open: bool)
      ensures open == Blocked(rows, device)
    {
      open := false;
      var left := rows.Keys;
      while left != {}
        invariant left <= rows.Keys
        invariant forall id :: id in rows && id !in left ==> !Blocks(rows[id], device)
        decreases |left|
      {
        var id :| id in left;
        if Blocks(rows[id], device) {
          return true;
        }
        left := left - {id};
      }
    }

    method Create(i: CreateInput, now: int, keyFirst: bool) returns (r: Result<Operation, JournalError>)
      requires Inv(rows)
      modifies this
      ensures (rows, r) == SwitchJournal.Create(old(rows), i, now, keyFirst)
      ensures Inv(rows)
    {
      Runs.StepKeeps(rows, Runs.DoCreate(i, keyFirst, now));
      if CreateInvalid(i) {
        return Err(Invalid);
      }
      var op := Created(i, now);
      var open := HasOpen(op.device);
      if op.id in rows && (keyFirst || !open) {
        return Err(Unavailable);
      }
      if open {
        return Err(InProgress);
      }
      rows := rows[op.id := op];
      return Ok(op);
    }

    /** The newest open operation of the device; there is no other. */
    method GetBlockingByDevice(device: string) returns (r: Result<Operation, JournalError>)
      requires Inv(rows)
      ensures r == Err(Invalid) <==> TrimSpace(device) == ""
      ensures r.Ok? ==> IsBlocking(rows, TrimSpace(device), r.value)
      ensures r.Err? && r != Err(Invalid) ==> r == Err(NotFound) && !Blocked(rows, TrimSpace(device))
    {
      var d := TrimSpace(device);
      if d == "" {
        return Err(Invalid);
      }
      r := Err(NotFound);
      var left := rows.Keys;
      while left != {}
        invariant left <= rows.Keys
        invariant r == Err(NotFound) || (r.Ok? && IsBlocking(rows, d, r.value))
        invariant r.Err? ==> forall id :: id in rows && id !in left ==> !Blocks(rows[id], d)
        decreases |left|
      {
        var id :| id in left;
        if Blocks(rows[id], d) && (r.Err? || rows[id].createdAt > r.value.createdAt) {
          r := Ok(rows[id]);
        }
        left := left - {id};
      }
    }

    method Transition(i: TransitionInput, now: int) returns (r: Result<Operation, JournalError>)
      requires Inv(rows)
      modifies this
      ensures (rows, r) == SwitchJournal.Transition(old(rows), i, now)
      ensures Inv(rows)
    {
      Runs.StepKeeps(rows, Runs.DoTransition(i, now));
      if TransitionInvalid(i) {
        return Err(Invalid);
      }
      var id := TrimSpace(i.id);
      if !Matches(rows, id, TrimSpace(i.ownerEpoch), i.generation, i.phase, i.version) {
        return Err(Stale);
      }
      rows := rows[id := Moved(rows[id], i, now)];
      return Ok(rows[id]);
    }

    method ClaimForReconciliation(i: ClaimInput, now: int) returns (r: Result<Operation, JournalError>)
      requires Inv(rows)
      modifies this
      ensures (rows, r) == Claim(old(rows), i, now)
      ensures Inv(rows)
    {
      Runs.StepKeeps(rows, Runs.DoClaim(i, now));
      if ClaimInvalid(i) {
        return Err(Invalid);
      }
      var id := TrimSpace(i.id);
      if !Matches(rows, id, TrimSpace(i.ownerEpoch), i.generation, i.phase, i.version) {
        return Err(Stale);
      }
      if rows[id].reconcileOwner == TrimSpace(i.newOwner) && rows[id].reconcileGeneration == i.newGeneration {
        return Err(Stale);
      }
      rows := rows[id := Claimed(rows[id], i, now)];
      return Ok(rows[id]);
    }
  }
}
