/** Exactly which numbers of parts keep a message from ever falling back, from its creation on. */
module SmsDeliveryClimb {
  import opened Text
  import opened Wrappers
  import opened SmsDelivery
  import opened SmsDeliveryRuns

  /** The creation of a message that has neither a row nor parts yet. */
  ghost predicate FirstCreation(db: Db, s: Step) {
    && s.DoCreate? && TrimSpace(s.mid) != "" && TrimSpace(s.mid) !in db.messages
    && Of(db.parts, TrimSpace(s.mid), IsAny) == {}
  }

  /** The parts of a message: as many as it declares, and one if it declares none. */
  function Room(total: int): int {
    if total > 0 then total else 1
  }

  /** The step brings no part of the message under a number above n. */
  predicate Numbered(s: Step, mid: string, n: int) {
    s.DoUpsert? && TrimSpace(s.i.mid) == mid ==> s.i.no <= n
  }

  ghost predicate ClimbsAt(db: Db, db': Db, mid: string) {
    mid in db.messages && mid in db'.messages && Climbs(db.messages[mid], db'.messages[mid])
  }

  /** A run from db that begins with the creation and numbers the message's parts up to n. */
  ghost predicate RunOf(db: Db, create: Step, n: int, dbs: seq<Db>, steps: seq<Step>)
    requires create.DoCreate?
  {
    && Run(dbs, steps) && dbs[0] == db && steps != [] && steps[0] == create
    && forall k :: 0 <= k < |steps| ==> Numbered(steps[k], TrimSpace(create.mid), n)
  }

  /** In every such run the message climbs between any two states after its creation. */
  ghost predicate NeverFalls(db: Db, create: Step, n: int)
    requires create.DoCreate?
  {
    forall dbs, steps, i: nat, j: nat ::
      RunOf(db, create, n, dbs, steps) && 0 < i <= j < |dbs| ==> ClimbsAt(dbs[i], dbs[j], TrimSpace(create.mid))
  }

  // ---- within its room the message climbs --------------------------------------------------------

  /** The same data, with one part declared for the message if it declares none. */
  function Counted(db: Db, mid: string): Db
    requires mid in db.messages
  {
    db.(messages := db.messages[mid := db.messages[mid].(total := Room(db.messages[mid].total))])
  }

  lemma OnlyFirst(parts: map<Key, Part>, mid: string)
    requires InRange(parts, mid, 1) && Of(parts, mid, IsAny) != {}
    ensures |Of(parts, mid, IsAny)| == 1
  {
    var k :| k in Of(parts, mid, IsAny);
    assert k == Key(mid, 1);
    assert Of(parts, mid, IsAny) == {k};
  }

  /** With only a first part, declaring one part and declaring none come to the same. */
  lemma SameDerived(parts: map<Key, Part>, mid: string, total: int)
    requires InRange(parts, mid, Room(total)) && Of(parts, mid, IsAny) != {}
    ensures DerivedFrom(parts, mid, Room(total)) == DerivedFrom(parts, mid, total)
  {
    if total <= 0 {
      OnlyFirst(parts, mid);
    }
  }

  lemma RecomputedCounted(parts: map<Key, Part>, mid: string, m: Message, at: int)
    requires InRange(parts, mid, Room(m.total)) && Of(parts, mid, IsAny) != {}
    ensures Recomputed(parts, mid, m.(total := Room(m.total)), at) == Recomputed(parts, mid, m, at).(total := Room(m.total))
  {
    SameDerived(parts, mid, m.total);
  }

  lemma RecomputeOther(db: Db, id: string, m: Message, mid: string)
    requires mid in db.messages && id != mid
    ensures Counted(db.(messages := db.messages[id := m]), mid) ==
            Counted(db, mid).(messages := Counted(db, mid).messages[id := m])
  {
  }

  lemma RecomputeOwn(db: Db, m: Message, mid: string)
    requires mid in db.messages
    ensures Counted(db.(messages := db.messages[mid := m]), mid) ==
            Counted(db, mid).(messages := Counted(db, mid).messages[mid := m.(total := Room(m.total))])
  {
  }

  lemma RecomputeCounted(db: Db, messageId: string, at: int, mid: string)
    requires mid in db.messages && InRange(db.parts, mid, Room(db.messages[mid].total))
    ensures mid in Recompute(db, messageId, at).messages
    ensures Recompute(Counted(db, mid), messageId, at) == Counted(Recompute(db, messageId, at), mid)
  {
    var id := TrimSpace(messageId);
    if id in db.messages && Of(db.parts, id, IsAny) != {} {
      var m := Recomputed(db.parts, id, db.messages[id], at);
      if id == mid {
        RecomputedCounted(db.parts, mid, db.messages[mid], at);
        RecomputeOwn(db, m, mid);
      } else {
        RecomputeOther(db, id, m, mid);
      }
    }
  }

  lemma SyncCounted(db: Db, k: string, mid: string)
    requires mid in db.messages
    ensures SyncHistory(Counted(db, mid), k) == Counted(SyncHistory(db, k), mid)
  {
  }

  lemma ReportCounted(db: Db, k: Key, p: Part, at: int, mid: string)
    requires mid in db.messages && InRange(db.parts, mid, Room(db.messages[mid].total)) && k in db.parts
    ensures mid in AfterReport(db, k, p, at).messages
    ensures AfterReport(Counted(db, mid), k, p, at) == Counted(AfterReport(db, k, p, at), mid)
  {
    var moved := db.(parts := db.parts[k := p]);
    assert Counted(moved, mid) == Counted(db, mid).(parts := db.parts[k := p]);
    RecomputeCounted(moved, k.mid, at, mid);
    SyncCounted(Recompute(moved, k.mid, at), k.mid, mid);
  }

  lemma CandidatesCounted(db: Db, r: StatusReport, mid: string)
    requires mid in db.messages
    ensures StatusCandidates(Counted(db, mid), r) == StatusCandidates(db, r)
  {
  }

  lemma StatusCounted(db: Db, r: StatusReport, about: Result<Key, ReportError>, db': Db, mid: string)
    requires StatusReported(db, r, db', about)
    requires mid in db.messages && InRange(db.parts, mid, Room(db.messages[mid].total))
    ensures mid in db'.messages && StatusReported(Counted(db, mid), r, Counted(db', mid), about)
  {
    CandidatesCounted(db, r, mid);
    if about.Ok? {
      CandidateIn(db, r, about.value);
      ReportCounted(db, about.value, WithStatus(db.parts[about.value], r), r.at, mid);
    }
  }

  lemma SubmitCounted(db: Db, r: SubmitReport, about: Result<Key, ReportError>, db': Db, mid: string)
    requires SubmitReported(db, r, db', about)
    requires mid in db.messages && InRange(db.parts, mid, Room(db.messages[mid].total))
    ensures mid in db'.messages && SubmitReported(Counted(db, mid), r, Counted(db', mid), about)
  {
    CorrelatesCounted(db, r, about, mid);
    if about.Ok? {
      ReportCounted(db, about.value, WithSubmit(db.parts[about.value], r), r.at, mid);
    }
  }

  lemma CorrelatesCounted(db: Db, r: SubmitReport, about: Result<Key, ReportError>, mid: string)
    requires mid in db.messages
    ensures Correlates(Counted(db, mid), r, about) == Correlates(db, r, about)
  {
    var c := Counted(db, mid);
    assert WithCallId(c, r.inReplyTo, r.deviceId) == WithCallId(db, r.inReplyTo, r.deviceId);
    assert WithCallId(c, r.callId, r.deviceId) == WithCallId(db, r.callId, r.deviceId);
    assert WithReference(c, r) == WithReference(db, r);
  }

  /** Every step does the same to the data whether the message declares one part or none. */
  lemma NextCounted(db: Db, s: Step, db': Db, mid: string)
    requires Next(db, s, db') && mid in db.messages && InRange(db.parts, mid, Room(db.messages[mid].total))
    ensures mid in db'.messages && Next(Counted(db, mid), s, Counted(db', mid))
  {
    match s
    case DoCreate(_, _, _, _, _, _) =>
    case DoUpsert(_) =>
    case DoStatus(r, about) => StatusCounted(db, r, about, db', mid);
    case DoSubmit(r, about) => SubmitCounted(db, r, about, db', mid);
    case DoRecompute(messageId, at) => RecomputeCounted(db, messageId, at, mid);
  }

  lemma TotalStays(db: Db, s: Step, db': Db, mid: string)
    requires Next(db, s, db') && mid in db.messages
    ensures mid in db'.messages && db'.messages[mid].total == db.messages[mid].total
  {
    match s
    case DoCreate(_, _, _, _, _, _) =>
    case DoUpsert(_) =>
    case DoStatus(_, _) =>
    case DoSubmit(_, _) =>
    case DoRecompute(_, _) =>
  }

  ghost predicate Within(db: Db, mid: string, total: int) {
    mid in db.messages && db.messages[mid].total == total && Tracked(Counted(db, mid), mid)
  }

  lemma WithinStep(db: Db, s: Step, db': Db, mid: string, total: int)
    requires Next(db, s, db') && Within(db, mid, total) && Numbered(s, mid, Room(total))
    ensures Within(db', mid, total) && ClimbsAt(db, db', mid)
  {
    TotalStays(db, s, db', mid);
    NextCounted(db, s, db', mid);
    MessageStep(Counted(db, mid), s, Counted(db', mid), mid);
  }

  lemma CreatedIsWithin(db: Db, create: Step, db': Db)
    requires FirstCreation(db, create) && Next(db, create, db')
    ensures Within(db', TrimSpace(create.mid), create.total)
  {
    var mid := TrimSpace(create.mid);
    assert forall k :: k in Of(db.parts, mid, IsAny) <==> k in db.parts && k.mid == mid;
  }

  ghost predicate StepsWithin(dbs: seq<Db>, mid: string, total: int) {
    forall k :: 0 < k < |dbs| - 1 && Within(dbs[k], mid, total) ==>
      Within(dbs[k + 1], mid, total) && ClimbsAt(dbs[k], dbs[k + 1], mid)
  }

  lemma {:induction false} WithinAlong(dbs: seq<Db>, mid: string, total: int, i: nat, j: nat)
    requires StepsWithin(dbs, mid, total) && 0 < i <= j < |dbs| && Within(dbs[i], mid, total)
    ensures Within(dbs[j], mid, total) && ClimbsAt(dbs[i], dbs[j], mid)
    decreases j
  {
    if i < j {
      WithinAlong(dbs, mid, total, i, j - 1);
    }
  }

  lemma ClimbsWithinRoom(db: Db, create: Step, n: int)
    requires FirstCreation(db, create) && n <= Room(create.total)
    ensures NeverFalls(db, create, n)
  {
    var mid := TrimSpace(create.mid);
    forall dbs, steps, i: nat, j: nat | RunOf(db, create, n, dbs, steps) && 0 < i <= j < |dbs|
      ensures ClimbsAt(dbs[i], dbs[j], mid)
    {
      forall k | 0 < k < |dbs| - 1 && Within(dbs[k], mid, create.total)
        ensures Within(dbs[k + 1], mid, create.total) && ClimbsAt(dbs[k], dbs[k + 1], mid)
      {
        WithinStep(dbs[k], steps[k], dbs[k + 1], mid, create.total);
      }
      CreatedIsWithin(db, create, dbs[1]);
      WithinAlong(dbs, mid, create.total, 1, i);
      WithinAlong(dbs, mid, create.total, i, j);
    }
  }

  // ---- beyond it the message can fall back ---------------------------------------------------------

  /** A report, straight from the first, that a part was acknowledged. */
  function AckedUpsert(mid: string, no: int, at: int): UpsertInput {
    UpsertInput(mid, no, "", 0, "acked", at)
  }

  /** The first `count` parts are there and acked, no others are, and nothing has been recomputed. */
  ghost predicate AckedUpTo(db: Db, mid: string, total: int, count: nat) {
    && mid in db.messages && db.messages[mid].state == MessagePending && db.messages[mid].total == total
    && Of(db.parts, mid, IsAny) == Slots(mid, count)
    && forall k :: k in Slots(mid, count) ==> k in db.parts && db.parts[k].state == Acked
  }

  lemma OneMoreAcked(db: Db, mid: string, total: int, count: nat, at: int)
    requires Trimmed(mid) && mid != "" && AckedUpTo(db, mid, total, count)
    ensures AckedUpTo(Upsert(db, AckedUpsert(mid, count + 1, at)).0, mid, total, count + 1)
  {
    TrimmedIsFixed(mid);
    TrimmedIsFixed("acked");
    var db' := Upsert(db, AckedUpsert(mid, count + 1, at)).0;
    assert Key(mid, count + 1) !in Slots(mid, count);
    assert Key(mid, count + 1) !in Of(db.parts, mid, IsAny);
    assert Slots(mid, count + 1) == Slots(mid, count) + {Key(mid, count + 1)};
    assert Of(db'.parts, mid, IsAny) == Of(db.parts, mid, IsAny) + {Key(mid, count + 1)};
  }

  /** Such a run passes x and ends in d. */
  ghost predicate EndsAfter(db: Db, create: Step, n: int, dbs: seq<Db>, steps: seq<Step>, i: nat, x: Db, d: Db)
    requires create.DoCreate?
  {
    RunOf(db, create, n, dbs, steps) && 0 < i <= |steps| && dbs[i] == x && dbs[|steps|] == d
  }

  ghost predicate Passes(db: Db, create: Step, n: int, x: Db, d: Db)
    requires create.DoCreate?
  {
    exists dbs, steps, i: nat :: EndsAfter(db, create, n, dbs, steps, i, x, d)
  }

  lemma RunSnoc(db: Db, create: Step, n: int, dbs: seq<Db>, steps: seq<Step>, s: Step, d: Db)
    requires create.DoCreate? && RunOf(db, create, n, dbs, steps) && Next(dbs[|steps|], s, d)
    requires Numbered(s, TrimSpace(create.mid), n)
    ensures RunOf(db, create, n, dbs + [d], steps + [s])
  {
    var dbs', steps' := dbs + [d], steps + [s];
    forall k | 0 <= k < |steps'|
      ensures Next(dbs'[k], steps'[k], dbs'[k + 1]) && Numbered(steps'[k], TrimSpace(create.mid), n)
    {
      if k < |steps| {
        assert dbs'[k] == dbs[k] && steps'[k] == steps[k] && dbs'[k + 1] == dbs[k + 1];
      }
    }
  }

  lemma PassesOn(db: Db, create: Step, n: int, x: Db, d: Db, s: Step, d': Db)
    requires create.DoCreate? && Passes(db, create, n, x, d) && Next(d, s, d') && Numbered(s, TrimSpace(create.mid), n)
    ensures Passes(db, create, n, x, d') && Passes(db, create, n, d', d')
  {
    var dbs, steps, i: nat :| EndsAfter(db, create, n, dbs, steps, i, x, d);
    RunSnoc(db, create, n, dbs, steps, s, d');
    assert EndsAfter(db, create, n, dbs + [d'], steps + [s], i, x, d');
    assert EndsAfter(db, create, n, dbs + [d'], steps + [s], |steps| + 1, d', d');
  }

  lemma PassesAfterCreation(db: Db, create: Step, n: int, d: Db)
    requires create.DoCreate? && Next(db, create, d)
    ensures Passes(db, create, n, d, d)
  {
    assert EndsAfter(db, create, n, [db, d], [create], 1, d, d);
  }

  lemma FallIsFound(db: Db, create: Step, n: int, x: Db, d: Db)
    requires create.DoCreate? && Passes(db, create, n, x, d) && !ClimbsAt(x, d, TrimSpace(create.mid))
    ensures !NeverFalls(db, create, n)
  {
    var dbs, steps, i: nat :| EndsAfter(db, create, n, dbs, steps, i, x, d);
    assert !ClimbsAt(dbs[i], dbs[|steps|], TrimSpace(create.mid));
  }

  /** Some run creates the message and has its first `count` parts acknowledged. */
  lemma {:induction false} AckedRun(db: Db, create: Step, n: int, count: nat) returns (d: Db)
    requires FirstCreation(db, create) && count <= n
    ensures Passes(db, create, n, d, d) && AckedUpTo(d, TrimSpace(create.mid), create.total, count)
  {
    var mid := TrimSpace(create.mid);
    if count == 0 {
      d := db.(messages := db.messages[mid := Message(
        TrimSpace(create.imsi), TrimSpace(create.deviceId), TrimSpace(create.peer), create.total, 0, MessagePending, "", create.at)]);
      PassesAfterCreation(db, create, n, d);
    } else {
      var last := AckedRun(db, create, n, count - 1);
      TrimSpaceShape(create.mid);
      var i := AckedUpsert(mid, count, create.at);
      d := Upsert(last, i).0;
      OneMoreAcked(last, mid, create.total, count - 1, create.at);
      PassesOn(db, create, n, last, last, DoUpsert(i), d);
    }
  }

  lemma FullRoom(db: Db, mid: string, total: int)
    requires AckedUpTo(db, mid, total, Room(total))
    ensures Key(mid, Room(total) + 1) !in db.parts
    ensures Of(db.parts, mid, IsAny) != {} && forall k :: k in Of(db.parts, mid, IsAny) ==> db.parts[k].state == Acked
    ensures Expected(|Of(db.parts, mid, IsAny)|, total) == |Of(db.parts, mid, IsAny)|
  {
    var room := Room(total);
    SlotCount(mid, room);
    assert Key(mid, 1) in Slots(mid, room);
    assert Key(mid, room + 1) !in Slots(mid, room);
    assert Key(mid, room + 1) !in Of(db.parts, mid, IsAny);
  }

  /** With its room filled and acked, the message is recomputed, one more part appears, and it is recomputed again. */
  lemma FallsBack(db: Db, mid: string, total: int, at: int) returns (before: Db, more: Db, after: Db)
    requires Trimmed(mid) && mid != "" && AckedUpTo(db, mid, total, Room(total))
    ensures Next(db, DoRecompute(mid, at), before) && Next(before, DoUpsert(Fresh(mid, Room(total) + 1, at)), more)
    ensures Next(more, DoRecompute(mid, at), after) && !ClimbsAt(before, after, mid)
  {
    FullRoom(db, mid, total);
    UndeclaredFallsBack(db, mid, Room(total) + 1, at);
    before := Recompute(db, mid, at);
    more := Upsert(before, Fresh(mid, Room(total) + 1, at)).0;
    after := Recompute(more, mid, at);
  }

  /** From any state of such a run, recomputing, one more part and recomputing again. */
  lemma ThreeMore(db: Db, create: Step, n: int, full: Db, i: UpsertInput, at: int, before: Db, more: Db, after: Db)
    requires create.DoCreate? && Passes(db, create, n, full, full) && i.no <= n
    requires Next(full, DoRecompute(i.mid, at), before) && Next(before, DoUpsert(i), more) && Next(more, DoRecompute(i.mid, at), after)
    ensures Passes(db, create, n, before, after)
  {
    PassesOn(db, create, n, full, full, DoRecompute(i.mid, at), before);
    PassesOn(db, create, n, before, before, DoUpsert(i), more);
    PassesOn(db, create, n, before, more, DoRecompute(i.mid, at), after);
  }

  lemma FallsBeyondRoom(db: Db, create: Step, n: int)
    requires FirstCreation(db, create) && n > Room(create.total)
    ensures !NeverFalls(db, create, n)
  {
    var mid, room, at := TrimSpace(create.mid), Room(create.total), create.at;
    TrimSpaceShape(create.mid);
    var full := AckedRun(db, create, n, room);
    var before, more, after := FallsBack(full, mid, create.total, at);
    ThreeMore(db, create, n, full, Fresh(mid, room + 1, at), at, before, more, after);
    FallIsFound(db, create, n, before, after);
  }

  /**
   A new message never falls back, in any run that brings its parts under numbers up to n, exactly
   when n is at most the number of parts it declares, or at most one if it declares none.
   */
  lemma NeverFallsIff(db: Db, create: Step, n: int)
    requires FirstCreation(db, create)
    ensures NeverFalls(db, create, n) <==> n <= Room(create.total)
  {
    if n <= Room(create.total) {
      ClimbsWithinRoom(db, create, n);
    } else {
      FallsBeyondRoom(db, create, n);
    }
  }
}
