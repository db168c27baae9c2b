/** Every run of part upserts, submission reports, status reports and recomputations only moves forward. */
module SmsDeliveryRuns {
  import opened Text
  import opened Wrappers
  import opened SmsDelivery

  datatype Step =
    | DoCreate(mid: string, imsi: string, deviceId: string, peer: string, total: int, at: int)
    | DoUpsert(i: UpsertInput)
    | DoStatus(status: StatusReport, about: Result<Key, ReportError>)
    | DoSubmit(submit: SubmitReport, about: Result<Key, ReportError>)
    | DoRecompute(messageId: string, at: int)

  /** A message is created once; re-creating one is left out. */
  ghost predicate Next(db: Db, s: Step, db': Db) {
    match s
    case DoCreate(mid, imsi, deviceId, peer, total, at) =>
      TrimSpace(mid) != "" && TrimSpace(mid) !in db.messages
      && db' == db.(messages := db.messages[TrimSpace(mid) :=
           Message(TrimSpace(imsi), TrimSpace(deviceId), TrimSpace(peer), total, 0, MessagePending, "", at)])
    case DoUpsert(i) => db' == Upsert(db, i).0
    case DoStatus(r, about) => StatusReported(db, r, db', about)
    case DoSubmit(r, about) => SubmitReported(db, r, db', about)
    case DoRecompute(messageId, at) => db' == Recompute(db, messageId, at)
  }

  ghost predicate Run(dbs: seq<Db>, steps: seq<Step>) {
    |dbs| == |steps| + 1 && forall i :: 0 <= i < |steps| ==> Next(dbs[i], steps[i], dbs[i + 1])
  }

  // ---- one part -----------------------------------------------------------------------------------

  /** The one way a part falls back: an unlisted state reported over a failure. */
  predicate Relapse(a: PartState, b: PartState) {
    (a == Failed || a == Timeout) && b.Unlisted?
  }

  predicate Forward(a: PartState, b: PartState) {
    (IsFinal(a) ==> b == a) && (Rank(b) >= Rank(a) || Relapse(a, b))
  }

  lemma MergedIsForward(a: PartState, b: PartState)
    ensures Forward(a, Merged(a, b))
    ensures Rank(Merged(a, b)) < Rank(a) <==> Relapse(a, b)
  {
  }

  /** What one step can do to the parts: none disappears, and each moves forward. */
  ghost predicate PartsForward(ps: map<Key, Part>, ps': map<Key, Part>) {
    forall k :: k in ps ==> k in ps' && Forward(ps[k].state, ps'[k].state)
  }

  predicate UpsertsOver(s: Step, k: Key) {
    s.DoUpsert? && k == Key(TrimSpace(s.i.mid), s.i.no) && k.mid != "" && k.no > 0
  }

  lemma RecomputeParts(db: Db, mid: string, at: int)
    ensures Recompute(db, mid, at).parts == db.parts
  {
  }

  lemma ReportedParts(db: Db, k: Key, p: Part, at: int)
    ensures AfterReport(db, k, p, at).parts == db.parts[k := p]
  {
    RecomputeParts(db.(parts := db.parts[k := p]), k.mid, at);
  }

  lemma CandidateIn(db: Db, r: StatusReport, k: Key)
    requires StatusCandidates(db, r) == {k}
    ensures k in db.parts && !db.parts[k].state.Unlisted?
  {
    assert k in StatusCandidates(db, r);
  }

  lemma StatusPart(db: Db, r: StatusReport, about: Result<Key, ReportError>, db': Db, k: Key)
    requires StatusReported(db, r, db', about) && k in db.parts
    ensures k in db'.parts && Forward(db.parts[k].state, db'.parts[k].state)
         && Rank(db'.parts[k].state) >= Rank(db.parts[k].state)
  {
    if about.Ok? && db' != db {
      CandidateIn(db, r, about.value);
      ReportedParts(db, about.value, WithStatus(db.parts[about.value], r), r.at);
    }
  }

  lemma SubmitPart(db: Db, r: SubmitReport, about: Result<Key, ReportError>, db': Db, k: Key)
    requires SubmitReported(db, r, db', about) && k in db.parts
    ensures k in db'.parts && Forward(db.parts[k].state, db'.parts[k].state)
         && Rank(db'.parts[k].state) >= Rank(db.parts[k].state)
  {
    if about.Ok? {
      ReportedParts(db, about.value, WithSubmit(db.parts[about.value], r), r.at);
    }
  }

  /** Ranks fall exactly when an upsert brings an unlisted state over a failed or timed-out part. */
  lemma PartStep(db: Db, s: Step, db': Db, k: Key)
    requires Next(db, s, db') && k in db.parts
    ensures k in db'.parts && Forward(db.parts[k].state, db'.parts[k].state)
    ensures Rank(db'.parts[k].state) < Rank(db.parts[k].state) <==>
            UpsertsOver(s, k) && Relapse(db.parts[k].state, UpsertState(s.i.state))
  {
    match s
    case DoCreate(_, _, _, _, _, _) =>
    case DoUpsert(i) => MergedIsForward(db.parts[k].state, UpsertState(i.state));
    case DoStatus(r, about) => StatusPart(db, r, about, db', k);
    case DoSubmit(r, about) => SubmitPart(db, r, about, db', k);
    case DoRecompute(messageId, at) => RecomputeParts(db, messageId, at);
  }

  /** The run never reports an unlisted state over a failed part. */
  ghost predicate NoRelapse(dbs: seq<Db>, steps: seq<Step>, k: Key)
    requires |dbs| == |steps| + 1
  {
    forall i :: 0 <= i < |steps| && k in dbs[i].parts && UpsertsOver(steps[i], k) ==>
      !Relapse(dbs[i].parts[k].state, UpsertState(steps[i].i.state))
  }

  /** A part's moves alone, without the steps that made them. */
  ghost predicate PartMoves(dbs: seq<Db>, k: Key, i: nat) {
    forall n :: i <= n < |dbs| - 1 && k in dbs[n].parts ==>
      k in dbs[n + 1].parts && Forward(dbs[n].parts[k].state, dbs[n + 1].parts[k].state)
  }

  ghost predicate RankMoves(dbs: seq<Db>, k: Key, i: nat) {
    forall n :: i <= n < |dbs| - 1 && k in dbs[n].parts ==>
      k in dbs[n + 1].parts && Rank(dbs[n + 1].parts[k].state) >= Rank(dbs[n].parts[k].state)
  }

  lemma RunMoves(dbs: seq<Db>, steps: seq<Step>, k: Key, i: nat)
    requires Run(dbs, steps)
    ensures PartMoves(dbs, k, i)
    ensures NoRelapse(dbs, steps, k) ==> RankMoves(dbs, k, i)
  {
    forall n: nat | i <= n < |dbs| - 1 && k in dbs[n].parts
      ensures k in dbs[n + 1].parts && Forward(dbs[n].parts[k].state, dbs[n + 1].parts[k].state)
      ensures NoRelapse(dbs, steps, k) ==> Rank(dbs[n + 1].parts[k].state) >= Rank(dbs[n].parts[k].state)
    {
      PartStep(dbs[n], steps[n], dbs[n + 1], k);
    }
  }

  lemma {:induction false} RanksAlong(dbs: seq<Db>, k: Key, i: nat, j: nat)
    requires RankMoves(dbs, k, i) && i <= j < |dbs| && k in dbs[i].parts
    ensures k in dbs[j].parts && Rank(dbs[j].parts[k].state) >= Rank(dbs[i].parts[k].state)
    decreases j
  {
    if i < j {
      RanksAlong(dbs, k, i, j - 1);
    }
  }

  lemma {:induction false} FinalAlong(dbs: seq<Db>, k: Key, i: nat, j: nat)
    requires PartMoves(dbs, k, i) && i <= j < |dbs| && k in dbs[i].parts && IsFinal(dbs[i].parts[k].state)
    ensures k in dbs[j].parts && dbs[j].parts[k].state == dbs[i].parts[k].state
    decreases j
  {
    if i < j {
      FinalAlong(dbs, k, i, j - 1);
    }
  }

  lemma RankNeverFalls(dbs: seq<Db>, steps: seq<Step>, k: Key, i: nat, j: nat)
    requires Run(dbs, steps) && i <= j < |dbs| && k in dbs[i].parts && NoRelapse(dbs, steps, k)
    ensures k in dbs[j].parts && Rank(dbs[j].parts[k].state) >= Rank(dbs[i].parts[k].state)
  {
    RunMoves(dbs, steps, k, i);
    RanksAlong(dbs, k, i, j);
  }

  lemma FinalNeverChanges(dbs: seq<Db>, steps: seq<Step>, k: Key, i: nat, j: nat)
    requires Run(dbs, steps) && i <= j < |dbs| && k in dbs[i].parts && IsFinal(dbs[i].parts[k].state)
    ensures k in dbs[j].parts && dbs[j].parts[k].state == dbs[i].parts[k].state
  {
    RunMoves(dbs, steps, k, i);
    FinalAlong(dbs, k, i, j);
  }

  // ---- the parts of one message ---------------------------------------------------------------------

  function Slots(mid: string, n: nat): (r: set<Key>)
    ensures forall k :: k in r <==> k.mid == mid && 1 <= k.no <= n
  {
    if n == 0 then {} else Slots(mid, n - 1) + {Key(mid, n)}
  }

  lemma {:induction false} SlotCount(mid: string, n: nat)
    ensures |Slots(mid, n)| == n
  {
    if n > 0 {
      SlotCount(mid, n - 1);
    }
  }

  lemma SubsetCount<T>(a: set<T>, b: set<T>)
    requires a <= b
    ensures |a| <= |b| && (|a| == |b| ==> a == b)
  {
    var rest := b - a;
    assert b == a + rest;
  }

  /** Part numbers are those the message declared. */
  ghost predicate InRange(parts: map<Key, Part>, mid: string, total: int) {
    forall k :: k in parts && k.mid == mid ==> 1 <= k.no <= total
  }

  /** Every declared part is there and in this kind of state. */
  ghost predicate Every(parts: map<Key, Part>, mid: string, total: int, kind: PartState -> bool) {
    forall n :: 1 <= n <= total ==> Key(mid, n) in parts && kind(parts[Key(mid, n)].state)
  }

  predicate IsConcluded(s: PartState) {
    s == Delivered || s == Unconfirmed
  }

  lemma InSlots(parts: map<Key, Part>, mid: string, total: nat, kind: PartState -> bool)
    requires InRange(parts, mid, total)
    ensures Of(parts, mid, kind) <= Slots(mid, total)
    ensures |Of(parts, mid, kind)| <= |Of(parts, mid, IsAny)| <= total
    ensures |Of(parts, mid, kind)| == total ==> Of(parts, mid, kind) == Slots(mid, total)
  {
    SlotCount(mid, total);
    SubsetCount(Of(parts, mid, kind), Of(parts, mid, IsAny));
    SubsetCount(Of(parts, mid, IsAny), Slots(mid, total));
    SubsetCount(Of(parts, mid, kind), Slots(mid, total));
  }

  lemma EveryFills(parts: map<Key, Part>, mid: string, total: nat, kind: PartState -> bool)
    requires InRange(parts, mid, total)
    ensures Every(parts, mid, total, kind) <==> Of(parts, mid, kind) == Slots(mid, total)
  {
    InSlots(parts, mid, total, kind);
    if Every(parts, mid, total, kind) {
      forall k | k in Slots(mid, total)
        ensures k in Of(parts, mid, kind)
      {
        assert k == Key(mid, k.no);
      }
    }
    if Of(parts, mid, kind) == Slots(mid, total) {
      forall n | 1 <= n <= total
        ensures Key(mid, n) in parts && kind(parts[Key(mid, n)].state)
      {
        assert Key(mid, n) in Slots(mid, total);
      }
    }
  }

  lemma EveryCounts(parts: map<Key, Part>, mid: string, total: nat, kind: PartState -> bool)
    requires InRange(parts, mid, total)
    ensures Every(parts, mid, total, kind) <==> |Of(parts, mid, kind)| == total
    ensures |Of(parts, mid, kind)| <= |Of(parts, mid, IsAny)| <= total
  {
    SlotCount(mid, total);
    InSlots(parts, mid, total, kind);
    EveryFills(parts, mid, total, kind);
  }

  lemma ConcludedCount(parts: map<Key, Part>, mid: string)
    ensures |Of(parts, mid, IsConcluded)| == |Of(parts, mid, IsDelivered)| + |Of(parts, mid, IsUnconfirmed)|
  {
    assert Of(parts, mid, IsConcluded) == Of(parts, mid, IsDelivered) + Of(parts, mid, IsUnconfirmed);
    assert Of(parts, mid, IsDelivered) !! Of(parts, mid, IsUnconfirmed);
  }

  // ---- the message state --------------------------------------------------------------------------------

  function Order(s: MessageState): nat {
    match s
    case MessagePending => 0
    case PartialAck => 1
    case MessageAcked => 2
    case MessageDeliveryPending => 3
    case MessageUnconfirmed => 4
    case MessageFailed => 5
    case MessageDelivered => 6
  }

  predicate IsReported(s: PartState) {
    Rank(s) >= 3
  }

  /** What in the parts bears a message state out, now and ever after. */
  ghost predicate Evidence(parts: map<Key, Part>, mid: string, total: int, s: MessageState) {
    match s
    case MessagePending | MessageFailed => true
    case PartialAck => Of(parts, mid, IsAcked) != {}
    case MessageAcked => Every(parts, mid, total, IsAcked)
    case MessageDeliveryPending => Of(parts, mid, IsReported) != {}
    case MessageUnconfirmed => Every(parts, mid, total, IsConcluded)
    case MessageDelivered => Every(parts, mid, total, IsDelivered)
  }

  lemma EvidenceOfDerived(parts: map<Key, Part>, mid: string, total: int)
    requires total > 0 && InRange(parts, mid, total)
    ensures Evidence(parts, mid, total, DerivedFrom(parts, mid, total))
  {
    match DerivedFrom(parts, mid, total)
    case MessagePending =>
    case MessageFailed =>
    case PartialAck =>
    case MessageAcked => EveryCounts(parts, mid, total, IsAcked);
    case MessageDeliveryPending => SomeReported(parts, mid);
    case MessageUnconfirmed =>
      ConcludedCount(parts, mid);
      EveryCounts(parts, mid, total, IsConcluded);
    case MessageDelivered => EveryCounts(parts, mid, total, IsDelivered);
  }

  lemma SomeReported(parts: map<Key, Part>, mid: string)
    ensures var some := Of(parts, mid, IsDelivered) + Of(parts, mid, IsDeliveryPending) + Of(parts, mid, IsUnconfirmed);
      some != {} ==> Of(parts, mid, IsReported) != {}
  {
    var some := Of(parts, mid, IsDelivered) + Of(parts, mid, IsDeliveryPending) + Of(parts, mid, IsUnconfirmed);
    if some != {} {
      var k :| k in some;
      assert k in Of(parts, mid, IsReported);
    }
  }

  lemma AllDeliveredIsDerived(parts: map<Key, Part>, mid: string, total: int)
    requires total > 0 && InRange(parts, mid, total) && Every(parts, mid, total, IsDelivered)
    ensures DerivedFrom(parts, mid, total) == MessageDelivered
  {
    EveryCounts(parts, mid, total, IsDelivered);
    forall k | k in parts && k.mid == mid
      ensures parts[k].state == Delivered
    {
      assert k == Key(mid, k.no);
    }
    assert Of(parts, mid, IsFailing) == {};
  }

  lemma ReportedIsCounted(parts: map<Key, Part>, mid: string)
    requires Of(parts, mid, IsReported) != {} && Of(parts, mid, IsFailing) == {}
    ensures |Of(parts, mid, IsDelivered)| > 0 || |Of(parts, mid, IsDeliveryPending)| > 0 || |Of(parts, mid, IsUnconfirmed)| > 0
  {
    var k :| k in Of(parts, mid, IsReported);
    assert k !in Of(parts, mid, IsFailing);
    assert k in Of(parts, mid, IsDelivered) || k in Of(parts, mid, IsDeliveryPending) || k in Of(parts, mid, IsUnconfirmed);
  }

  /** With the evidence of a state before the deadline of failure, the parts give that state or a later one. */
  lemma DerivedClimbs(parts: map<Key, Part>, mid: string, total: int, s: MessageState)
    requires total > 0 && InRange(parts, mid, total) && Evidence(parts, mid, total, s) && Order(s) < Order(MessageFailed)
    ensures Order(DerivedFrom(parts, mid, total)) >= Order(s)
  {
    if Of(parts, mid, IsFailing) == {} {
      match s
      case MessagePending =>
      case PartialAck =>
      case MessageAcked => EveryCounts(parts, mid, total, IsAcked);
      case MessageDeliveryPending => ReportedIsCounted(parts, mid);
      case MessageUnconfirmed =>
        EveryCounts(parts, mid, total, IsConcluded);
        ConcludedCount(parts, mid);
        assert Of(parts, mid, IsDeliveryPending) == {};
    }
  }

  lemma ForwardKeepsKinds(a: PartState, b: PartState)
    requires Forward(a, b)
    ensures IsAcked(a) ==> IsAcked(b)
    ensures IsReported(a) ==> IsReported(b)
    ensures IsConcluded(a) ==> IsConcluded(b)
    ensures IsDelivered(a) ==> IsDelivered(b)
  {
  }

  lemma KindStays(ps: map<Key, Part>, ps': map<Key, Part>, mid: string, total: int, kind: PartState -> bool)
    requires PartsForward(ps, ps') && forall a, b :: Forward(a, b) && kind(a) ==> kind(b)
    ensures Of(ps, mid, kind) <= Of(ps', mid, kind)
    ensures Every(ps, mid, total, kind) ==> Every(ps', mid, total, kind)
  {
  }

  lemma EvidenceStays(ps: map<Key, Part>, ps': map<Key, Part>, mid: string, total: int, s: MessageState)
    requires PartsForward(ps, ps') && Evidence(ps, mid, total, s)
    ensures Evidence(ps', mid, total, s)
  {
    forall a, b | Forward(a, b) {
      ForwardKeepsKinds(a, b);
    }
    match s
    case MessagePending | MessageFailed =>
    case PartialAck => KindStays(ps, ps', mid, total, IsAcked);
    case MessageAcked => KindStays(ps, ps', mid, total, IsAcked);
    case MessageDeliveryPending => KindStays(ps, ps', mid, total, IsReported);
    case MessageUnconfirmed => KindStays(ps, ps', mid, total, IsConcluded);
    case MessageDelivered => KindStays(ps, ps', mid, total, IsDelivered);
  }

  lemma AcksStay(ps: map<Key, Part>, ps': map<Key, Part>, mid: string)
    requires PartsForward(ps, ps')
    ensures |Of(ps, mid, IsAcked)| <= |Of(ps', mid, IsAcked)|
  {
    SubsetCount(Of(ps, mid, IsAcked), Of(ps', mid, IsAcked));
  }

  // ---- a message along a run ------------------------------------------------------------------------------

  ghost predicate Tracked(db: Db, mid: string) {
    && mid in db.messages && db.messages[mid].total > 0
    && InRange(db.parts, mid, db.messages[mid].total)
    && Evidence(db.parts, mid, db.messages[mid].total, db.messages[mid].state)
    && db.messages[mid].acks <= |Of(db.parts, mid, IsAcked)|
  }

  /** The step adds no part beyond those the message declared. */
  ghost predicate WithinDeclared(db: Db, s: Step, mid: string) {
    s.DoUpsert? && TrimSpace(s.i.mid) == mid && mid in db.messages ==> s.i.no <= db.messages[mid].total
  }

  ghost predicate Climbs(m: Message, m': Message) {
    m'.total == m.total && m'.acks >= m.acks && Order(m'.state) >= Order(m.state)
  }

  lemma SettledClimbs(was: MessageState, derived: MessageState)
    requires Order(was) < Order(MessageFailed) ==> Order(derived) >= Order(was)
    ensures Order(Settled(was, derived)) >= Order(was)
    ensures Settled(was, derived) == was || Settled(was, derived) == derived
  {
  }

  lemma MessageClimbs(parts: map<Key, Part>, mid: string, m: Message, at: int)
    requires m.total > 0 && InRange(parts, mid, m.total) && Evidence(parts, mid, m.total, m.state)
    requires m.acks <= |Of(parts, mid, IsAcked)|
    ensures var m' := Recomputed(parts, mid, m, at);
      Climbs(m, m') && Evidence(parts, mid, m.total, m'.state) && m'.acks == |Of(parts, mid, IsAcked)|
  {
    var derived := DerivedFrom(parts, mid, m.total);
    EvidenceOfDerived(parts, mid, m.total);
    if Order(m.state) < Order(MessageFailed) {
      DerivedClimbs(parts, mid, m.total, m.state);
    }
    SettledClimbs(m.state, derived);
  }

  lemma RecomputeClimbs(db: Db, messageId: string, at: int, mid: string)
    requires Tracked(db, mid)
    ensures var db' := Recompute(db, messageId, at); Tracked(db', mid) && Climbs(db.messages[mid], db'.messages[mid])
  {
    if TrimSpace(messageId) == mid {
      MessageClimbs(db.parts, mid, db.messages[mid], at);
    }
  }

  /** The same message over other parts. */
  lemma TrackedOver(db: Db, parts: map<Key, Part>, mid: string)
    requires Tracked(db, mid) && PartsForward(db.parts, parts) && InRange(parts, mid, db.messages[mid].total)
    ensures Tracked(db.(parts := parts), mid)
  {
    EvidenceStays(db.parts, parts, mid, db.messages[mid].total, db.messages[mid].state);
    AcksStay(db.parts, parts, mid);
  }

  lemma ReportClimbs(db: Db, k: Key, p: Part, at: int, mid: string)
    requires Tracked(db, mid) && k in db.parts && Forward(db.parts[k].state, p.state)
    ensures var db' := AfterReport(db, k, p, at); Tracked(db', mid) && Climbs(db.messages[mid], db'.messages[mid])
  {
    var parts := db.parts[k := p];
    TrackedOver(db, parts, mid);
    RecomputeClimbs(db.(parts := parts), k.mid, at, mid);
  }

  lemma UpsertClimbs(db: Db, i: UpsertInput, mid: string)
    requires Tracked(db, mid) && WithinDeclared(db, DoUpsert(i), mid)
    ensures var db' := Upsert(db, i).0; Tracked(db', mid) && Climbs(db.messages[mid], db'.messages[mid])
  {
    var parts := Upsert(db, i).0.parts;
    forall k | k in db.parts
      ensures k in parts && Forward(db.parts[k].state, parts[k].state)
    {
      MergedIsForward(db.parts[k].state, UpsertState(i.state));
    }
    TrackedOver(db, parts, mid);
  }

  lemma WithStatusIsForward(p: Part, r: StatusReport)
    requires !p.state.Unlisted?
    ensures Forward(p.state, WithStatus(p, r).state)
  {
  }

  lemma StatusIsReport(db: Db, r: StatusReport, about: Result<Key, ReportError>, db': Db)
    requires StatusReported(db, r, db', about) && db' != db
    ensures about.Ok? && about.value in db.parts
    ensures var p := WithStatus(db.parts[about.value], r);
      db' == AfterReport(db, about.value, p, r.at) && Forward(db.parts[about.value].state, p.state)
  {
    CandidateIn(db, r, about.value);
    WithStatusIsForward(db.parts[about.value], r);
  }

  lemma StatusClimbs(db: Db, r: StatusReport, about: Result<Key, ReportError>, db': Db, mid: string)
    requires StatusReported(db, r, db', about) && Tracked(db, mid)
    ensures Tracked(db', mid) && Climbs(db.messages[mid], db'.messages[mid])
  {
    if db' != db {
      StatusIsReport(db, r, about, db');
      ReportClimbs(db, about.value, WithStatus(db.parts[about.value], r), r.at, mid);
    }
  }

  lemma SubmitClimbs(db: Db, r: SubmitReport, about: Result<Key, ReportError>, db': Db, mid: string)
    requires SubmitReported(db, r, db', about) && Tracked(db, mid)
    ensures Tracked(db', mid) && Climbs(db.messages[mid], db'.messages[mid])
  {
    if about.Ok? {
      ReportClimbs(db, about.value, WithSubmit(db.parts[about.value], r), r.at, mid);
    }
  }

  lemma MessageStep(db: Db, s: Step, db': Db, mid: string)
    requires Next(db, s, db') && Tracked(db, mid) && WithinDeclared(db, s, mid)
    ensures Tracked(db', mid) && Climbs(db.messages[mid], db'.messages[mid])
  {
    match s
    case DoCreate(_, _, _, _, _, _) =>
    case DoUpsert(i) => UpsertClimbs(db, i, mid);
    case DoStatus(r, about) => StatusClimbs(db, r, about, db', mid);
    case DoSubmit(r, about) => SubmitClimbs(db, r, about, db', mid);
    case DoRecompute(messageId, at) => RecomputeClimbs(db, messageId, at, mid);
  }

  ghost predicate MessageMoves(dbs: seq<Db>, mid: string, i: nat, j: nat)
    requires j < |dbs|
  {
    forall n :: i <= n < j && Tracked(dbs[n], mid) ==>
      Tracked(dbs[n + 1], mid) && Climbs(dbs[n].messages[mid], dbs[n + 1].messages[mid])
  }

  lemma RunMovesMessage(dbs: seq<Db>, steps: seq<Step>, mid: string, i: nat, j: nat)
    requires Run(dbs, steps) && j < |dbs|
    requires forall k :: i <= k < j ==> WithinDeclared(dbs[k], steps[k], mid)
    ensures MessageMoves(dbs, mid, i, j)
  {
    forall n: nat | i <= n < j && Tracked(dbs[n], mid)
      ensures Tracked(dbs[n + 1], mid) && Climbs(dbs[n].messages[mid], dbs[n + 1].messages[mid])
    {
      MessageStep(dbs[n], steps[n], dbs[n + 1], mid);
    }
  }

  lemma {:induction false} TrackedAlong(dbs: seq<Db>, mid: string, i: nat, j: nat)
    requires i <= j < |dbs| && MessageMoves(dbs, mid, i, j) && Tracked(dbs[i], mid)
    ensures Tracked(dbs[j], mid) && Climbs(dbs[i].messages[mid], dbs[j].messages[mid])
    decreases j
  {
    if i < j {
      TrackedAlong(dbs, mid, i, j - 1);
    }
  }

  /** A message that declares its parts starts out tracked, whatever parts of it arrived before. */
  lemma CreatedIsTracked(db: Db, s: Step, db': Db)
    requires s.DoCreate? && Next(db, s, db') && s.total > 0 && InRange(db.parts, TrimSpace(s.mid), s.total)
    ensures Tracked(db', TrimSpace(s.mid))
  {
  }

  /**
   From its creation on, a message that declares its parts only climbs, its count of acknowledged
   parts never falls, failure gives way to delivery alone, and delivery is for good.
   */
  lemma MessagesOnlyClimb(dbs: seq<Db>, steps: seq<Step>, c: nat, i: nat, j: nat)
    requires Run(dbs, steps) && c < i <= j < |dbs| && steps[c].DoCreate? && steps[c].total > 0
    requires InRange(dbs[c].parts, TrimSpace(steps[c].mid), steps[c].total)
    requires forall k :: c < k < j ==> WithinDeclared(dbs[k], steps[k], TrimSpace(steps[c].mid))
    ensures var mid := TrimSpace(steps[c].mid);
      && mid in dbs[i].messages && mid in dbs[j].messages && Climbs(dbs[i].messages[mid], dbs[j].messages[mid])
      && (dbs[i].messages[mid].state == MessageFailed ==> dbs[j].messages[mid].state in {MessageFailed, MessageDelivered})
      && (dbs[i].messages[mid].state == MessageDelivered ==> dbs[j].messages[mid].state == MessageDelivered)
      && (dbs[j].messages[mid].state == MessageDelivered ==> Every(dbs[j].parts, mid, dbs[j].messages[mid].total, IsDelivered))
  {
    var mid := TrimSpace(steps[c].mid);
    CreatedIsTracked(dbs[c], steps[c], dbs[c + 1]);
    RunMovesMessage(dbs, steps, mid, c + 1, j);
    TrackedAlong(dbs, mid, c + 1, i);
    TrackedAlong(dbs, mid, i, j);
  }

  /** A recomputation reports delivery exactly when every declared part is delivered. */
  lemma DeliveredIffEveryPart(db: Db, mid: string, at: int)
    requires Tracked(db, mid) && TrimSpace(mid) == mid
    ensures Recompute(db, mid, at).messages[mid].state == MessageDelivered <==>
            Every(db.parts, mid, db.messages[mid].total, IsDelivered)
  {
    var m := db.messages[mid];
    EvidenceOfDerived(db.parts, mid, m.total);
    if Every(db.parts, mid, m.total, IsDelivered) {
      AllDeliveredIsDerived(db.parts, mid, m.total);
      assert Key(mid, 1) in Of(db.parts, mid, IsAny);
    }
  }

  // ---- recomputing twice, and recomputing without a declaration --------------------------------------------

  lemma RecomputedTwice(parts: map<Key, Part>, mid: string, m: Message, first: int, at: int)
    ensures Recomputed(parts, mid, Recomputed(parts, mid, m, first), at) == Recomputed(parts, mid, m, at)
  {
    var derived, error := DerivedFrom(parts, mid, m.total), PartError(parts, mid);
    TrimSpaceShape(m.lastError);
    if m.state == MessageFailed && derived != MessageDelivered && error == "" {
      assert ErrorShown(m, derived, error) == TrimSpace(m.lastError);
    }
  }

  /** Recomputing again, however much later, changes the time of the update and nothing else. */
  lemma RecomputeTwice(db: Db, mid: string, first: int, at: int)
    ensures var once := Recompute(db, mid, first); var again := Recompute(once, mid, at);
      && again == Recompute(db, mid, at)
      && again.parts == once.parts && again.history == once.history && again.messages.Keys == once.messages.Keys
      && forall k :: k in once.messages ==> again.messages[k] == once.messages[k].(updatedAt := again.messages[k].updatedAt)
  {
    var id := TrimSpace(mid);
    if id in db.messages && Of(db.parts, id, IsAny) != {} {
      RecomputedTwice(db.parts, id, db.messages[id], first, at);
    }
  }

  /** A new report, of a part not seen before, of nothing but its submission. */
  function Fresh(mid: string, no: int, at: int): UpsertInput {
    UpsertInput(mid, no, "", 0, "pending", at)
  }

  lemma AllAckedIsDerived(ps: map<Key, Part>, mid: string, declared: int)
    requires Of(ps, mid, IsAny) != {} && forall k :: k in Of(ps, mid, IsAny) ==> ps[k].state == Acked
    requires Expected(|Of(ps, mid, IsAny)|, declared) == |Of(ps, mid, IsAny)|
    ensures DerivedFrom(ps, mid, declared) == MessageAcked
  {
    OnlyAcked(ps, mid);
  }

  lemma OneMoreIsPartial(ps: map<Key, Part>, ps': map<Key, Part>, mid: string, key: Key, declared: int)
    requires Of(ps, mid, IsAny) != {} && forall k :: k in Of(ps, mid, IsAny) ==> ps[k].state == Acked
    requires Expected(|Of(ps, mid, IsAny)|, declared) == |Of(ps, mid, IsAny)|
    requires key !in ps && key.mid == mid && key in ps' && ps' == ps[key := ps'[key]] && ps'[key].state == Pending
    ensures DerivedFrom(ps', mid, declared) == PartialAck
  {
    OnlyAcked(ps, mid);
    OneMorePending(ps, ps', mid, key);
  }

  lemma FreshUpsert(db: Db, mid: string, no: int, at: int)
    requires Trimmed(mid) && mid != "" && no > 0 && Key(mid, no) !in db.parts
    ensures var db' := Upsert(db, Fresh(mid, no, at)).0; var key := Key(mid, no);
      && db'.messages == db.messages && key in db'.parts && db'.parts[key].state == Pending
      && db'.parts == db.parts[key := db'.parts[key]]
  {
    TrimmedIsFixed(mid);
    TrimmedIsFixed("pending");
  }

  /**
   The declaration is needed: whenever one more part can appear although the expected number are
   there and acked (nothing was declared, or the new number is out of range), the message falls back.
   */
  lemma UndeclaredFallsBack(db: Db, mid: string, no: int, at: int)
    requires Trimmed(mid) && mid != "" && no > 0 && mid in db.messages && Key(mid, no) !in db.parts
    requires db.messages[mid].state in {MessagePending, PartialAck, MessageAcked}
    requires Of(db.parts, mid, IsAny) != {} && forall k :: k in Of(db.parts, mid, IsAny) ==> db.parts[k].state == Acked
    requires Expected(|Of(db.parts, mid, IsAny)|, db.messages[mid].total) == |Of(db.parts, mid, IsAny)|
    ensures var before := Recompute(db, mid, at); var after := Recompute(Upsert(before, Fresh(mid, no, at)).0, mid, at);
      before.messages[mid].state == MessageAcked && after.messages[mid].state == PartialAck
  {
    TrimmedIsFixed(mid);
    var before := Recompute(db, mid, at);
    var more := Upsert(before, Fresh(mid, no, at)).0;
    AllAckedIsDerived(db.parts, mid, db.messages[mid].total);
    FreshUpsert(before, mid, no, at);
    OneMoreIsPartial(db.parts, more.parts, mid, Key(mid, no), db.messages[mid].total);
    assert Key(mid, no) in Of(more.parts, mid, IsAny);
  }

  lemma OnlyAcked(ps: map<Key, Part>, mid: string)
    requires forall k :: k in Of(ps, mid, IsAny) ==> ps[k].state == Acked
    ensures Of(ps, mid, IsAcked) == Of(ps, mid, IsAny)
    ensures Of(ps, mid, IsFailing) == Of(ps, mid, IsDelivered) == Of(ps, mid, IsDeliveryPending) == Of(ps, mid, IsUnconfirmed) == {}
  {
    forall k | k in ps && k.mid == mid
      ensures ps[k].state == Acked
    {
      assert k in Of(ps, mid, IsAny);
    }
  }

  lemma OneMorePending(ps: map<Key, Part>, ps': map<Key, Part>, mid: string, key: Key)
    requires key !in ps && key.mid == mid && key in ps' && ps' == ps[key := ps'[key]] && ps'[key].state == Pending
    ensures Of(ps', mid, IsAny) == Of(ps, mid, IsAny) + {key} && key !in Of(ps, mid, IsAny)
    ensures Of(ps', mid, IsAcked) == Of(ps, mid, IsAcked) && Of(ps', mid, IsFailing) == Of(ps, mid, IsFailing)
    ensures Of(ps', mid, IsDelivered) == Of(ps, mid, IsDelivered)
    ensures Of(ps', mid, IsDeliveryPending) == Of(ps, mid, IsDeliveryPending)
    ensures Of(ps', mid, IsUnconfirmed) == Of(ps, mid, IsUnconfirmed)
  {
  }

  // ---- the SMS history ------------------------------------------------------------------------------------

  /** After a report about a part, the history row of its message shows the message's state. */
  lemma HistoryFollows(db: Db, k: Key, p: Part, at: int)
    requires k.mid in db.messages && k.mid in db.history
    ensures var db' := AfterReport(db, k, p, at);
      k.mid in db'.messages && k.mid in db'.history && db'.history[k.mid] == HistoryStatus(db'.messages[k.mid].state)
    ensures forall mid :: mid in db.history && mid != k.mid ==>
              mid in AfterReport(db, k, p, at).history && AfterReport(db, k, p, at).history[mid] == db.history[mid]
  {
  }

  /** A delivered message shows as delivered in the history and as nothing else; so does a failed one, and one on its way. */
  lemma HistoryShowsDelivery(s: MessageState)
    ensures HistoryStatus(s) == 5 <==> s == MessageDelivered
    ensures HistoryStatus(s) == 3 <==> s == MessageFailed
    ensures HistoryStatus(s) == 2 <==> s in {MessageAcked, MessageDeliveryPending, MessageUnconfirmed}
    ensures HistoryStatus(s) == 4 <==> s in {MessagePending, PartialAck}
  {
  }

  // ---- recipients -------------------------------------------------------------------------------------------

  predicate IsDigit(c: char) {
    '0' <= c <= '9'
  }

  /** Digits only, but for a plus that may lead. */
  predicate IsNumber(s: string) {
    forall i :: 0 <= i < |s| ==> IsDigit(s[i]) || (s[i] == '+' && i == 0)
  }

  lemma {:induction false} CanonicalFromShape(v: string, i: nat)
    ensures var out := CanonicalFrom(v, i);
      out.Some? ==> if i == 0 then IsNumber(out.value) else forall c :: c in out.value ==> IsDigit(c)
    decreases |v| - i
  {
    if i < |v| {
      CanonicalFromShape(v, i + 1);
    }
  }

  lemma {:induction false} CanonicalFromNumber(v: string, i: nat)
    requires i <= |v| && IsNumber(v)
    ensures CanonicalFrom(v, i) == Some(v[i..])
    decreases |v| - i
  {
    if i < |v| {
      CanonicalFromNumber(v, i + 1);
      assert IsDigit(v[i]) || (v[i] == '+' && i == 0);
      assert CanonicalFrom(v, i) == Some([v[i]] + v[i + 1..]);
      assert v[i..] == [v[i]] + v[i + 1..];
    } else {
      assert v[i..] == "";
    }
  }

  /** A canonical recipient is a number, never a lone plus, and is its own canonical form. */
  lemma CanonicalShape(value: string)
    ensures var n := Canonical(value); IsNumber(n) && n != "+" && Canonical(n) == n
  {
    CanonicalFromShape(TrimSpace(value), 0);
    var n := Canonical(value);
    CanonicalFromNumber(n, 0);
    assert n[0..] == n;
    TrimmedIsFixed(n);
  }

  lemma {:induction false} SeparatorIgnored(v: string, k: nat, i: nat)
    requires 0 < k < |v| && v[k] in {' ', '-', '(', ')'} && i <= k
    ensures CanonicalFrom(v, i) == CanonicalFrom(v[..k] + v[k + 1..], i)
    decreases k - i
  {
    if i < k {
      SeparatorIgnored(v, k, i + 1);
    } else {
      Shifted(v, v[..k] + v[k + 1..], k + 1, k);
    }
  }

  lemma {:induction false} Shifted(v: string, w: string, i: nat, j: nat)
    requires 0 < i <= |v| && 0 < j <= |w| && v[i..] == w[j..]
    ensures CanonicalFrom(v, i) == CanonicalFrom(w, j)
    decreases |v| - i
  {
    assert |v| - i == |v[i..]| == |w[j..]| == |w| - j;
    if i < |v| {
      assert v[i] == v[i..][0] == w[j..][0] == w[j];
      assert v[i + 1..] == v[i..][1..] == w[j..][1..] == w[j + 1..];
      Shifted(v, w, i + 1, j + 1);
    }
  }
}
