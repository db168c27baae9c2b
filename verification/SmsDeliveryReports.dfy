/** What each report writes, and what the parts' own states make of a message, said without the program's counts. */
module SmsDeliveryReports {
  import opened Text
  import opened Wrappers
  import opened SmsDelivery
  import opened SmsDeliveryRuns

  // ---- state texts ---------------------------------------------------------------------------------

  /** How a part's state is written in the database. */
  function StateText(s: PartState): string {
    match s
    case Pending => "pending"
    case Failed => "failed"
    case Timeout => "timeout"
    case Acked => "acked"
    case DeliveryPending => "delivery_pending"
    case Unconfirmed => "delivery_unconfirmed"
    case Delivered => "delivered"
    case DeliveryFailed => "delivery_failed"
    case Unlisted(text) => text
  }

  /** Every text is read back as it was written, and every listed state is written as its own text. */
  lemma StatesRoundTrip(text: string, s: PartState)
    ensures StateText(PartStateOf(text)) == text
    ensures !s.Unlisted? ==> PartStateOf(StateText(s)) == s
  {
    assert |"pending"| == 7 && |"failed"| == 6 && |"timeout"| == 7 && |"acked"| == 5 && |"delivery_pending"| == 16;
    assert |"delivery_unconfirmed"| == 20 && |"delivered"| == 9 && |"delivery_failed"| == 15;
    assert "pending"[0] != "timeout"[0];
  }

  // ---- submissions -----------------------------------------------------------------------------------

  /** Whether a submission's state takes the place of the stored one: never of a delivery report's, and no step back. */
  predicate TakesOver(was: PartState, next: PartState) {
    || was == Pending || was.Unlisted?
    || ((was == Failed || was == Timeout) && next != Pending)
  }

  /** A part is written under its message and number: as new, or over the stored one as far as that may change. */
  lemma UpsertWrites(db: Db, i: UpsertInput)
    ensures var (db', ok) := Upsert(db, i); var key := Key(TrimSpace(i.mid), i.no);
      var next := if TrimSpace(i.state) == "" then Pending else PartStateOf(TrimSpace(i.state));
      && (ok <==> TrimSpace(i.mid) != "" && i.no > 0)
      && db'.messages == db.messages && db'.history == db.history
      && (!ok ==> db' == db) && db'.nextId == (if ok && key !in db.parts then db.nextId + 1 else db.nextId)
      && (ok && key !in db.parts ==>
            db'.parts == db.parts[key := Part(db.nextId, TrimSpace(i.callId), "", i.rpMR, next, 0, 0, "", i.sentAt, None,
                                              i.sentAt, i.sentAt)])
      && (ok && key in db.parts ==>
            db'.parts == db.parts[key := db.parts[key].(
              callId := TrimSpace(i.callId), rpMR := i.rpMR, sentAt := i.sentAt, updatedAt := i.sentAt,
              state := if TakesOver(db.parts[key].state, next) then next else db.parts[key].state)])
  {
  }

  /** A part found by the call that a report answers. */
  predicate CalledBy(db: Db, k: Key, callId: string, deviceId: string) {
    && k in db.parts && callId != "" && db.parts[k].callId == callId
    && (deviceId != "" ==> k.mid in db.messages && db.messages[k.mid].deviceId == deviceId)
  }

  /** A part found by the reference number, in a listed state and not older than two minutes. */
  predicate ReferredBy(db: Db, k: Key, r: SubmitReport) {
    && k in db.parts && r.rpMR >= 0 && db.parts[k].rpMR == r.rpMR && db.parts[k].createdAt >= r.at - 120
    && !db.parts[k].state.Unlisted?
    && (TrimSpace(r.deviceId) != "" ==> k.mid in db.messages && db.messages[k.mid].deviceId == TrimSpace(r.deviceId))
  }

  /** Nothing in the calls found is newer. */
  ghost predicate NewestCall(db: Db, k: Key, callId: string, deviceId: string) {
    && CalledBy(db, k, callId, deviceId)
    && forall j | CalledBy(db, j, callId, deviceId) :: db.parts[j].createdAt <= db.parts[k].createdAt
  }

  /** Which part a submission report is about: by the call it answers, else by its own call, else by a reference of one part. */
  lemma ReportIsAbout(db: Db, r: SubmitReport, db': Db, result: Result<Key, ReportError>)
    requires SubmitReported(db, r, db', result)
    ensures var reply, call, device := TrimSpace(r.inReplyTo), TrimSpace(r.callId), TrimSpace(r.deviceId);
      if SomeCall(db, reply, device) then result.Ok? && NewestCall(db, result.value, reply, device)
      else if SomeCall(db, call, device) then result.Ok? && NewestCall(db, result.value, call, device)
      else
        && (result == Err(NotFound) <==> forall k :: !ReferredBy(db, k, r))
        && (result.Ok? <==> OneReferred(db, r)) && (result.Ok? ==> ReferredBy(db, result.value, r))
  {
    CallsAre(db, r.inReplyTo, r.deviceId);
    CallsAre(db, r.callId, r.deviceId);
    if !SomeCall(db, TrimSpace(r.inReplyTo), TrimSpace(r.deviceId)) && !SomeCall(db, TrimSpace(r.callId), TrimSpace(r.deviceId)) {
      ReferenceDecides(db, r, result);
    }
  }

  lemma ReferenceDecides(db: Db, r: SubmitReport, result: Result<Key, ReportError>)
    requires Correlates(db, r, result)
    requires WithCallId(db, r.inReplyTo, r.deviceId) == {} && WithCallId(db, r.callId, r.deviceId) == {}
    ensures result == Err(NotFound) <==> forall k :: !ReferredBy(db, k, r)
    ensures (result.Ok? <==> OneReferred(db, r)) && (result.Ok? ==> ReferredBy(db, result.value, r))
  {
    ReferencesAre(db, r);
    if result.Ok? {
      assert result.value in WithReference(db, r);
    }
  }

  ghost predicate SomeCall(db: Db, callId: string, deviceId: string) {
    exists k :: CalledBy(db, k, callId, deviceId)
  }

  ghost predicate OneReferred(db: Db, r: SubmitReport) {
    exists k :: ReferredBy(db, k, r) && forall j :: ReferredBy(db, j, r) ==> j == k
  }

  lemma SingleIff(ks: set<Key>)
    ensures |ks| == 1 <==> exists k :: k in ks && forall j :: j in ks ==> j == k
  {
    if |ks| == 1 {
      var k :| k in ks;
      assert |ks - {k}| == 0;
      assert forall j :: j in ks ==> j == k || j in ks - {k};
    }
    if k :| k in ks && forall j :: j in ks ==> j == k {
      assert ks == {k};
    }
  }

  lemma CallsAre(db: Db, callId: string, deviceId: string)
    ensures forall k :: k in WithCallId(db, callId, deviceId) <==> CalledBy(db, k, TrimSpace(callId), TrimSpace(deviceId))
    ensures WithCallId(db, callId, deviceId) != {} <==> SomeCall(db, TrimSpace(callId), TrimSpace(deviceId))
    ensures forall k :: IsNewest(db, WithCallId(db, callId, deviceId), k) ==>
              NewestCall(db, k, TrimSpace(callId), TrimSpace(deviceId))
  {
    assert forall k :: k in WithCallId(db, callId, deviceId) <==> CalledBy(db, k, TrimSpace(callId), TrimSpace(deviceId));
  }

  lemma ReferencesAre(db: Db, r: SubmitReport)
    ensures forall k :: k in WithReference(db, r) <==> ReferredBy(db, k, r)
    ensures |WithReference(db, r)| == 1 <==> OneReferred(db, r)
  {
    assert forall k :: k in WithReference(db, r) <==> ReferredBy(db, k, r);
    SingleIff(WithReference(db, r));
  }

  /** What a report of a submission writes into the pending part it is about, and into nothing else. */
  lemma SubmitFills(db: Db, r: SubmitReport, db': Db, k: Key)
    requires SubmitReported(db, r, db', Ok(k))
    ensures k in db.parts && k in db'.parts
    ensures db.parts[k].state != Pending ==> db'.parts == db.parts
    ensures db.parts[k].state == Pending ==>
              var p := db'.parts[k];
              && db'.parts == db.parts[k := p]
              && StateText(p.state) == (if TrimSpace(r.state) == "" then "failed" else TrimSpace(r.state))
              && (TrimSpace(r.state) == "acked" ==> p.state == Acked)
              && (TrimSpace(r.state) == "failed" || TrimSpace(r.state) == "" ==> p.state == Failed)
              && p.inReplyTo == TrimSpace(r.inReplyTo) && p.sipCode == r.sipCode && p.rpCause == r.rpCause
              && p.errorText == TrimSpace(r.errorText) && p.reportAt == Some(r.at) && p.updatedAt == r.at
              && p.id == db.parts[k].id && p.callId == db.parts[k].callId && p.rpMR == db.parts[k].rpMR
              && p.sentAt == db.parts[k].sentAt && p.createdAt == db.parts[k].createdAt
  {
    ReportedParts(db, k, WithSubmit(db.parts[k], r), r.at);
    StatesRoundTrip(TrimSpace(r.state), Failed);
    StatesRoundTrip("acked", Acked);
    assert db.parts[k := db.parts[k]] == db.parts;
  }

  // ---- delivery reports --------------------------------------------------------------------------------

  /** The parts a delivery report can be about: of its subscriber, device and recipient, with its reference, a week old at most. */
  predicate StatusAbout(db: Db, k: Key, r: StatusReport) {
    && k in db.parts && k.mid in db.messages
    && db.messages[k.mid].imsi == TrimSpace(r.imsi) && db.messages[k.mid].deviceId == TrimSpace(r.deviceId)
    && db.parts[k].rpMR == r.tpMR && db.parts[k].createdAt >= r.at - 604_800 && !db.parts[k].state.Unlisted?
    && Canonical(db.messages[k.mid].peer) == Canonical(r.recipient)
  }

  /** What a delivery report says of the part; what it does not know counts as unconfirmed. */
  function ReportedState(text: string): PartState {
    var t := ToLower(TrimSpace(text));
    if t == "delivered" then Delivered
    else if t == "delivery_pending" then DeliveryPending
    else if t == "delivery_failed" then DeliveryFailed
    else Unconfirmed
  }

  lemma BoundedIs(text: string)
    ensures BoundedReportState(text) == ReportedState(text)
  {
    var t := ToLower(TrimSpace(text));
    StatesRoundTrip(t, Delivered);
    StatesRoundTrip(t, DeliveryPending);
    StatesRoundTrip(t, DeliveryFailed);
  }

  /** A well-formed delivery report moves the one part it can be about, unless that one is final; otherwise it changes nothing. */
  lemma StatusFills(db: Db, r: StatusReport, db': Db, result: Result<Key, ReportError>)
    requires StatusReported(db, r, db', result)
    ensures result.Ok? <==>
            && TrimSpace(r.imsi) != "" && TrimSpace(r.deviceId) != "" && Canonical(r.recipient) != "" && 0 <= r.tpMR <= 255
            && OneAbout(db, r)
    ensures result.Err? ==> db' == db
    ensures result.Ok? ==>
              var k := result.value; var p := db.parts[k];
              && StatusAbout(db, k, r)
              && db'.parts == db.parts[k :=
                   if p.state in {Delivered, DeliveryFailed, Unconfirmed} then p
                   else p.(state := ReportedState(r.state), reportAt := Some(r.at), updatedAt := r.at)]
  {
    CandidatesAre(db, r);
    if result.Ok? {
      StatusMoves(db, r, db', result.value);
    }
  }

  ghost predicate OneAbout(db: Db, r: StatusReport) {
    exists k :: StatusAbout(db, k, r) && forall j :: StatusAbout(db, j, r) ==> j == k
  }

  lemma StatusMoves(db: Db, r: StatusReport, db': Db, k: Key)
    requires StatusReported(db, r, db', Ok(k))
    ensures StatusAbout(db, k, r)
    ensures var p := db.parts[k];
      db'.parts == db.parts[k := if p.state in {Delivered, DeliveryFailed, Unconfirmed} then p
                                 else p.(state := ReportedState(r.state), reportAt := Some(r.at), updatedAt := r.at)]
  {
    BoundedIs(r.state);
    assert k in StatusCandidates(db, r);
    ReportedParts(db, k, WithStatus(db.parts[k], r), r.at);
  }

  lemma CandidatesAre(db: Db, r: StatusReport)
    ensures forall k :: k in StatusCandidates(db, r) <==> StatusAbout(db, k, r)
    ensures |StatusCandidates(db, r)| == 1 <==> OneAbout(db, r)
  {
    assert forall k :: k in StatusCandidates(db, r) <==> StatusAbout(db, k, r);
    SingleIff(StatusCandidates(db, r));
  }

  /** A number stands for itself, and text with anything else in it for nobody. */
  lemma CanonicalIs(v: string)
    ensures IsNumber(v) && v != "+" ==> Canonical(v) == v
    ensures (exists i :: 0 <= i < |TrimSpace(v)| && !IsDigit(TrimSpace(v)[i]) && TrimSpace(v)[i] !in {' ', '-', '(', ')', '+'}) ==>
              Canonical(v) == ""
  {
    if IsNumber(v) && v != "+" {
      TrimmedIsFixed(v);
      CanonicalFromNumber(v, 0);
      assert v[0..] == v;
    }
    var t := TrimSpace(v);
    if i :| 0 <= i < |t| && !IsDigit(t[i]) && t[i] !in {' ', '-', '(', ')', '+'} {
      ForeignCharacter(t, i, 0);
    }
  }

  lemma {:induction false} ForeignCharacter(v: string, at: nat, i: nat)
    requires i <= at < |v| && !IsDigit(v[at]) && v[at] !in {' ', '-', '(', ')', '+'}
    ensures CanonicalFrom(v, i) == None
    decreases at - i
  {
    if i < at {
      ForeignCharacter(v, at, i + 1);
    }
  }

  // ---- what the parts say ------------------------------------------------------------------------------

  /** Some declared part is in one of these states. */
  ghost predicate SomePart(parts: map<Key, Part>, mid: string, total: int, states: set<PartState>) {
    exists n :: 1 <= n <= total && Key(mid, n) in parts && parts[Key(mid, n)].state in states
  }

  ghost predicate EveryPart(parts: map<Key, Part>, mid: string, total: int, states: set<PartState>) {
    forall n :: 1 <= n <= total ==> Key(mid, n) in parts && parts[Key(mid, n)].state in states
  }

  /** The state of a message from the states of its declared parts: a failure shows first, then the worst of the reports. */
  ghost function Shown(parts: map<Key, Part>, mid: string, total: int): MessageState {
    if SomePart(parts, mid, total, {Failed, Timeout, DeliveryFailed}) then MessageFailed
    else if EveryPart(parts, mid, total, {Delivered}) then MessageDelivered
    else if EveryPart(parts, mid, total, {Delivered, Unconfirmed}) then MessageUnconfirmed
    else if SomePart(parts, mid, total, {Delivered, DeliveryPending, Unconfirmed}) then MessageDeliveryPending
    else if EveryPart(parts, mid, total, {Acked}) then MessageAcked
    else if SomePart(parts, mid, total, {Acked}) then PartialAck
    else MessagePending
  }

  lemma SomeCounts(parts: map<Key, Part>, mid: string, total: nat, kind: PartState -> bool, states: set<PartState>)
    requires InRange(parts, mid, total) && forall s :: kind(s) <==> s in states
    ensures SomePart(parts, mid, total, states) <==> |Of(parts, mid, kind)| > 0
  {
    if |Of(parts, mid, kind)| > 0 {
      var k :| k in Of(parts, mid, kind);
      assert k == Key(mid, k.no);
    }
    if n :| 1 <= n <= total && Key(mid, n) in parts && parts[Key(mid, n)].state in states {
      assert Key(mid, n) in Of(parts, mid, kind);
    }
  }

  lemma EveryIs(parts: map<Key, Part>, mid: string, total: nat, kind: PartState -> bool, states: set<PartState>)
    requires InRange(parts, mid, total) && forall s :: kind(s) <==> s in states
    ensures EveryPart(parts, mid, total, states) <==> |Of(parts, mid, kind)| == total
    ensures |Of(parts, mid, kind)| <= |Of(parts, mid, IsAny)| <= total
  {
    EveryCounts(parts, mid, total, kind);
  }

  lemma AckedCount(parts: map<Key, Part>, mid: string, total: nat)
    requires InRange(parts, mid, total)
    requires |Of(parts, mid, IsFailing)| == |Of(parts, mid, IsDelivered)| == |Of(parts, mid, IsDeliveryPending)| == 0
    requires |Of(parts, mid, IsUnconfirmed)| == 0
    ensures EveryPart(parts, mid, total, {Acked}) <==> |Of(parts, mid, IsAcked)| == total
    ensures SomePart(parts, mid, total, {Acked}) <==> |Of(parts, mid, IsAcked)| > 0
  {
    var only := (s: PartState) => s == Acked;
    forall k | k in Of(parts, mid, IsAcked)
      ensures k in Of(parts, mid, only)
    {
      assert k !in Of(parts, mid, IsFailing) && k !in Of(parts, mid, IsDelivered);
      assert k !in Of(parts, mid, IsDeliveryPending) && k !in Of(parts, mid, IsUnconfirmed);
    }
    assert Of(parts, mid, IsAcked) == Of(parts, mid, only);
    EveryIs(parts, mid, total, only, {Acked});
    SomeCounts(parts, mid, total, only, {Acked});
  }

  /** The state counted from the database is the one the parts show. */
  lemma DerivedIsShown(parts: map<Key, Part>, mid: string, total: int)
    requires total > 0 && InRange(parts, mid, total)
    ensures DerivedFrom(parts, mid, total) == Shown(parts, mid, total)
  {
    SomeCounts(parts, mid, total, IsFailing, {Failed, Timeout, DeliveryFailed});
    EveryIs(parts, mid, total, IsDelivered, {Delivered});
    EveryIs(parts, mid, total, IsConcluded, {Delivered, Unconfirmed});
    ConcludedCount(parts, mid);
    ReportedCount(parts, mid, total);
    if |Of(parts, mid, IsFailing)| == |Of(parts, mid, IsDelivered)| == |Of(parts, mid, IsDeliveryPending)| == 0
       && |Of(parts, mid, IsUnconfirmed)| == 0 {
      AckedCount(parts, mid, total);
    }
    NoPendingIfConcluded(parts, mid, total);
    EveryCounts(parts, mid, total, IsAcked);
  }

  lemma ReportedCount(parts: map<Key, Part>, mid: string, total: nat)
    requires InRange(parts, mid, total)
    ensures SomePart(parts, mid, total, {Delivered, DeliveryPending, Unconfirmed}) <==>
            |Of(parts, mid, IsDelivered)| > 0 || |Of(parts, mid, IsDeliveryPending)| > 0 || |Of(parts, mid, IsUnconfirmed)| > 0
  {
    SomeCounts(parts, mid, total, IsDelivered, {Delivered});
    SomeCounts(parts, mid, total, IsDeliveryPending, {DeliveryPending});
    SomeCounts(parts, mid, total, IsUnconfirmed, {Unconfirmed});
  }

  lemma NoPendingIfConcluded(parts: map<Key, Part>, mid: string, total: nat)
    requires InRange(parts, mid, total)
    ensures |Of(parts, mid, IsConcluded)| == total ==> |Of(parts, mid, IsDeliveryPending)| == 0
  {
    EveryCounts(parts, mid, total, IsConcluded);
    if Every(parts, mid, total, IsConcluded) {
      assert forall k :: k in parts && k.mid == mid ==> k == Key(mid, k.no);
      assert Of(parts, mid, IsDeliveryPending) == {};
    }
  }

  // ---- the message row -----------------------------------------------------------------------------------

  /** The parts of the message that were acknowledged, by whatever they have come to since. */
  ghost function AcknowledgedParts(parts: map<Key, Part>, mid: string): set<Key> {
    set k | k in parts && k.mid == mid && parts[k].state in {Acked, DeliveryPending, Unconfirmed, Delivered, DeliveryFailed}
  }

  /**
   What recomputing writes: the state the parts show, except that failure yields to delivery alone and
   delivery to nothing; the number of acknowledged parts; and the error of a part that failed last.
   */
  lemma RecomputeWrites(db: Db, mid: string, at: int)
    requires Trimmed(mid) && mid in db.messages && db.messages[mid].total > 0 && InRange(db.parts, mid, db.messages[mid].total)
    ensures Of(db.parts, mid, IsAny) == {} ==> Recompute(db, mid, at) == db
    ensures Of(db.parts, mid, IsAny) != {} ==>
              var m, m' := db.messages[mid], Recompute(db, mid, at).messages[mid]; var shown := Shown(db.parts, mid, m.total);
              && Recompute(db, mid, at) == db.(messages := db.messages[mid := m'])
              && m' == m.(acks := |AcknowledgedParts(db.parts, mid)|, updatedAt := at, lastError := m'.lastError,
                          state := if m.state == MessageDelivered || (m.state == MessageFailed && shown != MessageDelivered)
                                   then m.state else shown)
              && (m.state == MessageDelivered ==> m'.lastError == "")
  {
    TrimmedIsFixed(mid);
    DerivedIsShown(db.parts, mid, db.messages[mid].total);
    assert AcknowledgedParts(db.parts, mid) == Of(db.parts, mid, IsAcked);
  }

  /** A part of the message that failed, after which no other was touched. */
  ghost predicate FailedLast(parts: map<Key, Part>, mid: string, k: Key) {
    && k in parts && k.mid == mid && parts[k].state in {Failed, Timeout, DeliveryFailed}
    && forall j | j in parts && j.mid == mid && parts[j].state in {Failed, Timeout, DeliveryFailed} ::
         parts[j].updatedAt < parts[k].updatedAt || (parts[j].updatedAt == parts[k].updatedAt && parts[k].id <= parts[j].id)
  }

  /** The error shown is that of the part that failed last; a failed message keeps its own if that part gave none. */
  lemma ErrorIsOfLastFailure(db: Db, mid: string, at: int, k: Key)
    requires Trimmed(mid) && mid in db.messages && db.messages[mid].state != MessageDelivered && FailedLast(db.parts, mid, k)
    requires forall j :: FailedLast(db.parts, mid, j) ==> j == k
    ensures var error := TrimSpace(db.parts[k].errorText); var m := db.messages[mid];
      Recompute(db, mid, at).messages[mid].lastError ==
        if error != "" || m.state != MessageFailed then error else TrimSpace(m.lastError)
  {
    TrimmedIsFixed(mid);
    assert k in Of(db.parts, mid, IsAny);
    assert forall j :: IsLatestFailing(db.parts, mid, j) <==> FailedLast(db.parts, mid, j);
    FailingHidesDelivery(db.parts, mid, k, db.messages[mid].total);
  }

  lemma FailingHidesDelivery(parts: map<Key, Part>, mid: string, k: Key, declared: int)
    requires FailedLast(parts, mid, k)
    ensures DerivedFrom(parts, mid, declared) == MessageFailed
  {
    assert k in Of(parts, mid, IsFailing);
  }

  // ---- acknowledgements, end to end ---------------------------------------------------------------------------

  /** The parts given are acknowledged, the other declared ones still pending, and the message has only heard of that. */
  ghost predicate AckedSoFar(db: Db, mid: string, got: set<int>) {
    && mid in db.messages && db.messages[mid].total > 0 && InRange(db.parts, mid, db.messages[mid].total)
    && db.messages[mid].state in {MessagePending, PartialAck, MessageAcked}
    && forall n :: 1 <= n <= db.messages[mid].total ==>
         Key(mid, n) in db.parts && db.parts[Key(mid, n)].state == if n in got then Acked else Pending
  }

  /** Runs of reports that each acknowledge the next part in some order. */
  ghost predicate AckRun(dbs: seq<Db>, reports: seq<SubmitReport>, mid: string, order: seq<int>) {
    && |dbs| == |reports| + 1 && |order| == |reports|
    && forall k :: 0 <= k < |reports| ==>
         TrimSpace(reports[k].state) == "acked" && SubmitReported(dbs[k], reports[k], dbs[k + 1], Ok(Key(mid, order[k])))
  }

  lemma OneAck(db: Db, r: SubmitReport, db': Db, mid: string, n: int, got: set<int>)
    requires Trimmed(mid) && AckedSoFar(db, mid, got) && SubmitReported(db, r, db', Ok(Key(mid, n)))
    requires TrimSpace(r.state) == "acked" && n !in got
    ensures AckedSoFar(db', mid, got + {n}) && db'.messages[mid].total == db.messages[mid].total
    ensures mid in db.history ==> mid in db'.history
    ensures Covers(got + {n}, db.messages[mid].total) ==>
              db'.messages[mid].state == MessageAcked && (mid in db.history ==> db'.history[mid] == 2)
  {
    var k := Key(mid, n);
    SubmitFills(db, r, db', k);
    AckedReport(db, r, db', k);
    AckRecomputes(db.(parts := db'.parts), mid, r.at, n, got + {n});
  }

  ghost predicate Covers(got: set<int>, total: int) {
    forall i :: 1 <= i <= total ==> i in got
  }

  lemma AckRecomputes(db: Db, mid: string, at: int, n: int, got: set<int>)
    requires Trimmed(mid) && AckedSoFar(db, mid, got) && n in got && 1 <= n <= db.messages[mid].total
    ensures var m, m' := db.messages[mid], Recompute(db, mid, at).messages[mid];
      && Recompute(db, mid, at) == db.(messages := db.messages[mid := m']) && m'.total == m.total
      && m'.state == if Covers(got, m.total) then MessageAcked else PartialAck
  {
    AckShows(db.parts, mid, db.messages[mid].total, got, n);
    assert Key(mid, n) in Of(db.parts, mid, IsAny);
    RecomputeWrites(db, mid, at);
  }

  lemma AckedReport(db: Db, r: SubmitReport, db': Db, k: Key)
    requires SubmitReported(db, r, db', Ok(k))
    ensures db' == SyncHistory(Recompute(db.(parts := db'.parts), k.mid, r.at), k.mid)
  {
    ReportedParts(db, k, WithSubmit(db.parts[k], r), r.at);
  }

  lemma AckShows(parts: map<Key, Part>, mid: string, total: int, got: set<int>, n: int)
    requires n in got && 1 <= n <= total
    requires forall i :: 1 <= i <= total ==> Key(mid, i) in parts && parts[Key(mid, i)].state == if i in got then Acked else Pending
    ensures Shown(parts, mid, total) == if Covers(got, total) then MessageAcked else PartialAck
  {
    assert Key(mid, n) in parts && parts[Key(mid, n)].state == Acked;
    assert !EveryPart(parts, mid, total, {Delivered}) && !EveryPart(parts, mid, total, {Delivered, Unconfirmed});
    assert SomePart(parts, mid, total, {Acked});
    if i :| 1 <= i <= total && i !in got {
      assert parts[Key(mid, i)].state == Pending;
    }
  }

  function Numbers(order: seq<int>): set<int> {
    set i | i in order
  }

  lemma {:induction false} AcksAlong(dbs: seq<Db>, reports: seq<SubmitReport>, mid: string, order: seq<int>, k: nat)
    requires AckRun(dbs, reports, mid, order) && Trimmed(mid) && AckedSoFar(dbs[0], mid, {}) && k < |dbs|
    requires forall i, j :: 0 <= i < j < |order| ==> order[i] != order[j]
    ensures AckedSoFar(dbs[k], mid, Numbers(order[..k])) && dbs[k].messages[mid].total == dbs[0].messages[mid].total
    ensures mid in dbs[0].history ==> mid in dbs[k].history
  {
    if k == 0 {
      assert Numbers(order[..0]) == {};
    } else {
      AcksAlong(dbs, reports, mid, order, k - 1);
      AckAt(dbs, reports, mid, order, k - 1);
    }
  }

  lemma AckAt(dbs: seq<Db>, reports: seq<SubmitReport>, mid: string, order: seq<int>, k: nat)
    requires AckRun(dbs, reports, mid, order) && Trimmed(mid) && k < |order|
    requires AckedSoFar(dbs[k], mid, Numbers(order[..k]))
    requires forall i, j :: 0 <= i < j < |order| ==> order[i] != order[j]
    ensures var db, db', got := dbs[k], dbs[k + 1], Numbers(order[..k + 1]);
      && AckedSoFar(db', mid, got) && db'.messages[mid].total == db.messages[mid].total
      && (mid in db.history ==> mid in db'.history)
      && (Covers(got, db.messages[mid].total) ==>
            db'.messages[mid].state == MessageAcked && (mid in db.history ==> db'.history[mid] == 2))
  {
    assert order[..k + 1] == order[..k] + [order[k]];
    assert Numbers(order[..k + 1]) == Numbers(order[..k]) + {order[k]};
    OneAck(dbs[k], reports[k], dbs[k + 1], mid, order[k], Numbers(order[..k]));
  }

  /**
   Once reports have acknowledged every declared part of a new message, each part once and in any
   order, the message is acknowledged and the history says so.
   */
  lemma AllAcked(dbs: seq<Db>, reports: seq<SubmitReport>, mid: string, order: seq<int>)
    requires AckRun(dbs, reports, mid, order) && Trimmed(mid) && AckedSoFar(dbs[0], mid, {}) && order != []
    requires forall i, j :: 0 <= i < j < |order| ==> order[i] != order[j]
    requires forall n :: 1 <= n <= dbs[0].messages[mid].total ==> n in order
    ensures var db := dbs[|reports|];
      && mid in db.messages && db.messages[mid].state == MessageAcked
      && (mid in dbs[0].history ==> mid in db.history && db.history[mid] == 2)
  {
    var k := |order| - 1;
    AcksAlong(dbs, reports, mid, order, k);
    AckAt(dbs, reports, mid, order, k);
    assert order[..k + 1] == order;
  }
}
