/** Tracking an outgoing message: the state of each part, and the state of the message they add up to. */
module SmsDelivery {
  import opened Text
  import opened Wrappers

  datatype PartState =
    | Pending | Failed | Timeout | Acked | DeliveryPending | Unconfirmed | Delivered | DeliveryFailed
    | Unlisted(text: string)

  datatype MessageState =
    | MessagePending | PartialAck | MessageAcked | MessageDeliveryPending | MessageUnconfirmed | MessageFailed
    | MessageDelivered

  datatype Key = Key(mid: string, no: int)

  datatype Part = Part(
    id: nat, callId: string, inReplyTo: string, rpMR: int, state: PartState, sipCode: int, rpCause: int,
    errorText: string, sentAt: int, reportAt: Option<int>, createdAt: int, updatedAt: int)

  datatype Message = Message(
    imsi: string, deviceId: string, peer: string, total: int, acks: nat, state: MessageState, lastError: string,
    updatedAt: int)

  /** `history` holds the status of the outgoing rows of the SMS table, by message id. */
  datatype Db = Db(parts: map<Key, Part>, messages: map<string, Message>, history: map<string, int>, nextId: nat)

  datatype ReportError = NotFound | Ambiguous

  const SECONDS_PER_WEEK := 7 * 24 * 3600
  const RP_WINDOW_SECONDS := 120

  // ---- states -----------------------------------------------------------------------------------

  function PartStateOf(text: string): PartState {
    if text == "pending" then Pending
    else if text == "failed" then Failed
    else if text == "timeout" then Timeout
    else if text == "acked" then Acked
    else if text == "delivery_pending" then DeliveryPending
    else if text == "delivery_unconfirmed" then Unconfirmed
    else if text == "delivered" then Delivered
    else if text == "delivery_failed" then DeliveryFailed
    else Unlisted(text)
  }

  /** What a status report may say about a part; anything else counts as unconfirmed. */
  function BoundedReportState(text: string): PartState {
    var s := PartStateOf(ToLower(TrimSpace(text)));
    if s == Delivered || s == DeliveryPending || s == DeliveryFailed then s else Unconfirmed
  }

  predicate IsFinal(s: PartState) {
    s == Delivered || s == DeliveryFailed || s == Unconfirmed
  }

  /** How far a part has come. */
  function Rank(s: PartState): nat {
    match s
    case Pending | Unlisted(_) => 0
    case Failed | Timeout => 1
    case Acked => 2
    case DeliveryPending => 3
    case Unconfirmed | Delivered | DeliveryFailed => 4
  }

  predicate IsAny(s: PartState) {
    true
  }

  predicate IsAcked(s: PartState) {
    s == Acked || s == DeliveryPending || s == Unconfirmed || s == Delivered || s == DeliveryFailed
  }

  predicate IsFailing(s: PartState) {
    s == Failed || s == Timeout || s == DeliveryFailed
  }

  predicate IsDelivered(s: PartState) {
    s == Delivered
  }

  predicate IsDeliveryPending(s: PartState) {
    s == DeliveryPending
  }

  predicate IsUnconfirmed(s: PartState) {
    s == Unconfirmed
  }

  // ---- parts ------------------------------------------------------------------------------------

  /** A new report of a part's submission, over what is stored. */
  function Merged(was: PartState, next: PartState): PartState {
    if was == DeliveryPending || was == Unconfirmed || was == Delivered || was == DeliveryFailed then was
    else if was == Acked && next != Acked then was
    else if next == Pending && (was == Acked || was == Failed || was == Timeout) then was
    else next
  }

  datatype UpsertInput = UpsertInput(mid: string, no: int, callId: string, rpMR: int, state: string, sentAt: int)

  function UpsertState(text: string): PartState {
    if TrimSpace(text) == "" then Pending else PartStateOf(TrimSpace(text))
  }

  function Upsert(db: Db, i: UpsertInput): (Db, bool) {
    var mid, s := TrimSpace(i.mid), UpsertState(i.state);
    if mid == "" || i.no <= 0 then (db, false)
    else
      var key := Key(mid, i.no);
      if key in db.parts then
        var p := db.parts[key];
        (db.(parts := db.parts[key := p.(callId := TrimSpace(i.callId), rpMR := i.rpMR, state := Merged(p.state, s),
                                         sentAt := i.sentAt, updatedAt := i.sentAt)]), true)
      else
        (db.(parts := db.parts[key := Part(db.nextId, TrimSpace(i.callId), "", i.rpMR, s, 0, 0, "", i.sentAt, None,
                                           i.sentAt, i.sentAt)],
             nextId := db.nextId + 1), true)
  }

  // ---- the message ------------------------------------------------------------------------------

  /** The parts of a message in a given kind of state. */
  function Of(parts: map<Key, Part>, mid: string, kind: PartState -> bool): set<Key> {
    set k | k in parts && k.mid == mid && kind(parts[k].state)
  }

  /** The message state the parts alone give, from how many there are of each kind. */
  function Derived(expected: int, total: nat, acked: nat, failing: nat, delivered: nat, pending: nat, unconfirmed: nat)
    : MessageState
  {
    if failing > 0 then MessageFailed
    else if delivered == expected && total == expected then MessageDelivered
    else if unconfirmed > 0 && pending == 0 && delivered + unconfirmed == expected && total == expected
    then MessageUnconfirmed
    else if delivered > 0 || pending > 0 || unconfirmed > 0 then MessageDeliveryPending
    else if acked == expected && total == expected then MessageAcked
    else if acked > 0 then PartialAck
    else MessagePending
  }

  function Expected(total: nat, declared: int): int {
    if declared <= 0 then total else declared
  }

  function DerivedFrom(parts: map<Key, Part>, mid: string, declared: int): MessageState {
    var total := |Of(parts, mid, IsAny)|;
    Derived(Expected(total, declared), total, |Of(parts, mid, IsAcked)|, |Of(parts, mid, IsFailing)|,
            |Of(parts, mid, IsDelivered)|, |Of(parts, mid, IsDeliveryPending)|, |Of(parts, mid, IsUnconfirmed)|)
  }

  /** Failure yields only to delivery, delivery to nothing. */
  function Settled(was: MessageState, derived: MessageState): MessageState {
    if was == MessageDelivered then MessageDelivered
    else if was == MessageFailed && derived != MessageDelivered then MessageFailed
    else derived
  }

  predicate Later(a: Part, b: Part) {
    a.updatedAt > b.updatedAt || (a.updatedAt == b.updatedAt && a.id <= b.id)
  }

  /** The failing part touched last, whose error the message shows. */
  ghost predicate IsLatestFailing(parts: map<Key, Part>, mid: string, k: Key) {
    k in Of(parts, mid, IsFailing) && forall j :: j in Of(parts, mid, IsFailing) ==> Later(parts[k], parts[j])
  }

  ghost function PartError(parts: map<Key, Part>, mid: string): string {
    if k: Key :| IsLatestFailing(parts, mid, k) then TrimSpace(parts[k].errorText) else ""
  }

  ghost function ErrorShown(m: Message, derived: MessageState, partError: string): string {
    if m.state == MessageDelivered then ""
    else if m.state == MessageFailed && derived != MessageDelivered && partError == "" then TrimSpace(m.lastError)
    else partError
  }

  ghost function Recomputed(parts: map<Key, Part>, mid: string, m: Message, at: int): Message {
    var derived := DerivedFrom(parts, mid, m.total);
    m.(acks := |Of(parts, mid, IsAcked)|, state := Settled(m.state, derived),
       lastError := ErrorShown(m, derived, PartError(parts, mid)), updatedAt := at)
  }

  ghost function Recompute(db: Db, messageId: string, at: int): Db {
    var mid := TrimSpace(messageId);
    if mid in db.messages && Of(db.parts, mid, IsAny) != {}
    then db.(messages := db.messages[mid := Recomputed(db.parts, mid, db.messages[mid], at)])
    else db
  }

  function HistoryStatus(s: MessageState): int {
    match s
    case MessageDelivered => 5
    case MessageAcked | MessageDeliveryPending | MessageUnconfirmed => 2
    case MessageFailed => 3
    case MessagePending | PartialAck => 4
  }

  function SyncHistory(db: Db, mid: string): Db {
    if mid in db.messages && mid in db.history
    then db.(history := db.history[mid := HistoryStatus(db.messages[mid].state)])
    else db
  }

  // ---- reports ------------------------------------------------------------------------------------

  /** Digits of a recipient, with an optional leading plus; "" when there is anything else in it. */
  function Canonical(value: string): string {
    var out := CanonicalFrom(TrimSpace(value), 0);
    if out.None? || out.value == "+" then "" else out.value
  }

  function CanonicalFrom(v: string, i: nat): Option<string>
    decreases |v| - i
  {
    if i >= |v| then Some("")
    else
      var rest := CanonicalFrom(v, i + 1);
      if rest.None? then None
      else if (v[i] == '+' && i == 0) || '0' <= v[i] <= '9' then Some([v[i]] + rest.value)
      else if v[i] in {' ', '-', '(', ')'} then rest
      else None
  }

  datatype StatusReport = StatusReport(imsi: string, deviceId: string, recipient: string, tpMR: int, state: string, at: int)

  /** The parts a status report can be about. */
  function StatusCandidates(db: Db, r: StatusReport): set<Key> {
    set k | k in db.parts && k.mid in db.messages
         && db.messages[k.mid].imsi == TrimSpace(r.imsi) && db.messages[k.mid].deviceId == TrimSpace(r.deviceId)
         && db.parts[k].rpMR == r.tpMR && db.parts[k].createdAt >= r.at - SECONDS_PER_WEEK
         && !db.parts[k].state.Unlisted? && Canonical(db.messages[k.mid].peer) == Canonical(r.recipient)
  }

  predicate StatusMalformed(r: StatusReport) {
    TrimSpace(r.imsi) == "" || TrimSpace(r.deviceId) == "" || Canonical(r.recipient) == "" || !(0 <= r.tpMR <= 255)
  }

  function WithStatus(p: Part, r: StatusReport): Part {
    if IsFinal(p.state) then p
    else p.(state := BoundedReportState(r.state), reportAt := Some(r.at), updatedAt := r.at)
  }

  ghost function AfterReport(db: Db, k: Key, p: Part, at: int): Db {
    SyncHistory(Recompute(db.(parts := db.parts[k := p]), k.mid, at), k.mid)
  }

  /** A status report moves the one part it can be about; zero or several candidates change nothing. */
  ghost predicate StatusReported(db: Db, r: StatusReport, db': Db, result: Result<Key, ReportError>) {
    var ks := StatusCandidates(db, r);
    if StatusMalformed(r) || ks == {} then db' == db && result == Err(NotFound)
    else match result
      case Err(e) => db' == db && e == Ambiguous && |ks| > 1
      case Ok(k) => ks == {k} && db' == AfterReport(db, k, WithStatus(db.parts[k], r), r.at)
  }

  datatype SubmitReport = SubmitReport(
    inReplyTo: string, callId: string, deviceId: string, rpMR: int, state: string, sipCode: int, rpCause: int,
    errorText: string, at: int)

  predicate OnDevice(db: Db, k: Key, deviceId: string) {
    TrimSpace(deviceId) == "" || (k.mid in db.messages && db.messages[k.mid].deviceId == TrimSpace(deviceId))
  }

  function WithCallId(db: Db, callId: string, deviceId: string): set<Key> {
    set k | k in db.parts && TrimSpace(callId) != "" && db.parts[k].callId == TrimSpace(callId) && OnDevice(db, k, deviceId)
  }

  function WithReference(db: Db, r: SubmitReport): set<Key> {
    set k | k in db.parts && r.rpMR >= 0 && db.parts[k].rpMR == r.rpMR
         && db.parts[k].createdAt >= r.at - RP_WINDOW_SECONDS && !db.parts[k].state.Unlisted? && OnDevice(db, k, r.deviceId)
  }

  ghost predicate IsNewest(db: Db, ks: set<Key>, k: Key) {
    k in ks && ks <= db.parts.Keys
    && forall j | j in ks ::
         || db.parts[k].createdAt > db.parts[j].createdAt
         || (db.parts[k].createdAt == db.parts[j].createdAt && db.parts[k].id <= db.parts[j].id)
  }

  /** Correlation tries the replied-to call, then the call, then a recent reference that must be unique. */
  ghost predicate Correlates(db: Db, r: SubmitReport, result: Result<Key, ReportError>) {
    var replied, called, referred :=
      WithCallId(db, r.inReplyTo, r.deviceId), WithCallId(db, r.callId, r.deviceId), WithReference(db, r);
    match result
    case Ok(k) =>
      if replied != {} then IsNewest(db, replied, k)
      else if called != {} then IsNewest(db, called, k)
      else referred == {k}
    case Err(NotFound) => replied == {} && called == {} && referred == {}
    case Err(Ambiguous) => replied == {} && called == {} && |referred| > 1
  }

  function SubmitState(text: string): PartState {
    if TrimSpace(text) == "" then Failed else PartStateOf(TrimSpace(text))
  }

  /** Only a pending part takes the result of its submission. */
  function WithSubmit(p: Part, r: SubmitReport): Part {
    if p.state != Pending then p
    else p.(inReplyTo := TrimSpace(r.inReplyTo), state := SubmitState(r.state), sipCode := r.sipCode,
            rpCause := r.rpCause, errorText := TrimSpace(r.errorText), reportAt := Some(r.at), updatedAt := r.at)
  }

  ghost predicate SubmitReported(db: Db, r: SubmitReport, db': Db, result: Result<Key, ReportError>) {
    Correlates(db, r, result)
    && match result
       case Err(_) => db' == db
       case Ok(k) => k in db.parts && db' == AfterReport(db, k, WithSubmit(db.parts[k], r), r.at)
  }
}
