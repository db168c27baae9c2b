/** What storing a fragment writes, column by column: the message, its thread's contact row and the journal. */
module AssemblyRecords {
  import opened SmsTables
  import opened IncomingSms
  import opened AssemblyRuns
  import opened Wrappers

  /** The second an instant falls in. */
  predicate IsSecondOf(s: int, t: int) {
    s % 1_000_000_000 == 0 && s <= t < s + 1_000_000_000
  }

  /** The same incoming message, whichever way it came. */
  predicate SameText(a: SMS, imsi: string, sender: string, content: string, timestamp: int) {
    a.imsi == imsi && a.smsType == 1 && a.sender == sender && a.content == content && a.timestamp == timestamp
  }

  /** A fragment is refused as malformed exactly for these reasons. */
  lemma MalformedIff(t: Tables, p: Part, window: int, line: Line)
    ensures Store(t, p, window, line).1 == Err(InvalidMetadata) <==>
            || p.imsi == "" || p.sender == "" || p.fingerprint == "" || p.timestamp == 0 || window <= 0
            || p.total < 1 || p.total > 255 || p.sequence < 1 || p.sequence > p.total
  {
  }

  /** A fragment delivered before is ignored. */
  lemma RepeatIgnored(t: Tables, p: Part, window: int, line: Line)
    requires exists k :: 0 <= k < |t.journal| && t.journal[k].fingerprint == p.fingerprint
    ensures Store(t, p, window, line).0 == t && (Store(t, p, window, line).1.Ok? ==> Store(t, p, window, line).1 == Ok(None))
  {
    assert Journaled(t.journal, p.fingerprint);
  }

  /** The thread's row tells of the message, with one more unread; no other thread's row changes. */
  ghost predicate ContactTells(contacts: map<Thread, Contact>, contacts': map<Thread, Contact>, m: SMS) {
    var th := Thread(m.imsi, m.peer);
    && th in contacts'
    && contacts'[th] == Contact(m.iccid, m.id, m.timestamp, m.content, m.smsType,
                                1 + if th in contacts then contacts[th].unreadCount else 0)
    && contacts' - {th} == contacts - {th}
  }

  /** What a delivery reports as stored is what the inbox gains and the contacts tell of; without one neither changes. */
  lemma StoredIsRecorded(t: Tables, p: Part, window: int, line: Line)
    ensures var (t', o) := Store(t, p, window, line);
      match o {
        case Ok(Some(m)) =>
          && t'.inbox == t.inbox + [m] && m.id == t.nextId && t'.nextId == t.nextId + 1
          && m.imsi == p.imsi && m.sender == p.sender && m.peer == p.sender
          && m.iccid == line.iccid && m.localPhone == line.phone && m.recipient == line.phone
          && m.smsType == 1 && m.status == 0
          && (forall x :: x in t.inbox ==> !SameText(x, m.imsi, m.sender, m.content, m.timestamp))
          && ContactTells(t.contacts, t'.contacts, m)
        case _ => t'.inbox == t.inbox && t'.contacts == t.contacts && t'.nextId == t.nextId
      }
  {
    if ValidPart(p, window) && !Journaled(t.journal, p.fingerprint) {
      SettledIsRecorded(t, Fragments(t.journal + [RowOf(p)], RowOf(p), window), p, line);
    }
  }

  lemma SettledIsRecorded(t: Tables, rows: seq<Row>, p: Part, line: Line)
    ensures var (t', o) := Settle(t, rows, p, line);
      match o {
        case Ok(Some(m)) =>
          && rows != [] && m == Assembled(rows, p, line, t.nextId) && !InInbox(t.inbox, m)
          && t'.inbox == t.inbox + [m] && t'.nextId == t.nextId + 1 && ContactTells(t.contacts, t'.contacts, m)
        case _ => t'.inbox == t.inbox && t'.contacts == t.contacts && t'.nextId == t.nextId
      }
  {
  }

  // ---- the parts of a message ------------------------------------------------------------------------

  /** What makes parts those of one message: numbered through, alike, and within a window of each other. */
  lemma {:induction false} MessageMeans(parts: seq<Part>, window: int)
    ensures Message(parts, window) <==>
            && parts != [] && |parts| <= 255 && window > 0 && parts[0].imsi != "" && parts[0].sender != ""
            && (forall i :: 0 <= i < |parts| ==>
                  && parts[i].sequence == i + 1 && parts[i].total == |parts| && parts[i].fingerprint != "" && parts[i].timestamp != 0
                  && parts[i].imsi == parts[0].imsi && parts[i].sender == parts[0].sender
                  && parts[i].reference == parts[0].reference && parts[i].referenceBits == parts[0].referenceBits)
            && (forall i, j :: 0 <= i < j < |parts| ==> parts[i].fingerprint != parts[j].fingerprint)
            && (forall i, j :: 0 <= i < |parts| && 0 <= j < |parts| ==>
                  TruncateSecond(parts[i].timestamp) <= TruncateSecond(parts[j].timestamp) + window)
  {
    var own := Rows(parts);
    assert |own| == |parts| && forall i :: 0 <= i < |parts| ==> own[i] == RowOf(parts[i]);
    if Message(parts, window) {
      MessageForward(parts, window);
    }
    if parts != [] && forall i :: 0 <= i < |parts| ==> parts[i].sequence == i + 1 {
      assert forall i :: 0 <= i < |parts| ==> own[i].sequence == i + 1;
      assert forall i, j :: 0 <= i < j < |parts| && parts[i].fingerprint != parts[j].fingerprint ==>
          own[i].fingerprint != own[j].fingerprint;
    }
  }

  lemma {:induction false} MessageForward(parts: seq<Part>, window: int)
    requires Message(parts, window)
    ensures parts != [] && |parts| <= 255 && window > 0
    ensures forall i :: 0 <= i < |parts| ==>
              && parts[i].sequence == i + 1 && parts[i].total == |parts| && parts[i].fingerprint != "" && parts[i].timestamp != 0
              && KeyOf(parts[i]) == KeyOf(parts[0])
    ensures forall i, j :: 0 <= i < j < |parts| ==> parts[i].fingerprint != parts[j].fingerprint
    ensures forall i, j :: 0 <= i < |parts| && 0 <= j < |parts| ==>
              TruncateSecond(parts[i].timestamp) <= TruncateSecond(parts[j].timestamp) + window
  {
    var own := Rows(parts);
    assert own[0] == RowOf(parts[0]) && ValidPart(parts[0], window);
    assert forall i :: 0 <= i < |parts| ==> own[i] == RowOf(parts[i]) && own[i].key == own[0].key;
    assert forall i, j :: 0 <= i < j < |parts| ==> own[i].fingerprint != own[j].fingerprint;
    assert forall i, j :: 0 <= i < |parts| && 0 <= j < |parts| ==> own[i].timestamp <= own[j].timestamp + window;
  }

  // ---- the message, when its last part arrives --------------------------------------------------------

  /** The inbox row that stands for the whole message. */
  function InboxRow(parts: seq<Part>, line: Line, id: nat): SMS
    requires parts != []
  {
    SMS(id, "ims-in-" + parts[0].fingerprint, parts[0].imsi, line.iccid, parts[0].sender, line.phone, parts[0].sender, line.phone,
        Texts(parts), 1, 0, TruncateSecond(parts[0].timestamp))
  }

  /** The inbox has the same message already. */
  predicate AlreadyThere(inbox: seq<SMS>, m: SMS) {
    exists x :: x in inbox && SameText(x, m.imsi, m.sender, m.content, m.timestamp)
  }

  lemma SecondOf(t: int)
    ensures IsSecondOf(TruncateSecond(t), t)
  {
  }

  lemma OwnDelivery(
    ts: seq<Tables>, outcomes: seq<Outcome>, ds: seq<Delivery>, parts: seq<Part>, window: int, k: nat, i: nat, line: Line)
    requires parts != [] && Deliveries(ts, outcomes, ds, parts, window) && k < |ds| && ds[k] == Own(i, line)
    ensures i < |parts| && (ts[k + 1], outcomes[k]) == Store(ts[k], parts[i], window, line)
    ensures Delivered(ds[..k + 1]) == Delivered(ds[..k]) + {i}
  {
    DeliveryAt(ts, outcomes, ds, parts, window, k);
  }

  /**
   The delivery that brings the last missing part stores the message with the texts in order, the first
   part's second and the columns of the part and its line, unless the inbox has the same message already.
   Either way its parts are marked as done.
   */
  lemma {:induction false} LastPartStores(
    ts: seq<Tables>, outcomes: seq<Outcome>, ds: seq<Delivery>, parts: seq<Part>, window: int, k: nat, i: nat, line: Line)
    requires Message(parts, window) && parts != [] && Deliveries(ts, outcomes, ds, parts, window) && Fresh(ts[0], parts, window)
    requires k < |ds| && ds[k] == Own(i, line)
    requires i !in Delivered(ds[..k]) && Delivered(ds[..k + 1]) == Upto(|parts|)
    ensures IsSecondOf(TruncateSecond(parts[0].timestamp), parts[0].timestamp)
    ensures TellsOf(ts[k + 1], outcomes[k], parts, line, ts[k].inbox, ts[k].nextId)
  {
    SecondOf(parts[0].timestamp);
    FreshStands(ts[0], parts, window);
    StandingAlong(ts, outcomes, ds, parts, window, k);
    OwnDelivery(ts, outcomes, ds, parts, window, k, i, line);
    LastPart(ts[k], parts, window, Delivered(ds[..k]), i, line);
  }

  /** The table t and the outcome o tell of the whole message, which came when the inbox was as given. */
  ghost predicate TellsOf(t: Tables, o: Outcome, parts: seq<Part>, line: Line, inbox: seq<SMS>, id: nat)
    requires parts != []
  {
    && o == (if AlreadyThere(inbox, InboxRow(parts, line, id)) then Ok(None) else Ok(Some(InboxRow(parts, line, id))))
    && forall j :: 0 <= j < |parts| ==> Done(t.journal, parts[j].fingerprint, "ims-in-" + parts[0].fingerprint)
  }

  lemma {:induction false} LastPart(t: Tables, parts: seq<Part>, window: int, got: set<nat>, i: nat, line: Line)
    requires Message(parts, window) && parts != [] && Standing(t, parts, window, got)
    requires i < |parts| && i !in got && got + {i} == Upto(|parts|)
    ensures var (t', o) := Store(t, parts[i], window, line); TellsOf(t', o, parts, line, t.inbox, t.nextId)
  {
    OwnCompletes(t, parts, window, got, i, line);
    CompletedMessage(t, parts, window, i, line);
    assert i in Upto(|parts|) && got != Upto(|parts|);
    PartsAreDone(t, parts, window, got, i, line);
  }

  lemma {:induction false} CompletedMessage(t: Tables, parts: seq<Part>, window: int, i: nat, line: Line)
    requires Message(parts, window) && parts != [] && i < |parts|
    ensures AlreadyThere(t.inbox, InboxRow(parts, line, t.nextId)) ==> Complete(t, Rows(parts), parts[i], line).1 == Ok(None)
    ensures !AlreadyThere(t.inbox, InboxRow(parts, line, t.nextId)) ==>
              Complete(t, Rows(parts), parts[i], line).1 == Ok(Some(InboxRow(parts, line, t.nextId)))
  {
    JoinTexts(parts);
    MessageForward(parts, window);
    assert Rows(parts)[0] == RowOf(parts[0]);
    assert KeyOf(parts[i]) == KeyOf(parts[0]);
    InboxIff(t.inbox, InboxRow(parts, line, t.nextId));
  }

  lemma InboxIff(inbox: seq<SMS>, m: SMS)
    requires m.smsType == 1
    ensures InInbox(inbox, m) <==> AlreadyThere(inbox, m)
  {
    if x :| x in inbox && SameText(x, m.imsi, m.sender, m.content, m.timestamp) {
      var j :| 0 <= j < |inbox| && inbox[j] == x;
      assert SameMessage(inbox[j], m);
    }
    if InInbox(inbox, m) {
      var j :| 0 <= j < |inbox| && SameMessage(inbox[j], m);
      assert inbox[j] in inbox;
    }
  }

  /** The part's row names its message and has given up its text. */
  ghost predicate Done(journal: seq<Row>, fingerprint: string, messageId: string) {
    exists r :: r in journal && r.fingerprint == fingerprint && r.messageId == messageId && r.content == ""
  }

  lemma RowIsDone(t: Tables, rows: seq<Row>, p: Part, line: Line, k: nat)
    requires rows != [] && k <= |t.journal| && (t.journal + [RowOf(p)])[k] in rows
    ensures Done(Complete(t, rows, p, line).0.journal, (t.journal + [RowOf(p)])[k].fingerprint, "ims-in-" + rows[0].fingerprint)
  {
    var journal1, journal' := t.journal + [RowOf(p)], Complete(t, rows, p, line).0.journal;
    assert journal1[k].fingerprint in Fingerprints(rows);
    assert journal'[k] == journal1[k].(messageId := "ims-in-" + rows[0].fingerprint, content := "");
    assert journal'[k] in journal';
  }

  lemma {:induction false} OwnRowAt(t: Tables, parts: seq<Part>, window: int, got: set<nat>, i: nat, j: nat) returns (k: nat)
    requires parts != [] && Waiting(t.journal, Rows(parts), window, got)
    requires i < |parts| && j < |parts| && got + {i} == Upto(|parts|)
    ensures k <= |t.journal| && (t.journal + [RowOf(parts[i])])[k] == Rows(parts)[j]
  {
    if j == i {
      k := |t.journal|;
    } else {
      assert j in Upto(|parts|) && j in got;
      k :| 0 <= k < |t.journal| && t.journal[k] == Rows(parts)[j];
    }
  }

  lemma {:induction false} PartsAreDone(t: Tables, parts: seq<Part>, window: int, got: set<nat>, i: nat, line: Line)
    requires Message(parts, window) && parts != [] && Waiting(t.journal, Rows(parts), window, got)
    requires i < |parts| && got + {i} == Upto(|parts|)
    ensures var journal' := Complete(t, Rows(parts), parts[i], line).0.journal;
      forall j :: 0 <= j < |parts| ==> Done(journal', parts[j].fingerprint, "ims-in-" + parts[0].fingerprint)
  {
    var own := Rows(parts);
    forall j | 0 <= j < |parts|
      ensures Done(Complete(t, own, parts[i], line).0.journal, parts[j].fingerprint, "ims-in-" + parts[0].fingerprint)
    {
      var k := OwnRowAt(t, parts, window, got, i, j);
      assert own[j] in own && own[j].fingerprint == parts[j].fingerprint && own[0].fingerprint == parts[0].fingerprint;
      RowIsDone(t, own, parts[i], line, k);
    }
  }
}
