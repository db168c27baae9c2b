/**
 Assembly of concatenated incoming messages: a journal of fragments, an inbox and a contact
 table, and one transaction that stores a fragment and, when it completes a message, the message.
 */
module IncomingSms {
  import opened SmsTables
  import opened Wrappers

  /** What the program hashes into the assembly key. */
  datatype Key = Key(imsi: string, sender: string, referenceBits: int, reference: int, total: int)

  datatype Part = Part(
    fingerprint: string,
    imsi: string,
    sender: string,
    content: string,
    timestamp: int,
    reference: int,
    referenceBits: int,
    total: int,
    sequence: int)

  /** A journal row; an empty message id marks a fragment still waiting for its message. */
  datatype Row = Row(fingerprint: string, key: Key, messageId: string, sequence: int, content: string, timestamp: int)

  datatype Tables = Tables(journal: seq<Row>, inbox: seq<SMS>, contacts: map<Thread, Contact>, nextId: nat)

  datatype Error = InvalidMetadata | AmbiguousReference | InvalidFragmentCount | IncompleteSequence

  type Outcome = Result<Option<SMS>, Error>

  /** What the caller looks up for a subscriber before the transaction opens. */
  datatype Line = Line(iccid: string, phone: string)

  const SECOND := 1_000_000_000

  function TruncateSecond(t: int): int {
    t - t % SECOND
  }

  function KeyOf(p: Part): Key {
    Key(p.imsi, p.sender, p.referenceBits, p.reference, p.total)
  }

  function RowOf(p: Part): Row {
    Row(p.fingerprint, KeyOf(p), "", p.sequence, p.content, TruncateSecond(p.timestamp))
  }

  predicate ValidPart(p: Part, window: int) {
    && p.imsi != "" && p.sender != "" && p.fingerprint != "" && p.timestamp != 0
    && 1 <= p.total <= 255 && 1 <= p.sequence <= p.total && window > 0
  }

  // ---- the query for the fragments of one message ------------------------------------------------

  predicate Pending(r: Row) {
    r.messageId == ""
  }

  predicate Near(r: Row, key: Key, at: int, window: int) {
    r.key == key && Pending(r) && at - window <= r.timestamp <= at + window
  }

  function Matching(journal: seq<Row>, key: Key, at: int, window: int): seq<Row> {
    if journal == [] then []
    else
      var n := |journal| - 1;
      Matching(journal[..n], key, at, window)
      + (if Near(journal[n], key, at, window) then [journal[n]] else [])
  }

  function Insert(r: Row, rows: seq<Row>): seq<Row> {
    if rows == [] || r.sequence <= rows[0].sequence then [r] + rows
    else [rows[0]] + Insert(r, rows[1..])
  }

  function OrderBySequence(rows: seq<Row>): seq<Row> {
    if rows == [] then [] else Insert(rows[0], OrderBySequence(rows[1..]))
  }

  function Fragments(journal: seq<Row>, row: Row, window: int): seq<Row> {
    if row.key.total > 1 then OrderBySequence(Matching(journal, row.key, row.timestamp, window))
    else [row]
  }

  predicate Sorted(rows: seq<Row>) {
    forall i, j :: 0 <= i < j < |rows| ==> rows[i].sequence <= rows[j].sequence
  }

  lemma {:induction false} MatchingMembers(journal: seq<Row>, key: Key, at: int, window: int, r: Row)
    ensures r in Matching(journal, key, at, window) <==> r in journal && Near(r, key, at, window)
  {
    if journal != [] {
      var n := |journal| - 1;
      MatchingMembers(journal[..n], key, at, window, r);
      assert journal == journal[..n] + [journal[n]];
    }
  }

  lemma {:induction false} InsertSorts(r: Row, rows: seq<Row>)
    requires Sorted(rows)
    ensures Sorted(Insert(r, rows))
    ensures forall x :: x in Insert(r, rows) <==> x == r || x in rows
  {
    if rows != [] && r.sequence > rows[0].sequence {
      InsertSorts(r, rows[1..]);
      assert rows == [rows[0]] + rows[1..];
      var rest := Insert(r, rows[1..]);
      forall j | 0 <= j < |rest|
        ensures rows[0].sequence <= rest[j].sequence
      {
        assert rest[j] in rest;
      }
    }
  }

  lemma {:induction false} OrderSorts(rows: seq<Row>)
    ensures Sorted(OrderBySequence(rows))
    ensures forall x :: x in OrderBySequence(rows) <==> x in rows
  {
    if rows != [] {
      OrderSorts(rows[1..]);
      InsertSorts(rows[0], OrderBySequence(rows[1..]));
      assert rows == [rows[0]] + rows[1..];
    }
  }

  /** The fragments come in sequence order and are exactly the pending rows of the key within the window. */
  lemma FragmentsAre(journal: seq<Row>, row: Row, window: int)
    requires row.key.total > 1
    ensures Sorted(Fragments(journal, row, window))
    ensures forall r :: r in Fragments(journal, row, window) <==>
              r in journal && r.key == row.key && r.messageId == ""
              && row.timestamp - window <= r.timestamp <= row.timestamp + window
  {
    var rows := Matching(journal, row.key, row.timestamp, window);
    OrderSorts(rows);
    forall r
      ensures r in rows <==> r in journal && Near(r, row.key, row.timestamp, window)
    {
      MatchingMembers(journal, row.key, row.timestamp, window, r);
    }
  }

  // ---- the transaction --------------------------------------------------------------------------

  predicate Journaled(journal: seq<Row>, fingerprint: string) {
    exists i :: 0 <= i < |journal| && journal[i].fingerprint == fingerprint
  }

  predicate Ambiguous(rows: seq<Row>) {
    exists i, j :: 0 <= i < j < |rows| && rows[i].sequence == rows[j].sequence
  }

  predicate InSequence(rows: seq<Row>) {
    forall i :: 0 <= i < |rows| ==> rows[i].sequence == i + 1
  }

  function Join(rows: seq<Row>): string {
    if rows == [] then "" else Join(rows[..|rows| - 1]) + rows[|rows| - 1].content
  }

  function Fingerprints(rows: seq<Row>): set<string> {
    set r | r in rows :: r.fingerprint
  }

  function Completed(journal: seq<Row>, fingerprints: set<string>, messageId: string): seq<Row> {
    seq(|journal|, i requires 0 <= i < |journal| =>
      if journal[i].fingerprint in fingerprints then journal[i].(messageId := messageId, content := "")
      else journal[i])
  }

  /** The message a complete run of fragments stands for. */
  function Assembled(rows: seq<Row>, p: Part, line: Line, id: nat): SMS
    requires rows != []
  {
    SMS(id, "ims-in-" + rows[0].fingerprint, p.imsi, line.iccid, p.sender, line.phone, p.sender, line.phone,
        Join(rows), INCOMING, UNREAD, rows[0].timestamp)
  }

  /** The same message delivered twice, by whichever route. */
  predicate SameMessage(a: SMS, b: SMS) {
    a.imsi == b.imsi && a.smsType == INCOMING == b.smsType && a.sender == b.sender
    && a.content == b.content && a.timestamp == b.timestamp
  }

  predicate InInbox(inbox: seq<SMS>, m: SMS) {
    exists i :: 0 <= i < |inbox| && SameMessage(inbox[i], m)
  }

  function Complete(t: Tables, rows: seq<Row>, p: Part, line: Line): (Tables, Outcome)
    requires rows != []
  {
    var sms := Assembled(rows, p, line, t.nextId);
    var journal := Completed(t.journal + [RowOf(p)], Fingerprints(rows), sms.messageId);
    if InInbox(t.inbox, sms) then (t.(journal := journal), Ok(None))
    else (Tables(journal, t.inbox + [sms], UpsertContact(t.contacts, sms), t.nextId + 1), Ok(Some(sms)))
  }

  /** What becomes of a fragment, given all pending fragments of its message including itself. */
  function Settle(t: Tables, rows: seq<Row>, p: Part, line: Line): (Tables, Outcome) {
    if Ambiguous(rows) then (t, Err(AmbiguousReference))
    else if |rows| < p.total then (t.(journal := t.journal + [RowOf(p)]), Ok(None))
    else if |rows| != p.total then (t, Err(InvalidFragmentCount))
    else if !InSequence(rows) then (t, Err(IncompleteSequence))
    else if rows == [] then (t, Ok(None))
    else Complete(t, rows, p, line)
  }

  function Store(t: Tables, p: Part, window: int, line: Line): (Tables, Outcome) {
    if !ValidPart(p, window) then (t, Err(InvalidMetadata))
    else if Journaled(t.journal, p.fingerprint) then (t, Ok(None))
    else Settle(t, Fragments(t.journal + [RowOf(p)], RowOf(p), window), p, line)
  }

  // ---- what every state keeps -------------------------------------------------------------------

  predicate RowOk(r: Row) {
    && r.fingerprint != "" && 1 <= r.sequence <= r.key.total <= 255
    && (Pending(r) ==> r.key.total > 1)
    && (!Pending(r) ==> r.content == "")
  }

  ghost predicate DistinctFingerprints(journal: seq<Row>) {
    forall i, j :: 0 <= i < j < |journal| ==> journal[i].fingerprint != journal[j].fingerprint
  }

  /** Two pending fragments with one key and one sequence number are more than the window apart. */
  ghost predicate Apart(journal: seq<Row>, window: int) {
    forall r, q | r in journal && q in journal && r != q && Pending(r) && Pending(q) ::
      r.key == q.key && r.sequence == q.sequence ==>
        r.timestamp > q.timestamp + window || q.timestamp > r.timestamp + window
  }

  /** No incoming message is in the inbox twice. */
  ghost predicate NoDuplicates(inbox: seq<SMS>) {
    forall i, j :: 0 <= i < j < |inbox| ==> !SameMessage(inbox[i], inbox[j])
  }

  ghost predicate Inv(t: Tables, window: int) {
    && (forall r :: r in t.journal ==> RowOk(r))
    && DistinctFingerprints(t.journal)
    && Apart(t.journal, window)
    && NoDuplicates(t.inbox)
  }

  /** Distinct numbers in order: there are at most as many as the largest, and then none is missing. */
  lemma {:induction false} DistinctInRange(rows: seq<Row>, n: int)
    requires Sorted(rows) && !Ambiguous(rows)
    requires forall i :: 0 <= i < |rows| ==> 1 <= rows[i].sequence <= n
    ensures rows != [] ==> |rows| <= rows[|rows| - 1].sequence
    ensures |rows| <= n || rows == []
    ensures forall i :: 0 <= i < |rows| ==> i + 1 <= rows[i].sequence <= n - (|rows| - 1 - i)
  {
    if rows != [] {
      var k := |rows| - 1;
      var init := rows[..k];
      forall i | 0 <= i < k
        ensures rows[i].sequence < rows[k].sequence
      {
        assert rows[i].sequence <= rows[k].sequence;
      }
      DistinctInRange(init, rows[k].sequence - 1);
    }
  }

  lemma FragmentsInRange(t: Tables, p: Part, window: int)
    requires Inv(t, window) && ValidPart(p, window)
    ensures var rows := Fragments(t.journal + [RowOf(p)], RowOf(p), window);
      && Sorted(rows) && RowOf(p) in rows
      && (forall r :: r in rows ==> (r in t.journal || r == RowOf(p)) && r.key == KeyOf(p) && Pending(r)
                                     && 1 <= r.sequence <= p.total)
  {
    if p.total > 1 {
      FragmentsAre(t.journal + [RowOf(p)], RowOf(p), window);
    }
  }

  /**
   Given the invariant, the fragment count and the fragment order are never wrong: once no sequence
   number repeats, as many fragments as the message has are all of them, in order.
   */
  lemma CountErrorsUnreachable(t: Tables, p: Part, window: int, line: Line)
    requires Inv(t, window)
    ensures Store(t, p, window, line).1 != Err(InvalidFragmentCount)
    ensures Store(t, p, window, line).1 != Err(IncompleteSequence)
  {
    if ValidPart(p, window) {
      FragmentsInRange(t, p, window);
      var rows := Fragments(t.journal + [RowOf(p)], RowOf(p), window);
      if !Ambiguous(rows) {
        DistinctInRange(rows, p.total);
      }
    }
  }

  /** Any error leaves every table as it was. */
  lemma ErrorsChangeNothing(t: Tables, p: Part, window: int, line: Line)
    ensures Store(t, p, window, line).1.Err? ==> Store(t, p, window, line).0 == t
  {
  }

  lemma StoreKeepsInv(t: Tables, p: Part, window: int, line: Line)
    requires Inv(t, window)
    ensures Inv(Store(t, p, window, line).0, window)
  {
    var (t', o) := Store(t, p, window, line);
    if ValidPart(p, window) && !Journaled(t.journal, p.fingerprint) {
      var row := RowOf(p);
      var journal := t.journal + [row];
      var rows := Fragments(journal, row, window);
      FragmentsInRange(t, p, window);
      if !Ambiguous(rows) {
        DistinctInRange(rows, p.total);
        if |rows| < p.total {
          assert p.total > 1;
          assert RowOk(row) && forall r :: r in journal ==> r in t.journal || r == row;
          JoiningKeepsApart(t, p, window);
        } else {
          CompletingKeepsJournal(t, p, window, "ims-in-" + rows[0].fingerprint);
          if !InInbox(t.inbox, Assembled(rows, p, line, t.nextId)) {
            InboxStaysDistinct(t.inbox, Assembled(rows, p, line, t.nextId));
          }
        }
      }
    }
  }

  lemma DistinctSequences(rows: seq<Row>, r: Row, q: Row)
    requires r in rows && q in rows && r != q && !Ambiguous(rows)
    ensures r.sequence != q.sequence
  {
    var i :| 0 <= i < |rows| && rows[i] == r;
    var j :| 0 <= j < |rows| && rows[j] == q;
    assert i < j || j < i;
  }

  lemma JoiningKeepsApart(t: Tables, p: Part, window: int)
    requires Inv(t, window) && ValidPart(p, window) && p.total > 1 && !Journaled(t.journal, p.fingerprint)
    requires !Ambiguous(Fragments(t.journal + [RowOf(p)], RowOf(p), window))
    ensures Apart(t.journal + [RowOf(p)], window)
  {
    var row := RowOf(p);
    var journal := t.journal + [row];
    var rows := Fragments(journal, row, window);
    FragmentsAre(journal, row, window);
    forall r | r in t.journal && Pending(r) && r.key == row.key && r.sequence == row.sequence
      ensures r.timestamp > row.timestamp + window || row.timestamp > r.timestamp + window
    {
      if Near(r, row.key, row.timestamp, window) {
        DistinctSequences(rows, r, row);
      }
    }
  }

  /** Completing rows changes no fingerprint, and leaves pending only what was pending before. */
  lemma CompletedRows(journal: seq<Row>, fingerprints: set<string>, messageId: string)
    requires messageId != "" && forall r :: r in journal ==> RowOk(r)
    ensures var journal' := Completed(journal, fingerprints, messageId);
      && (forall r :: r in journal' ==> RowOk(r))
      && (forall r :: r in journal' && Pending(r) ==> r in journal && r.fingerprint !in fingerprints)
  {
    var journal' := Completed(journal, fingerprints, messageId);
    forall r | r in journal'
      ensures RowOk(r) && (Pending(r) ==> r in journal && r.fingerprint !in fingerprints)
    {
      var i :| 0 <= i < |journal'| && journal'[i] == r;
      assert journal[i] in journal;
    }
  }

  /** A journal whose newest row is completed at once keeps everything the others kept. */
  lemma CompletedAtOnce(journal: seq<Row>, row: Row, window: int, fingerprints: set<string>, messageId: string)
    requires (forall r :: r in journal ==> RowOk(r)) && DistinctFingerprints(journal) && Apart(journal, window)
    requires RowOk(row.(messageId := messageId, content := "")) && messageId != ""
    requires row.fingerprint in fingerprints && !Journaled(journal, row.fingerprint)
    ensures var journal' := Completed(journal + [row], fingerprints, messageId);
      (forall r :: r in journal' ==> RowOk(r)) && DistinctFingerprints(journal') && Apart(journal', window)
  {
    var done := row.(messageId := messageId, content := "");
    var before := journal + [done];
    assert forall r :: r in before ==> r in journal || r == done;
    assert Completed(journal + [row], fingerprints, messageId) == Completed(before, fingerprints, messageId);
    CompletedRows(before, fingerprints, messageId);
  }

  lemma CompletingKeepsJournal(t: Tables, p: Part, window: int, messageId: string)
    requires Inv(t, window) && ValidPart(p, window) && !Journaled(t.journal, p.fingerprint) && messageId != ""
    ensures var rows := Fragments(t.journal + [RowOf(p)], RowOf(p), window);
      var journal' := Completed(t.journal + [RowOf(p)], Fingerprints(rows), messageId);
      (forall r :: r in journal' ==> RowOk(r)) && DistinctFingerprints(journal') && Apart(journal', window)
  {
    FragmentsInRange(t, p, window);
    CompletedAtOnce(t.journal, RowOf(p), window,
                    Fingerprints(Fragments(t.journal + [RowOf(p)], RowOf(p), window)), messageId);
  }

  lemma InboxStaysDistinct(inbox: seq<SMS>, m: SMS)
    requires NoDuplicates(inbox) && !InInbox(inbox, m)
    ensures NoDuplicates(inbox + [m])
  {
  }

  lemma SettleTouches(t: Tables, rows: seq<Row>, p: Part, line: Line)
    ensures var t' := Settle(t, rows, p, line).0;
      && t.inbox <= t'.inbox && |t.journal| <= |t'.journal| <= |t.journal| + 1
      && (forall i :: 0 <= i < |t.journal| && t.journal[i].fingerprint !in Fingerprints(rows) ==> t'.journal[i] == t.journal[i])
      && (|t'.journal| > |t.journal| ==> t'.journal[|t.journal|].key == KeyOf(p))
  {
  }

  /** Fragments of other messages, and messages already in the inbox, are never touched. */
  lemma OtherKeysUntouched(t: Tables, p: Part, window: int, line: Line)
    requires Inv(t, window)
    ensures var t' := Store(t, p, window, line).0;
      && t.inbox <= t'.inbox && |t.journal| <= |t'.journal| <= |t.journal| + 1
      && (forall i :: 0 <= i < |t.journal| && t.journal[i].key != KeyOf(p) ==> t'.journal[i] == t.journal[i])
      && (|t'.journal| > |t.journal| ==> t'.journal[|t.journal|].key == KeyOf(p))
  {
    if ValidPart(p, window) && !Journaled(t.journal, p.fingerprint) {
      var rows := Fragments(t.journal + [RowOf(p)], RowOf(p), window);
      FragmentsInRange(t, p, window);
      SettleTouches(t, rows, p, line);
      forall i | 0 <= i < |t.journal| && t.journal[i].key != KeyOf(p)
        ensures t.journal[i].fingerprint !in Fingerprints(rows)
      {
        NotAmongFragments(t, p, rows, i);
      }
    }
  }

  lemma NotAmongFragments(t: Tables, p: Part, rows: seq<Row>, i: nat)
    requires DistinctFingerprints(t.journal) && !Journaled(t.journal, p.fingerprint)
    requires forall r :: r in rows ==> r in t.journal || r == RowOf(p)
    requires i < |t.journal| && t.journal[i] !in rows
    ensures t.journal[i].fingerprint !in Fingerprints(rows)
  {
    forall r | r in rows
      ensures r.fingerprint != t.journal[i].fingerprint
    {
      if r != RowOf(p) {
        var j :| 0 <= j < |t.journal| && t.journal[j] == r;
        assert i != j;
      }
    }
  }
}
