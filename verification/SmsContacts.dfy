/** The contact index: one row per thread, standing for the thread's latest message and its unread count. */
module SmsContacts {
  import opened Text
  import opened Wrappers
  import opened SmsTables

  type Rows = map<nat, SMS>
  type Contacts = map<Thread, Contact>

  const DEFAULT_BATCH_SIZE := 500

  /** The instant an unset timestamp stands for; times count from it. */
  const ZERO_TIME := 0

  function NormalizePeer(smsType: int, sender: string, recipient: string): string {
    if smsType == OUTGOING && TrimSpace(recipient) != "" then TrimSpace(recipient) else TrimSpace(sender)
  }

  /** The other side of a message: whom an outgoing one went to, if that is known, and whom any other came from. */
  lemma PeerIs(m: SMS)
    ensures var peer := if m.smsType == 2 && TrimSpace(m.recipient) != "" then TrimSpace(m.recipient) else TrimSpace(m.sender);
      WithPeer(m) == if TrimSpace(m.peer) == "" && peer != "" then m.(peer := peer) else m
  {
  }

  predicate Blank(s: string) {
    TrimSpace(s) == ""
  }

  /** A row whose peer is filled in, where it was blank and can be told. */
  function WithPeer(m: SMS): SMS {
    var peer := NormalizePeer(m.smsType, m.sender, m.recipient);
    if Blank(m.peer) && peer != "" then m.(peer := peer) else m
  }

  function Filled(rows: Rows): Rows {
    map id | id in rows :: WithPeer(rows[id])
  }

  ghost predicate RowsOk(rows: Rows) {
    forall id :: id in rows ==> id > 0 && rows[id].id == id
  }

  /** The order of the paged scan, and of what counts as latest. */
  predicate Before(a: SMS, b: SMS) {
    a.timestamp < b.timestamp || (a.timestamp == b.timestamp && a.id < b.id)
  }

  // ---- what a contact row should say ----------------------------------------------------------------

  function Members(rows: Rows, t: Thread): set<nat> {
    set id | id in rows && ThreadOf(rows[id]) == t
  }

  function Unread(rows: Rows, t: Thread): set<nat> {
    set id | id in rows && ThreadOf(rows[id]) == t && IsIncomingUnread(rows[id])
  }

  ghost predicate IsLatest(rows: Rows, t: Thread, id: nat) {
    id in Members(rows, t) && forall j :: j in Members(rows, t) && j != id ==> Before(rows[j], rows[id])
  }

  predicate Describes(c: Contact, m: SMS) {
    c.iccid == m.iccid && c.lastSmsId == m.id && c.lastTimestamp == m.timestamp && c.lastContent == m.content
    && c.lastType == m.smsType
  }

  ghost predicate IsContactOf(rows: Rows, t: Thread, c: Contact) {
    c.unreadCount == |Unread(rows, t)| && exists id :: IsLatest(rows, t, id) && Describes(c, rows[id])
  }

  /** This thread's row is right: there is one exactly when there are messages, and it describes them. */
  ghost predicate ExactAt(rows: Rows, contacts: Contacts, t: Thread) {
    if Members(rows, t) == {} then t !in contacts else t in contacts && IsContactOf(rows, t, contacts[t])
  }

  /** Every thread with a peer is right, and threads without one have no row. */
  ghost predicate Exact(rows: Rows, contacts: Contacts) {
    forall t: Thread :: if Blank(t.peer) then t !in contacts else ExactAt(rows, contacts, t)
  }

  /** The latest message of a thread is the newest, of several with one time the one stored last. */
  lemma LatestIs(rows: Rows, t: Thread, id: nat)
    requires RowsOk(rows)
    ensures IsLatest(rows, t, id) <==>
            && id in rows && rows[id].imsi == t.imsi && rows[id].peer == t.peer
            && forall j | j in rows && rows[j].imsi == t.imsi && rows[j].peer == t.peer ::
                 rows[j].timestamp < rows[id].timestamp || (rows[j].timestamp == rows[id].timestamp && j <= id)
  {
    assert forall j :: j in Members(rows, t) <==> j in rows && rows[j].imsi == t.imsi && rows[j].peer == t.peer;
  }

  lemma OneLatest(rows: Rows, t: Thread, a: nat, b: nat)
    requires IsLatest(rows, t, a) && IsLatest(rows, t, b)
    ensures a == b
  {
  }

  /** The messages determine the row. */
  lemma OneContact(rows: Rows, t: Thread, c: Contact, d: Contact)
    requires IsContactOf(rows, t, c) && IsContactOf(rows, t, d)
    ensures c == d
  {
    var i :| IsLatest(rows, t, i) && Describes(c, rows[i]);
    var j :| IsLatest(rows, t, j) && Describes(d, rows[j]);
    OneLatest(rows, t, i, j);
  }

  // ---- one more message ----------------------------------------------------------------------------------

  lemma MembersGrow(rows: Rows, m: SMS, t: Thread)
    requires m.id !in rows
    ensures Members(rows[m.id := m], t) == if ThreadOf(m) == t then Members(rows, t) + {m.id} else Members(rows, t)
    ensures Unread(rows[m.id := m], t) ==
            if ThreadOf(m) == t && IsIncomingUnread(m) then Unread(rows, t) + {m.id} else Unread(rows, t)
  {
  }

  lemma OtherThread(rows: Rows, m: SMS, contacts: Contacts, contacts': Contacts, t: Thread)
    requires m.id !in rows && ThreadOf(m) != t && ExactAt(rows, contacts, t)
    requires t in contacts <==> t in contacts'
    requires t in contacts ==> contacts[t] == contacts'[t]
    ensures ExactAt(rows[m.id := m], contacts', t)
  {
    MembersGrow(rows, m, t);
    if Members(rows, t) != {} {
      var id :| IsLatest(rows, t, id) && Describes(contacts[t], rows[id]);
      assert IsLatest(rows[m.id := m], t, id);
    }
  }

  lemma UpsertedContact(rows: Rows, contacts: Contacts, m: SMS)
    requires m.id !in rows && ExactAt(rows, contacts, ThreadOf(m))
    ensures var c := UpsertContact(contacts, m)[ThreadOf(m)];
      Describes(c, m) && c.unreadCount == |Unread(rows[m.id := m], ThreadOf(m))|
  {
    MembersGrow(rows, m, ThreadOf(m));
    if Members(rows, ThreadOf(m)) == {} {
      assert Unread(rows, ThreadOf(m)) <= Members(rows, ThreadOf(m));
    }
  }

  /**
   Saving a message and upserting its contact keeps the thread's row right exactly when the message
   comes after every other of the thread.
   */
  lemma SaveIsExactIff(rows: Rows, contacts: Contacts, m: SMS)
    requires RowsOk(rows) && m.id !in rows && ExactAt(rows, contacts, ThreadOf(m))
    ensures ExactAt(rows[m.id := m], UpsertContact(contacts, m), ThreadOf(m)) <==>
            forall id :: id in Members(rows, ThreadOf(m)) ==> Before(rows[id], m)
  {
    var t, rows', c := ThreadOf(m), rows[m.id := m], UpsertContact(contacts, m)[ThreadOf(m)];
    MembersGrow(rows, m, t);
    UpsertedContact(rows, contacts, m);
    if forall id :: id in Members(rows, t) ==> Before(rows[id], m) {
      assert IsLatest(rows', t, m.id);
    }
    assert forall id :: IsLatest(rows', t, id) && Describes(c, rows'[id]) ==> id == m.id;
  }

  /** Scanning on: the next message, later than all scanned so far, keeps the whole index right. */
  lemma ScanKeepsExact(rows: Rows, contacts: Contacts, m: SMS)
    requires RowsOk(rows) && m.id !in rows && Exact(rows, contacts)
    requires forall id :: id in rows ==> Before(rows[id], m)
    ensures Exact(rows[m.id := m], if Blank(m.peer) then contacts else UpsertContact(contacts, m))
  {
    var contacts' := if Blank(m.peer) then contacts else UpsertContact(contacts, m);
    forall t: Thread | !Blank(t.peer)
      ensures ExactAt(rows[m.id := m], contacts', t)
    {
      if ThreadOf(m) == t {
        SaveIsExactIff(rows, contacts, m);
      } else {
        OtherThread(rows, m, contacts, contacts', t);
      }
    }
  }

  // ---- the direct recomputation -----------------------------------------------------------------------------

  /** What rebuilding one thread does; `empty` is reported for a thread without messages. */
  ghost predicate Rebuilt(rows: Rows, contacts: Contacts, imsi: string, peer: string, contacts': Contacts, empty: bool) {
    var t := Thread(TrimSpace(imsi), TrimSpace(peer));
    if t.imsi == "" || t.peer == "" then contacts' == contacts && empty
    else if Members(rows, t) == {} then contacts' == contacts - {t} && empty
    else t in contacts' && IsContactOf(rows, t, contacts'[t]) && contacts' == contacts[t := contacts'[t]] && !empty
  }

  predicate Addressable(t: Thread) {
    Trimmed(t.imsi) && Trimmed(t.peer) && t.imsi != "" && t.peer != ""
  }

  /** The scan agrees with the direct recomputation: rebuilding any thread afterwards changes nothing. */
  lemma RebuildAgrees(rows: Rows, contacts: Contacts, imsi: string, peer: string, contacts': Contacts, empty: bool)
    requires Exact(rows, contacts) && Rebuilt(rows, contacts, imsi, peer, contacts', empty)
    ensures contacts' == contacts
  {
    var t := Thread(TrimSpace(imsi), TrimSpace(peer));
    TrimSpaceShape(peer);
    if t.imsi != "" && t.peer != "" {
      assert ExactAt(rows, contacts, t);
      if Members(rows, t) != {} {
        OneContact(rows, t, contacts[t], contacts'[t]);
      }
    }
  }

  // ---- deletions -------------------------------------------------------------------------------------------

  /** The index is right for every thread that can be asked for by its trimmed names. */
  ghost predicate ExactOnAddressable(rows: Rows, contacts: Contacts) {
    forall t :: Addressable(t) ==> ExactAt(rows, contacts, t)
  }

  lemma Shrink(rows: Rows, rows': Rows, contacts: Contacts, contacts': Contacts, t: Thread)
    requires ExactAt(rows, contacts, t)
    requires Members(rows', t) == Members(rows, t) && forall id :: id in Members(rows, t) ==> rows'[id] == rows[id]
    requires t in contacts <==> t in contacts'
    requires t in contacts ==> contacts[t] == contacts'[t]
    ensures ExactAt(rows', contacts', t)
  {
    assert Unread(rows', t) == Unread(rows, t) by {
      assert forall id :: id in Unread(rows', t) ==> id in Members(rows', t);
      assert forall id :: id in Unread(rows, t) ==> id in Members(rows, t) && id in Members(rows', t);
    }
    if Members(rows, t) != {} {
      var id :| IsLatest(rows, t, id) && Describes(contacts[t], rows[id]);
      assert IsLatest(rows', t, id);
    }
  }

  lemma DeleteElsewhere(rows: Rows, contacts: Contacts, id: nat, contacts': Contacts, t: Thread)
    requires id in rows && Addressable(t) && ExactAt(rows, contacts, t)
    requires t != Thread(TrimSpace(rows[id].imsi), TrimSpace(rows[id].peer))
    requires t in contacts <==> t in contacts'
    requires t in contacts ==> contacts[t] == contacts'[t]
    ensures ExactAt(rows - {id}, contacts', t)
  {
    TrimmedIsFixed(t.imsi);
    TrimmedIsFixed(t.peer);
    assert ThreadOf(rows[id]) != t;
    assert Members(rows - {id}, t) == Members(rows, t);
    Shrink(rows, rows - {id}, contacts, contacts', t);
  }

  /** Deleting one message and rebuilding its thread keeps the index right. */
  lemma DeleteKeepsExact(rows: Rows, contacts: Contacts, id: nat, contacts': Contacts, empty: bool)
    requires id in rows && ExactOnAddressable(rows, contacts)
    requires Rebuilt(rows - {id}, contacts, rows[id].imsi, rows[id].peer, contacts', empty)
    ensures ExactOnAddressable(rows - {id}, contacts')
  {
    var named := Thread(TrimSpace(rows[id].imsi), TrimSpace(rows[id].peer));
    forall t | Addressable(t)
      ensures ExactAt(rows - {id}, contacts', t)
    {
      if t != named {
        DeleteElsewhere(rows, contacts, id, contacts', t);
      }
    }
  }

  /** Deleting a whole thread with its row keeps the index right. */
  lemma DeleteThreadKeepsExact(rows: Rows, contacts: Contacts, gone: Thread)
    requires ExactOnAddressable(rows, contacts)
    ensures ExactOnAddressable(rows - Members(rows, gone), contacts - {gone})
  {
    var rows' := rows - Members(rows, gone);
    forall t | Addressable(t)
      ensures ExactAt(rows', contacts - {gone}, t)
    {
      if t == gone {
        assert Members(rows', t) == {};
      } else {
        assert Members(rows', t) == Members(rows, t);
        Shrink(rows, rows', contacts, contacts - {gone}, t);
      }
    }
  }
}
