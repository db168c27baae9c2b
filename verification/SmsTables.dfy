/** The message and contact rows that several stores share. */
module SmsTables {
  datatype SMS = SMS(
    id: nat,
    messageId: string,
    imsi: string,
    iccid: string,
    peer: string,
    localPhone: string,
    sender: string,
    recipient: string,
    content: string,
    smsType: int,
    status: int,
    timestamp: int)

  const INCOMING := 1
  const OUTGOING := 2
  const UNREAD := 0

  /** A thread: the primary key of the contact table. */
  datatype Thread = Thread(imsi: string, peer: string)

  datatype Contact = Contact(
    iccid: string,
    lastSmsId: nat,
    lastTimestamp: int,
    lastContent: string,
    lastType: int,
    unreadCount: int)

  predicate IsIncomingUnread(m: SMS) {
    m.smsType == INCOMING && m.status == UNREAD
  }

  function ThreadOf(m: SMS): Thread {
    Thread(m.imsi, m.peer)
  }

  /** A message's contact row is inserted, or overwritten with one more unread if it is incoming and unread. */
  function UpsertContact(contacts: map<Thread, Contact>, m: SMS): map<Thread, Contact> {
    var t := ThreadOf(m);
    var seen := if t in contacts then contacts[t].unreadCount else 0;
    contacts[t := Contact(m.iccid, m.id, m.timestamp, m.content, m.smsType,
                          if IsIncomingUnread(m) then seen + 1 else seen)]
  }
}
