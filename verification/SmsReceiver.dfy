/** The tables as an object, and the assembly transaction run on it statement by statement. */
module SmsReceiver {
  import opened SmsTables
  import opened IncomingSms
  import opened Wrappers

  class Receiver {
    var journal: seq<Row>
    var inbox: seq<SMS>
    var contacts: map<Thread, Contact>
    var nextId: nat

    ghost function Value(): Tables
      reads this
    {
      Tables(journal, inbox, contacts, nextId)
    }

    constructor ()
      ensures Value() == Tables([], [], map[], 1)
    {
      journal, inbox, contacts, nextId := [], [], map[], 1;
    }

    method CountFingerprint(fingerprint: string) returns (count: nat)
      ensures count != 0 <==> Journaled(journal, fingerprint)
    {
      count := 0;
      for i := 0 to |journal|
        invariant count != 0 <==> exists j :: 0 <= j < i && journal[j].fingerprint == fingerprint
      {
        if journal[i].fingerprint == fingerprint {
          count := count + 1;
        }
      }
    }

    method CountSame(m: SMS) returns (count: nat)
      ensures count != 0 <==> InInbox(inbox, m)
    {
      count := 0;
      for i := 0 to |inbox|
        invariant count != 0 <==> exists j :: 0 <= j < i && SameMessage(inbox[j], m)
      {
        if SameMessage(inbox[i], m) {
          count := count + 1;
        }
      }
    }

    /** The first pass over the fragments: no sequence number may repeat. */
    static method SeenTwice(fragments: seq<Row>) returns (twice: bool)
      ensures twice == Ambiguous(fragments)
    {
      var seen: map<int, bool> := map[];
      for i := 0 to |fragments|
        invariant !Ambiguous(fragments[..i])
        invariant forall n :: n in seen <==> exists j :: 0 <= j < i && fragments[j].sequence == n
      {
        if fragments[i].sequence in seen {
          return true;
        }
        seen := seen[fragments[i].sequence := true];
      }
      assert fragments[..|fragments|] == fragments;
      return false;
    }

    static lemma OneFragmentMore(rows: seq<Row>, r: Row)
      ensures Join(rows + [r]) == Join(rows) + r.content
      ensures Fingerprints(rows + [r]) == Fingerprints(rows) + {r.fingerprint}
    {
      assert (rows + [r])[..|rows|] == rows;
      assert forall x :: x in rows + [r] <==> x in rows || x == r;
    }

    /** The second pass: the fragments must be numbered from one; their texts are joined on the way. */
    static method JoinInOrder(fragments: seq<Row>) returns (content: Option<string>, fingerprints: set<string>)
      ensures content.Some? <==> InSequence(fragments)
      ensures content.Some? ==> content.value == Join(fragments) && fingerprints == Fingerprints(fragments)
    {
      var text := "";
      fingerprints := {};
      for i := 0 to |fragments|
        invariant forall j :: 0 <= j < i ==> fragments[j].sequence == j + 1
        invariant text == Join(fragments[..i]) && fingerprints == Fingerprints(fragments[..i])
      {
        if fragments[i].sequence != i + 1 {
          return None, fingerprints;
        }
        assert fragments[..i + 1] == fragments[..i] + [fragments[i]];
        OneFragmentMore(fragments[..i], fragments[i]);
        text := text + fragments[i].content;
        fingerprints := fingerprints + {fragments[i].fingerprint};
      }
      assert fragments[..|fragments|] == fragments;
      return Some(text), fingerprints;
    }

    /** A part is stored, and with it the message it completes, or nothing changes. */
    method StorePart(part: Part, window: int, line: Line) returns (o: Outcome)
      modifies this
      ensures (Value(), o) == Store(old(Value()), part, window, line)
    {
      if part.imsi == "" || part.sender == "" || part.fingerprint == "" || part.timestamp == 0
         || part.total < 1 || part.total > 255 || part.sequence < 1 || part.sequence > part.total || window <= 0 {
        return Err(InvalidMetadata);
      }
      var duplicate := CountFingerprint(part.fingerprint);
      if duplicate != 0 {
        return Ok(None);
      }
      // the transaction works on its own copies, which are lost unless it commits
      var journal1 := journal + [RowOf(part)];
      var fragments := Fragments(journal1, RowOf(part), window);
      var twice := SeenTwice(fragments);
      if twice {
        return Err(AmbiguousReference);
      }
      if |fragments| < part.total {
        journal := journal1;
        return Ok(None);
      }
      if |fragments| != part.total {
        return Err(InvalidFragmentCount);
      }
      var content, fingerprints := JoinInOrder(fragments);
      if content.None? {
        return Err(IncompleteSequence);
      }
      var sms := SMS(nextId, "ims-in-" + fragments[0].fingerprint, part.imsi, line.iccid, part.sender, line.phone,
                     part.sender, line.phone, content.value, INCOMING, UNREAD, fragments[0].timestamp);
      var existing := CountSame(sms);
      journal := Completed(journal1, fingerprints, sms.messageId);
      if existing == 0 {
        inbox := inbox + [sms];
        nextId := nextId + 1;
        contacts := UpsertContact(contacts, sms);
        return Ok(Some(sms));
      }
      return Ok(None);
    }
  }
}
