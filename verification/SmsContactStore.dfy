/** The SMS and contact tables as an object: paged backfill, direct recomputation and deletion. */
module SmsContactStore {
  import opened Text
  import opened Wrappers
  import opened SmsTables
  import opened SmsContacts

  /** Where the scan stands; it has not begun while both parts are unset. */
  datatype Cursor = Cursor(timestamp: int, id: nat)

  predicate Passed(c: Cursor, m: SMS) {
    (c.timestamp != ZERO_TIME || c.id != 0)
    && !(m.timestamp > c.timestamp || (m.timestamp == c.timestamp && m.id > c.id))
  }

  ghost predicate Ascending(batch: seq<SMS>) {
    forall i, j :: 0 <= i < j < |batch| ==> Before(batch[i], batch[j])
  }

  /** A page: the first rows past the cursor, in order, and all of them if fewer than the limit. */
  ghost predicate IsPage(rows: Rows, c: Cursor, limit: nat, batch: seq<SMS>) {
    && Ascending(batch) && |batch| <= limit
    && (forall i :: 0 <= i < |batch| ==> batch[i].id in rows && rows[batch[i].id] == batch[i] && !Passed(c, batch[i]))
    && (forall id :: id in rows && !Passed(c, rows[id]) && rows[id] !in batch ==>
          |batch| == limit && forall i :: 0 <= i < |batch| ==> Before(batch[i], rows[id]))
  }

  function Ids(batch: seq<SMS>): set<nat> {
    set m | m in batch :: m.id
  }

  function FilledAt(rows: Rows, ids: set<nat>): Rows {
    map id | id in rows :: if id in ids then WithPeer(rows[id]) else rows[id]
  }

  lemma NormalizedIsTrimmed(m: SMS)
    ensures var p := NormalizePeer(m.smsType, m.sender, m.recipient); TrimSpace(p) == p
  {
    TrimSpaceShape(m.sender);
    TrimSpaceShape(m.recipient);
  }

  /** The backfill runs while messages exist and either no contact does or some peer is missing. */
  predicate NeedsBackfill(rows: Rows, contacts: Contacts) {
    rows != map[] && (contacts == map[] || exists id :: id in rows && rows[id].peer == "")
  }

  /** The rows the scan has passed: it has filled in their peers and counted them. */
  function PassedIds(rows: Rows, c: Cursor): set<nat> {
    set id | id in rows && Passed(c, rows[id])
  }

  function Seen(rows: Rows, ids: set<nat>): Rows {
    map id | id in rows && id in ids :: WithPeer(rows[id])
  }

  ghost predicate Scanned(original: Rows, ids: set<nat>, rows: Rows, contacts: Contacts) {
    rows == FilledAt(original, ids) && Exact(Seen(original, ids), contacts)
  }

  lemma OneMore(original: Rows, ids: set<nat>, id: nat)
    requires id in original
    ensures FilledAt(original, ids + {id}) == FilledAt(original, ids)[id := WithPeer(original[id])]
    ensures Seen(original, ids + {id}) == Seen(original, ids)[id := WithPeer(original[id])]
  {
  }

  /** What has not been passed is still as it was, so a page of the table is a page of the original. */
  lemma PageOfOriginal(original: Rows, rows: Rows, c: Cursor, limit: nat, batch: seq<SMS>)
    requires RowsOk(original) && rows == FilledAt(original, PassedIds(original, c)) && IsPage(rows, c, limit, batch)
    ensures IsPage(original, c, limit, batch)
  {
    forall id | id in original
      ensures Passed(c, rows[id]) == Passed(c, original[id]) && (!Passed(c, rows[id]) ==> rows[id] == original[id])
    {
    }
    forall i | 0 <= i < |batch|
      ensures batch[i].id in original && original[batch[i].id] == batch[i] && !Passed(c, batch[i])
    {
      assert rows[batch[i].id] == batch[i];
    }
  }

  lemma InBatch(rows: Rows, c: Cursor, limit: nat, batch: seq<SMS>, id: nat)
    requires RowsOk(rows) && IsPage(rows, c, limit, batch) && id in rows
    ensures id in Ids(batch) <==> rows[id] in batch
    ensures id in Ids(batch) ==> exists i :: 0 <= i < |batch| && batch[i] == rows[id]
  {
    if id in Ids(batch) {
      var m :| m in batch && m.id == id;
      var i :| 0 <= i < |batch| && batch[i] == m;
      assert rows[batch[i].id] == batch[i];
    }
    if rows[id] in batch {
      var i :| 0 <= i < |batch| && batch[i] == rows[id];
      assert rows[batch[i].id] == batch[i];
    }
  }

  /** Moving the cursor to the page's last row passes exactly the page. */
  lemma PageAdvances(rows: Rows, c: Cursor, limit: nat, batch: seq<SMS>)
    requires RowsOk(rows) && IsPage(rows, c, limit, batch) && batch != []
    ensures var last := batch[|batch| - 1];
      PassedIds(rows, Cursor(last.timestamp, last.id)) == PassedIds(rows, c) + Ids(batch)
    ensures batch[0].id in rows.Keys - PassedIds(rows, c)
    ensures forall i :: 0 <= i < |batch| ==> batch[i].id in rows && batch[i].id !in PassedIds(rows, c)
    ensures forall id, i :: id in PassedIds(rows, c) && 0 <= i < |batch| ==> Before(rows[id], batch[i])
  {
    var last := batch[|batch| - 1];
    var c' := Cursor(last.timestamp, last.id);
    assert rows[last.id] == last;
    forall id | id in rows
      ensures Passed(c', rows[id]) <==> Passed(c, rows[id]) || id in Ids(batch)
    {
      InBatch(rows, c, limit, batch, id);
      if id in Ids(batch) {
        var i :| 0 <= i < |batch| && batch[i] == rows[id];
        assert i == |batch| - 1 || Before(batch[i], last);
      } else if !Passed(c, rows[id]) {
        assert Before(last, rows[id]);
      }
    }
    forall m | m in batch
      ensures m.id in rows
    {
      var i :| 0 <= i < |batch| && batch[i] == m;
    }
  }

  lemma IdsAppend(batch: seq<SMS>, m: SMS)
    ensures Ids(batch + [m]) == Ids(batch) + {m.id}
  {
    assert forall n :: n in batch + [m] <==> n in batch || n == m;
  }

  lemma NothingScanned(rows: Rows)
    ensures Scanned(rows, PassedIds(rows, Cursor(ZERO_TIME, 0)), rows, map[])
  {
    assert PassedIds(rows, Cursor(ZERO_TIME, 0)) == {};
    assert forall t :: Members(Seen(rows, {}), t) == {};
  }

  lemma FilledIsOk(rows: Rows, ids: set<nat>)
    requires RowsOk(rows)
    ensures RowsOk(FilledAt(rows, ids))
  {
  }

  /** An empty page means that every row has been passed. */
  lemma AllScanned(rows: Rows, c: Cursor, limit: nat)
    requires IsPage(rows, c, limit, []) && limit > 0
    ensures FilledAt(rows, PassedIds(rows, c)) == Filled(rows) == Seen(rows, PassedIds(rows, c))
  {
    forall id | id in rows
      ensures Passed(c, rows[id])
    {
      assert rows[id] !in [];
    }
  }

  lemma SmallerCount(a: set<nat>, b: set<nat>)
    requires a < b
    ensures |a| < |b|
  {
    assert b == a + (b - a);
  }

  class ContactStore {
    var rows: Rows
    var contacts: Contacts

    constructor (rows: Rows, contacts: Contacts)
      ensures this.rows == rows && this.contacts == contacts
    {
      this.rows, this.contacts := rows, contacts;
    }

    /** The smallest row that is past the cursor and after every row of the page so far. */
    method NextRow(c: Cursor, batch: seq<SMS>) returns (next: Option<nat>)
      requires RowsOk(rows)
      ensures next.None? ==> forall id :: id in rows && !Passed(c, rows[id]) ==> rows[id] in batch
      ensures next.Some? ==> next.value in rows && !Passed(c, rows[next.value]) && rows[next.value] !in batch
      ensures next.Some? ==> forall id :: id in rows && id != next.value && !Passed(c, rows[id]) && rows[id] !in batch ==>
                Before(rows[next.value], rows[id])
    {
      next := None;
      var left := rows.Keys;
      while left != {}
        invariant left <= rows.Keys
        invariant next.None? ==> forall id :: id in rows && id !in left && !Passed(c, rows[id]) ==> rows[id] in batch
        invariant next.Some? ==> next.value in rows && !Passed(c, rows[next.value]) && rows[next.value] !in batch
        invariant next.Some? ==> forall id | id in rows && id !in left && id != next.value ::
                    !Passed(c, rows[id]) && rows[id] !in batch ==> Before(rows[next.value], rows[id])
        decreases |left|
      {
        var id :| id in left;
        if !Passed(c, rows[id]) && rows[id] !in batch && (next.None? || Before(rows[id], rows[next.value])) {
          next := Some(id);
        }
        left := left - {id};
      }
    }

    method FetchPage(c: Cursor, limit: nat) returns (batch: seq<SMS>)
      requires RowsOk(rows)
      ensures IsPage(rows, c, limit, batch)
    {
      batch := [];
      while |batch| < limit
        invariant |batch| <= limit && Ascending(batch)
        invariant forall i :: 0 <= i < |batch| ==> batch[i].id in rows && rows[batch[i].id] == batch[i] && !Passed(c, batch[i])
        invariant forall id :: id in rows && !Passed(c, rows[id]) && rows[id] !in batch ==>
                    forall i :: 0 <= i < |batch| ==> Before(batch[i], rows[id])
      {
        var next := NextRow(c, batch);
        if next.None? {
          return;
        }
        batch := batch + [rows[next.value]];
      }
    }

    method UpsertContactFromSMS(m: SMS)
      modifies this`contacts
      ensures contacts == UpsertContact(old(contacts), m)
    {
      var t := ThreadOf(m);
      var unread := if t in contacts then contacts[t].unreadCount else 0;
      if IsIncomingUnread(m) {
        unread := unread + 1;
      }
      contacts := contacts[t := Contact(m.iccid, m.id, m.timestamp, m.content, m.smsType, unread)];
    }

    /** One row of a page: fill in a missing peer, and count the message if it has one. */
    method ProcessRow(row: SMS, ghost original: Rows, ghost ids: set<nat>)
      requires RowsOk(original) && Scanned(original, ids, rows, contacts)
      requires row.id in original && original[row.id] == row && row.id !in ids
      requires forall id :: id in original && id in ids ==> Before(original[id], row)
      modifies this
      ensures Scanned(original, ids + {row.id}, rows, contacts)
    {
      var m := row;
      OneMore(original, ids, row.id);
      ScanKeepsExact(Seen(original, ids), contacts, WithPeer(row));
      NormalizedIsTrimmed(row);
      if Blank(m.peer) {
        m := m.(peer := NormalizePeer(m.smsType, m.sender, m.recipient));
        if m.peer != "" {
          rows := rows[m.id := m];
        }
      }
      if m.peer != "" {
        UpsertContactFromSMS(m);
      }
    }

    /** One page's transaction. */
    method ProcessPage(batch: seq<SMS>, ghost original: Rows, ghost ids: set<nat>)
      requires RowsOk(original) && Scanned(original, ids, rows, contacts) && Ascending(batch)
      requires forall i :: 0 <= i < |batch| ==> batch[i].id in original && original[batch[i].id] == batch[i] && batch[i].id !in ids
      requires forall id, i :: id in original && id in ids && 0 <= i < |batch| ==> Before(original[id], batch[i])
      modifies this
      ensures Scanned(original, ids + Ids(batch), rows, contacts)
    {
      ghost var done := ids;
      for i := 0 to |batch|
        invariant done == ids + Ids(batch[..i]) && Scanned(original, done, rows, contacts)
        invariant forall j :: i <= j < |batch| ==> batch[j].id !in done
        invariant forall id, j :: id in original && id in done && i <= j < |batch| ==> Before(original[id], batch[j])
      {
        ProcessRow(batch[i], original, done);
        assert batch[..i + 1] == batch[..i] + [batch[i]];
        IdsAppend(batch[..i], batch[i]);
        done := done + {batch[i].id};
      }
      assert batch[..|batch|] == batch;
    }

    /**
     The paged backfill ends for every page size, fills in every peer that can be told, and leaves
     exactly the contact rows of the messages.
     */
    method BackfillPeerAndContacts(batchSize: int)
      requires RowsOk(rows)
      modifies this
      ensures !NeedsBackfill(old(rows), old(contacts)) ==> rows == old(rows) && contacts == old(contacts)
      ensures NeedsBackfill(old(rows), old(contacts)) ==> rows == Filled(old(rows)) && Exact(rows, contacts)
    {
      var limit: nat := if batchSize <= 0 then DEFAULT_BATCH_SIZE else batchSize;
      if !NeedsBackfill(rows, contacts) {
        return;
      }
      ghost var original := rows;
      contacts := map[];
      var cursor := Cursor(ZERO_TIME, 0);
      NothingScanned(original);
      while true
        invariant Scanned(original, PassedIds(original, cursor), rows, contacts)
        decreases |original.Keys - PassedIds(original, cursor)|
      {
        FilledIsOk(original, PassedIds(original, cursor));
        var batch := FetchPage(cursor, limit);
        PageOfOriginal(original, rows, cursor, limit, batch);
        if batch == [] {
          AllScanned(original, cursor, limit);
          return;
        }
        PageAdvances(original, cursor, limit, batch);
        ProcessPage(batch, original, PassedIds(original, cursor));
        var last := batch[|batch| - 1];
        ghost var left := original.Keys - PassedIds(original, cursor);
        cursor := Cursor(last.timestamp, last.id);
        assert batch[0] in batch && batch[0].id in Ids(batch);
        SmallerCount(original.Keys - PassedIds(original, cursor), left);
      }
    }

    method FindLatest(t: Thread) returns (latest: Option<nat>)
      requires RowsOk(rows)
      ensures latest.None? ==> Members(rows, t) == {}
      ensures latest.Some? ==> IsLatest(rows, t, latest.value)
    {
      latest := None;
      var left := rows.Keys;
      while left != {}
        invariant left <= rows.Keys
        invariant latest.None? ==> forall id :: id in Members(rows, t) ==> id in left
        invariant latest.Some? ==> latest.value in Members(rows, t)
        invariant latest.Some? ==> forall id :: id in Members(rows, t) && id !in left && id != latest.value ==>
                    Before(rows[id], rows[latest.value])
        decreases |left|
      {
        var id :| id in left;
        if ThreadOf(rows[id]) == t && (latest.None? || Before(rows[latest.value], rows[id])) {
          latest := Some(id);
        }
        left := left - {id};
      }
    }

    method RebuildContact(imsi: string, peer: string) returns (empty: bool)
      requires RowsOk(rows)
      modifies this`contacts
      ensures Rebuilt(rows, old(contacts), imsi, peer, contacts, empty)
    {
      var t := Thread(TrimSpace(imsi), TrimSpace(peer));
      if t.imsi == "" || t.peer == "" {
        return true;
      }
      var latest := FindLatest(t);
      match latest
      case None =>
        contacts := contacts - {t};
        return true;
      case Some(id) =>
        var m := rows[id];
        var unread := |Unread(rows, t)|;
        contacts := contacts[t := Contact(m.iccid, m.id, m.timestamp, m.content, m.smsType, unread)];
        return false;
    }

    /** Deletes a message and rebuilds its thread. */
    method DeleteByID(id: nat) returns (found: bool, empty: bool)
      requires RowsOk(rows)
      modifies this
      ensures found == (id in old(rows))
      ensures !found ==> rows == old(rows) && contacts == old(contacts)
      ensures found ==> rows == old(rows) - {id}
      ensures found ==> Rebuilt(rows, old(contacts), old(rows)[id].imsi, old(rows)[id].peer, contacts, empty)
      ensures ExactOnAddressable(old(rows), old(contacts)) ==> ExactOnAddressable(rows, contacts)
    {
      if id !in rows {
        return false, true;
      }
      var m := rows[id];
      rows := rows - {id};
      empty := RebuildContact(m.imsi, m.peer);
      if ExactOnAddressable(old(rows), old(contacts)) {
        DeleteKeepsExact(old(rows), old(contacts), id, contacts, empty);
      }
      found := true;
    }

    /** Deletes a thread with its contact row; nothing happens when it has no messages. */
    method DeleteByIMSIAndPeer(imsi: string, peer: string) returns (deleted: nat)
      modifies this
      ensures var t := Thread(TrimSpace(imsi), TrimSpace(peer));
        && deleted == (if t.imsi == "" || t.peer == "" then 0 else |Members(old(rows), t)|)
        && (deleted == 0 ==> rows == old(rows) && contacts == old(contacts))
        && (deleted > 0 ==> rows == old(rows) - Members(old(rows), t) && contacts == old(contacts) - {t})
      ensures ExactOnAddressable(old(rows), old(contacts)) ==> ExactOnAddressable(rows, contacts)
    {
      var t := Thread(TrimSpace(imsi), TrimSpace(peer));
      if t.imsi == "" || t.peer == "" {
        return 0;
      }
      var gone := Members(rows, t);
      if gone == {} {
        return 0;
      }
      if ExactOnAddressable(rows, contacts) {
        DeleteThreadKeepsExact(rows, contacts, t);
      }
      deleted := |gone|;
      rows := rows - gone;
      contacts := contacts - {t};
    }
  }
}
