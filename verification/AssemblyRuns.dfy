/**
 Exactly-once assembly: the parts of one message, delivered in any order and any number of times
 among fragments of anything else, become one inbox row.
 */
module AssemblyRuns {
  import opened SmsTables
  import opened IncomingSms
  import opened Wrappers

  // ---- the rows of one message --------------------------------------------------------------------

  /** The journal rows of the parts of one message, numbered from one, within one window of each other. */
  ghost predicate MessageRows(own: seq<Row>, window: int) {
    && own != []
    && own[0].key.total == |own|
    && (forall i :: 0 <= i < |own| ==> own[i].sequence == i + 1 && own[i].key == own[0].key && Pending(own[i]))
    && (forall i, j :: 0 <= i < j < |own| ==> own[i].fingerprint != own[j].fingerprint)
    && (forall i, j :: 0 <= i < |own| && 0 <= j < |own| ==> own[i].timestamp <= own[j].timestamp + window)
  }

  predicate IsOwn(own: seq<Row>, fingerprint: string) {
    exists i :: 0 <= i < |own| && own[i].fingerprint == fingerprint
  }

  predicate CloseTo(own: seq<Row>, at: int, window: int) {
    exists i :: 0 <= i < |own| && own[i].timestamp - window <= at <= own[i].timestamp + window
  }

  /** A fragment that could be taken for part of the message although it is not one. */
  predicate Rival(own: seq<Row>, window: int, r: Row)
    requires own != []
  {
    Pending(r) && r.key == own[0].key && CloseTo(own, r.timestamp, window) && !IsOwn(own, r.fingerprint)
  }

  /** Where the message stands in the journal when the parts in `got`, not all of them, have arrived. */
  ghost predicate Waiting(journal: seq<Row>, own: seq<Row>, window: int, got: set<nat>)
    requires own != []
  {
    && DistinctFingerprints(journal)
    && (forall r :: r in journal ==> !Rival(own, window, r))
    && (forall i :: 0 <= i < |own| && i !in got ==> !Journaled(journal, own[i].fingerprint))
    && (forall i :: i in got ==> i < |own| && own[i] in journal)
  }

  function Chosen(own: seq<Row>, got: set<nat>): set<Row> {
    set i | i in got && i < |own| :: own[i]
  }

  // ---- no fragment is listed twice ------------------------------------------------------------------

  predicate NoRepeats(rows: seq<Row>) {
    forall i, j :: 0 <= i < j < |rows| ==> rows[i] != rows[j]
  }

  lemma {:induction false} MatchingHasNoRepeats(journal: seq<Row>, key: Key, at: int, window: int)
    requires DistinctFingerprints(journal)
    ensures NoRepeats(Matching(journal, key, at, window))
  {
    if journal != [] {
      var n := |journal| - 1;
      MatchingHasNoRepeats(journal[..n], key, at, window);
      MatchingMembers(journal[..n], key, at, window, journal[n]);
      assert journal[n] !in journal[..n];
    }
  }

  lemma {:induction false} InsertHasNoRepeats(r: Row, rows: seq<Row>)
    requires NoRepeats(rows) && Sorted(rows) && r !in rows
    ensures NoRepeats(Insert(r, rows))
  {
    if rows != [] && r.sequence > rows[0].sequence {
      InsertHasNoRepeats(r, rows[1..]);
      InsertSorts(r, rows[1..]);
      assert rows[0] !in rows[1..];
      var rest := Insert(r, rows[1..]);
      assert rows[0] !in rest;
    }
  }

  lemma {:induction false} OrderHasNoRepeats(rows: seq<Row>)
    requires NoRepeats(rows)
    ensures NoRepeats(OrderBySequence(rows))
  {
    if rows != [] {
      OrderHasNoRepeats(rows[1..]);
      OrderSorts(rows[1..]);
      assert rows[0] !in rows[1..];
      InsertHasNoRepeats(rows[0], OrderBySequence(rows[1..]));
    }
  }

  lemma {:induction false} NoRepeatsCounts(rows: seq<Row>)
    requires NoRepeats(rows)
    ensures |set r | r in rows| == |rows|
  {
    if rows != [] {
      var k := |rows| - 1;
      NoRepeatsCounts(rows[..k]);
      assert rows[k] !in rows[..k];
      assert (set r | r in rows) == (set r | r in rows[..k]) + {rows[k]};
    }
  }

  lemma ChosenWithout(own: seq<Row>, got: set<nat>, i: nat)
    requires i in got && i < |own|
    requires forall i, j :: 0 <= i < j < |own| ==> own[i].fingerprint != own[j].fingerprint
    ensures Chosen(own, got) == Chosen(own, got - {i}) + {own[i]} && own[i] !in Chosen(own, got - {i})
  {
    assert forall j :: j in got <==> j in got - {i} || j == i;
  }

  lemma {:induction false} ChosenCounts(own: seq<Row>, got: set<nat>)
    requires forall i :: i in got ==> i < |own|
    requires forall i, j :: 0 <= i < j < |own| ==> own[i].fingerprint != own[j].fingerprint
    ensures |Chosen(own, got)| == |got|
  {
    if i :| i in got {
      ChosenCounts(own, got - {i});
      ChosenWithout(own, got, i);
    } else {
      assert Chosen(own, got) == {};
    }
  }

  /** The positions of a message of n parts. */
  function Upto(n: nat): (r: set<nat>)
    ensures forall i: nat :: i in r <==> i < n
    ensures |r| == n
  {
    if n == 0 then {} else Upto(n - 1) + {n - 1}
  }

  lemma SubsetCounts(a: set<nat>, b: set<nat>)
    requires a <= b
    ensures |a| <= |b| && (|a| == |b| ==> a == b)
  {
    assert |b| == |a| + |b - a| by {
      assert b == a + (b - a);
    }
    if |b - a| == 0 {
      assert b - a == {};
    }
  }

  // ---- what a part of the message finds ---------------------------------------------------------------

  lemma SameFingerprintSameRow(journal: seq<Row>, r: Row, q: Row)
    requires DistinctFingerprints(journal) && r in journal && q in journal && r.fingerprint == q.fingerprint
    ensures r == q
  {
    var i :| 0 <= i < |journal| && journal[i] == r;
    var j :| 0 <= j < |journal| && journal[j] == q;
  }

  /** A row near a part is one of the parts that have arrived, or that part itself. */
  lemma FoundIsChosen(journal: seq<Row>, own: seq<Row>, window: int, got: set<nat>, i: nat, r: Row)
    requires MessageRows(own, window) && Waiting(journal, own, window, got) && i < |own| && i !in got
    requires r in journal && Near(r, own[i].key, own[i].timestamp, window)
    ensures r in Chosen(own, got)
  {
    assert CloseTo(own, r.timestamp, window);
    assert r.key == own[0].key && !Rival(own, window, r);
    var j :| 0 <= j < |own| && own[j].fingerprint == r.fingerprint;
    assert Journaled(journal, own[j].fingerprint);
    SameFingerprintSameRow(journal, r, own[j]);
  }

  lemma ChosenIsFound(own: seq<Row>, window: int, i: nat, j: nat)
    requires MessageRows(own, window) && i < |own| && j < |own|
    ensures Near(own[j], own[i].key, own[i].timestamp, window)
  {
  }

  /** The fragments found for a part are the parts that have arrived, it included. */
  lemma FoundRows(journal: seq<Row>, own: seq<Row>, window: int, got: set<nat>, i: nat)
    requires MessageRows(own, window) && Waiting(journal, own, window, got) && i < |own| && i !in got && |own| > 1
    ensures var rows := Fragments(journal + [own[i]], own[i], window);
      Sorted(rows) && NoRepeats(rows) && (set r | r in rows) == Chosen(own, got + {i})
  {
    var journal1 := journal + [own[i]];
    var rows := Fragments(journal1, own[i], window);
    assert own[i].key.total == |own|;
    FragmentsAre(journal1, own[i], window);
    assert !Journaled(journal, own[i].fingerprint);
    MatchingHasNoRepeats(journal1, own[i].key, own[i].timestamp, window);
    OrderHasNoRepeats(Matching(journal1, own[i].key, own[i].timestamp, window));
    forall r | r in rows
      ensures r in Chosen(own, got + {i})
    {
      if r != own[i] {
        assert r in journal;
        FoundIsChosen(journal, own, window, got, i, r);
        assert r in Chosen(own, got);
      }
    }
    forall r | r in Chosen(own, got + {i})
      ensures r in rows
    {
      var j :| j in got + {i} && j < |own| && own[j] == r;
      ChosenIsFound(own, window, i, j);
      assert r in journal1;
    }
  }

  /** Without ambiguity, and as many as have arrived. */
  lemma FoundCount(own: seq<Row>, window: int, got: set<nat>, rows: seq<Row>)
    requires MessageRows(own, window) && NoRepeats(rows)
    requires (set r | r in rows) == Chosen(own, got) && forall i :: i in got ==> i < |own|
    ensures !Ambiguous(rows) && |rows| == |got| <= |own|
    ensures |rows| == |own| ==> got == Upto(|own|)
  {
    forall a, b | 0 <= a < b < |rows|
      ensures rows[a].sequence != rows[b].sequence
    {
      assert rows[a] in (set r | r in rows) && rows[b] in (set r | r in rows);
      assert rows[a] in Chosen(own, got) && rows[b] in Chosen(own, got);
      var j :| j in got && j < |own| && own[j] == rows[a];
      var k :| k in got && k < |own| && own[k] == rows[b];
      assert j != k;
    }
    NoRepeatsCounts(rows);
    ChosenCounts(own, got);
    SubsetCounts(got, Upto(|own|));
  }

  /** All of them, in order, when none is missing. */
  lemma FoundAll(own: seq<Row>, window: int, rows: seq<Row>)
    requires MessageRows(own, window) && Sorted(rows) && !Ambiguous(rows) && |rows| == |own|
    requires (set r | r in rows) == Chosen(own, Upto(|own|))
    ensures rows == own
  {
    forall k | 0 <= k < |rows|
      ensures exists j :: 0 <= j < |own| && rows[k] == own[j]
    {
      assert rows[k] in (set r | r in rows);
      assert rows[k] in Chosen(own, Upto(|own|));
    }
    DistinctInRange(rows, |own|);
    forall k | 0 <= k < |rows|
      ensures rows[k] == own[k]
    {
      var j :| 0 <= j < |own| && rows[k] == own[j];
      assert rows[k].sequence == k + 1 == j + 1;
    }
  }

  /** A single-part message finds only itself; a longer one finds what has arrived. */
  lemma OwnFinds(journal: seq<Row>, own: seq<Row>, window: int, got: set<nat>, i: nat)
    requires MessageRows(own, window) && Waiting(journal, own, window, got) && i < |own| && i !in got
    ensures var rows := Fragments(journal + [own[i]], own[i], window);
      && !Ambiguous(rows)
      && (got + {i} == Upto(|own|) ==> rows == own)
      && (got + {i} != Upto(|own|) ==> |rows| < |own|)
  {
    var rows := Fragments(journal + [own[i]], own[i], window);
    assert own[i].key.total == |own|;
    if |own| == 1 {
      assert got == {};
      assert got + {i} == Upto(1);
      assert rows == own;
    } else {
      FoundRows(journal, own, window, got, i);
      FoundCount(own, window, got + {i}, rows);
      if got + {i} == Upto(|own|) {
        FoundAll(own, window, rows);
      }
    }
  }

  // ---- the journal through one delivery ---------------------------------------------------------------

  lemma JoinKeepsWaiting(journal: seq<Row>, own: seq<Row>, window: int, got: set<nat>, i: nat)
    requires MessageRows(own, window) && Waiting(journal, own, window, got) && i < |own| && i !in got
    ensures Waiting(journal + [own[i]], own, window, got + {i})
  {
    var journal1 := journal + [own[i]];
    assert !Journaled(journal, own[i].fingerprint);
    assert IsOwn(own, own[i].fingerprint);
    forall j | 0 <= j < |own| && j !in got + {i}
      ensures !Journaled(journal1, own[j].fingerprint)
    {
      assert !Journaled(journal, own[j].fingerprint);
    }
  }

  /** Rows of other messages join or complete; the rows of this one stay as they are. */
  lemma OthersKeepWaiting(journal: seq<Row>, own: seq<Row>, window: int, got: set<nat>,
                          row: Row, fingerprints: set<string>, messageId: string)
    requires own != [] && Waiting(journal, own, window, got) && messageId != ""
    requires !IsOwn(own, row.fingerprint) && !Rival(own, window, row) && !Journaled(journal, row.fingerprint)
    requires forall i :: i in got && i < |own| ==> own[i].fingerprint !in fingerprints
    ensures Waiting(Completed(journal + [row], fingerprints, messageId), own, window, got)
  {
    var journal1 := journal + [row];
    var journal' := Completed(journal1, fingerprints, messageId);
    assert forall k :: 0 <= k < |journal'| ==> journal'[k].fingerprint == journal1[k].fingerprint;
    forall r | r in journal'
      ensures !Rival(own, window, r)
    {
      var k :| 0 <= k < |journal'| && journal'[k] == r;
      assert k < |journal| ==> journal1[k] == journal[k] && journal[k] in journal;
    }
    forall i | 0 <= i < |own| && i !in got
      ensures !Journaled(journal', own[i].fingerprint)
    {
      assert !Journaled(journal, own[i].fingerprint);
      forall k | 0 <= k < |journal'|
        ensures journal'[k].fingerprint != own[i].fingerprint
      {
        assert journal'[k].fingerprint == journal1[k].fingerprint;
      }
    }
    forall i | i in got
      ensures i < |own| && own[i] in journal'
    {
      var k :| 0 <= k < |journal| && journal[k] == own[i];
      assert journal'[k] == journal[k];
    }
  }

  lemma SettleKeepsFingerprints(t: Tables, rows: seq<Row>, p: Part, line: Line, k: nat)
    requires k < |t.journal|
    ensures var journal' := Settle(t, rows, p, line).0.journal;
      k < |journal'| && journal'[k].fingerprint == t.journal[k].fingerprint
  {
  }

  lemma StoreKeepsJournaled(t: Tables, p: Part, window: int, line: Line, fingerprint: string)
    requires Journaled(t.journal, fingerprint)
    ensures Journaled(Store(t, p, window, line).0.journal, fingerprint)
  {
    var k :| 0 <= k < |t.journal| && t.journal[k].fingerprint == fingerprint;
    SettleKeepsFingerprints(t, Fragments(t.journal + [RowOf(p)], RowOf(p), window), p, line, k);
  }

  lemma StoreKeepsInbox(t: Tables, p: Part, window: int, line: Line, m: SMS)
    requires InInbox(t.inbox, m)
    ensures InInbox(Store(t, p, window, line).0.inbox, m)
  {
    var t' := Store(t, p, window, line).0;
    var k :| 0 <= k < |t.inbox| && SameMessage(t.inbox[k], m);
    assert t'.inbox[k] == t.inbox[k];
  }

  // ---- a message and its deliveries --------------------------------------------------------------------

  function Rows(parts: seq<Part>): seq<Row> {
    seq(|parts|, i requires 0 <= i < |parts| => RowOf(parts[i]))
  }

  /** The parts of one message. */
  ghost predicate Message(parts: seq<Part>, window: int) {
    MessageRows(Rows(parts), window) && forall i :: 0 <= i < |parts| ==> ValidPart(parts[i], window)
  }

  /** The incoming message as it should appear, whatever its id and the line it came in on. */
  function Whole(parts: seq<Part>): SMS
    requires parts != []
  {
    Assembled(Rows(parts), parts[0], Line("", ""), 0)
  }

  /** A delivery: one of the message's own parts, or a fragment of anything else. */
  datatype Delivery = Own(i: nat, line: Line) | Other(p: Part, line: Line)

  predicate Admissible(parts: seq<Part>, window: int, d: Delivery)
    requires parts != []
  {
    match d
    case Own(i, _) => i < |parts|
    case Other(p, _) => !IsOwn(Rows(parts), p.fingerprint) && !Rival(Rows(parts), window, RowOf(p))
  }

  function PartOf(parts: seq<Part>, d: Delivery): Part
    requires d.Own? ==> d.i < |parts|
  {
    match d
    case Own(i, _) => parts[i]
    case Other(p, _) => p
  }

  ghost predicate Deliveries(ts: seq<Tables>, outcomes: seq<Outcome>, ds: seq<Delivery>, parts: seq<Part>, window: int)
    requires parts != []
  {
    && |ts| == |ds| + 1 && |outcomes| == |ds|
    && forall k :: 0 <= k < |ds| ==>
         Admissible(parts, window, ds[k])
         && (ts[k + 1], outcomes[k]) == Store(ts[k], PartOf(parts, ds[k]), window, ds[k].line)
  }

  function Delivered(ds: seq<Delivery>): set<nat> {
    set d | d in ds && d.Own? :: d.i
  }

  /** Where the message stands when the parts in `got` have arrived. */
  ghost predicate Standing(t: Tables, parts: seq<Part>, window: int, got: set<nat>)
    requires parts != []
  {
    && Inv(t, window)
    && if got == Upto(|parts|) then
         InInbox(t.inbox, Whole(parts))
         && forall i :: 0 <= i < |parts| ==> Journaled(t.journal, parts[i].fingerprint)
       else
         Waiting(t.journal, Rows(parts), window, got)
  }

  lemma OwnRepeat(t: Tables, parts: seq<Part>, window: int, got: set<nat>, i: nat, line: Line)
    requires Message(parts, window) && Standing(t, parts, window, got) && i in got && i < |parts|
    ensures Store(t, parts[i], window, line) == (t, Ok(None))
  {
    if got != Upto(|parts|) {
      assert Rows(parts)[i] in t.journal;
      var k :| 0 <= k < |t.journal| && t.journal[k] == Rows(parts)[i];
      assert t.journal[k].fingerprint == parts[i].fingerprint;
    }
    assert Journaled(t.journal, parts[i].fingerprint);
  }

  lemma OwnJoins(t: Tables, parts: seq<Part>, window: int, got: set<nat>, i: nat, line: Line)
    requires Message(parts, window) && Standing(t, parts, window, got)
    requires i < |parts| && i !in got && got + {i} != Upto(|parts|)
    ensures Store(t, parts[i], window, line).1 == Ok(None)
    ensures Standing(Store(t, parts[i], window, line).0, parts, window, got + {i})
  {
    var own := Rows(parts);
    assert got != Upto(|parts|);
    assert own[i] == RowOf(parts[i]) && own[i].key.total == |own|;
    OwnFinds(t.journal, own, window, got, i);
    JoinKeepsWaiting(t.journal, own, window, got, i);
    StoreKeepsInv(t, parts[i], window, line);
    assert !Journaled(t.journal, own[i].fingerprint);
  }

  lemma OwnCompletes(t: Tables, parts: seq<Part>, window: int, got: set<nat>, i: nat, line: Line)
    requires Message(parts, window) && Standing(t, parts, window, got)
    requires i < |parts| && i !in got && got + {i} == Upto(|parts|)
    ensures Store(t, parts[i], window, line) == Complete(t, Rows(parts), parts[i], line)
    ensures InInbox(Store(t, parts[i], window, line).0.inbox, Whole(parts))
  {
    var own := Rows(parts);
    assert i in Upto(|parts|) && got != Upto(|parts|);
    assert own[i] == RowOf(parts[i]) && own[i].key.total == |own|;
    OwnFinds(t.journal, own, window, got, i);
    assert !Journaled(t.journal, own[i].fingerprint);
    assert InSequence(own);
    CompletePutsInInbox(t, parts, window, i, line);
  }

  lemma CompletePutsInInbox(t: Tables, parts: seq<Part>, window: int, i: nat, line: Line)
    requires Message(parts, window) && i < |parts|
    ensures InInbox(Complete(t, Rows(parts), parts[i], line).0.inbox, Whole(parts))
  {
    var t' := Complete(t, Rows(parts), parts[i], line).0;
    var sms := Assembled(Rows(parts), parts[i], line, t.nextId);
    assert Rows(parts)[i].key == Rows(parts)[0].key;
    assert KeyOf(parts[i]) == KeyOf(parts[0]);
    assert SameMessage(sms, Whole(parts));
    if InInbox(t.inbox, sms) {
      var k :| 0 <= k < |t.inbox| && SameMessage(t.inbox[k], sms);
      assert SameMessage(t'.inbox[k], Whole(parts));
    } else {
      assert t'.inbox[|t.inbox|] == sms;
    }
  }

  lemma CompleteJournalsAll(t: Tables, parts: seq<Part>, window: int, got: set<nat>, i: nat, line: Line)
    requires Message(parts, window) && Waiting(t.journal, Rows(parts), window, got)
    requires i < |parts| && got + {i} == Upto(|parts|)
    ensures forall j :: 0 <= j < |parts| ==> Journaled(Complete(t, Rows(parts), parts[i], line).0.journal, parts[j].fingerprint)
  {
    forall j | 0 <= j < |parts|
      ensures Journaled(Complete(t, Rows(parts), parts[i], line).0.journal, parts[j].fingerprint)
    {
      assert j in Upto(|parts|);
      if j in got {
        assert Rows(parts)[j] in t.journal;
      }
      CompleteKeepsRow(t, Rows(parts), parts[i], line, Rows(parts)[j]);
    }
  }

  lemma CompleteKeepsRow(t: Tables, rows: seq<Row>, p: Part, line: Line, r: Row)
    requires rows != [] && r in t.journal + [RowOf(p)]
    ensures Journaled(Complete(t, rows, p, line).0.journal, r.fingerprint)
  {
    var journal := t.journal + [RowOf(p)];
    var journal' := Complete(t, rows, p, line).0.journal;
    var k :| 0 <= k < |journal| && journal[k] == r;
    assert |journal'| == |journal| && journal'[k].fingerprint == r.fingerprint;
  }

  lemma OwnCompletesStanding(t: Tables, parts: seq<Part>, window: int, got: set<nat>, i: nat, line: Line)
    requires Message(parts, window) && Standing(t, parts, window, got)
    requires i < |parts| && i !in got && got + {i} == Upto(|parts|)
    ensures Store(t, parts[i], window, line).1.Ok?
    ensures Standing(Store(t, parts[i], window, line).0, parts, window, got + {i})
  {
    assert i in Upto(|parts|);
    OwnCompletes(t, parts, window, got, i, line);
    CompleteJournalsAll(t, parts, window, got, i, line);
    StoreKeepsInv(t, parts[i], window, line);
  }

  lemma OwnKeepsStanding(t: Tables, parts: seq<Part>, window: int, got: set<nat>, i: nat, line: Line)
    requires Message(parts, window) && Standing(t, parts, window, got) && i < |parts|
    ensures Store(t, parts[i], window, line).1.Ok?
    ensures Standing(Store(t, parts[i], window, line).0, parts, window, got + {i})
  {
    if i in got {
      assert got + {i} == got;
      OwnRepeat(t, parts, window, got, i, line);
    } else if got + {i} != Upto(|parts|) {
      OwnJoins(t, parts, window, got, i, line);
    } else {
      OwnCompletesStanding(t, parts, window, got, i, line);
    }
  }

  /** The parts of the message that wait are not among the fragments another message finds. */
  lemma OwnRowsNotFound(t: Tables, own: seq<Row>, window: int, got: set<nat>, p: Part, rows: seq<Row>)
    requires MessageRows(own, window) && Inv(t, window) && Waiting(t.journal, own, window, got) && ValidPart(p, window)
    requires !IsOwn(own, p.fingerprint) && !Rival(own, window, RowOf(p)) && !Journaled(t.journal, p.fingerprint)
    requires rows == Fragments(t.journal + [RowOf(p)], RowOf(p), window)
    ensures forall i :: i in got && i < |own| ==> own[i].fingerprint !in Fingerprints(rows)
  {
    FragmentsInRange(t, p, window);
    forall i | i in got && i < |own|
      ensures own[i].fingerprint !in Fingerprints(rows)
    {
      var k :| 0 <= k < |t.journal| && t.journal[k] == own[i];
      if own[i] in rows {
        OwnRowNotNear(t, own, window, p, i, rows);
      }
      NotAmongFragments(t, p, rows, k);
    }
  }

  lemma OwnRowNotNear(t: Tables, own: seq<Row>, window: int, p: Part, i: nat, rows: seq<Row>)
    requires MessageRows(own, window) && i < |own| && ValidPart(p, window)
    requires !IsOwn(own, p.fingerprint) && !Rival(own, window, RowOf(p))
    requires rows == Fragments(t.journal + [RowOf(p)], RowOf(p), window)
    ensures own[i] !in rows
  {
    if own[i] in rows {
      assert own[i] != RowOf(p);
      FragmentsAre(t.journal + [RowOf(p)], RowOf(p), window);
      assert own[i].key == own[0].key;
      assert CloseTo(own, RowOf(p).timestamp, window);
    }
  }

  /** A fragment of anything else, once stored, leaves the waiting parts where they are. */
  lemma OtherKeepsWaiting(t: Tables, own: seq<Row>, window: int, got: set<nat>, p: Part, line: Line)
    requires MessageRows(own, window) && Inv(t, window) && Waiting(t.journal, own, window, got)
    requires !IsOwn(own, p.fingerprint) && !Rival(own, window, RowOf(p))
    ensures Waiting(Store(t, p, window, line).0.journal, own, window, got)
  {
    var journal' := Store(t, p, window, line).0.journal;
    if ValidPart(p, window) && !Journaled(t.journal, p.fingerprint) {
      var journal := t.journal + [RowOf(p)];
      var rows := Fragments(journal, RowOf(p), window);
      FragmentsInRange(t, p, window);
      JournalAfter(t, rows, p, line);
      if journal' == journal {
        OthersKeepWaiting(t.journal, own, window, got, RowOf(p), {}, "-");
        assert Completed(journal, {}, "-") == journal;
      } else if journal' != t.journal {
        OwnRowsNotFound(t, own, window, got, p, rows);
        OthersKeepWaiting(t.journal, own, window, got, RowOf(p), Fingerprints(rows), "ims-in-" + rows[0].fingerprint);
      }
    }
  }

  lemma JournalAfter(t: Tables, rows: seq<Row>, p: Part, line: Line)
    requires rows != []
    ensures var journal, journal' := t.journal + [RowOf(p)], Settle(t, rows, p, line).0.journal;
      || journal' == t.journal || journal' == journal
      || journal' == Completed(journal, Fingerprints(rows), "ims-in-" + rows[0].fingerprint)
  {
  }

  lemma OtherKeepsStanding(t: Tables, parts: seq<Part>, window: int, got: set<nat>, p: Part, line: Line)
    requires Message(parts, window) && Standing(t, parts, window, got)
    requires Admissible(parts, window, Other(p, line))
    ensures Standing(Store(t, p, window, line).0, parts, window, got)
  {
    StoreKeepsInv(t, p, window, line);
    if got == Upto(|parts|) {
      StoreKeepsInbox(t, p, window, line, Whole(parts));
      forall i | 0 <= i < |parts|
        ensures Journaled(Store(t, p, window, line).0.journal, parts[i].fingerprint)
      {
        StoreKeepsJournaled(t, p, window, line, parts[i].fingerprint);
      }
    } else {
      OtherKeepsWaiting(t, Rows(parts), window, got, p, line);
    }
  }

  // ---- counting ---------------------------------------------------------------------------------------

  predicate StoredAs(o: Outcome, m: SMS) {
    o.Ok? && o.value.Some? && SameMessage(o.value.value, m)
  }

  function CountStored(outcomes: seq<Outcome>, m: SMS): nat {
    if outcomes == [] then 0
    else CountStored(outcomes[..|outcomes| - 1], m) + (if StoredAs(outcomes[|outcomes| - 1], m) then 1 else 0)
  }

  function CountInbox(inbox: seq<SMS>, m: SMS): nat {
    if inbox == [] then 0
    else CountInbox(inbox[..|inbox| - 1], m) + (if SameMessage(inbox[|inbox| - 1], m) then 1 else 0)
  }

  lemma {:induction false} CountInboxMember(inbox: seq<SMS>, m: SMS)
    ensures InInbox(inbox, m) <==> CountInbox(inbox, m) > 0
    ensures NoDuplicates(inbox) ==> CountInbox(inbox, m) <= 1
  {
    if inbox != [] {
      var n := |inbox| - 1;
      CountInboxMember(inbox[..n], m);
    }
  }

  /** Every message in the inbox is accounted for by an outcome that says it was stored. */
  lemma StoreCounts(t: Tables, p: Part, window: int, line: Line, m: SMS)
    ensures var (t', o) := Store(t, p, window, line);
      CountInbox(t'.inbox, m) == CountInbox(t.inbox, m) + (if StoredAs(o, m) then 1 else 0)
  {
    InboxAfter(t, p, window, line);
    var o := Store(t, p, window, line).1;
    if o.Ok? && o.value.Some? {
      assert (t.inbox + [o.value.value])[..|t.inbox|] == t.inbox;
    }
  }

  lemma InboxAfter(t: Tables, p: Part, window: int, line: Line)
    ensures var (t', o) := Store(t, p, window, line);
      t'.inbox == if o.Ok? && o.value.Some? then t.inbox + [o.value.value] else t.inbox
  {
    SettleInbox(t, Fragments(t.journal + [RowOf(p)], RowOf(p), window), p, line);
  }

  lemma SettleInbox(t: Tables, rows: seq<Row>, p: Part, line: Line)
    ensures var (t', o) := Settle(t, rows, p, line);
      t'.inbox == if o.Ok? && o.value.Some? then t.inbox + [o.value.value] else t.inbox
  {
  }

  // ---- whole runs -------------------------------------------------------------------------------------

  lemma StandingAfter(t: Tables, parts: seq<Part>, window: int, got: set<nat>, d: Delivery)
    requires Message(parts, window) && Standing(t, parts, window, got) && Admissible(parts, window, d)
    ensures Standing(Store(t, PartOf(parts, d), window, d.line).0, parts, window,
                     if d.Own? then got + {d.i} else got)
  {
    match d
    case Own(i, line) => OwnKeepsStanding(t, parts, window, got, i, line);
    case Other(p, line) => OtherKeepsStanding(t, parts, window, got, p, line);
  }

  lemma DeliveryAt(ts: seq<Tables>, outcomes: seq<Outcome>, ds: seq<Delivery>, parts: seq<Part>, window: int, k: nat)
    requires parts != [] && Deliveries(ts, outcomes, ds, parts, window) && k < |ds|
    ensures Admissible(parts, window, ds[k])
    ensures (ts[k + 1], outcomes[k]) == Store(ts[k], PartOf(parts, ds[k]), window, ds[k].line)
    ensures Delivered(ds[..k + 1]) == if ds[k].Own? then Delivered(ds[..k]) + {ds[k].i} else Delivered(ds[..k])
  {
    assert ds[..k + 1] == ds[..k] + [ds[k]];
  }

  lemma NothingDelivered(ds: seq<Delivery>)
    ensures Delivered(ds[..0]) == {}
  {
  }

  lemma StandingStep(ts: seq<Tables>, outcomes: seq<Outcome>, ds: seq<Delivery>, parts: seq<Part>, window: int, k: nat)
    requires Message(parts, window) && parts != [] && Deliveries(ts, outcomes, ds, parts, window) && k < |ds|
    requires Standing(ts[k], parts, window, Delivered(ds[..k]))
    ensures Standing(ts[k + 1], parts, window, Delivered(ds[..k + 1]))
  {
    DeliveryAt(ts, outcomes, ds, parts, window, k);
    StandingAfter(ts[k], parts, window, Delivered(ds[..k]), ds[k]);
  }

  lemma {:induction false} Inductively(p: nat -> bool, n: nat, k: nat)
    requires p(0) && k <= n
    requires forall j: nat :: j < n && p(j) ==> p(j + 1)
    ensures p(k)
  {
    if k > 0 {
      Inductively(p, n, k - 1);
    }
  }

  lemma StandingAlong(ts: seq<Tables>, outcomes: seq<Outcome>, ds: seq<Delivery>, parts: seq<Part>, window: int, k: nat)
    requires Message(parts, window) && parts != [] && Deliveries(ts, outcomes, ds, parts, window) && k <= |ds|
    requires Standing(ts[0], parts, window, {})
    ensures Standing(ts[k], parts, window, Delivered(ds[..k]))
  {
    var p := (j: nat) => j <= |ds| && Standing(ts[j], parts, window, Delivered(ds[..j]));
    NothingDelivered(ds);
    forall j: nat | j < |ds| && p(j)
      ensures p(j + 1)
    {
      StandingStep(ts, outcomes, ds, parts, window, j);
    }
    Inductively(p, |ds|, k);
    assert p(k);
  }

  lemma {:induction false} CountsAlong(ts: seq<Tables>, outcomes: seq<Outcome>, ds: seq<Delivery>, parts: seq<Part>, window: int, k: nat, m: SMS)
    requires parts != [] && Deliveries(ts, outcomes, ds, parts, window) && k <= |ds|
    ensures CountInbox(ts[k].inbox, m) == CountInbox(ts[0].inbox, m) + CountStored(outcomes[..k], m)
  {
    if k > 0 {
      CountsAlong(ts, outcomes, ds, parts, window, k - 1, m);
      assert outcomes[..k][..k - 1] == outcomes[..k - 1];
      StoreCounts(ts[k - 1], PartOf(parts, ds[k - 1]), window, ds[k - 1].line, m);
    }
  }

  /** Before any part has arrived: nothing in the journal is, or could be taken for, part of the message. */
  ghost predicate Fresh(t: Tables, parts: seq<Part>, window: int)
    requires parts != []
  {
    && Inv(t, window) && !InInbox(t.inbox, Whole(parts))
    && (forall i :: 0 <= i < |parts| ==> !Journaled(t.journal, parts[i].fingerprint))
    && (forall r :: r in t.journal ==> !Rival(Rows(parts), window, r))
  }

  lemma FreshStands(t: Tables, parts: seq<Part>, window: int)
    requires parts != [] && Fresh(t, parts, window)
    ensures Standing(t, parts, window, {})
  {
    assert 0 in Upto(|parts|);
  }

  /**
   The parts of one message arrive in any order, each at least once and any number of times, with
   fragments of anything else in between. Then the inbox holds the message exactly once, with its
   parts joined in sequence order, and exactly one delivery reported storing it.
   */
  lemma AssembledExactlyOnce(ts: seq<Tables>, outcomes: seq<Outcome>, ds: seq<Delivery>, parts: seq<Part>, window: int)
    requires Message(parts, window) && parts != [] && Deliveries(ts, outcomes, ds, parts, window)
    requires Fresh(ts[0], parts, window)
    requires Delivered(ds) == Upto(|parts|)
    ensures CountInbox(ts[|ds|].inbox, Whole(parts)) == 1
    ensures CountStored(outcomes, Whole(parts)) == 1
  {
    FreshStands(ts[0], parts, window);
    StandingAlong(ts, outcomes, ds, parts, window, |ds|);
    CountsAlong(ts, outcomes, ds, parts, window, |ds|, Whole(parts));
    assert ds[..|ds|] == ds && outcomes[..|ds|] == outcomes;
    CountInboxMember(ts[0].inbox, Whole(parts));
    CountInboxMember(ts[|ds|].inbox, Whole(parts));
  }

  /** No delivery of a part of the message is ever refused. */
  lemma OwnPartsAreNeverRefused(ts: seq<Tables>, outcomes: seq<Outcome>, ds: seq<Delivery>, parts: seq<Part>, window: int, k: nat)
    requires Message(parts, window) && parts != [] && Deliveries(ts, outcomes, ds, parts, window)
    requires Fresh(ts[0], parts, window) && k < |ds| && ds[k].Own?
    ensures outcomes[k].Ok?
  {
    FreshStands(ts[0], parts, window);
    StandingAlong(ts, outcomes, ds, parts, window, k);
    DeliveryAt(ts, outcomes, ds, parts, window, k);
    OwnKeepsStanding(ts[k], parts, window, Delivered(ds[..k]), ds[k].i, ds[k].line);
  }

  /** The parts' texts one after the other. */
  function Texts(parts: seq<Part>): string {
    if parts == [] then "" else Texts(parts[..|parts| - 1]) + parts[|parts| - 1].content
  }

  /** What the assembled message says, and when it says it was sent. */
  lemma WholeIs(parts: seq<Part>)
    requires parts != []
    ensures Whole(parts).content == Texts(parts)
    ensures Whole(parts).imsi == parts[0].imsi && Whole(parts).sender == parts[0].sender && Whole(parts).smsType == 1
    ensures var second := Whole(parts).timestamp;
      second % 1_000_000_000 == 0 && second <= parts[0].timestamp < second + 1_000_000_000
  {
    JoinTexts(parts);
  }

  lemma {:induction false} JoinTexts(parts: seq<Part>)
    ensures Join(Rows(parts)) == Texts(parts)
  {
    if parts != [] {
      JoinTexts(parts[..|parts| - 1]);
      assert Rows(parts)[..|parts| - 1] == Rows(parts[..|parts| - 1]);
    }
  }

  // ---- any traffic at all -------------------------------------------------------------------------------

  ghost predicate StoreRun(ts: seq<Tables>, outcomes: seq<Outcome>, ps: seq<Part>, lines: seq<Line>, window: int) {
    && |ts| == |ps| + 1 && |outcomes| == |ps| == |lines|
    && forall k :: 0 <= k < |ps| ==> (ts[k + 1], outcomes[k]) == Store(ts[k], ps[k], window, lines[k])
  }

  /** From empty tables, whatever arrives: the invariant holds and neither count error ever occurs. */
  lemma AnyTraffic(ts: seq<Tables>, outcomes: seq<Outcome>, ps: seq<Part>, lines: seq<Line>, window: int, n: nat)
    requires StoreRun(ts, outcomes, ps, lines, window) && n < |ts|
    requires ts[0].journal == [] && ts[0].inbox == []
    ensures Inv(ts[n], window)
    ensures n < |ps| ==> outcomes[n] != Err(InvalidFragmentCount) && outcomes[n] != Err(IncompleteSequence)
  {
    var p := (j: nat) => j < |ts| && Inv(ts[j], window);
    forall j: nat | j < |ps| && p(j)
      ensures p(j + 1)
    {
      StoreKeepsInv(ts[j], ps[j], window, lines[j]);
    }
    Inductively(p, |ps|, n);
    assert p(n);
    if n < |ps| {
      CountErrorsUnreachable(ts[n], ps[n], window, lines[n]);
      assert (ts[n + 1], outcomes[n]) == Store(ts[n], ps[n], window, lines[n]);
    }
  }
}
