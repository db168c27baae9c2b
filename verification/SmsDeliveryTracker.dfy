/** The delivery tables as an object; every report is one transaction on it. */
module SmsDeliveryTracker {
  import opened Text
  import opened Wrappers
  import opened SmsDelivery

  class Tracker {
    var parts: map<Key, Part>
    var messages: map<string, Message>
    var history: map<string, int>
    var nextId: nat

    ghost function Value(): Db
      reads this
    {
      Db(parts, messages, history, nextId)
    }

    /** Row ids are unique. */
    ghost predicate Valid()
      reads this
    {
      && (forall k :: k in parts ==> parts[k].id < nextId)
      && (forall j, k :: j in parts && k in parts && parts[j].id == parts[k].id ==> j == k)
    }

    constructor ()
      ensures Valid() && Value() == Db(map[], map[], map[], 1)
    {
      parts, messages, history, nextId := map[], map[], map[], 1;
    }

    method UpsertPart(i: UpsertInput) returns (ok: bool)
      requires Valid()
      modifies this
      ensures Valid() && (Value(), ok) == Upsert(old(Value()), i)
    {
      var mid := TrimSpace(i.mid);
      if mid == "" || i.no <= 0 {
        return false;
      }
      var key, s := Key(mid, i.no), UpsertState(i.state);
      if key in parts {
        var p := parts[key];
        parts := parts[key := p.(callId := TrimSpace(i.callId), rpMR := i.rpMR, state := Merged(p.state, s),
                                 sentAt := i.sentAt, updatedAt := i.sentAt)];
      } else {
        parts := parts[key := Part(nextId, TrimSpace(i.callId), "", i.rpMR, s, 0, 0, "", i.sentAt, None, i.sentAt, i.sentAt)];
        nextId := nextId + 1;
      }
      return true;
    }

    method Count(mid: string, kind: PartState -> bool) returns (n: nat)
      ensures n == |Of(parts, mid, kind)|
    {
      n := 0;
      var left := parts.Keys;
      while left != {}
        invariant left <= parts.Keys
        invariant n == |set k | k in parts && k !in left && k.mid == mid && kind(parts[k].state)|
        decreases |left|
      {
        var key :| key in left;
        ghost var counted := set k | k in parts && k !in left && k.mid == mid && kind(parts[k].state);
        ghost var now := set k | k in parts && k !in left - {key} && k.mid == mid && kind(parts[k].state);
        if key.mid == mid && kind(parts[key].state) {
          assert now == counted + {key};
          n := n + 1;
        } else {
          assert now == counted;
        }
        left := left - {key};
      }
      assert Of(parts, mid, kind) == set k | k in parts && k !in left && k.mid == mid && kind(parts[k].state);
    }

    method LatestFailing(mid: string) returns (found: Option<Key>)
      ensures found.None? ==> Of(parts, mid, IsFailing) == {}
      ensures found.Some? ==> IsLatestFailing(parts, mid, found.value)
    {
      found := None;
      var left := parts.Keys;
      while left != {}
        invariant left <= parts.Keys
        invariant found.None? ==> forall k :: k in Of(parts, mid, IsFailing) ==> k in left
        invariant found.Some? ==> found.value in Of(parts, mid, IsFailing)
        invariant found.Some? ==> forall k :: k in Of(parts, mid, IsFailing) && k !in left ==> Later(parts[found.value], parts[k])
        decreases |left|
      {
        var key :| key in left;
        if key.mid == mid && IsFailing(parts[key].state) && (found.None? || !Later(parts[found.value], parts[key])) {
          found := Some(key);
        }
        left := left - {key};
      }
    }

    lemma OneLatest(mid: string, k: Key)
      requires Valid() && IsLatestFailing(parts, mid, k)
      ensures PartError(parts, mid) == TrimSpace(parts[k].errorText)
    {
      forall j | IsLatestFailing(parts, mid, j)
        ensures j == k
      {
        assert Later(parts[j], parts[k]) && Later(parts[k], parts[j]);
      }
    }

    method Derive(mid: string, declared: int) returns (state: MessageState, total: nat, acked: nat)
      ensures state == DerivedFrom(parts, mid, declared)
      ensures total == |Of(parts, mid, IsAny)| && acked == |Of(parts, mid, IsAcked)|
    {
      total := Count(mid, IsAny);
      acked := Count(mid, IsAcked);
      var failing := Count(mid, IsFailing);
      var delivered := Count(mid, IsDelivered);
      var pending := Count(mid, IsDeliveryPending);
      var unconfirmed := Count(mid, IsUnconfirmed);
      state := Derived(Expected(total, declared), total, acked, failing, delivered, pending, unconfirmed);
    }

    method Recompute(messageId: string, at: int)
      requires Valid()
      modifies this`messages
      ensures Valid() && Value() == SmsDelivery.Recompute(old(Value()), messageId, at)
    {
      var mid := TrimSpace(messageId);
      if mid !in messages {
        return;
      }
      var m := messages[mid];
      var state, total, acked := Derive(mid, m.total);
      if total == 0 {
        return;
      }
      var error := ErrorOf(mid);
      if m.state == MessageFailed && state != MessageDelivered {
        state := MessageFailed;
        if error == "" {
          error := TrimSpace(m.lastError);
        }
      }
      if m.state == MessageDelivered {
        state, error := MessageDelivered, "";
      }
      messages := messages[mid := m.(acks := acked, state := state, lastError := error, updatedAt := at)];
    }

    method ErrorOf(mid: string) returns (error: string)
      requires Valid()
      ensures error == PartError(parts, mid)
    {
      var failing := LatestFailing(mid);
      match failing
      case None => return "";
      case Some(k) =>
        OneLatest(mid, k);
        return TrimSpace(parts[k].errorText);
    }

    method SyncHistory(mid: string)
      modifies this`history
      ensures Value() == SmsDelivery.SyncHistory(old(Value()), mid)
    {
      if mid in messages && mid in history {
        history := history[mid := HistoryStatus(messages[mid].state)];
      }
    }

    /** Stores the changed part and brings its message and its history row up to date. */
    method StorePart(k: Key, p: Part, at: int)
      requires Valid() && k in parts && p.id == parts[k].id
      modifies this
      ensures Valid() && Value() == AfterReport(old(Value()), k, p, at)
    {
      parts := parts[k := p];
      Recompute(k.mid, at);
      SyncHistory(k.mid);
    }

    predicate IsCandidate(r: StatusReport, k: Key)
      reads this
    {
      && k in parts && k.mid in messages
      && messages[k.mid].imsi == TrimSpace(r.imsi) && messages[k.mid].deviceId == TrimSpace(r.deviceId)
      && parts[k].rpMR == r.tpMR && parts[k].createdAt >= r.at - SECONDS_PER_WEEK
      && !parts[k].state.Unlisted? && Canonical(messages[k.mid].peer) == Canonical(r.recipient)
    }

    /** Scans every eligible part, so that an ambiguous reference is never taken for a unique one. */
    method FindCandidate(r: StatusReport) returns (found: Result<Key, ReportError>)
      ensures match found
        case Ok(k) => StatusCandidates(Value(), r) == {k}
        case Err(NotFound) => StatusCandidates(Value(), r) == {}
        case Err(Ambiguous) => |StatusCandidates(Value(), r)| > 1
    {
      var matches: seq<Key> := [];
      var left := parts.Keys;
      while left != {}
        invariant left <= parts.Keys && |matches| <= 1
        invariant forall k :: k in matches <==> k in StatusCandidates(Value(), r) && k !in left
        decreases |left|
      {
        var key :| key in left;
        if IsCandidate(r, key) {
          if |matches| == 1 {
            assert matches[0] in matches;
            TwoOf(StatusCandidates(Value(), r), matches[0], key);
            return Err(Ambiguous);
          }
          matches := [key];
        }
        left := left - {key};
      }
      if matches == [] {
        return Err(NotFound);
      }
      assert StatusCandidates(Value(), r) == {matches[0]};
      return Ok(matches[0]);
    }

    static lemma TwoOf(s: set<Key>, a: Key, b: Key)
      requires a in s && b in s && a != b
      ensures |s| > 1
    {
      assert s == {a, b} + (s - {a, b});
    }

    method MarkPartStatusReport(r: StatusReport) returns (result: Result<Key, ReportError>)
      requires Valid()
      modifies this
      ensures Valid() && StatusReported(old(Value()), r, Value(), result)
    {
      if StatusMalformed(r) {
        return Err(NotFound);
      }
      result := FindCandidate(r);
      match result
      case Err(_) =>
      case Ok(k) =>
        assert k in StatusCandidates(Value(), r);
        StorePart(k, WithStatus(parts[k], r), r.at);
    }

    method FindLatest(callId: string, deviceId: string) returns (found: Option<Key>)
      ensures found.None? ==> WithCallId(Value(), callId, deviceId) == {}
      ensures found.Some? ==> IsNewest(Value(), WithCallId(Value(), callId, deviceId), found.value)
    {
      found := None;
      if TrimSpace(callId) == "" {
        return;
      }
      var left := parts.Keys;
      ghost var all := WithCallId(Value(), callId, deviceId);
      while left != {}
        invariant left <= parts.Keys
        invariant found.None? ==> forall k :: k in all ==> k in left
        invariant found.Some? ==> found.value in all && IsNewest(Value(), all - left + {found.value}, found.value)
        decreases |left|
      {
        var key :| key in left;
        if parts[key].callId == TrimSpace(callId)
           && (TrimSpace(deviceId) == "" || (key.mid in messages && messages[key.mid].deviceId == TrimSpace(deviceId)))
           && (found.None? || Newer(parts[key], parts[found.value])) {
          found := Some(key);
        }
        left := left - {key};
      }
      assert all - left == all;
      assert found.Some? ==> all - left + {found.value} == all;
    }

    static predicate Newer(a: Part, b: Part) {
      a.createdAt > b.createdAt || (a.createdAt == b.createdAt && a.id <= b.id)
    }

    /** At most two of the recent parts with this reference: enough to tell one from several. */
    method FindByReference(r: SubmitReport) returns (found: Result<Key, ReportError>)
      ensures match found
        case Ok(k) => WithReference(Value(), r) == {k}
        case Err(NotFound) => WithReference(Value(), r) == {}
        case Err(Ambiguous) => |WithReference(Value(), r)| > 1
    {
      ghost var all := WithReference(Value(), r);
      var candidates: seq<Key> := [];
      var left := parts.Keys;
      while left != {}
        invariant left <= parts.Keys && |candidates| <= 1
        invariant forall k :: k in candidates <==> k in all && k !in left
        decreases |left|
      {
        var key :| key in left;
        if r.rpMR >= 0 && parts[key].rpMR == r.rpMR && parts[key].createdAt >= r.at - RP_WINDOW_SECONDS
           && !parts[key].state.Unlisted?
           && (TrimSpace(r.deviceId) == "" || (key.mid in messages && messages[key.mid].deviceId == TrimSpace(r.deviceId))) {
          if |candidates| == 1 {
            assert candidates[0] in candidates;
            TwoOf(all, candidates[0], key);
            return Err(Ambiguous);
          }
          candidates := [key];
        }
        left := left - {key};
      }
      if candidates == [] {
        return Err(NotFound);
      }
      assert all == {candidates[0]};
      return Ok(candidates[0]);
    }

    method Correlate(r: SubmitReport) returns (found: Result<Key, ReportError>)
      ensures Correlates(Value(), r, found)
    {
      var part := FindLatest(r.inReplyTo, r.deviceId);
      if part.None? {
        part := FindLatest(r.callId, r.deviceId);
      }
      match part
      case Some(k) => return Ok(k);
      case None => found := FindByReference(r);
    }

    method MarkPartReport(r: SubmitReport) returns (result: Result<Key, ReportError>)
      requires Valid()
      modifies this
      ensures Valid() && SubmitReported(old(Value()), r, Value(), result)
    {
      result := Correlate(r);
      match result
      case Err(_) =>
      case Ok(k) =>
        CorrelatedIn(r, k);
        StorePart(k, WithSubmit(parts[k], r), r.at);
    }

    lemma CorrelatedIn(r: SubmitReport, k: Key)
      requires Correlates(Value(), r, Ok(k))
      ensures k in parts
    {
      if k !in WithReference(Value(), r) {
        assert WithReference(Value(), r) != {k};
      }
    }
  }
}
