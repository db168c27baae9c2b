/** The login rate limiter: a fixed window per peer, opened by its first attempt, over a bounded table. */
module LoginLimiter {
  import opened Text

  datatype Attempt = Attempt(count: nat, resetAt: int)

  type Entries = map<string, Attempt>

  datatype Limits = Limits(window: int, limit: int, maxEntries: int)

  const DEFAULT_WINDOW := 120_000_000_000
  const DEFAULT_LIMIT := 10
  const DEFAULT_CAPACITY := 4096

  predicate Sound(l: Limits) {
    l.window > 0 && l.limit > 0 && l.maxEntries > 0
  }

  function PeerKey(peer: string): string {
    if TrimSpace(peer) == "" then "unknown" else TrimSpace(peer)
  }

  function Pruned(entries: Entries, now: int): Entries {
    map k | k in entries && now < entries[k].resetAt :: entries[k]
  }

  function Allow(l: Limits, entries: Entries, peer: string, now: int): (Entries, bool) {
    var live, p := Pruned(entries, now), PeerKey(peer);
    if p !in live && |live| >= l.maxEntries then (live, false)
    else
      var cur := if p in live then live[p] else Attempt(0, now + l.window);
      if cur.count >= l.limit then (live, false)
      else (live[p := cur.(count := cur.count + 1)], true)
  }

  /** The peer's window has not run out. */
  predicate HasWindow(entries: Entries, key: string, now: int) {
    key in entries && now < entries[key].resetAt
  }

  /**
   An attempt is granted exactly if the peer has attempts left in its window, or has no window and the
   table has room for one. It then counts, and entries that have run out are gone either way.
   */
  lemma AllowIff(l: Limits, entries: Entries, peer: string, now: int)
    ensures var (after, ok) := Allow(l, entries, peer, now);
      var key, open := if TrimSpace(peer) == "" then "unknown" else TrimSpace(peer), set k | k in entries && now < entries[k].resetAt;
      var had := if HasWindow(entries, key, now) then entries[key] else Attempt(0, now + l.window);
      && (ok <==> had.count < l.limit && (HasWindow(entries, key, now) || |open| < l.maxEntries))
      && (forall k :: k != key ==> (k in after <==> k in open) && (k in after ==> after[k] == entries[k]))
      && (ok ==> key in after && after[key] == Attempt(had.count + 1, had.resetAt))
      && (!ok ==> after.Keys == open && (key in open ==> after[key] == entries[key]))
  {
    assert Pruned(entries, now).Keys == set k | k in entries && now < entries[k].resetAt;
  }

  // ---- runs ---------------------------------------------------------------------------------------

  datatype Call = Call(peer: string, now: int)

  /** A run with a clock that does not go back; the table starts empty. */
  ghost predicate Run(l: Limits, tables: seq<Entries>, calls: seq<Call>, oks: seq<bool>) {
    && Sound(l) && |tables| == |calls| + 1 && |oks| == |calls| && tables[0] == map[]
    && (forall i :: 0 <= i < |calls| ==> (tables[i + 1], oks[i]) == Allow(l, tables[i], calls[i].peer, calls[i].now))
    && (forall i, j :: 0 <= i < j < |calls| ==> calls[i].now <= calls[j].now)
  }

  predicate Within(c: Call, p: string, from: int, to: int) {
    PeerKey(c.peer) == p && from <= c.now < to
  }

  /** How many of the calls from i up to n the peer was granted in [from, to). */
  function Granted(calls: seq<Call>, oks: seq<bool>, p: string, from: int, to: int, i: nat, n: nat): (g: nat)
    requires i <= n <= |calls| == |oks|
    decreases n
  {
    if n == i then 0
    else Granted(calls, oks, p, from, to, i, n - 1) + if oks[n - 1] && Within(calls[n - 1], p, from, to) then 1 else 0
  }

  /** What the table knows of the peer's grants in [s, s + window) when the clock has reached `now`. */
  ghost predicate Accounts(l: Limits, entries: Entries, p: string, s: int, now: int, granted: nat) {
    && (now < s ==> granted == 0)
    && if p in entries
       then
         var start := entries[p].resetAt - l.window;
         && 1 <= entries[p].count <= l.limit && start <= now
         && (start < s ==> granted <= entries[p].count - 1)
         && (s <= start < s + l.window ==> granted <= entries[p].count + l.limit - 1)
         && (s + l.window <= start ==> granted <= 2 * l.limit - 1)
       else granted <= l.limit - 1 || (now >= s + l.window && granted <= 2 * l.limit - 1)
  }

  lemma PruneAccounts(l: Limits, entries: Entries, p: string, s: int, now: int, now': int, granted: nat)
    requires Sound(l) && Accounts(l, entries, p, s, now, granted) && now <= now'
    requires now' < s ==> granted == 0
    ensures Accounts(l, Pruned(entries, now'), p, s, now', granted)
  {
  }

  /** One call keeps the account; granting in the interval raises it by one. */
  lemma CallAccounts(l: Limits, entries: Entries, c: Call, p: string, s: int, now: int, granted: nat)
    requires Sound(l) && Accounts(l, entries, p, s, now, granted) && now <= c.now
    requires forall k :: k in entries ==> entries[k].count >= 1
    ensures var (entries', ok) := Allow(l, entries, c.peer, c.now);
      Accounts(l, entries', p, s, c.now, granted + if ok && Within(c, p, s, s + l.window) then 1 else 0)
  {
    PruneAccounts(l, entries, p, s, now, c.now, granted);
  }

  lemma CallCounts(l: Limits, entries: Entries, c: Call)
    requires Sound(l) && |entries| <= l.maxEntries && forall k :: k in entries ==> 1 <= entries[k].count <= l.limit
    ensures var entries' := Allow(l, entries, c.peer, c.now).0;
      |entries'| <= l.maxEntries && forall k :: k in entries' ==> 1 <= entries'[k].count <= l.limit
  {
    var live := Pruned(entries, c.now);
    assert live.Keys <= entries.Keys;
    FewerKeys(live.Keys, entries.Keys);
    var entries' := Allow(l, entries, c.peer, c.now).0;
    assert entries'.Keys == live.Keys || entries'.Keys == live.Keys + {PeerKey(c.peer)};
  }

  lemma FewerKeys(a: set<string>, b: set<string>)
    requires a <= b
    ensures |a| <= |b|
  {
    assert b == a + (b - a);
  }

  /** The table never outgrows its capacity, and no peer's window counts more than the limit. */
  lemma {:induction false} TableIsBounded(l: Limits, tables: seq<Entries>, calls: seq<Call>, oks: seq<bool>, n: nat)
    requires Run(l, tables, calls, oks) && n < |tables|
    ensures |tables[n]| <= l.maxEntries && forall k :: k in tables[n] ==> 1 <= tables[n][k].count <= l.limit
  {
    if n > 0 {
      TableIsBounded(l, tables, calls, oks, n - 1);
      CallCounts(l, tables[n - 1], calls[n - 1]);
    }
  }

  function ClockAt(calls: seq<Call>, n: nat): int
    requires n <= |calls|
  {
    if n > 0 then calls[n - 1].now else if calls == [] then 0 else calls[0].now
  }

  lemma {:induction false} RunAccounts(l: Limits, tables: seq<Entries>, calls: seq<Call>, oks: seq<bool>, p: string, s: int, n: nat)
    requires Run(l, tables, calls, oks) && n < |tables|
    ensures Accounts(l, tables[n], p, s, ClockAt(calls, n), Granted(calls, oks, p, s, s + l.window, 0, n))
  {
    if n > 0 {
      RunAccounts(l, tables, calls, oks, p, s, n - 1);
      TableIsBounded(l, tables, calls, oks, n - 1);
      CallAccounts(l, tables[n - 1], calls[n - 1], p, s, ClockAt(calls, n - 1), Granted(calls, oks, p, s, s + l.window, 0, n - 1));
    }
  }

  /**
   In any half-open interval as long as the window a peer is granted at most one attempt fewer than
   twice the limit, wherever the interval begins.
   */
  lemma GrantsAreBounded(l: Limits, tables: seq<Entries>, calls: seq<Call>, oks: seq<bool>, p: string, s: int)
    requires Run(l, tables, calls, oks)
    ensures Granted(calls, oks, p, s, s + l.window, 0, |calls|) <= 2 * l.limit - 1
  {
    RunAccounts(l, tables, calls, oks, p, s, |calls|);
  }

  // ---- a window's own bound ---------------------------------------------------------------------------

  /** Since the window that call i opened, the entry counts the peer's grants until it runs out. */
  ghost predicate WindowAccounts(l: Limits, entries: Entries, p: string, s: int, now: int, granted: nat) {
    && granted <= l.limit
    && (now < s + l.window ==> p in entries && entries[p] == Attempt(granted, s + l.window))
    && (p in entries ==> entries[p].resetAt >= s + l.window)
  }

  lemma CallKeepsWindow(l: Limits, entries: Entries, c: Call, p: string, s: int, now: int, granted: nat)
    requires Sound(l) && WindowAccounts(l, entries, p, s, now, granted) && s <= now <= c.now
    ensures var (entries', ok) := Allow(l, entries, c.peer, c.now);
      WindowAccounts(l, entries', p, s, c.now, granted + if ok && Within(c, p, s, s + l.window) then 1 else 0)
  {
  }

  /** The call opens a window: it is granted to a peer whose earlier window, if any, has run out. */
  ghost predicate Opens(tables: seq<Entries>, calls: seq<Call>, oks: seq<bool>, i: nat)
    requires |tables| == |calls| + 1 && |oks| == |calls| && i < |calls|
  {
    oks[i] && PeerKey(calls[i].peer) !in Pruned(tables[i], calls[i].now)
  }

  lemma WindowOpens(l: Limits, tables: seq<Entries>, calls: seq<Call>, oks: seq<bool>, i: nat)
    requires Run(l, tables, calls, oks) && i < |calls| && Opens(tables, calls, oks, i)
    ensures WindowAccounts(l, tables[i + 1], PeerKey(calls[i].peer), calls[i].now, calls[i].now, 1)
  {
    assert (tables[i + 1], oks[i]) == Allow(l, tables[i], calls[i].peer, calls[i].now);
  }

  lemma {:induction false} WindowAlong(l: Limits, tables: seq<Entries>, calls: seq<Call>, oks: seq<bool>, i: nat, n: nat)
    requires Run(l, tables, calls, oks) && i < n < |tables| && Opens(tables, calls, oks, i)
    ensures var p, s := PeerKey(calls[i].peer), calls[i].now;
      WindowAccounts(l, tables[n], p, s, calls[n - 1].now, Granted(calls, oks, p, s, s + l.window, i, n))
    decreases n
  {
    var p, s := PeerKey(calls[i].peer), calls[i].now;
    if n > i + 1 {
      WindowAlong(l, tables, calls, oks, i, n - 1);
      CallKeepsWindow(l, tables[n - 1], calls[n - 1], p, s, calls[n - 2].now, Granted(calls, oks, p, s, s + l.window, i, n - 1));
    } else {
      WindowOpens(l, tables, calls, oks, i);
      assert Granted(calls, oks, p, s, s + l.window, i, i) == 0;
    }
  }

  /** In the window an attempt opens, that peer is granted no more than the limit. */
  lemma WindowIsBounded(l: Limits, tables: seq<Entries>, calls: seq<Call>, oks: seq<bool>, i: nat)
    requires Run(l, tables, calls, oks) && i < |calls| && Opens(tables, calls, oks, i)
    ensures var s := calls[i].now;
      Granted(calls, oks, PeerKey(calls[i].peer), s, s + l.window, i, |calls|) <= l.limit
  {
    WindowAlong(l, tables, calls, oks, i, |calls|);
  }

  // ---- the bound is reached ------------------------------------------------------------------------------

  /** One early attempt, the rest of the limit just before the window runs out, and the limit again after. */
  function Burst(l: Limits): seq<Call>
    requires Sound(l)
  {
    seq(2 * l.limit, i => Call("peer", if i == 0 then 0 else if i < l.limit then l.window - 1 else l.window))
  }

  function BurstTable(l: Limits, n: nat): Entries {
    if n == 0 then map[]
    else if n <= l.limit then map["peer" := Attempt(n, l.window)]
    else map["peer" := Attempt(n - l.limit, 2 * l.window)]
  }

  ghost function BurstTables(l: Limits): seq<Entries>
    requires Sound(l)
  {
    seq(2 * l.limit + 1, k requires 0 <= k => BurstTable(l, k))
  }

  function BurstOks(l: Limits): seq<bool>
    requires Sound(l)
  {
    seq(2 * l.limit, _ => true)
  }

  lemma BurstStep(l: Limits, n: nat)
    requires Sound(l) && n < 2 * l.limit
    ensures Allow(l, BurstTable(l, n), "peer", Burst(l)[n].now) == (BurstTable(l, n + 1), true)
  {
    TrimmedIsFixed("peer");
    var now := Burst(l)[n].now;
    if 0 < n && n != l.limit {
      assert Pruned(BurstTable(l, n), now) == BurstTable(l, n);
      var cur := BurstTable(l, n)["peer"];
      assert BurstTable(l, n)["peer" := cur.(count := cur.count + 1)] == BurstTable(l, n + 1);
    } else {
      assert Pruned(BurstTable(l, n), now) == map[];
    }
  }

  lemma {:induction false} BurstGranted(l: Limits, n: nat)
    requires Sound(l) && l.window > 1 && n <= 2 * l.limit
    ensures Granted(Burst(l), BurstOks(l), "peer", l.window - 1, 2 * l.window - 1, 0, n) == if n == 0 then 0 else n - 1
  {
    if n > 0 {
      BurstGranted(l, n - 1);
      TrimmedIsFixed("peer");
    }
  }

  lemma BurstIsRun(l: Limits)
    requires Sound(l) && l.window > 1
    ensures Run(l, BurstTables(l), Burst(l), BurstOks(l))
  {
    var tables, calls, oks := BurstTables(l), Burst(l), BurstOks(l);
    forall i | 0 <= i < |calls|
      ensures (tables[i + 1], oks[i]) == Allow(l, tables[i], calls[i].peer, calls[i].now)
    {
      BurstStep(l, i);
    }
  }

  /** The bound cannot be improved: for every limit, and every window of two instants or more, a run reaches it. */
  lemma BoundIsReached(l: Limits)
    requires Sound(l) && l.window > 1
    ensures Run(l, BurstTables(l), Burst(l), BurstOks(l))
    ensures var s := l.window - 1; Granted(Burst(l), BurstOks(l), "peer", s, s + l.window, 0, 2 * l.limit) == 2 * l.limit - 1
  {
    BurstIsRun(l);
    BurstGranted(l, 2 * l.limit);
    assert (l.window - 1) + l.window == 2 * l.window - 1;
  }

  // ---- the limiter as an object ------------------------------------------------------------------------------

  class Limiter {
    const limits: Limits
    var entries: Entries

    constructor (window: int, limit: int, maxEntries: int)
      ensures Sound(limits) && entries == map[]
      ensures limits.window == if window > 0 then window else 2 * 60 * 1_000_000_000
      ensures limits.limit == if limit > 0 then limit else 10
      ensures limits.maxEntries == if maxEntries > 0 then maxEntries else 4096
    {
      limits := Limits(if window <= 0 then DEFAULT_WINDOW else window,
                       if limit <= 0 then DEFAULT_LIMIT else limit,
                       if maxEntries <= 0 then DEFAULT_CAPACITY else maxEntries);
      entries := map[];
    }

    /** Drops every entry whose window has run out. */
    method Prune(now: int)
      modifies this
      ensures entries == Pruned(old(entries), now)
    {
      var left := entries.Keys;
      while left != {}
        invariant left <= entries.Keys <= old(entries).Keys
        invariant forall k :: k in entries ==> entries[k] == old(entries)[k]
        invariant forall k :: k in old(entries) && k !in left ==> (k in entries <==> now < old(entries)[k].resetAt)
        invariant forall k :: k in left ==> k in entries
        decreases |left|
      {
        var key :| key in left;
        left := left - {key};
        if now >= entries[key].resetAt {
          entries := entries - {key};
        }
      }
    }

    method TryLogin(peer: string, now: int) returns (ok: bool)
      modifies this
      ensures (entries, ok) == Allow(limits, old(entries), peer, now)
    {
      var p := TrimSpace(peer);
      if p == "" {
        p := "unknown";
      }
      Prune(now);
      var cur := Attempt(0, now + limits.window);
      if p in entries {
        cur := entries[p];
      } else if |entries| >= limits.maxEntries {
        return false;
      }
      if cur.count >= limits.limit {
        return false;
      }
      entries := entries[p := cur.(count := cur.count + 1)];
      return true;
    }
  }
}
