/** Writing the reported IMEIs back into the configurations and resolving again changes nothing more. */
module IdentityFixedPoint {
  import opened Text
  import opened Wrappers
  import opened DeviceIdentity
  import Composition

  /** The IMEI the pairs report for a configuration, or "" when there is none to write. */
  function Reported(pairs: seq<Pair>, id: string): string {
    if pairs == [] then ""
    else if pairs[0].config.id == id && pairs[0].backfill != "" then pairs[0].backfill
    else Reported(pairs[1..], id)
  }

  function Written(c: Config, pairs: seq<Pair>): Config {
    if Reported(pairs, c.id) == "" then c else c.(imei := Reported(pairs, c.id))
  }

  function WriteBack(configured: seq<Config>, pairs: seq<Pair>): seq<Config> {
    if configured == [] then [] else [Written(configured[0], pairs)] + WriteBack(configured[1..], pairs)
  }

  /** The pairs as a second resolution reports them: the configuration carries its IMEI, nothing is left to write. */
  function Settled(pairs: seq<Pair>): seq<Pair> {
    seq(|pairs|, i requires 0 <= i < |pairs| => Pair(Written(pairs[i].config, pairs), pairs[i].hardware, ""))
  }

  // ---- an IMEI means the same with and without the blanks around it -------------------------------

  lemma {:induction false} DigitsConcat(a: string, b: string)
    ensures Digits(a + b) == Digits(a) + Digits(b)
  {
    if a == [] {
      assert a + b == b;
    } else {
      var head := if IsDigit(a[0]) then [a[0]] else [];
      DigitsConcat(a[1..], b);
      assert (a + b)[1..] == a[1..] + b;
      assert head + (Digits(a[1..]) + Digits(b)) == (head + Digits(a[1..])) + Digits(b);
    }
  }

  lemma {:induction false} DigitsOfBlank(s: string)
    requires forall i :: 0 <= i < |s| ==> IsSpace(s[i])
    ensures Digits(s) == ""
  {
    if s != [] {
      DigitsOfBlank(s[1..]);
    }
  }

  lemma TrimmedIMEI(raw: string)
    ensures NormalizeIMEI(TrimSpace(raw)) == NormalizeIMEI(raw)
  {
    var left := TrimLeft(raw);
    TrimLeftShape(raw);
    TrimRightShape(left);
    var cut, kept := |raw| - |left|, |TrimRight(left)|;
    assert raw == raw[..cut] + left;
    assert left == TrimRight(left) + left[kept..];
    DigitsConcat(raw[..cut], left);
    DigitsConcat(TrimRight(left), left[kept..]);
    DigitsOfBlank(raw[..cut]);
    DigitsOfBlank(left[kept..]);
    assert Digits(TrimSpace(raw)) == Digits(raw);
  }

  lemma {:induction false} DigitsAre(s: string)
    ensures forall c :: c in Digits(s) ==> IsDigit(c)
    ensures (forall c :: c in s ==> IsDigit(c)) ==> Digits(s) == s
  {
    if s != [] {
      DigitsAre(s[1..]);
    }
  }

  /** An identity key is fourteen digits or absent, and is its own key. */
  lemma KeyShape(raw: string)
    ensures var k := NormalizeIMEI(raw);
      (k == "" || (|k| == IMEI_KEY_LENGTH && forall c :: c in k ==> IsDigit(c))) && NormalizeIMEI(k) == k
  {
    DigitsAre(raw);
    var k := NormalizeIMEI(raw);
    assert forall c :: c in k ==> c in Digits(raw);
    DigitsAre(k);
  }

  // ---- every configuration is matched at most once -------------------------------------------------

  lemma SameConfig(configured: seq<Config>, a: Config, b: Config)
    requires DistinctIds(configured) && a in configured && b in configured && a.id == b.id
    ensures a == b
  {
  }

  lemma SameModem(hs: seq<Modem>, a: Modem, b: Modem)
    requires DistinctKeys(hs) && a in hs && b in hs && HwKey(a) == HwKey(b) != ""
    ensures a == b
  {
  }

  lemma {:induction false} AnchoredDistinct(hs: seq<Modem>, configured: seq<Config>)
    requires DistinctIds(configured) && DistinctKeys(hs)
    ensures DistinctPairIds(Anchored(hs, configured))
  {
    if hs != [] {
      var front, hw := hs[..|hs| - 1], hs[|hs| - 1];
      var a := Anchored(front, configured);
      AnchoredDistinct(front, configured);
      AnchoredIs(front, configured);
      forall i | 0 <= i < |a| && HwKey(hw) != "" && ConfigFor(configured, HwKey(hw)).Some?
        ensures a[i].config.id != ConfigFor(configured, HwKey(hw)).value.id
      {
        assert a[i] in a;
        ConfigForIs(configured, HwKey(a[i].hardware));
        ConfigForIs(configured, HwKey(hw));
      }
    }
  }

  lemma DistinctConcat(a: seq<Pair>, b: seq<Pair>)
    requires DistinctPairIds(a) && DistinctPairIds(b) && Ids(a) !! Ids(b)
    ensures DistinctPairIds(a + b)
  {
    forall i, j | 0 <= i < |a| && 0 <= j < |b|
      ensures a[i].config.id != b[j].config.id
    {
      assert a[i] in a && b[j] in b;
      assert a[i].config.id in Ids(a) && b[j].config.id in Ids(b);
    }
  }

  lemma IdsConcat(a: seq<Pair>, b: seq<Pair>)
    ensures Ids(a + b) == Ids(a) + Ids(b)
  {
    assert forall p :: p in a + b <==> p in a || p in b;
  }

  lemma MatchedIds(hardware: seq<Modem>, configured: seq<Config>)
    ensures Ids(Resolve(hardware, configured).matched) == RoundThree(Dedupe(hardware), configured).used
  {
    var hs := Dedupe(hardware);
    var a, two, three := Anchored(hs, configured), RoundTwo(hs, configured), RoundThree(hs, configured);
    TakeAllIs(Unclaimed(hs, configured), Legacy(configured), Ids(a), true);
    TakeAllIs(Imeiless(hs), Legacy(configured), two.used, false);
    IdsConcat(a + two.pairs, three.pairs);
    IdsConcat(a, two.pairs);
  }

  /** With distinct ids no configuration is paired twice, and the unpaired ones are exactly the offline ones. */
  lemma MatchedOnceOrOffline(hardware: seq<Modem>, configured: seq<Config>)
    requires DistinctIds(configured)
    ensures var r := Resolve(hardware, configured);
      && DistinctPairIds(r.matched)
      && (forall c :: c in r.offline <==> c in configured && !exists p :: p in r.matched && p.config == c)
  {
    var hs := Dedupe(hardware);
    var a, two, three := Anchored(hs, configured), RoundTwo(hs, configured), RoundThree(hs, configured);
    DedupeIs(hardware);
    AnchoredDistinct(hs, configured);
    TakeAllIs(Unclaimed(hs, configured), Legacy(configured), Ids(a), true);
    TakeAllIs(Imeiless(hs), Legacy(configured), two.used, false);
    IdsConcat(a, two.pairs);
    DistinctConcat(a, two.pairs);
    DistinctConcat(a + two.pairs, three.pairs);
    UnusedIs(configured, three.used);
    OfflineAreUnpaired(hardware, configured);
  }

  lemma OfflineAreUnpaired(hardware: seq<Modem>, configured: seq<Config>)
    requires DistinctIds(configured)
    ensures var r := Resolve(hardware, configured);
      forall c :: c in r.offline <==> c in configured && !exists p :: p in r.matched && p.config == c
  {
    var r := Resolve(hardware, configured);
    MatchedIds(hardware, configured);
    UnusedIs(configured, Ids(r.matched));
    PairsAreJustified(hardware, configured);
    forall c | c in configured
      ensures c.id in Ids(r.matched) <==> exists p :: p in r.matched && p.config == c
    {
      if c.id in Ids(r.matched) {
        var p :| p in r.matched && p.config.id == c.id;
        SameConfig(configured, p.config, c);
      }
    }
  }

  // ---- what writing back does to one configuration ---------------------------------------------------

  lemma {:induction false} ReportedIs(pairs: seq<Pair>, id: string)
    ensures Reported(pairs, id) == "" <==> forall p :: p in pairs && p.config.id == id ==> p.backfill == ""
    ensures Reported(pairs, id) != "" ==>
              exists p :: p in pairs && p.config.id == id && p.backfill == Reported(pairs, id)
  {
    if pairs != [] {
      ReportedIs(pairs[1..], id);
      assert pairs == [pairs[0]] + pairs[1..];
      if pairs[0].config.id == id && pairs[0].backfill != "" {
        assert pairs[0] in pairs;
      } else if Reported(pairs, id) != "" {
        var p :| p in pairs[1..] && p.config.id == id && p.backfill == Reported(pairs[1..], id);
        assert p in pairs;
      }
    }
  }

  function Keys(pairs: seq<Pair>): set<string> {
    set p | p in pairs :: HwKey(p.hardware)
  }

  /** What round two and its write-back amount to, in terms of the round's pairs alone. */
  ghost predicate Effect(configured: seq<Config>, matched: seq<Pair>, pairs: seq<Pair>) {
    && (forall c | c in configured && c.id !in Ids(pairs) :: Written(c, matched) == c)
    && (forall p | p in pairs ::
          && p.config in configured
          && CfgKey(Written(p.config, matched)) == HwKey(p.hardware) != "")
  }

  lemma RoundTwoPairs(hs: seq<Modem>, configured: seq<Config>)
    ensures forall p | p in RoundTwo(hs, configured).pairs ::
      && p.hardware in hs && HwKey(p.hardware) != "" && ConfigFor(configured, HwKey(p.hardware)).None?
      && p.config in configured && CfgKey(p.config) == ""
      && p.config.id !in Ids(Anchored(hs, configured)) && p.backfill == TrimSpace(p.hardware.imei)
  {
    TakeAllIs(Unclaimed(hs, configured), Legacy(configured), Ids(Anchored(hs, configured)), true);
    UnclaimedIs(hs, configured);
    LegacyIs(configured);
  }

  lemma OnlyRoundTwoReports(hs: seq<Modem>, configured: seq<Config>)
    ensures forall p | p in Anchored(hs, configured) :: p.backfill == ""
    ensures forall p | p in RoundThree(hs, configured).pairs :: p.backfill == ""
  {
    AnchoredIs(hs, configured);
    TakeAllIs(Imeiless(hs), Legacy(configured), RoundTwo(hs, configured).used, false);
  }

  lemma ReportsAre(hardware: seq<Modem>, configured: seq<Config>, id: string)
    ensures var hs := Dedupe(hardware); var m := Resolve(hardware, configured).matched;
      && (id !in Ids(RoundTwo(hs, configured).pairs) ==> Reported(m, id) == "")
      && (Reported(m, id) != "" ==>
            exists p :: p in RoundTwo(hs, configured).pairs && p.config.id == id && p.backfill == Reported(m, id))
  {
    var hs := Dedupe(hardware);
    var m := Resolve(hardware, configured).matched;
    ReportedIs(m, id);
    OnlyRoundTwoReports(hs, configured);
    if Reported(m, id) != "" {
      var p :| p in m && p.config.id == id && p.backfill == Reported(m, id);
      assert p in RoundTwo(hs, configured).pairs;
      assert id in Ids(RoundTwo(hs, configured).pairs);
    }
  }

  lemma WriteBackEffect(hardware: seq<Modem>, configured: seq<Config>)
    requires DistinctIds(configured)
    ensures Effect(configured, Resolve(hardware, configured).matched, RoundTwo(Dedupe(hardware), configured).pairs)
  {
    var hs := Dedupe(hardware);
    var m, pairs := Resolve(hardware, configured).matched, RoundTwo(hs, configured).pairs;
    forall c | c in configured && c.id !in Ids(pairs)
      ensures Written(c, m) == c
    {
      ReportsAre(hardware, configured, c.id);
    }
    RoundTwoPairs(hs, configured);
    TakeAllIs(Unclaimed(hs, configured), Legacy(configured), Ids(Anchored(hs, configured)), true);
    forall p | p in pairs
      ensures CfgKey(Written(p.config, m)) == HwKey(p.hardware)
    {
      ReportedIs(m, p.config.id);
      ReportsAre(hardware, configured, p.config.id);
      TrimmedIMEI(p.hardware.imei);
      assert p in m && p.backfill != "";
      var q :| q in pairs && q.config.id == p.config.id && q.backfill == Reported(m, p.config.id);
      assert q == p;
    }
  }

  lemma {:induction false} UnclaimedDistinct(hs: seq<Modem>, configured: seq<Config>)
    requires DistinctKeys(hs)
    ensures DistinctKeys(Unclaimed(hs, configured))
  {
    if hs != [] {
      var front := hs[..|hs| - 1];
      UnclaimedDistinct(front, configured);
      UnclaimedIs(front, configured);
      forall h | h in Unclaimed(front, configured)
        ensures HwKey(h) != HwKey(hs[|hs| - 1])
      {
        assert h in front;
      }
    }
  }

  /** A round pairs no modem twice. */
  lemma {:induction false} TakenOnce(us: seq<Modem>, legacy: seq<Config>, used: set<string>, backfill: bool)
    requires DistinctKeys(us) && forall h :: h in us ==> HwKey(h) != ""
    ensures forall p, q | p in TakeAll(us, legacy, used, backfill).pairs && q in TakeAll(us, legacy, used, backfill).pairs ::
      HwKey(p.hardware) == HwKey(q.hardware) ==> p == q
  {
    if us != [] {
      var front := us[..|us| - 1];
      TakenOnce(front, legacy, used, backfill);
      TakeAllIs(front, legacy, used, backfill);
      forall h | h in front
        ensures HwKey(h) != HwKey(us[|us| - 1])
      {
      }
    }
  }

  // ---- the same effect on whole lists ------------------------------------------------------------------

  /** A key some configuration had keeps its first owner. */
  lemma {:induction false} OwnersStay(configured: seq<Config>, m: seq<Pair>, key: string)
    requires ConfigFor(configured, key).Some? && key != ""
    requires forall c | c in configured :: Written(c, m) == c || CfgKey(Written(c, m)) != key
    requires forall c | c in configured && CfgKey(c) == key :: Written(c, m) == c
    ensures ConfigFor(WriteBack(configured, m), key) == ConfigFor(configured, key)
  {
    assert configured[0] in configured;
    if CfgKey(configured[0]) != key {
      OwnersStay(configured[1..], m, key);
    }
  }

  lemma {:induction false} NewOwner(configured: seq<Config>, m: seq<Pair>, c: Config)
    requires c in configured
    requires forall d | d in configured && d != c :: CfgKey(Written(d, m)) != CfgKey(Written(c, m))
    ensures ConfigFor(WriteBack(configured, m), CfgKey(Written(c, m))) == Some(Written(c, m))
  {
    if configured[0] != c {
      assert c in configured[1..];
      NewOwner(configured[1..], m, c);
    }
  }

  lemma {:induction false} NoOwner(configured: seq<Config>, m: seq<Pair>, key: string)
    requires forall d | d in configured :: CfgKey(Written(d, m)) != key
    ensures ConfigFor(WriteBack(configured, m), key).None?
  {
    if configured != [] {
      NoOwner(configured[1..], m, key);
    }
  }

  /** Who owns a modem's IMEI after the write-back: the old owner, or the configuration round two gave it to. */
  ghost predicate Owned(configured: seq<Config>, m: seq<Pair>, pairs: seq<Pair>, h: Modem) {
    var was, now := ConfigFor(configured, HwKey(h)), ConfigFor(WriteBack(configured, m), HwKey(h));
    && (was.Some? ==> now == was && Written(was.value, m) == was.value && HwKey(h) !in Keys(pairs))
    && (forall p | p in pairs && HwKey(p.hardware) == HwKey(h) :: now == Some(Written(p.config, m)))
    && (was.None? && HwKey(h) !in Keys(pairs) ==> now.None?)
  }

  /** What is known of round two's pairs. */
  ghost predicate Fresh(hs: seq<Modem>, configured: seq<Config>, pairs: seq<Pair>) {
    && (forall p | p in pairs ::
          && p.hardware in hs && ConfigFor(configured, HwKey(p.hardware)).None?
          && p.config in configured && CfgKey(p.config) == "")
    && (forall p, q | p in pairs && q in pairs :: HwKey(p.hardware) == HwKey(q.hardware) ==> p == q)
  }

  lemma RoundTwoFresh(hs: seq<Modem>, configured: seq<Config>)
    requires DistinctKeys(hs)
    ensures Fresh(hs, configured, RoundTwo(hs, configured).pairs)
  {
    RoundTwoPairs(hs, configured);
    UnclaimedDistinct(hs, configured);
    UnclaimedIs(hs, configured);
    TakenOnce(Unclaimed(hs, configured), Legacy(configured), Ids(Anchored(hs, configured)), true);
  }

  lemma WhoGained(configured: seq<Config>, m: seq<Pair>, pairs: seq<Pair>, c: Config)
    requires DistinctIds(configured) && Effect(configured, m, pairs) && c in configured
    ensures Written(c, m) == c || exists p :: p in pairs && p.config == c && CfgKey(Written(c, m)) == HwKey(p.hardware)
  {
    if c.id in Ids(pairs) {
      var p :| p in pairs && p.config.id == c.id;
      SameConfig(configured, p.config, c);
    }
  }

  lemma OwnerAfter(hs: seq<Modem>, configured: seq<Config>, m: seq<Pair>, pairs: seq<Pair>, h: Modem)
    requires DistinctIds(configured) && DistinctKeys(hs) && h in hs && HwKey(h) != ""
    requires Effect(configured, m, pairs) && Fresh(hs, configured, pairs)
    ensures Owned(configured, m, pairs, h)
  {
    ConfigForIs(configured, HwKey(h));
    forall c | c in configured
      ensures Written(c, m) == c || exists p :: p in pairs && p.config == c && CfgKey(Written(c, m)) == HwKey(p.hardware)
    {
      WhoGained(configured, m, pairs, c);
    }
    if ConfigFor(configured, HwKey(h)).Some? {
      OwnersStay(configured, m, HwKey(h));
    } else if HwKey(h) !in Keys(pairs) {
      NoOwner(configured, m, HwKey(h));
    } else {
      forall p | p in pairs && HwKey(p.hardware) == HwKey(h)
        ensures ConfigFor(WriteBack(configured, m), HwKey(h)) == Some(Written(p.config, m))
      {
        NewOwner(configured, m, p.config);
      }
    }
  }

  // ---- the second resolution ------------------------------------------------------------------------------

  /** Round two of the first run and its write-back, as every lemma below needs them. */
  ghost predicate Ran(hs: seq<Modem>, configured: seq<Config>, m: seq<Pair>, pairs: seq<Pair>) {
    forall h | h in hs && HwKey(h) != "" :: Owned(configured, m, pairs, h)
  }

  function Without(us: seq<Modem>, keys: set<string>): seq<Modem> {
    if us == [] then []
    else Without(us[..|us| - 1], keys) + if HwKey(us[|us| - 1]) in keys then [] else [us[|us| - 1]]
  }

  lemma {:induction false} WithoutForeign(us: seq<Modem>, keys: set<string>, key: string)
    requires forall h :: h in us ==> HwKey(h) != key
    ensures Without(us, keys + {key}) == Without(us, keys)
  {
    if us != [] {
      WithoutForeign(us[..|us| - 1], keys, key);
    }
  }

  lemma KeysAppend(pairs: seq<Pair>, p: Pair)
    ensures Keys(pairs + [p]) == Keys(pairs) + {HwKey(p.hardware)}
  {
    assert forall q :: q in pairs + [p] <==> q in pairs || q == p;
  }

  lemma KeysWithin(pairs: seq<Pair>, hs: seq<Modem>, key: string)
    requires forall p :: p in pairs ==> p.hardware in hs
    requires forall h :: h in hs ==> HwKey(h) != key
    ensures key !in Keys(pairs)
  {
  }

  /** Whom a round leaves over, in order: those it did not pair. */
  lemma {:induction false} RestIs(us: seq<Modem>, legacy: seq<Config>, used: set<string>, backfill: bool)
    requires DistinctKeys(us) && forall h :: h in us ==> HwKey(h) != ""
    ensures var t := TakeAll(us, legacy, used, backfill); t.rest == Without(us, Keys(t.pairs))
  {
    if us != [] {
      var front, hw := us[..|us| - 1], us[|us| - 1];
      var t := TakeAll(front, legacy, used, backfill);
      RestIs(front, legacy, used, backfill);
      TakeAllIs(front, legacy, used, backfill);
      OtherKeys(us);
      KeysWithin(t.pairs, front, HwKey(hw));
      match Take(legacy, t.used, hw)
      case Some(cfg) =>
        KeysAppend(t.pairs, Pair(cfg, hw, if backfill then TrimSpace(hw.imei) else ""));
        WithoutForeign(front, Keys(t.pairs), HwKey(hw));
      case None =>
    }
  }

  lemma OtherKeys(us: seq<Modem>)
    requires us != [] && DistinctKeys(us) && forall h :: h in us ==> HwKey(h) != ""
    ensures forall h :: h in us[..|us| - 1] ==> HwKey(h) != HwKey(us[|us| - 1])
  {
  }

  lemma {:induction false} UnclaimedWithout(hs: seq<Modem>, before: seq<Config>, after: seq<Config>, keys: set<string>)
    requires forall h | h in hs && HwKey(h) != "" ::
      ConfigFor(after, HwKey(h)).None? <==> ConfigFor(before, HwKey(h)).None? && HwKey(h) !in keys
    ensures Unclaimed(hs, after) == Without(Unclaimed(hs, before), keys)
  {
    if hs != [] {
      var front, hw := hs[..|hs| - 1], hs[|hs| - 1];
      UnclaimedWithout(front, before, after, keys);
      assert hw in hs;
      if HwKey(hw) != "" && ConfigFor(before, HwKey(hw)).None? {
        assert Unclaimed(hs, before)[..|Unclaimed(front, before)|] == Unclaimed(front, before);
      }
    }
  }

  lemma UnclaimedAfter(hs: seq<Modem>, configured: seq<Config>, m: seq<Pair>, pairs: seq<Pair>)
    requires Ran(hs, configured, m, pairs)
    ensures Unclaimed(hs, WriteBack(configured, m)) == Without(Unclaimed(hs, configured), Keys(pairs))
  {
    forall h | h in hs && HwKey(h) != ""
      ensures ConfigFor(WriteBack(configured, m), HwKey(h)).None? <==>
              ConfigFor(configured, HwKey(h)).None? && HwKey(h) !in Keys(pairs)
    {
      assert Owned(configured, m, pairs, h);
    }
    UnclaimedWithout(hs, configured, WriteBack(configured, m), Keys(pairs));
  }

  /** After the write-back round one finds its old pairs and those of round two. */
  lemma AnchoredAfter(hs: seq<Modem>, configured: seq<Config>, m: seq<Pair>, pairs: seq<Pair>)
    requires Ran(hs, configured, m, pairs)
    requires forall p :: p in pairs ==> p.hardware in hs && HwKey(p.hardware) != ""
    requires DistinctKeys(hs)
    ensures forall q :: q in Anchored(hs, WriteBack(configured, m)) <==>
              exists p :: (p in Anchored(hs, configured) || p in pairs) && q == Pair(Written(p.config, m), p.hardware, "")
  {
    var configured' := WriteBack(configured, m);
    AnchoredIs(hs, configured);
    AnchoredIs(hs, configured');
    forall q | q in Anchored(hs, configured')
      ensures exists p :: (p in Anchored(hs, configured) || p in pairs) && q == Pair(Written(p.config, m), p.hardware, "")
    {
      var h := q.hardware;
      assert Owned(configured, m, pairs, h);
      if ConfigFor(configured, HwKey(h)).Some? {
        assert q in Anchored(hs, configured);
      } else {
        var p :| p in pairs && HwKey(p.hardware) == HwKey(h);
        SameModem(hs, p.hardware, h);
      }
    }
    forall p | p in Anchored(hs, configured) || p in pairs
      ensures Pair(Written(p.config, m), p.hardware, "") in Anchored(hs, configured')
    {
      assert Owned(configured, m, pairs, p.hardware);
    }
  }

  /** The write-back touches only configurations with these ids, and gives them an identity. */
  ghost predicate Touches(configured: seq<Config>, m: seq<Pair>, ids: set<string>) {
    forall c | c in configured :: if c.id in ids then CfgKey(Written(c, m)) != "" else Written(c, m) == c
  }

  lemma TakeCons(c: Config, rest: seq<Config>, used: set<string>, hw: Modem)
    ensures Take([c] + rest, used, hw) == if c.id !in used && LegacyPathMatch(c, hw) then Some(c) else Take(rest, used, hw)
  {
    assert ([c] + rest)[1..] == rest;
  }

  lemma LegacyCons(c: Config, rest: seq<Config>)
    ensures Legacy([c] + rest) == if CfgKey(c) == "" then [c] + Legacy(rest) else Legacy(rest)
  {
    assert ([c] + rest)[1..] == rest;
  }

  lemma {:induction false} TakeAfter(configured: seq<Config>, m: seq<Pair>, ids: set<string>, used: set<string>, hw: Modem)
    requires Touches(configured, m, ids) && ids <= used
    ensures Take(Legacy(WriteBack(configured, m)), used, hw) == Take(Legacy(configured), used, hw)
  {
    if configured != [] {
      var c, rest := configured[0], configured[1..];
      TakeAfter(rest, m, ids, used, hw);
      assert c in configured;
      TakeCons(c, Legacy(rest), used, hw);
      TakeCons(Written(c, m), Legacy(WriteBack(rest, m)), used, hw);
      LegacyCons(c, rest);
      LegacyCons(Written(c, m), WriteBack(rest, m));
      assert configured == [c] + rest;
    }
  }

  lemma {:induction false} TakeAllAfter(us: seq<Modem>, configured: seq<Config>, m: seq<Pair>, ids: set<string>,
                                        used: set<string>, backfill: bool)
    requires Touches(configured, m, ids) && ids <= used
    ensures TakeAll(us, Legacy(WriteBack(configured, m)), used, backfill) == TakeAll(us, Legacy(configured), used, backfill)
  {
    if us != [] {
      var front := us[..|us| - 1];
      TakeAllAfter(front, configured, m, ids, used, backfill);
      TakeAllIs(front, Legacy(configured), used, backfill);
      TakeAfter(configured, m, ids, TakeAll(front, Legacy(configured), used, backfill).used, us[|us| - 1]);
    }
  }

  lemma {:induction false} UnusedAfter(configured: seq<Config>, m: seq<Pair>, ids: set<string>, used: set<string>)
    requires Touches(configured, m, ids) && ids <= used
    ensures Unused(WriteBack(configured, m), used) == Unused(configured, used)
  {
    if configured != [] {
      UnusedAfter(configured[1..], m, ids, used);
      assert configured[0] in configured;
      assert WriteBack(configured, m)[1..] == WriteBack(configured[1..], m);
    }
  }

  lemma {:induction false} TakesNone(us: seq<Modem>, legacy: seq<Config>, used: set<string>, backfill: bool)
    requires forall h :: h in us ==> Take(legacy, used, h) == None
    ensures TakeAll(us, legacy, used, backfill) == Taken([], us, used)
  {
    if us != [] {
      TakesNone(us[..|us| - 1], legacy, used, backfill);
    }
  }

  lemma TouchesOnly(configured: seq<Config>, m: seq<Pair>, pairs: seq<Pair>)
    requires DistinctIds(configured) && Effect(configured, m, pairs)
    ensures Touches(configured, m, Ids(pairs))
  {
    forall c | c in configured && c.id in Ids(pairs)
      ensures CfgKey(Written(c, m)) != ""
    {
      var p :| p in pairs && p.config.id == c.id;
      SameConfig(configured, p.config, c);
    }
  }

  lemma RunHolds(hardware: seq<Modem>, configured: seq<Config>)
    requires DistinctIds(configured)
    ensures var hs := Dedupe(hardware); var m, two := Resolve(hardware, configured).matched, RoundTwo(hs, configured);
      && DistinctKeys(hs) && Ran(hs, configured, m, two.pairs) && Touches(configured, m, Ids(two.pairs))
  {
    var hs := Dedupe(hardware);
    var m, pairs := Resolve(hardware, configured).matched, RoundTwo(hs, configured).pairs;
    DedupeIs(hardware);
    WriteBackEffect(hardware, configured);
    TouchesOnly(configured, m, pairs);
    RoundTwoFresh(hs, configured);
    forall h | h in hs && HwKey(h) != ""
      ensures Owned(configured, m, pairs, h)
    {
      OwnerAfter(hs, configured, m, pairs, h);
    }
  }

  /** After the write-back round two finds its left-overs again, round one having taken its pairs, and pairs nobody. */
  lemma RoundTwoAfter(hs: seq<Modem>, configured: seq<Config>, m: seq<Pair>)
    requires var two := RoundTwo(hs, configured);
      DistinctKeys(hs) && Ran(hs, configured, m, two.pairs) && Touches(configured, m, Ids(two.pairs))
    ensures var two := RoundTwo(hs, configured);
      RoundTwo(hs, WriteBack(configured, m)) == Taken([], two.rest, two.used)
  {
    var us, a, legacy, two := Unclaimed(hs, configured), Anchored(hs, configured), Legacy(configured), RoundTwo(hs, configured);
    var configured' := WriteBack(configured, m);
    UnclaimedAfter(hs, configured, m, two.pairs);
    UnclaimedDistinct(hs, configured);
    UnclaimedIs(hs, configured);
    RestIs(us, legacy, Ids(a), true);
    RoundTwoPairs(hs, configured);
    AnchoredAfter(hs, configured, m, two.pairs);
    TakeAllIs(us, legacy, Ids(a), true);
    AnchoredIdsAfter(hs, configured, m);
    forall h | h in two.rest
      ensures Take(Legacy(configured'), two.used, h) == None
    {
      TakeAfter(configured, m, Ids(two.pairs), two.used, h);
      TakeIs(legacy, two.used, h);
    }
    TakesNone(two.rest, Legacy(configured'), two.used, true);
  }

  lemma AnchoredIdsAfter(hs: seq<Modem>, configured: seq<Config>, m: seq<Pair>)
    requires forall q :: q in Anchored(hs, WriteBack(configured, m)) <==>
              exists p :: (p in Anchored(hs, configured) || p in RoundTwo(hs, configured).pairs)
                       && q == Pair(Written(p.config, m), p.hardware, "")
    ensures Ids(Anchored(hs, WriteBack(configured, m))) == RoundTwo(hs, configured).used
  {
    var a, a', two := Anchored(hs, configured), Anchored(hs, WriteBack(configured, m)), RoundTwo(hs, configured);
    TakeAllIs(Unclaimed(hs, configured), Legacy(configured), Ids(a), true);
    forall id | id in Ids(a) + Ids(two.pairs)
      ensures id in Ids(a')
    {
      var p :| (p in a || p in two.pairs) && p.config.id == id;
      assert Pair(Written(p.config, m), p.hardware, "") in a';
    }
  }

  lemma SettledIs(m: seq<Pair>)
    ensures forall q :: q in Settled(m) <==> exists p :: p in m && q == Pair(Written(p.config, m), p.hardware, "")
  {
    forall p | p in m
      ensures Pair(Written(p.config, m), p.hardware, "") in Settled(m)
    {
      var i :| 0 <= i < |m| && m[i] == p;
      assert Settled(m)[i] == Pair(Written(p.config, m), p.hardware, "");
    }
  }

  lemma MatchedAfter(a: seq<Pair>, a': seq<Pair>, two: seq<Pair>, three: seq<Pair>, m: seq<Pair>)
    requires m == a + two + three
    requires forall q :: q in a' <==> exists p :: (p in a || p in two) && q == Pair(Written(p.config, m), p.hardware, "")
    requires forall p | p in three :: Written(p.config, m) == p.config && p.backfill == ""
    ensures forall q :: q in a' + three <==> q in Settled(m)
  {
    SettledIs(m);
    forall q | q in Settled(m)
      ensures q in a' + three
    {
      var p :| p in m && q == Pair(Written(p.config, m), p.hardware, "");
      if p in three {
        assert q == p;
      }
    }
    forall q | q in a' + three
      ensures q in Settled(m)
    {
      if q in a' {
        var p :| (p in a || p in two) && q == Pair(Written(p.config, m), p.hardware, "");
        assert p in m;
      } else {
        assert q in m && q == Pair(Written(q.config, m), q.hardware, "");
      }
    }
  }

  /**
   Resolving is a fixed point of its own write-back: the second run pairs the same modems with the
   same configurations, now carrying their IMEI, reports no IMEI to write, and leaves the same lists over.
   */
  lemma BackfillIsFixedPoint(hardware: seq<Modem>, configured: seq<Config>)
    requires DistinctIds(configured)
    ensures var r := Resolve(hardware, configured);
      var r' := Resolve(hardware, WriteBack(configured, r.matched));
      && (forall q :: q in r'.matched <==> q in Settled(r.matched))
      && r'.unmatched == r.unmatched && r'.offline == r.offline && r'.degraded == r.degraded
  {
    var hs := Dedupe(hardware);
    var r := Resolve(hardware, configured);
    var m, two, three := r.matched, RoundTwo(hs, configured), RoundThree(hs, configured);
    var configured' := WriteBack(configured, m);
    RunHolds(hardware, configured);
    RoundTwoAfter(hs, configured, m);
    TakeAllIs(Unclaimed(hs, configured), Legacy(configured), Ids(Anchored(hs, configured)), true);
    TakeAllAfter(Imeiless(hs), configured, m, Ids(two.pairs), two.used, false);
    TakeAllIs(Imeiless(hs), Legacy(configured), two.used, false);
    UnusedAfter(configured, m, Ids(two.pairs), three.used);
    RoundTwoPairs(hs, configured);
    AnchoredAfter(hs, configured, m, two.pairs);
    LegacyIs(configured);
    MatchedAfter(Anchored(hs, configured), Anchored(hs, configured'), two.pairs, three.pairs, m);
  }
}
