/**
 Pairing detected modems with configured devices: identity is the normalised IMEI; a stable path
 counts only for configurations that have no IMEI yet.
 */
module DeviceIdentity {
  import opened Text
  import opened Wrappers
  import Composition

  datatype Modem = Modem(imei: string, mode: string, usbPath: string, controlPath: string, netInterface: string)

  datatype Config = Config(id: string, imei: string, usbPath: string, controlDevice: string, iface: string)

  /** `backfill` is the IMEI to write into a configuration that had none; otherwise empty. */
  datatype Pair = Pair(config: Config, hardware: Modem, backfill: string)

  datatype Resolution = Resolution(matched: seq<Pair>, unmatched: seq<Modem>, offline: seq<Config>, degraded: seq<Modem>)

  const IMEI_KEY_LENGTH := 14

  predicate IsDigit(c: char) {
    '0' <= c <= '9'
  }

  function Digits(s: string): string {
    if s == [] then [] else (if IsDigit(s[0]) then [s[0]] else []) + Digits(s[1..])
  }

  function NormalizeIMEI(raw: string): string {
    var d := Digits(raw);
    if |d| < IMEI_KEY_LENGTH then "" else d[..IMEI_KEY_LENGTH]
  }

  function CompositionRank(mode: string): int {
    var m := ToLower(TrimSpace(mode));
    if m == "qmi" then 5
    else if m == "mbim" then 4
    else if m == "ncm" then 3
    else if m == "ecm" then 2
    else if m == "rndis" then 1
    else 0
  }

  /** Two known USB paths decide alone; otherwise an equal control node or interface does. */
  predicate LegacyPathMatch(cfg: Config, hw: Modem) {
    var cfgUSB, hwUSB := TrimSpace(cfg.usbPath), TrimSpace(hw.usbPath);
    if cfgUSB != "" && hwUSB != "" then cfgUSB == hwUSB
    else
      var c, i := TrimSpace(cfg.controlDevice), TrimSpace(cfg.iface);
      (c != "" && c == TrimSpace(hw.controlPath)) || (i != "" && i == TrimSpace(hw.netInterface))
  }

  function HwKey(hw: Modem): string {
    NormalizeIMEI(hw.imei)
  }

  function CfgKey(cfg: Config): string {
    NormalizeIMEI(cfg.imei)
  }

  function HwRank(hw: Modem): int {
    CompositionRank(hw.mode)
  }

  lemma PlainMode(m: string)
    requires Trimmed(m) && forall i :: 0 <= i < |m| ==> 'a' <= m[i] <= 'z'
    ensures ToLower(TrimSpace(m)) == m
  {
    TrimmedIsFixed(m);
    assert ToLower(m) == m;
  }

  /** Back-end modes in order of preference, and every mode that is none of the five, whatever its case and blanks, last. */
  lemma RanksInOrder()
    ensures CompositionRank("qmi") > CompositionRank("mbim") > CompositionRank("ncm") > CompositionRank("ecm")
          > CompositionRank("rndis") > 0
    ensures forall mode ::
              CompositionRank(mode) == 0 <==> ToLower(TrimSpace(mode)) !in {"qmi", "mbim", "ncm", "ecm", "rndis"}
  {
    PlainMode("qmi");
    PlainMode("mbim");
    PlainMode("ncm");
    PlainMode("ecm");
    PlainMode("rndis");
  }

  /** The case of a mode and the blanks around it do not matter. */
  lemma RankIgnoresCase(mode: string)
    ensures CompositionRank(ToLower(TrimSpace(mode))) == CompositionRank(mode)
    ensures CompositionRank(ToUpper(mode)) == CompositionRank(mode)
  {
    TrimUpper(mode);
    assert ToLower(ToUpper(TrimSpace(mode))) == ToLower(TrimSpace(mode));
    var m := ToLower(TrimSpace(mode));
    TrimSpaceShape(mode);
    TrimmedIsFixed(m);
    assert ToLower(m) == m;
  }

  // ---- one entry per modem --------------------------------------------------------------------

  function Dedupe(hardware: seq<Modem>): seq<Modem> {
    Composition.Dedupe(hardware, HwKey, HwRank)
  }

  function Imeiless(hs: seq<Modem>): seq<Modem> {
    Composition.Keyless(hs, HwKey)
  }

  ghost predicate DistinctKeys(hs: seq<Modem>) {
    Composition.DistinctKeys(hs, HwKey)
  }

  /**
   After deduplication each IMEI is there once, with the first of its best-ranked compositions, no
   IMEI is lost, and modems without an IMEI are all kept in order.
   */
  lemma DedupeIs(hardware: seq<Modem>)
    ensures DistinctKeys(Dedupe(hardware))
    ensures Imeiless(Dedupe(hardware)) == Imeiless(hardware)
    ensures forall h :: h in Dedupe(hardware) ==> h in hardware
    ensures forall h :: h in Dedupe(hardware) && HwKey(h) != "" ==> Composition.IsFirstBest(hardware, HwKey, HwRank, h)
    ensures forall h :: h in hardware ==> exists d :: d in Dedupe(hardware) && HwKey(d) == HwKey(h)
  {
    Composition.DedupeDistinct(hardware, HwKey, HwRank);
    Composition.DedupeKeyless(hardware, HwKey, HwRank);
    Composition.DedupeBest(hardware, HwKey, HwRank);
    forall h | h in hardware
      ensures exists d :: d in Dedupe(hardware) && HwKey(d) == HwKey(h)
    {
      var i := Composition.IndexOfKey(Dedupe(hardware), HwKey, HwKey(h));
      assert Dedupe(hardware)[i] in Dedupe(hardware);
    }
  }

  // ---- the three rounds -----------------------------------------------------------------------

  /** The first configuration with this IMEI key. */
  function ConfigFor(configured: seq<Config>, key: string): Option<Config> {
    if configured == [] then None
    else if CfgKey(configured[0]) == key then Some(configured[0])
    else ConfigFor(configured[1..], key)
  }

  function Legacy(configured: seq<Config>): seq<Config> {
    if configured == [] then []
    else (if CfgKey(configured[0]) == "" then [configured[0]] else []) + Legacy(configured[1..])
  }

  /** Round one: hardware whose IMEI a configuration carries. */
  function Anchored(hs: seq<Modem>, configured: seq<Config>): seq<Pair> {
    if hs == [] then []
    else
      var rest, hw := Anchored(hs[..|hs| - 1], configured), hs[|hs| - 1];
      if HwKey(hw) != "" && ConfigFor(configured, HwKey(hw)).Some?
      then rest + [Pair(ConfigFor(configured, HwKey(hw)).value, hw, "")] else rest
  }

  function Unclaimed(hs: seq<Modem>, configured: seq<Config>): seq<Modem> {
    if hs == [] then []
    else
      var rest, hw := Unclaimed(hs[..|hs| - 1], configured), hs[|hs| - 1];
      if HwKey(hw) != "" && ConfigFor(configured, HwKey(hw)).None? then rest + [hw] else rest
  }

  function Ids(pairs: seq<Pair>): set<string> {
    set p | p in pairs :: p.config.id
  }

  /** The first unused configuration without IMEI whose path matches. */
  function Take(legacy: seq<Config>, used: set<string>, hw: Modem): Option<Config> {
    if legacy == [] then None
    else if legacy[0].id !in used && LegacyPathMatch(legacy[0], hw) then Some(legacy[0])
    else Take(legacy[1..], used, hw)
  }

  datatype Taken = Taken(pairs: seq<Pair>, rest: seq<Modem>, used: set<string>)

  /** Rounds two and three: each modem in turn takes a configuration or is left over. */
  function TakeAll(hs: seq<Modem>, legacy: seq<Config>, used: set<string>, backfill: bool): Taken {
    if hs == [] then Taken([], [], used)
    else
      var t, hw := TakeAll(hs[..|hs| - 1], legacy, used, backfill), hs[|hs| - 1];
      match Take(legacy, t.used, hw)
      case Some(cfg) =>
        Taken(t.pairs + [Pair(cfg, hw, if backfill then TrimSpace(hw.imei) else "")], t.rest, t.used + {cfg.id})
      case None => Taken(t.pairs, t.rest + [hw], t.used)
  }

  function Unused(configured: seq<Config>, used: set<string>): seq<Config> {
    if configured == [] then []
    else (if configured[0].id !in used then [configured[0]] else []) + Unused(configured[1..], used)
  }

  function RoundTwo(hs: seq<Modem>, configured: seq<Config>): Taken {
    TakeAll(Unclaimed(hs, configured), Legacy(configured), Ids(Anchored(hs, configured)), true)
  }

  function RoundThree(hs: seq<Modem>, configured: seq<Config>): Taken {
    TakeAll(Imeiless(hs), Legacy(configured), RoundTwo(hs, configured).used, false)
  }

  function Resolve(hardware: seq<Modem>, configured: seq<Config>): Resolution {
    var hs := Dedupe(hardware);
    var two, three := RoundTwo(hs, configured), RoundThree(hs, configured);
    Resolution(Anchored(hs, configured) + two.pairs + three.pairs, two.rest, Unused(configured, three.used), three.rest)
  }

  // ---- what the rounds yield ------------------------------------------------------------------

  ghost predicate DistinctIds(configured: seq<Config>) {
    forall i, j :: 0 <= i < j < |configured| ==> configured[i].id != configured[j].id
  }

  lemma {:induction false} ConfigForIs(configured: seq<Config>, key: string)
    ensures ConfigFor(configured, key).Some? ==>
              ConfigFor(configured, key).value in configured && CfgKey(ConfigFor(configured, key).value) == key
    ensures ConfigFor(configured, key).None? <==> forall c :: c in configured ==> CfgKey(c) != key
  {
    if configured != [] {
      ConfigForIs(configured[1..], key);
      assert configured == [configured[0]] + configured[1..];
    }
  }

  lemma {:induction false} LegacyIs(configured: seq<Config>)
    ensures forall c :: c in Legacy(configured) <==> c in configured && CfgKey(c) == ""
  {
    if configured != [] {
      LegacyIs(configured[1..]);
      assert configured == [configured[0]] + configured[1..];
    }
  }

  lemma {:induction false} TakeIs(legacy: seq<Config>, used: set<string>, hw: Modem)
    ensures var t := Take(legacy, used, hw);
      && (t.Some? ==> t.value in legacy && t.value.id !in used && LegacyPathMatch(t.value, hw))
      && (t.None? <==> forall c :: c in legacy && c.id !in used ==> !LegacyPathMatch(c, hw))
  {
    if legacy != [] {
      TakeIs(legacy[1..], used, hw);
      assert legacy == [legacy[0]] + legacy[1..];
    }
  }

  lemma {:induction false} UnusedIs(configured: seq<Config>, used: set<string>)
    ensures forall c :: c in Unused(configured, used) <==> c in configured && c.id !in used
  {
    if configured != [] {
      UnusedIs(configured[1..], used);
      assert configured == [configured[0]] + configured[1..];
    }
  }

  lemma {:induction false} AnchoredIs(hs: seq<Modem>, configured: seq<Config>)
    ensures forall p :: p in Anchored(hs, configured) <==>
              p.hardware in hs && HwKey(p.hardware) != "" && p.backfill == ""
              && ConfigFor(configured, HwKey(p.hardware)) == Some(p.config)
  {
    if hs != [] {
      AnchoredIs(hs[..|hs| - 1], configured);
      assert hs == hs[..|hs| - 1] + [hs[|hs| - 1]];
    }
  }

  lemma {:induction false} UnclaimedIs(hs: seq<Modem>, configured: seq<Config>)
    ensures forall h :: h in Unclaimed(hs, configured) <==>
              h in hs && HwKey(h) != "" && ConfigFor(configured, HwKey(h)).None?
  {
    if hs != [] {
      UnclaimedIs(hs[..|hs| - 1], configured);
      assert hs == hs[..|hs| - 1] + [hs[|hs| - 1]];
    }
  }

  lemma {:induction false} ImeilessIs(hs: seq<Modem>)
    ensures forall h :: h in Imeiless(hs) <==> h in hs && HwKey(h) == ""
  {
    if hs != [] {
      ImeilessIs(hs[..|hs| - 1]);
      assert hs == hs[..|hs| - 1] + [hs[|hs| - 1]];
    }
  }

  ghost predicate DistinctPairIds(pairs: seq<Pair>) {
    forall i, j :: 0 <= i < j < |pairs| ==> pairs[i].config.id != pairs[j].config.id
  }

  /** What one round of taking establishes. */
  ghost predicate TakenOk(t: Taken, hs: seq<Modem>, legacy: seq<Config>, used: set<string>, backfill: bool) {
    && t.used == used + Ids(t.pairs)
    && (forall p | p in t.pairs ::
          && p.hardware in hs && p.config in legacy && p.config.id !in used
          && LegacyPathMatch(p.config, p.hardware)
          && p.backfill == if backfill then TrimSpace(p.hardware.imei) else "")
    && DistinctPairIds(t.pairs)
    && (forall h :: h in t.rest ==> h in hs && forall c :: c in legacy && c.id !in t.used ==> !LegacyPathMatch(c, h))
  }

  lemma TakeOneMore(t: Taken, hs: seq<Modem>, legacy: seq<Config>, used: set<string>, backfill: bool, hw: Modem, cfg: Config)
    requires TakenOk(t, hs, legacy, used, backfill)
    requires cfg in legacy && cfg.id !in t.used && LegacyPathMatch(cfg, hw)
    ensures var p := Pair(cfg, hw, if backfill then TrimSpace(hw.imei) else "");
      TakenOk(Taken(t.pairs + [p], t.rest, t.used + {cfg.id}), hs + [hw], legacy, used, backfill)
  {
    var p := Pair(cfg, hw, if backfill then TrimSpace(hw.imei) else "");
    var pairs := t.pairs + [p];
    assert forall q :: q in pairs <==> q in t.pairs || q == p;
    assert Ids(pairs) == Ids(t.pairs) + {cfg.id};
    forall i | 0 <= i < |t.pairs|
      ensures t.pairs[i].config.id != cfg.id
    {
      assert t.pairs[i] in t.pairs;
      assert t.pairs[i].config.id in Ids(t.pairs);
    }
  }

  lemma {:induction false} TakeAllIs(hs: seq<Modem>, legacy: seq<Config>, used: set<string>, backfill: bool)
    ensures TakenOk(TakeAll(hs, legacy, used, backfill), hs, legacy, used, backfill)
  {
    if hs != [] {
      var n := |hs| - 1;
      var t := TakeAll(hs[..n], legacy, used, backfill);
      TakeAllIs(hs[..n], legacy, used, backfill);
      TakeIs(legacy, t.used, hs[n]);
      assert hs == hs[..n] + [hs[n]];
      match Take(legacy, t.used, hs[n])
      case Some(cfg) => TakeOneMore(t, hs[..n], legacy, used, backfill, hs[n], cfg);
      case None =>
    }
  }

  function HardwareOf(pairs: seq<Pair>): seq<Modem> {
    seq(|pairs|, i requires 0 <= i < |pairs| => pairs[i].hardware)
  }

  lemma {:induction false} TakeAllPartitions(hs: seq<Modem>, legacy: seq<Config>, used: set<string>, backfill: bool)
    ensures var t := TakeAll(hs, legacy, used, backfill);
      multiset(HardwareOf(t.pairs)) + multiset(t.rest) == multiset(hs)
  {
    if hs != [] {
      var n := |hs| - 1;
      var t, t' := TakeAll(hs[..n], legacy, used, backfill), TakeAll(hs, legacy, used, backfill);
      TakeAllPartitions(hs[..n], legacy, used, backfill);
      assert hs == hs[..n] + [hs[n]];
      if t'.pairs != t.pairs {
        assert HardwareOf(t'.pairs) == HardwareOf(t.pairs) + [hs[n]];
      }
    }
  }

  lemma HardwareSnoc(pairs: seq<Pair>, p: Pair)
    ensures HardwareOf(pairs + [p]) == HardwareOf(pairs) + [p.hardware]
  {
  }

  lemma {:induction false} RoundsPartition(hs: seq<Modem>, configured: seq<Config>)
    ensures multiset(HardwareOf(Anchored(hs, configured))) + multiset(Unclaimed(hs, configured)) + multiset(Imeiless(hs))
         == multiset(hs)
  {
    if hs != [] {
      var front, hw := hs[..|hs| - 1], hs[|hs| - 1];
      RoundsPartition(front, configured);
      assert hs == front + [hw];
      if HwKey(hw) == "" {
        assert Imeiless(hs) == Imeiless(front) + [hw];
      } else if ConfigFor(configured, HwKey(hw)).Some? {
        HardwareSnoc(Anchored(front, configured), Pair(ConfigFor(configured, HwKey(hw)).value, hw, ""));
      }
    }
  }

  lemma SharesAddUp(all: multiset<Modem>, anchored: multiset<Modem>, two: multiset<Modem>, rest2: multiset<Modem>,
                    three: multiset<Modem>, rest3: multiset<Modem>)
    requires anchored + (two + rest2) + (three + rest3) == all
    ensures (anchored + two + three) + rest2 + rest3 == all
  {
  }

  lemma HardwareConcat(a: seq<Pair>, b: seq<Pair>, c: seq<Pair>)
    ensures multiset(HardwareOf(a + b + c)) == multiset(HardwareOf(a)) + multiset(HardwareOf(b)) + multiset(HardwareOf(c))
  {
    assert HardwareOf(a + b + c) == HardwareOf(a) + HardwareOf(b) + HardwareOf(c);
  }

  /** Every modem, once deduplicated, ends in exactly one of the three lists, as often as it was there. */
  lemma ResolutionPartitions(hardware: seq<Modem>, configured: seq<Config>)
    ensures var r := Resolve(hardware, configured);
      multiset(HardwareOf(r.matched)) + multiset(r.unmatched) + multiset(r.degraded) == multiset(Dedupe(hardware))
  {
    var hs := Dedupe(hardware);
    var a, two, three := Anchored(hs, configured), RoundTwo(hs, configured), RoundThree(hs, configured);
    RoundsPartition(hs, configured);
    TakeAllPartitions(Unclaimed(hs, configured), Legacy(configured), Ids(a), true);
    TakeAllPartitions(Imeiless(hs), Legacy(configured), two.used, false);
    HardwareConcat(a, two.pairs, three.pairs);
    SharesAddUp(multiset(hs), multiset(HardwareOf(a)), multiset(HardwareOf(two.pairs)), multiset(two.rest),
                multiset(HardwareOf(three.pairs)), multiset(three.rest));
  }

  /** Left-over modems are told apart by whether they have an identity at all. */
  lemma LeftOversAreTyped(hardware: seq<Modem>, configured: seq<Config>)
    ensures var r := Resolve(hardware, configured);
      && (forall h :: h in r.unmatched ==> HwKey(h) != "" && forall c :: c in configured ==> CfgKey(c) != HwKey(h))
      && (forall h :: h in r.degraded ==> HwKey(h) == "")
  {
    var hs := Dedupe(hardware);
    TakeAllIs(Unclaimed(hs, configured), Legacy(configured), Ids(Anchored(hs, configured)), true);
    TakeAllIs(Imeiless(hs), Legacy(configured), RoundTwo(hs, configured).used, false);
    UnclaimedIs(hs, configured);
    ImeilessIs(hs);
    forall h | h in Resolve(hardware, configured).unmatched
      ensures forall c :: c in configured ==> CfgKey(c) != HwKey(h)
    {
      ConfigForIs(configured, HwKey(h));
    }
  }

  /** Who may be paired with whom, and when an IMEI is to be written back. */
  lemma PairsAreJustified(hardware: seq<Modem>, configured: seq<Config>)
    ensures forall p | p in Resolve(hardware, configured).matched ::
      && p.config in configured && p.hardware in Dedupe(hardware)
      && (CfgKey(p.config) != "" ==> HwKey(p.hardware) == CfgKey(p.config) && p.backfill == "")
      && (CfgKey(p.config) == "" ==>
            && LegacyPathMatch(p.config, p.hardware)
            && p.backfill == if HwKey(p.hardware) == "" then "" else TrimSpace(p.hardware.imei))
  {
    var hs := Dedupe(hardware);
    TakeAllIs(Unclaimed(hs, configured), Legacy(configured), Ids(Anchored(hs, configured)), true);
    TakeAllIs(Imeiless(hs), Legacy(configured), RoundTwo(hs, configured).used, false);
    UnclaimedIs(hs, configured);
    ImeilessIs(hs);
    AnchoredIs(hs, configured);
    LegacyIs(configured);
    forall p | p in Anchored(hs, configured)
      ensures p.config in configured && CfgKey(p.config) == HwKey(p.hardware)
    {
      ConfigForIs(configured, HwKey(p.hardware));
    }
  }

  /** No left-over modem could still take a left-over configuration. */
  lemma MatchingIsMaximal(hardware: seq<Modem>, configured: seq<Config>, h: Modem, c: Config)
    requires var r := Resolve(hardware, configured); (h in r.unmatched || h in r.degraded) && c in r.offline
    ensures CfgKey(c) == "" ==> !LegacyPathMatch(c, h)
    ensures CfgKey(c) != "" ==> HwKey(h) != CfgKey(c)
  {
    var hs := Dedupe(hardware);
    var two, three := RoundTwo(hs, configured), RoundThree(hs, configured);
    TakeAllIs(Unclaimed(hs, configured), Legacy(configured), Ids(Anchored(hs, configured)), true);
    TakeAllIs(Imeiless(hs), Legacy(configured), two.used, false);
    UnclaimedIs(hs, configured);
    ImeilessIs(hs);
    LegacyIs(configured);
    UnusedIs(configured, three.used);
    ConfigForIs(configured, HwKey(h));
  }

  /** A modem in a known USB port never takes over a configuration bound to another known port. */
  lemma NoTakeoverAcrossPorts(hardware: seq<Modem>, configured: seq<Config>, p: Pair)
    requires p in Resolve(hardware, configured).matched && CfgKey(p.config) == ""
    requires TrimSpace(p.config.usbPath) != "" && TrimSpace(p.hardware.usbPath) != ""
    ensures TrimSpace(p.config.usbPath) == TrimSpace(p.hardware.usbPath)
  {
    PairsAreJustified(hardware, configured);
  }
}
