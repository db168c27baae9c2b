/** The identity and path rules of the pairing, told by example and by what a pairing may and may not be. */
module IdentityRules {
  import opened Text
  import opened Wrappers
  import opened DeviceIdentity
  import opened IdentityFixedPoint
  import Composition

  predicate AllDigits(s: string) {
    forall i :: 0 <= i < |s| ==> IsDigit(s[i])
  }

  lemma {:induction false} DigitsOfDigits(s: string)
    requires AllDigits(s)
    ensures Digits(s) == s
  {
    if s != [] {
      DigitsOfDigits(s[1..]);
    }
  }

  /** The key of an IMEI is its first fourteen digits; fewer are no identity. */
  lemma KeyIs(s: string)
    requires AllDigits(s)
    ensures NormalizeIMEI(s) == if |s| < 14 then "" else s[..14]
  {
    DigitsOfDigits(s);
  }

  /** Whatever stands between the digits is skipped. */
  lemma OthersAreSkipped(a: string, c: char, b: string)
    requires !IsDigit(c)
    ensures NormalizeIMEI(a + [c] + b) == NormalizeIMEI(a + b)
  {
    DigitsConcat(a + [c], b);
    DigitsConcat(a, [c]);
    DigitsConcat(a, b);
  }

  /** Both name this, and the same. */
  predicate Share(a: string, b: string) {
    TrimSpace(a) != "" && TrimSpace(a) == TrimSpace(b)
  }

  /** The device is where the configuration expects it: in its USB port if both are known, else at its control node or interface. */
  predicate InPlace(cfg: Config, hw: Modem) {
    || Share(cfg.usbPath, hw.usbPath)
    || ((TrimSpace(cfg.usbPath) == "" || TrimSpace(hw.usbPath) == "")
        && (Share(cfg.controlDevice, hw.controlPath) || Share(cfg.iface, hw.netInterface)))
  }

  lemma InPlaceIff(cfg: Config, hw: Modem)
    ensures LegacyPathMatch(cfg, hw) <==> InPlace(cfg, hw)
  {
  }

  /** A configuration without an IMEI is paired only with a modem in its place, and stays offline only if no left-over modem is. */
  lemma PathPairs(hardware: seq<Modem>, configured: seq<Config>)
    ensures forall p | p in Resolve(hardware, configured).matched :: CfgKey(p.config) == "" ==> InPlace(p.config, p.hardware)
    ensures var r := Resolve(hardware, configured);
      forall h, c :: (h in r.unmatched || h in r.degraded) && c in r.offline && CfgKey(c) == "" ==> !InPlace(c, h)
  {
    var r := Resolve(hardware, configured);
    PairsAreJustified(hardware, configured);
    forall p | p in r.matched && CfgKey(p.config) == ""
      ensures InPlace(p.config, p.hardware)
    {
      InPlaceIff(p.config, p.hardware);
    }
    forall h, c | (h in r.unmatched || h in r.degraded) && c in r.offline && CfgKey(c) == ""
      ensures !InPlace(c, h)
    {
      MatchingIsMaximal(hardware, configured, h, c);
      InPlaceIff(c, h);
    }
  }

  /** Of a modem that shows up in several compositions the first with the best back-end mode stays. */
  lemma BestComposition(hardware: seq<Modem>, d: Modem) returns (k: nat)
    requires d in Dedupe(hardware) && HwKey(d) != ""
    ensures k < |hardware| && hardware[k] == d
    ensures forall j | 0 <= j < |hardware| && HwKey(hardware[j]) == HwKey(d) ::
              && CompositionRank(hardware[j].mode) <= CompositionRank(d.mode)
              && (j < k ==> CompositionRank(hardware[j].mode) < CompositionRank(d.mode))
  {
    DedupeIs(hardware);
    k := BestAt(hardware, d);
    forall j | 0 <= j < |hardware| && HwKey(hardware[j]) == HwKey(d)
      ensures CompositionRank(hardware[j].mode) <= CompositionRank(d.mode)
      ensures j < k ==> CompositionRank(hardware[j].mode) < CompositionRank(d.mode)
    {
      RankOf(hardware[j]);
      RankOf(d);
    }
  }

  lemma RankOf(h: Modem)
    ensures HwRank(h) == CompositionRank(h.mode)
  {
  }

  lemma BestAt(hardware: seq<Modem>, d: Modem) returns (k: nat)
    requires Composition.IsFirstBest(hardware, HwKey, HwRank, d)
    ensures k < |hardware| && hardware[k] == d
    ensures forall j | 0 <= j < |hardware| && HwKey(hardware[j]) == HwKey(d) ::
              HwRank(hardware[j]) <= HwRank(d) && (j < k ==> HwRank(hardware[j]) < HwRank(d))
  {
    k :| Composition.FirstBest(hardware, HwKey, HwRank, k) && hardware[k] == d;
  }

  lemma {:induction false} FirstConfig(configured: seq<Config>, key: string, k: nat)
    requires k < |configured| && CfgKey(configured[k]) == key && forall j :: 0 <= j < k ==> CfgKey(configured[j]) != key
    ensures ConfigFor(configured, key) == Some(configured[k])
  {
    if k > 0 {
      FirstConfig(configured[1..], key, k - 1);
    }
  }

  /** A modem whose IMEI some configuration carries goes to the first that does, wherever it is plugged in. */
  lemma IMEIDecides(hardware: seq<Modem>, configured: seq<Config>, h: Modem, k: nat)
    requires h in Dedupe(hardware) && HwKey(h) != "" && k < |configured| && CfgKey(configured[k]) == HwKey(h)
    requires forall j :: 0 <= j < k ==> CfgKey(configured[j]) != HwKey(h)
    ensures Pair(configured[k], h, "") in Resolve(hardware, configured).matched
  {
    var hs := Dedupe(hardware);
    FirstConfig(configured, HwKey(h), k);
    AnchoredIs(hs, configured);
    assert Pair(configured[k], h, "") in Anchored(hs, configured);
  }

  /** Of several free configurations in its place a modem takes the first. */
  lemma {:induction false} TakesTheFirst(legacy: seq<Config>, used: set<string>, hw: Modem, k: nat)
    requires k < |legacy| && legacy[k].id !in used && InPlace(legacy[k], hw)
    requires forall j :: 0 <= j < k ==> legacy[j].id in used || !InPlace(legacy[j], hw)
    ensures Take(legacy, used, hw) == Some(legacy[k])
  {
    InPlaceIff(legacy[0], hw);
    if k > 0 {
      TakesTheFirst(legacy[1..], used, hw, k - 1);
    }
  }

  /** Modems with an IMEI choose first: none of them is left over beside a configuration that one without got. */
  lemma IMEIChoosesFirst(hardware: seq<Modem>, configured: seq<Config>, p: Pair, h: Modem)
    requires var r := Resolve(hardware, configured); p in r.matched && h in r.unmatched
    requires HwKey(p.hardware) == ""
    ensures !InPlace(p.config, h)
  {
    var hs := Dedupe(hardware);
    var a, two, three := Anchored(hs, configured), RoundTwo(hs, configured), RoundThree(hs, configured);
    TakeAllIs(Unclaimed(hs, configured), Legacy(configured), Ids(a), true);
    TakeAllIs(Imeiless(hs), Legacy(configured), two.used, false);
    AnchoredIs(hs, configured);
    UnclaimedIs(hs, configured);
    assert p in three.pairs;
    InPlaceIff(p.config, h);
  }
}
