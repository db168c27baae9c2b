/** The resolver's loops, each proved to compute what the specification of its round says. */
module IdentityResolver {
  import opened Text
  import opened Wrappers
  import opened DeviceIdentity
  import Composition

  // ---- one more entry --------------------------------------------------------------------------

  lemma {:induction false} IndexAppend<T>(out: seq<T>, key: T -> string, x: T, k: string)
    ensures Composition.IndexOfKey(out + [x], key, k) ==
            var i := Composition.IndexOfKey(out, key, k);
            if i < |out| then i else if key(x) == k then |out| else |out| + 1
  {
    if out != [] {
      assert (out + [x])[1..] == out[1..] + [x];
      IndexAppend(out[1..], key, x, k);
    }
  }

  lemma {:induction false} IndexUpdate<T>(out: seq<T>, key: T -> string, i: nat, x: T, k: string)
    requires i < |out| && key(out[i]) == key(x)
    ensures Composition.IndexOfKey(out[i := x], key, k) == Composition.IndexOfKey(out, key, k)
  {
    if i > 0 {
      assert out[i := x][1..] == out[1..][i - 1 := x];
      IndexUpdate(out[1..], key, i - 1, x, k);
    }
  }

  lemma {:induction false} ConfigForAppend(cs: seq<Config>, c: Config, key: string)
    ensures ConfigFor(cs + [c], key) ==
            if ConfigFor(cs, key).Some? then ConfigFor(cs, key) else if CfgKey(c) == key then Some(c) else None
  {
    if cs != [] {
      assert (cs + [c])[1..] == cs[1..] + [c];
      ConfigForAppend(cs[1..], c, key);
    }
  }

  lemma {:induction false} LegacyAppend(cs: seq<Config>, c: Config)
    ensures Legacy(cs + [c]) == Legacy(cs) + if CfgKey(c) == "" then [c] else []
  {
    if cs != [] {
      assert (cs + [c])[1..] == cs[1..] + [c];
      LegacyAppend(cs[1..], c);
    }
  }

  lemma {:induction false} UnusedAppend(cs: seq<Config>, c: Config, used: set<string>)
    ensures Unused(cs + [c], used) == Unused(cs, used) + if c.id !in used then [c] else []
  {
    if cs != [] {
      assert (cs + [c])[1..] == cs[1..] + [c];
      UnusedAppend(cs[1..], c, used);
    }
  }

  lemma {:induction false} TakeSkips(cs: seq<Config>, n: nat, used: set<string>, hw: Modem)
    requires n <= |cs| && forall j :: 0 <= j < n ==> cs[j].id in used || !LegacyPathMatch(cs[j], hw)
    ensures Take(cs, used, hw) == Take(cs[n..], used, hw)
  {
    if n > 0 {
      TakeSkips(cs[1..], n - 1, used, hw);
      assert cs[1..][n - 1..] == cs[n..];
    }
  }

  lemma IdsAppend(pairs: seq<Pair>, p: Pair)
    ensures Ids(pairs + [p]) == Ids(pairs) + {p.config.id}
  {
    assert forall q :: q in pairs + [p] <==> q in pairs || q == p;
  }

  // ---- the loops ---------------------------------------------------------------------------------

  /** Where each IMEI already stands in the list under construction. */
  ghost predicate Places(primary: map<string, nat>, out: seq<Modem>) {
    forall k :: (k in primary <==> k != "" && Composition.IndexOfKey(out, HwKey, k) < |out|)
             && (k in primary ==> primary[k] == Composition.IndexOfKey(out, HwKey, k))
  }

  lemma PlacesAppend(primary: map<string, nat>, out: seq<Modem>, hw: Modem)
    requires Places(primary, out) && HwKey(hw) !in primary
    ensures Places(if HwKey(hw) == "" then primary else primary[HwKey(hw) := |out|], out + [hw])
  {
    forall k {
      IndexAppend(out, HwKey, hw, k);
    }
  }

  lemma PlacesUpdate(primary: map<string, nat>, out: seq<Modem>, hw: Modem)
    requires Places(primary, out) && HwKey(hw) in primary
    ensures Places(primary, out[primary[HwKey(hw)] := hw])
  {
    forall k {
      IndexUpdate(out, HwKey, primary[HwKey(hw)], hw, k);
    }
  }

  lemma DedupeAppend(hs: seq<Modem>, hw: Modem)
    ensures Dedupe(hs + [hw]) == Composition.DedupeStep(Dedupe(hs), HwKey, HwRank, hw)
  {
    assert (hs + [hw])[..|hs|] == hs;
  }

  /** One step of the list, by the index map instead of a search. */
  lemma StepByMap(primary: map<string, nat>, out: seq<Modem>, hw: Modem)
    requires Places(primary, out)
    ensures var key := HwKey(hw); var next := Composition.DedupeStep(out, HwKey, HwRank, hw);
      if key !in primary then next == out + [hw]
      else primary[key] < |out| && next == if HwRank(hw) > HwRank(out[primary[key]]) then out[primary[key] := hw] else out
    ensures HwKey(hw) == "" ==> HwKey(hw) !in primary
  {
    var at := Composition.IndexOfKey(out, HwKey, HwKey(hw));
    assert at <= |out|;
  }

  method DedupeCompositions(hardware: seq<Modem>) returns (out: seq<Modem>)
    ensures out == Dedupe(hardware)
  {
    var primary: map<string, nat> := map[];
    out := [];
    for i := 0 to |hardware|
      invariant out == Dedupe(hardware[..i]) && Places(primary, out)
    {
      var hw := hardware[i];
      var key := HwKey(hw);
      assert hardware[..i + 1] == hardware[..i] + [hw];
      DedupeAppend(hardware[..i], hw);
      StepByMap(primary, out, hw);
      if key == "" {
        PlacesAppend(primary, out, hw);
        out := out + [hw];
      } else if key in primary {
        var at := primary[key];
        if HwRank(hw) > HwRank(out[at]) {
          PlacesUpdate(primary, out, hw);
          out := out[at := hw];
        }
      } else {
        PlacesAppend(primary, out, hw);
        primary := primary[key := |out|];
        out := out + [hw];
      }
    }
    assert hardware[..|hardware|] == hardware;
  }

  /** Configurations by identity, the first one of a key winning, and those without an identity. */
  method IndexConfigs(configured: seq<Config>) returns (byIMEI: map<string, Config>, legacy: seq<Config>)
    ensures forall k :: (k in byIMEI <==> k != "" && ConfigFor(configured, k).Some?)
                     && (k in byIMEI ==> ConfigFor(configured, k) == Some(byIMEI[k]))
    ensures legacy == Legacy(configured)
  {
    byIMEI, legacy := map[], [];
    for i := 0 to |configured|
      invariant forall k :: (k in byIMEI <==> k != "" && ConfigFor(configured[..i], k).Some?)
                         && (k in byIMEI ==> ConfigFor(configured[..i], k) == Some(byIMEI[k]))
      invariant legacy == Legacy(configured[..i])
    {
      var cfg := configured[i];
      var key := NormalizeIMEI(cfg.imei);
      assert configured[..i + 1] == configured[..i] + [cfg];
      LegacyAppend(configured[..i], cfg);
      forall k {
        ConfigForAppend(configured[..i], cfg, k);
      }
      if key != "" {
        if key !in byIMEI {
          byIMEI := byIMEI[key := cfg];
        }
      } else {
        legacy := legacy + [cfg];
      }
    }
    assert configured[..|configured|] == configured;
  }

  method TakeLegacyConfig(legacy: seq<Config>, used: set<string>, hw: Modem) returns (taken: Option<Config>, used': set<string>)
    ensures taken == Take(legacy, used, hw)
    ensures used' == if taken.Some? then used + {taken.value.id} else used
  {
    for i := 0 to |legacy|
      invariant forall j :: 0 <= j < i ==> legacy[j].id in used || !LegacyPathMatch(legacy[j], hw)
    {
      if legacy[i].id in used {
        continue;
      }
      if LegacyPathMatch(legacy[i], hw) {
        TakeSkips(legacy, i, used, hw);
        return Some(legacy[i]), used + {legacy[i].id};
      }
    }
    TakeSkips(legacy, |legacy|, used, hw);
    return None, used;
  }

  /** Rounds two and three. */
  method TakeByPath(hs: seq<Modem>, legacy: seq<Config>, used: set<string>, backfill: bool) returns (t: Taken)
    ensures t == TakeAll(hs, legacy, used, backfill)
  {
    var pairs, rest, taken := [], [], used;
    for i := 0 to |hs|
      invariant Taken(pairs, rest, taken) == TakeAll(hs[..i], legacy, used, backfill)
    {
      assert hs[..i + 1][..i] == hs[..i];
      var cfg, taken' := TakeLegacyConfig(legacy, taken, hs[i]);
      taken := taken';
      match cfg
      case Some(c) => pairs := pairs + [Pair(c, hs[i], if backfill then TrimSpace(hs[i].imei) else "")];
      case None => rest := rest + [hs[i]];
    }
    assert hs[..|hs|] == hs;
    return Taken(pairs, rest, taken);
  }

  /** Round one: pairs by identity, and sorts the others by whether they have one. */
  method MatchByIMEI(hs: seq<Modem>, configured: seq<Config>, byIMEI: map<string, Config>)
    returns (matched: seq<Pair>, used: set<string>, pending: seq<Modem>, imeiless: seq<Modem>)
    requires forall k :: (k in byIMEI <==> k != "" && ConfigFor(configured, k).Some?)
                      && (k in byIMEI ==> ConfigFor(configured, k) == Some(byIMEI[k]))
    ensures matched == Anchored(hs, configured) && used == Ids(matched)
    ensures pending == Unclaimed(hs, configured) && imeiless == Imeiless(hs)
  {
    matched, used, pending, imeiless := [], {}, [], [];
    for i := 0 to |hs|
      invariant matched == Anchored(hs[..i], configured) && used == Ids(matched)
      invariant pending == Unclaimed(hs[..i], configured) && imeiless == Imeiless(hs[..i])
    {
      var hw := hs[i];
      var key := HwKey(hw);
      assert hs[..i + 1][..i] == hs[..i];
      if key == "" {
        imeiless := imeiless + [hw];
      } else if key in byIMEI {
        IdsAppend(matched, Pair(byIMEI[key], hw, ""));
        matched := matched + [Pair(byIMEI[key], hw, "")];
        used := used + {byIMEI[key].id};
      } else {
        pending := pending + [hw];
      }
    }
    assert hs[..|hs|] == hs;
  }

  method CollectOffline(configured: seq<Config>, used: set<string>) returns (offline: seq<Config>)
    ensures offline == Unused(configured, used)
  {
    offline := [];
    for i := 0 to |configured|
      invariant offline == Unused(configured[..i], used)
    {
      assert configured[..i + 1] == configured[..i] + [configured[i]];
      UnusedAppend(configured[..i], configured[i], used);
      if configured[i].id !in used {
        offline := offline + [configured[i]];
      }
    }
    assert configured[..|configured|] == configured;
  }

  /** The three rounds over the deduplicated modems. */
  method ResolveDeviceIdentities(hardware: seq<Modem>, configured: seq<Config>) returns (result: Resolution)
    ensures result == Resolve(hardware, configured)
  {
    var hs := DedupeCompositions(hardware);
    var byIMEI, legacy := IndexConfigs(configured);
    var matched, used, pending, imeiless := MatchByIMEI(hs, configured, byIMEI);
    var two := TakeByPath(pending, legacy, used, true);
    var three := TakeByPath(imeiless, legacy, two.used, false);
    var offline := CollectOffline(configured, three.used);
    return Resolution(matched + two.pairs + three.pairs, two.rest, offline, three.rest);
  }
}
