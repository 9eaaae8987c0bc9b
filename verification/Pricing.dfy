/** Cost of a turn (internal/domain/usage/pricing.go).

    Every rate is a whole number of cents per million tokens, so a cost is an exact
    integer in units of 10^-8 USD: one token at one cent per million costs one unit. */
module Pricing {
  import opened Basics
  import opened Transcript

  datatype Rate = Rate(input: nat, output: nat, cacheWrite: nat, cacheRead: nat)

  datatype Family = Fable | Opus | OpusLegacy | Sonnet | Haiku | HaikuLegacy

  function RateOf(f: Family): Rate {
    match f
    case Fable => Rate(1000, 5000, 1250, 100)
    case Opus => Rate(500, 2500, 625, 50)
    case OpusLegacy => Rate(1500, 7500, 1875, 150)
    case Sonnet => Rate(300, 1500, 375, 30)
    case Haiku => Rate(100, 500, 125, 10)
    case HaikuLegacy => Rate(80, 400, 100, 8)
  }

  predicate Contains(s: string, part: string) {
    exists i :: 0 <= i <= |s| && part <= s[i..]
  }

  predicate ContainsAny(s: string, parts: seq<string>) {
    exists k :: 0 <= k < |parts| && Contains(s, parts[k])
  }

  function ModelFamily(model: string): Family {
    var m := Lower(model);
    if m == "" then Sonnet
    else if Contains(m, "fable") || Contains(m, "mythos") then Fable
    else if Contains(m, "opus") then
      if ContainsAny(m, ["4-5", "4-6", "4-7", "4-8", "4.5", "4.6", "4.7", "4.8"]) then Opus
      else if ContainsAny(m, ["4-0", "4-1", "4.0", "4.1"]) then OpusLegacy
      else Opus
    else if Contains(m, "sonnet") then Sonnet
    else if Contains(m, "haiku") then
      if ContainsAny(m, ["3-5", "3.5"]) then HaikuLegacy else Haiku
    else if Contains(m, "synthetic") then Haiku
    else Sonnet
  }

  function CostForUsage(model: string, t: Tokens): int {
    var rate := RateOf(ModelFamily(model));
    t.input * rate.input + t.output * rate.output + t.cacheRead * rate.cacheRead + t.cacheCreation * rate.cacheWrite
  }

  // ---- the price list, spelled out ----

  ghost predicate Has(s: string, part: string) { exists before: string, after: string :: s == before + part + after }

  lemma ContainsExactly(s: string, part: string)
    ensures Contains(s, part) <==> Has(s, part)
  {
    if i :| 0 <= i <= |s| && part <= s[i..] {
      assert s == s[..i] + part + s[i..][|part|..];
    }
    if before: string, after: string :| s == before + part + after {
      assert s[|before|..] == part + after;
      assert 0 <= |before| <= |s| && part <= s[|before|..];
    }
  }

  ghost predicate HasOneOf(s: string, parts: seq<string>) { exists k :: 0 <= k < |parts| && Has(s, parts[k]) }

  lemma ContainsAnyExactly(s: string, parts: seq<string>)
    ensures ContainsAny(s, parts) <==> HasOneOf(s, parts)
  {
    forall k | 0 <= k < |parts| ensures Contains(s, parts[k]) <==> Has(s, parts[k]) { ContainsExactly(s, parts[k]); }
  }

  /** Cents per million tokens for input, output, cache writes and cache reads. */
  function Price(t: Tokens, input: nat, output: nat, cacheWrite: nat, cacheRead: nat): int {
    t.input * input + t.output * output + t.cacheCreation * cacheWrite + t.cacheRead * cacheRead
  }

  const NEW_OPUS := ["4-5", "4-6", "4-7", "4-8", "4.5", "4.6", "4.7", "4.8"]
  const OLD_OPUS := ["4-0", "4-1", "4.0", "4.1"]
  const OLD_HAIKU := ["3-5", "3.5"]

  /** What a turn costs, by what its model's name has in it. */
  lemma CostSpelled(model: string, t: Tokens)
    ensures var m, cost := Lower(model), CostForUsage(model, t);
            if Has(m, "fable") || Has(m, "mythos") then cost == Price(t, 1000, 5000, 1250, 100)
            else if Has(m, "opus") then
              if HasOneOf(m, OLD_OPUS) && !HasOneOf(m, NEW_OPUS) then cost == Price(t, 1500, 7500, 1875, 150)
              else cost == Price(t, 500, 2500, 625, 50)
            else if Has(m, "haiku") && !Has(m, "sonnet") then
              if HasOneOf(m, OLD_HAIKU) then cost == Price(t, 80, 400, 100, 8) else cost == Price(t, 100, 500, 125, 10)
            else if Has(m, "synthetic") && !Has(m, "sonnet") then cost == Price(t, 100, 500, 125, 10)
            else cost == Price(t, 300, 1500, 375, 30)
  {
    FamilySpelled(model);
  }

  lemma FamilySpelled(model: string)
    ensures var m := Lower(model);
            ModelFamily(model) ==
              if Has(m, "fable") || Has(m, "mythos") then Fable
              else if Has(m, "opus") then (if HasOneOf(m, OLD_OPUS) && !HasOneOf(m, NEW_OPUS) then OpusLegacy else Opus)
              else if Has(m, "sonnet") then Sonnet
              else if Has(m, "haiku") then (if HasOneOf(m, OLD_HAIKU) then HaikuLegacy else Haiku)
              else if Has(m, "synthetic") then Haiku
              else Sonnet
  {
    var m := Lower(model);
    ContainsExactly(m, "fable");
    ContainsExactly(m, "mythos");
    ContainsExactly(m, "opus");
    ContainsExactly(m, "sonnet");
    ContainsExactly(m, "haiku");
    ContainsExactly(m, "synthetic");
    ContainsAnyExactly(m, NEW_OPUS);
    ContainsAnyExactly(m, OLD_OPUS);
    ContainsAnyExactly(m, OLD_HAIKU);
    if m == "" { NothingInside("fable"); NothingInside("mythos"); NothingInside("opus"); NothingInside("haiku"); NothingInside("synthetic"); }
  }

  lemma NothingInside(part: string)
    requires part != ""
    ensures !Has("", part)
  {}
}
