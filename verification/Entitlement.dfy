/** Plan limits: the tier of an account, its device cap and the region allow-list of the Free plan. */
module Entitlement {
  import opened Text

  const TIER_FREE := "free"
  const TIER_PREMIUM := "premium"
  const FREE_MAX_DEVICES := 1
  const PREMIUM_MAX_DEVICES := 5

  // Empty and unknown tiers are free.
  function NormalizeTier(tier: string): (r: string)
    ensures r == TIER_FREE || r == TIER_PREMIUM
  {
    if ToLower(Trim(tier)) == TIER_PREMIUM then TIER_PREMIUM else TIER_FREE
  }

  function MaxDevices(tier: string): nat {
    if NormalizeTier(tier) == TIER_PREMIUM then PREMIUM_MAX_DEVICES else FREE_MAX_DEVICES
  }

  datatype Verdict = Allowed | DeviceLimit(code: string, max: nat) | RegionDenied(region: string)

  predicate RegionAllowed(region: string, allowed: seq<string>) {
    exists i :: 0 <= i < |allowed| && EqualFold(allowed[i], region)
  }

  function CheckCreatePeer(tier: string, count: nat, preferred: string, freeAllowed: seq<string>): Verdict {
    var plan := NormalizeTier(tier);
    var max := MaxDevices(plan);
    if count >= max then
      DeviceLimit(if plan == TIER_FREE then "plan_device_limit_free" else "plan_device_limit", max)
    else if plan == TIER_FREE && freeAllowed != [] && preferred != "" && !RegionAllowed(preferred, freeAllowed) then
      RegionDenied(preferred)
    else Allowed
  }

  function CheckSelectedRegion(tier: string, selected: string, freeAllowed: seq<string>): Verdict {
    if NormalizeTier(tier) == TIER_FREE && freeAllowed != [] && !RegionAllowed(selected, freeAllowed) then
      RegionDenied(selected)
    else Allowed
  }

  // A trimmed tier of the word's length is compared letter by letter; one of another length is free.
  lemma TrimmedTier(tier: string)
    requires Trimmed(tier)
    ensures |tier| != |TIER_PREMIUM| ==> NormalizeTier(tier) == TIER_FREE
    ensures ToLower(tier) == TIER_PREMIUM ==> NormalizeTier(tier) == TIER_PREMIUM
  {
    TrimKeepsTrimmed(tier);
    hide Trim;
  }

  lemma PremiumIsNormal()
    ensures NormalizeTier(TIER_PREMIUM) == TIER_PREMIUM
  {
    hide NormalizeTier;
    assert ToLower(TIER_PREMIUM) == TIER_PREMIUM;
    TrimmedTier(TIER_PREMIUM);
  }

  lemma FreeIsNormal()
    ensures NormalizeTier(TIER_FREE) == TIER_FREE
  {
    hide NormalizeTier;
    TrimmedTier(TIER_FREE);
  }

  /** Normalizing is idempotent, so a tier that was stored normalized keeps its cap. */
  lemma NormalizeTwice(tier: string)
    ensures NormalizeTier(NormalizeTier(tier)) == NormalizeTier(tier)
    ensures MaxDevices(NormalizeTier(tier)) == MaxDevices(tier)
  {
    PremiumIsNormal();
    FreeIsNormal();
    hide Trim, ToLower;
  }

  // The same name, letter by letter, whatever the capitals.
  predicate SameName(s: string, t: string) {
    |s| == |t| && forall i :: 0 <= i < |s| ==> SameLetter(s[i], t[i])
  }

  lemma FoldIsSameName(s: string, t: string)
    ensures EqualFold(s, t) <==> SameName(s, t)
  {
    forall i | 0 <= i < |s| && |s| == |t|
      ensures FoldChar(s[i]) == FoldChar(t[i]) <==> SameLetter(s[i], t[i])
    {
      FoldIsSameLetter(s[i], t[i]);
    }
  }

  ghost predicate Listed(region: string, allowed: seq<string>) {
    exists name :: name in allowed && SameName(name, region)
  }

  /** A region is allowed exactly when its name is anywhere in the list, in any capitals. */
  lemma RegionIsListed(region: string, allowed: seq<string>)
    ensures RegionAllowed(region, allowed) <==> Listed(region, allowed)
  {
    hide EqualFold, SameName;
    forall name | name in allowed
      ensures EqualFold(name, region) <==> SameName(name, region)
    {
      FoldIsSameName(name, region);
    }
    if exists name :: name in allowed && SameName(name, region) {
      var name :| name in allowed && SameName(name, region);
      var i :| 0 <= i < |allowed| && allowed[i] == name;
      assert EqualFold(allowed[i], region);
    }
  }

  // The word in any capitals; a capital I with a dot counts as one.
  predicate PremiumWord(word: string) {
    && |word| == 7
    && word[0] in {'p', 'P'} && word[1] in {'r', 'R'} && word[2] in {'e', 'E'} && word[3] in {'m', 'M'}
    && word[4] in {'i', 'I', '\U{130}'} && word[5] in {'u', 'U'} && word[6] in {'m', 'M'}
  }

  lemma LowerIsPremium(word: string)
    ensures ToLower(word) == TIER_PREMIUM <==> PremiumWord(word)
  {
    if ToLower(word) == TIER_PREMIUM {
      assert forall i :: 0 <= i < |word| ==> LowerChar(word[i]) == ToLower(word)[i];
    }
  }

  // The word, with blanks around it.
  ghost predicate IsPremium(tier: string) {
    exists left, word, right :: Padded(tier, left, word, right) && PremiumWord(word)
  }

  lemma PremiumIsTrimmed(word: string)
    requires PremiumWord(word)
    ensures word != "" && Trimmed(word)
  {
  }

  /** The tiers that become premium are the word in any capitals, with blanks around it. */
  lemma PremiumSpellings(tier: string)
    ensures NormalizeTier(tier) == TIER_PREMIUM <==> IsPremium(tier)
  {
    hide Trimmed, ToLower, Padded, PremiumWord, AllBlank;
    var left, right := TrimIsPadded(tier);
    hide Trim;
    LowerIsPremium(Trim(tier));
    forall left, word, right | Padded(tier, left, word, right) && PremiumWord(word)
      ensures Trim(tier) == word
    {
      PremiumIsTrimmed(word);
      PaddedIsTrimmedTo(tier, left, word, right);
    }
  }

  /** Five devices on the Premium plan, one on the Free plan. */
  lemma CapOfTier(tier: string)
    ensures MaxDevices(tier) == if IsPremium(tier) then 5 else 1
  {
    PremiumSpellings(tier);
    hide NormalizeTier, IsPremium;
  }

  // Fewer than five devices on the Premium plan; on the Free plan none yet and, if its regions are restricted, the
  // selected one is listed, and the preferred one, if there is one.
  ghost predicate Admissible(tier: string, count: nat, preferred: string, selected: string, freeAllowed: seq<string>) {
    if IsPremium(tier) then count < 5
    else
      && count < 1
      && (freeAllowed != [] ==> Listed(selected, freeAllowed) && (preferred == "" || Listed(preferred, freeAllowed)))
  }

  /** A request passes both checks exactly when it is admissible; an account at its cap is told the cap and the code
      of its plan, and a region that is not listed is named. */
  lemma AdmittedRequest(tier: string, count: nat, preferred: string, selected: string, freeAllowed: seq<string>)
    ensures var first := CheckCreatePeer(tier, count, preferred, freeAllowed);
      var second := CheckSelectedRegion(tier, selected, freeAllowed);
      && (first.Allowed? && second.Allowed? <==> Admissible(tier, count, preferred, selected, freeAllowed))
      && (first.DeviceLimit? <==> count >= if IsPremium(tier) then 5 else 1)
      && (first.DeviceLimit? && IsPremium(tier) ==> first == DeviceLimit("plan_device_limit", 5))
      && (first.DeviceLimit? && !IsPremium(tier) ==> first == DeviceLimit("plan_device_limit_free", 1))
      && (first.RegionDenied? ==> first.region == preferred)
      && (!second.Allowed? ==> second == RegionDenied(selected))
  {
    NormalizeTwice(tier);
    PremiumSpellings(tier);
    RegionIsListed(preferred, freeAllowed);
    RegionIsListed(selected, freeAllowed);
    hide NormalizeTier, IsPremium, RegionAllowed, SameName;
    assert TIER_FREE != TIER_PREMIUM by { assert |TIER_FREE| != |TIER_PREMIUM| by { hide *; } }
  }
}
