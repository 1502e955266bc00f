/**
 * The rights service of the LCP client: persistence of consumption-limited
 * rights (print, copy, ...) of a license in a key-value vault, and the
 * license-owned rights manager that holds their in-memory values.
 *
 * Vault keys have the form  provider@user@license@right  (the separator is a
 * literal '@'); a license with no user id uses the service's configured
 * unknown-user id instead.
 */
module LcpRights {
  import opened Wrappers

  /** The literal separator of the vault key format. */
  const Separator: char := '@'

  /** The failures the service raises (as exceptions in the original). */
  datatype RightsError =
    | StorageProviderMissing            // no storage provider was configured
    | NotARightsManager                 // the license's rights are a read-only view
    | MalformedRightsKey(key: string)   // a vault key with no separator, or nothing after the last one

  /**
   * What a license's rights object can do. A read-only view only answers
   * lookups; a manager can also check eligibility and consume. The manager's
   * eligibility and decrement rules are not part of this model: the manager
   * capability carries them as functions of the current right values.
   * `consume` yields the right values after consumption, or None when the
   * manager refuses.
   */
  datatype Capability =
    | ReadOnlyView
    | Manager(canUse: (map<string, string>, string) -> bool,
              consume: (map<string, string>, string, int) -> Option<map<string, string>>)

  /** The rights object of a license: its right values by right id. */
  class Rights {
    const capability: Capability
    var values: map<string, string>

    constructor (capability: Capability, values: map<string, string>)
      ensures this.capability.Manager? <==> capability.Manager?
      ensures this.values == values
    {
      this.capability := capability;
      this.values := values;
    }

    /** The value stored for a right, if any. */
    function GetRightValue(rightId: string): (v: Option<string>)
      reads this
      ensures v.Some? <==> rightId in values
      ensures v.Some? ==> v.value == values[rightId]
    {
      if rightId in values then Some(values[rightId]) else None
    }

    method SetRightValue(rightId: string, value: string)
      modifies this
      ensures values == old(values)[rightId := value]
    {
      values := values[rightId := value];
    }

    /** Consumes `amount` units of a right when the manager allows it. */
    method UseRight(rightId: string, amount: int) returns (ok: bool)
      requires capability.Manager?
      modifies this
      ensures ok <==> capability.consume(old(values), rightId, amount).Some?
      ensures values == if ok then capability.consume(old(values), rightId, amount).value else old(values)
    {
      var consumed := capability.consume(values, rightId, amount);
      ok := consumed.Some?;
      if ok {
        values := consumed.value;
      }
    }
  }

  /** The parts of a license the service uses. */
  datatype License = License(provider: string, id: string, userId: string, rights: Rights)

  // ---------------------------------------------------------------------
  // Vault key derivation and parsing
  // ---------------------------------------------------------------------

  /** The user id written into keys: the license's own, or the fallback when it is empty. */
  function EffectiveUserId(license: License, unknownUserId: string): string {
    if license.userId == [] then unknownUserId else license.userId
  }

  /** provider@user@license: the part shared by every key of one license. */
  function BuildStorageProviderRightsKeyPrefix(license: License, unknownUserId: string): string {
    license.provider + [Separator] + EffectiveUserId(license, unknownUserId) + [Separator] + license.id
  }

  /** provider@user@license@right: the vault key of one right of one license. */
  function BuildStorageProviderRightsKey(license: License, unknownUserId: string, rightId: string): (key: string)
    ensures key == BuildStorageProviderRightsKeyPrefix(license, unknownUserId) + [Separator] + rightId
  {
    license.provider + [Separator] + EffectiveUserId(license, unknownUserId) + [Separator] + license.id
      + [Separator] + rightId
  }

  /** The position of the last occurrence of `c` in `s` (std::string::find_last_of with one character). */
  function FindLastOf(s: string, c: char): (pos: Option<nat>)
    ensures pos.None? <==> c !in s
    ensures pos.Some? ==> pos.value < |s| && s[pos.value] == c && c !in s[pos.value + 1..]
  {
    if s == [] then None
    else if s[|s| - 1] == c then Some(|s| - 1)
    else
      var pos := FindLastOf(s[..|s| - 1], c);
      assert pos.Some? ==> s[pos.value + 1..] == s[..|s| - 1][pos.value + 1..] + [s[|s| - 1]];
      pos
  }

  /** The right id of a vault key: everything after its last separator. */
  function ExtractRightsKey(key: string): (r: Result<string, RightsError>)
    ensures r.Failure? <==> Separator !in key || key[|key| - 1] == Separator
    ensures r.Failure? ==> r.error == MalformedRightsKey(key)
    ensures r.Success? ==>
      && r.value != []
      && Separator !in r.value
      && |r.value| < |key|
      && key[|key| - |r.value| - 1] == Separator
      && key[|key| - |r.value|..] == r.value
  {
    match FindLastOf(key, Separator)
    case None => Failure(MalformedRightsKey(key))
    case Some(pos) =>
      if pos + 1 == |key| then Failure(MalformedRightsKey(key))
      else Success(key[pos + 1..])
  }

  predicate StartsWith(s: string, prefix: string) {
    |prefix| <= |s| && s[..|prefix|] == prefix
  }

  /** `sub` occurs somewhere in `s` (std::string::find(sub) != npos). */
  predicate Contains(s: string, sub: string)
    decreases |s|
  {
    StartsWith(s, sub) || (s != [] && Contains(s[1..], sub))
  }

  /** `sub` occurs in `s` starting at position `i`. */
  predicate OccursAt(s: string, sub: string, i: int) {
    0 <= i <= |s| - |sub| && s[i..i + |sub|] == sub
  }

  /** Contains holds exactly when `sub` occurs at some position of `s`, which is what find reports. */
  lemma {:induction false} ContainsIffOccurrence(s: string, sub: string)
    ensures Contains(s, sub) <==> exists i :: OccursAt(s, sub, i)
    decreases |s|
  {
    if Contains(s, sub) {
      if StartsWith(s, sub) {
        assert OccursAt(s, sub, 0);
      } else {
        ContainsIffOccurrence(s[1..], sub);
        var i :| OccursAt(s[1..], sub, i);
        assert s[i + 1..i + 1 + |sub|] == s[1..][i..i + |sub|];
        assert OccursAt(s, sub, i + 1);
      }
    }
    if exists i :: OccursAt(s, sub, i) {
      var i :| OccursAt(s, sub, i);
      if i == 0 {
        assert StartsWith(s, sub);
      } else {
        assert s[1..][i - 1..i - 1 + |sub|] == s[i..i + |sub|];
        assert OccursAt(s[1..], sub, i - 1);
        ContainsIffOccurrence(s[1..], sub);
      }
    }
  }

  lemma {:induction false} ContainedCharOccurs(s: string, sub: string, c: char)
    requires Contains(s, sub) && c in sub
    ensures c in s
  {
    if StartsWith(s, sub) {
      var i :| 0 <= i < |sub| && sub[i] == c;
      assert s[i] == c;
    } else {
      ContainedCharOccurs(s[1..], sub, c);
      var j :| 0 <= j < |s[1..]| && s[1..][j] == c;
      assert s[j + 1] == c;
    }
  }

  /** Keys built for a well-formed right id parse back to that right id. */
  lemma KeyRoundTrip(license: License, unknownUserId: string, rightId: string)
    requires rightId != [] && Separator !in rightId
    ensures ExtractRightsKey(BuildStorageProviderRightsKey(license, unknownUserId, rightId)) == Success(rightId)
  {
    var prefix := BuildStorageProviderRightsKeyPrefix(license, unknownUserId);
    var key := BuildStorageProviderRightsKey(license, unknownUserId, rightId);
    var p := |prefix|;
    assert key[p] == Separator;
    assert key[p + 1..] == rightId;
    var pos := FindLastOf(key, Separator);
    assert pos.Some? by { assert Separator in key; }
  }

  /** Every key built for a license is picked up when that license's rights are synced. */
  lemma BuiltKeySelected(license: License, unknownUserId: string, rightId: string)
    ensures Contains(BuildStorageProviderRightsKey(license, unknownUserId, rightId),
                     BuildStorageProviderRightsKeyPrefix(license, unknownUserId))
  {
    var key := BuildStorageProviderRightsKey(license, unknownUserId, rightId);
    var prefix := BuildStorageProviderRightsKeyPrefix(license, unknownUserId);
    assert key[..|prefix|] == prefix;
  }

  /**
   * A key that contains a license's prefix always has a separator, so parsing
   * it fails exactly when it ends with the separator.
   */
  lemma SelectedKeyMalformedIffEmptyRightId(key: string, license: License, unknownUserId: string)
    requires Contains(key, BuildStorageProviderRightsKeyPrefix(license, unknownUserId))
    ensures |key| > 0
    ensures ExtractRightsKey(key).Failure? <==> key[|key| - 1] == Separator
  {
    var prefix := BuildStorageProviderRightsKeyPrefix(license, unknownUserId);
    assert prefix[|license.provider|] == Separator;
    ContainedCharOccurs(key, prefix, Separator);
  }

  /**
   * Selection by substring is not anchored: when two licenses share provider
   * and user and one license id starts with the other (say "L" and "L2"), the
   * keys of the longer one are selected for the shorter one, and they parse to
   * a right id of the shorter one.
   */
  lemma SubstringSelectsOtherLicense(mine: License, other: License, unknownUserId: string, rightId: string)
    requires other.provider == mine.provider
    requires EffectiveUserId(other, unknownUserId) == EffectiveUserId(mine, unknownUserId)
    requires StartsWith(other.id, mine.id)
    requires rightId != [] && Separator !in rightId
    ensures Contains(BuildStorageProviderRightsKey(other, unknownUserId, rightId),
                     BuildStorageProviderRightsKeyPrefix(mine, unknownUserId))
    ensures ExtractRightsKey(BuildStorageProviderRightsKey(other, unknownUserId, rightId)) == Success(rightId)
  {
    var key := BuildStorageProviderRightsKey(other, unknownUserId, rightId);
    var prefix := BuildStorageProviderRightsKeyPrefix(mine, unknownUserId);
    var shared := mine.provider + [Separator] + EffectiveUserId(mine, unknownUserId) + [Separator];
    assert prefix == shared + mine.id;
    assert key == shared + other.id + [Separator] + rightId;
    assert key[..|prefix|] == shared + other.id[..|mine.id|];
    KeyRoundTrip(other, unknownUserId, rightId);
  }

  // ---------------------------------------------------------------------
  // What a sync does to the rights manager
  // ---------------------------------------------------------------------

  /** `after` holds at `rightId` the vault value of a selected key among `keys` that parses to `rightId`. */
  ghost predicate HoldsLoadedValue(after: map<string, string>, vault: map<string, string>,
                                   prefix: string, keys: set<string>, rightId: string)
  {
    && rightId in after
    && exists k :: k in keys && k in vault && Contains(k, prefix) && ExtractRightsKey(k) == Success(rightId)
                   && after[rightId] == vault[k]
  }

  /**
   * `after` keeps every right id of `before`, and each right id where it
   * differs from `before` holds the vault value of a selected key among `keys`.
   */
  ghost predicate ChangedOnlyBy(before: map<string, string>, after: map<string, string>,
                                vault: map<string, string>, prefix: string, keys: set<string>)
  {
    && (forall r | r in before :: r in after)
    && (forall r | r in after && (r !in before || after[r] != before[r]) ::
          HoldsLoadedValue(after, vault, prefix, keys, r))
  }

  /** As ChangedOnlyBy, and every selected key among `keys` parsed and its right id was loaded. */
  ghost predicate SyncedFrom(before: map<string, string>, after: map<string, string>,
                             vault: map<string, string>, prefix: string, keys: set<string>)
  {
    && ChangedOnlyBy(before, after, vault, prefix, keys)
    && (forall k | k in keys && Contains(k, prefix) ::
          ExtractRightsKey(k).Success? && HoldsLoadedValue(after, vault, prefix, keys, ExtractRightsKey(k).value))
  }

  lemma ChangedOnlyByWidens(before: map<string, string>, after: map<string, string>,
                            vault: map<string, string>, prefix: string, done: set<string>, keys: set<string>)
    requires done <= keys
    requires ChangedOnlyBy(before, after, vault, prefix, done)
    ensures ChangedOnlyBy(before, after, vault, prefix, keys)
  {
    forall r | r in after && (r !in before || after[r] != before[r])
      ensures HoldsLoadedValue(after, vault, prefix, keys, r)
    {
      var k :| k in done && k in vault && Contains(k, prefix) && ExtractRightsKey(k) == Success(r)
               && after[r] == vault[k];
      assert k in keys;
    }
  }

  /** Loading one more key leaves the values loaded for other right ids in place. */
  lemma HoldsLoadedValueStep(after: map<string, string>, vault: map<string, string>, prefix: string,
                             done: set<string>, key: string, rightId: string, value: string, r: string)
    requires HoldsLoadedValue(after, vault, prefix, done, r) && r != rightId
    ensures HoldsLoadedValue(after[rightId := value], vault, prefix, done + {key}, r)
  {
    var k :| k in done && k in vault && Contains(k, prefix) && ExtractRightsKey(k) == Success(r)
             && after[r] == vault[k];
    assert k in done + {key};
  }

  /** The key just loaded is a witness for its own right id. */
  lemma HoldsLoadedValueOfKey(after: map<string, string>, vault: map<string, string>, prefix: string,
                              done: set<string>, key: string)
    requires key in vault && Contains(key, prefix) && ExtractRightsKey(key).Success?
    ensures HoldsLoadedValue(after[ExtractRightsKey(key).value := vault[key]], vault, prefix, done + {key},
                             ExtractRightsKey(key).value)
  {
    assert key in done + {key};
  }

  lemma ChangedOnlyByStep(before: map<string, string>, after: map<string, string>,
                          vault: map<string, string>, prefix: string, done: set<string>, key: string)
    requires ChangedOnlyBy(before, after, vault, prefix, done)
    requires key in vault && Contains(key, prefix) && ExtractRightsKey(key).Success?
    ensures ChangedOnlyBy(before, after[ExtractRightsKey(key).value := vault[key]], vault, prefix, done + {key})
  {
    var rightId := ExtractRightsKey(key).value;
    var after' := after[rightId := vault[key]];
    HoldsLoadedValueOfKey(after, vault, prefix, done, key);
    forall r | r in after' && (r !in before || after'[r] != before[r])
      ensures HoldsLoadedValue(after', vault, prefix, done + {key}, r)
    {
      if r != rightId {
        HoldsLoadedValueStep(after, vault, prefix, done, key, rightId, vault[key], r);
      }
    }
  }

  /** Loading the value of one more selected key keeps the sync relation. */
  lemma SyncedFromStep(before: map<string, string>, after: map<string, string>,
                       vault: map<string, string>, prefix: string, done: set<string>, key: string)
    requires SyncedFrom(before, after, vault, prefix, done)
    requires key in vault && Contains(key, prefix) && ExtractRightsKey(key).Success?
    ensures SyncedFrom(before, after[ExtractRightsKey(key).value := vault[key]], vault, prefix, done + {key})
  {
    var rightId := ExtractRightsKey(key).value;
    var after' := after[rightId := vault[key]];
    ChangedOnlyByStep(before, after, vault, prefix, done, key);
    HoldsLoadedValueOfKey(after, vault, prefix, done, key);
    forall k | k in done + {key} && Contains(k, prefix)
      ensures ExtractRightsKey(k).Success? && HoldsLoadedValue(after', vault, prefix, done + {key}, ExtractRightsKey(k).value)
    {
      if k != key && ExtractRightsKey(k).value != rightId {
        HoldsLoadedValueStep(after, vault, prefix, done, key, rightId, vault[key], ExtractRightsKey(k).value);
      }
    }
  }

  /** Passing over a key that is not selected keeps the sync relation. */
  lemma SyncedFromSkip(before: map<string, string>, after: map<string, string>,
                       vault: map<string, string>, prefix: string, done: set<string>, key: string)
    requires SyncedFrom(before, after, vault, prefix, done)
    requires !Contains(key, prefix)
    ensures SyncedFrom(before, after, vault, prefix, done + {key})
  {
    ChangedOnlyByWidens(before, after, vault, prefix, done, done + {key});
    forall k | k in done && Contains(k, prefix)
      ensures HoldsLoadedValue(after, vault, prefix, done + {key}, ExtractRightsKey(k).value)
    {
      var r := ExtractRightsKey(k).value;
      var k' :| k' in done && k' in vault && Contains(k', prefix) && ExtractRightsKey(k') == Success(r)
                && after[r] == vault[k'];
      assert k' in done + {key};
    }
  }

  /**
   * After a sync, a right id that exactly one selected vault key parses to
   * holds that key's vault value.
   */
  lemma SyncedValueOfUniqueKey(before: map<string, string>, after: map<string, string>,
                               vault: map<string, string>, prefix: string, key: string)
    requires SyncedFrom(before, after, vault, prefix, vault.Keys)
    requires key in vault && Contains(key, prefix) && ExtractRightsKey(key).Success?
    requires forall k | k in vault && Contains(k, prefix) ::
               ExtractRightsKey(k) == ExtractRightsKey(key) ==> k == key
    ensures ExtractRightsKey(key).value in after
    ensures after[ExtractRightsKey(key).value] == vault[key]
  {
    var rightId := ExtractRightsKey(key).value;
    var k :| k in vault.Keys && k in vault && Contains(k, prefix) && ExtractRightsKey(k) == Success(rightId)
             && after[rightId] == vault[k];
  }

  /** The value a right reads as: its stored value, or the empty string when absent. */
  function ValueOrEmpty(values: map<string, string>, rightId: string): string {
    if rightId in values then values[rightId] else ""
  }

  /**
   * After a sync, reading a right of the license gives the value its own vault
   * key holds, when no other selected key parses to the same right id.
   */
  lemma SyncedReadsOwnKey(before: map<string, string>, after: map<string, string>,
                          vault: map<string, string>, license: License, unknownUserId: string, rightId: string)
    requires rightId != [] && Separator !in rightId
    requires SyncedFrom(before, after, vault, BuildStorageProviderRightsKeyPrefix(license, unknownUserId), vault.Keys)
    requires BuildStorageProviderRightsKey(license, unknownUserId, rightId) in vault
    requires forall k | k in vault && Contains(k, BuildStorageProviderRightsKeyPrefix(license, unknownUserId)) ::
               ExtractRightsKey(k) == Success(rightId) ==> k == BuildStorageProviderRightsKey(license, unknownUserId, rightId)
    ensures ValueOrEmpty(after, rightId) == vault[BuildStorageProviderRightsKey(license, unknownUserId, rightId)]
  {
    var key := BuildStorageProviderRightsKey(license, unknownUserId, rightId);
    KeyRoundTrip(license, unknownUserId, rightId);
    BuiltKeySelected(license, unknownUserId, rightId);
    SyncedValueOfUniqueKey(before, after, vault, BuildStorageProviderRightsKeyPrefix(license, unknownUserId), key);
  }

  // ---------------------------------------------------------------------
  // The service
  // ---------------------------------------------------------------------

  /**
   * The rights service. `vault` is the rights vault of the storage provider;
   * `hasStorageProvider` is false when the service was built without one.
   */
  class RightsService {
    const hasStorageProvider: bool
    const unknownUserId: string
    var vault: map<string, string>

    constructor (hasStorageProvider: bool, unknownUserId: string, vault: map<string, string>)
      ensures this.hasStorageProvider == hasStorageProvider
      ensures this.unknownUserId == unknownUserId
      ensures this.vault == vault
    {
      this.hasStorageProvider := hasStorageProvider;
      this.unknownUserId := unknownUserId;
      this.vault := vault;
    }

    /** The checks every operation except GetValue makes first, in this order. */
    function PerformChecks(license: License): (r: Outcome<RightsError>)
      ensures r.Pass? <==> hasStorageProvider && license.rights.capability.Manager?
      ensures !hasStorageProvider ==> r == Fail(StorageProviderMissing)
      ensures hasStorageProvider && license.rights.capability.ReadOnlyView? ==> r == Fail(NotARightsManager)
    {
      if !hasStorageProvider then Fail(StorageProviderMissing)
      else if license.rights.capability.ReadOnlyView? then Fail(NotARightsManager)
      else Pass
    }

    /**
     * Loads into the license's rights manager the value of every vault key
     * that contains the license's key prefix, under the right id parsed from
     * the key. The vault is enumerated in no particular order; a selected key
     * that does not parse stops the sync, keeping what was loaded so far.
     */
    method SyncRightsFromStorage(license: License) returns (res: Outcome<RightsError>)
      modifies license.rights
      ensures vault == old(vault)
      ensures PerformChecks(license).Fail? ==>
        res == PerformChecks(license) && license.rights.values == old(license.rights.values)
      ensures PerformChecks(license).Pass? ==>
        (res.Pass? <==> forall k | k in vault && Contains(k, BuildStorageProviderRightsKeyPrefix(license, unknownUserId)) ::
                          ExtractRightsKey(k).Success?)
      ensures res.Pass? ==>
        SyncedFrom(old(license.rights.values), license.rights.values, vault,
                   BuildStorageProviderRightsKeyPrefix(license, unknownUserId), vault.Keys)
      ensures PerformChecks(license).Pass? && res.Fail? ==>
        && res.error.MalformedRightsKey?
        && res.error.key in vault
        && Contains(res.error.key, BuildStorageProviderRightsKeyPrefix(license, unknownUserId))
        && ExtractRightsKey(res.error.key) == Failure(res.error)
        && ChangedOnlyBy(old(license.rights.values), license.rights.values, vault,
                         BuildStorageProviderRightsKeyPrefix(license, unknownUserId), vault.Keys)
    {
      var checks := PerformChecks(license);
      if checks.Fail? {
        return checks;
      }
      var keyPrefix := BuildStorageProviderRightsKeyPrefix(license, unknownUserId);
      var remaining := vault.Keys;
      ghost var done: set<string> := {};
      while remaining != {}
        invariant remaining + done == vault.Keys && remaining !! done
        invariant SyncedFrom(old(license.rights.values), license.rights.values, vault, keyPrefix, done)
        decreases remaining
      {
        var storageKey :| storageKey in remaining;
        if Contains(storageKey, keyPrefix) {
          var rightId := ExtractRightsKey(storageKey);
          if rightId.Failure? {
            ChangedOnlyByWidens(old(license.rights.values), license.rights.values, vault, keyPrefix, done, vault.Keys);
            return Fail(rightId.error);
          }
          SyncedFromStep(old(license.rights.values), license.rights.values, vault, keyPrefix, done, storageKey);
          license.rights.SetRightValue(rightId.value, vault[storageKey]);
        } else {
          SyncedFromSkip(old(license.rights.values), license.rights.values, vault, keyPrefix, done, storageKey);
        }
        remaining := remaining - {storageKey};
        done := done + {storageKey};
      }
      res := Pass;
    }

    /** Whether the license's rights manager allows using a right now. */
    function CanUseRight(license: License, rightId: string): (r: Result<bool, RightsError>)
      reads license.rights
      ensures r.Failure? <==> PerformChecks(license).Fail?
      ensures r.Failure? ==> r.error == PerformChecks(license).error
      ensures r.Success? ==> license.rights.capability.Manager?
      ensures r.Success? ==> r.value == license.rights.capability.canUse(license.rights.values, rightId)
    {
      match PerformChecks(license)
      case Fail(e) => Failure(e)
      case Pass => Success(license.rights.capability.canUse(license.rights.values, rightId))
    }

    /**
     * Consumes `amount` units of a right (one when omitted). On success the
     * right's value after consumption, or the empty string when the manager no
     * longer holds one, is written to that right's vault key and nowhere else.
     */
    method UseRight(license: License, rightId: string, amount: int := 1) returns (res: Result<bool, RightsError>)
      modifies this, license.rights
      ensures PerformChecks(license).Fail? ==>
        && res == Failure(PerformChecks(license).error)
        && vault == old(vault)
        && license.rights.values == old(license.rights.values)
      ensures PerformChecks(license).Pass? ==>
        && license.rights.capability.Manager?
        && res.Success?
        && (res.value <==> license.rights.capability.consume(old(license.rights.values), rightId, amount).Some?)
      ensures res == Success(false) ==>
        vault == old(vault) && license.rights.values == old(license.rights.values)
      ensures res == Success(true) ==>
        && license.rights.capability.Manager?
        && license.rights.values == license.rights.capability.consume(old(license.rights.values), rightId, amount).value
        && vault == old(vault)[BuildStorageProviderRightsKey(license, unknownUserId, rightId) := GetValue(license, rightId)]
    {
      var checks := PerformChecks(license);
      if checks.Fail? {
        return Failure(checks.error);
      }
      var used := license.rights.UseRight(rightId, amount);
      if used {
        var currentValue := license.rights.GetRightValue(rightId).GetOr("");
        vault := vault[BuildStorageProviderRightsKey(license, unknownUserId, rightId) := currentValue];
        return Success(true);
      }
      return Success(false);
    }

    /** Overrides a right's value in the manager and in the vault, with no eligibility check. */
    method SetValue(license: License, rightId: string, value: string) returns (res: Outcome<RightsError>)
      modifies this, license.rights
      ensures res == PerformChecks(license)
      ensures res.Fail? ==> vault == old(vault) && license.rights.values == old(license.rights.values)
      ensures res.Pass? ==> license.rights.values == old(license.rights.values)[rightId := value]
      ensures res.Pass? ==> vault == old(vault)[BuildStorageProviderRightsKey(license, unknownUserId, rightId) := value]
      ensures res.Pass? ==> GetValue(license, rightId) == value
    {
      res := PerformChecks(license);
      if res.Fail? {
        return;
      }
      license.rights.SetRightValue(rightId, value);
      vault := vault[BuildStorageProviderRightsKey(license, unknownUserId, rightId) := value];
    }

    /** A right's current value, or the empty string when the license holds none. Makes no checks. */
    function GetValue(license: License, rightId: string): (value: string)
      reads license.rights
      ensures value == ValueOrEmpty(license.rights.values, rightId)
    {
      license.rights.GetRightValue(rightId).GetOr("")
    }
  }
}
