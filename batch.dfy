/**
 * The orchestration of the loaders, one profile at a time: the index of
 * profiles by login, each loader's initialisation and its pick of profiles
 * to refresh, the filters that choose the active loaders, the per-profile
 * pass that decides whether the profile is saved, and the real-time update
 * that refreshes one profile at most once per expiry period and source.
 */
module Batch {
  import opened Wrappers
  import Text

  /** int.MaxValue: a spread count meaning "update every profile". */
  const IntMax: int := 0x7FFF_FFFF

  /** RealTimeUpdateExpiry's default: ten minutes, in seconds. */
  const DefaultRealTimeUpdateExpiry: int := 600

  // ---------------------------------------------------------------------------
  // InProcUpdates: when each source last refreshed each profile

  /** The key of a profile for a source: "SourceName|LanID". */
  function StampKey(sourceName: string, lanId: string): (k: string)
    ensures k == sourceName + "|" + lanId
  {
    sourceName + "|" + lanId
  }

  /** Whether the key was never stamped or was stamped more than expiry seconds before now. */
  predicate Expired(stamps: map<string, int>, key: string, now: int, expiry: int) {
    key !in stamps || stamps[key] < now - expiry
  }

  /** The stamps after setting every key to now, one after another. */
  function Stamp(stamps: map<string, int>, keys: seq<string>, now: int): (r: map<string, int>)
    decreases |keys|
  {
    if |keys| == 0 then stamps else Stamp(stamps[keys[0] := now], keys[1..], now)
  }

  /** Stamping sets exactly the given keys to now and keeps every other stamp. */
  lemma {:induction false} StampSpec(stamps: map<string, int>, keys: seq<string>, now: int)
    ensures var r := Stamp(stamps, keys, now);
      && (forall k :: k in keys ==> k in r && r[k] == now)
      && (forall k :: k !in keys ==> (k in r <==> k in stamps) && (k in r ==> r[k] == stamps[k]))
    decreases |keys|
  {
    if |keys| > 0 {
      var next := stamps[keys[0] := now];
      StampSpec(next, keys[1..], now);
      var r := Stamp(stamps, keys, now);
      assert r == Stamp(next, keys[1..], now);
      forall k | k in keys ensures k in r && r[k] == now {
        if k !in keys[1..] {
          assert k == keys[0];
        }
      }
      forall k | k !in keys ensures (k in r <==> k in stamps) && (k in r ==> r[k] == stamps[k]) {
        assert k != keys[0] && k !in keys[1..];
      }
    }
  }

  /** The keys of a sequence of logins for one source. */
  function StampKeys(sourceName: string, lanIds: seq<string>): (r: seq<string>)
    ensures |r| == |lanIds|
    ensures forall i :: 0 <= i < |lanIds| ==> r[i] == StampKey(sourceName, lanIds[i])
  {
    seq(|lanIds|, i requires 0 <= i < |lanIds| => StampKey(sourceName, lanIds[i]))
  }

  /** The recent-update record shared by all loaders (a static dictionary). */
  class UpdateStamps {
    var stamps: map<string, int>

    constructor()
      ensures stamps == map[]
    {
      stamps := map[];
    }

    /** ResetUpdateFlags: forgets every stamp. */
    method ResetUpdateFlags()
      modifies this
      ensures stamps == map[]
      ensures forall k, now, expiry :: Expired(stamps, k, now, expiry)
    {
      stamps := map[];
    }

    /** Sets every key to now, in order. */
    method StampAll(keys: seq<string>, now: int)
      modifies this
      ensures stamps == Stamp(old(stamps), keys, now)
    {
      var i := 0;
      while i < |keys|
        invariant 0 <= i <= |keys|
        invariant Stamp(old(stamps), keys, now) == Stamp(stamps, keys[i..], now)
      {
        assert keys[i..][0] == keys[i] && keys[i..][1..] == keys[i + 1..];
        stamps := stamps[keys[i] := now];
        i := i + 1;
      }
    }
  }

  // ---------------------------------------------------------------------------
  // The LanID index

  /** The index key of a login: trimmed and in lower case. */
  function IndexKey(lanId: string): string {
    Text.ToLower(Text.Trim(lanId))
  }

  /** The index key of every login. */
  function IndexKeys(lanIds: seq<string>): (r: seq<string>)
    ensures |r| == |lanIds|
    ensures forall i :: 0 <= i < |lanIds| ==> r[i] == IndexKey(lanIds[i])
  {
    seq(|lanIds|, i requires 0 <= i < |lanIds| => IndexKey(lanIds[i]))
  }

  /** No non-empty login before position i has key k. */
  predicate NoEarlier(lanIds: seq<string>, keys: seq<string>, k: string, i: int)
    requires |keys| == |lanIds|
  {
    forall j :: 0 <= j < i && j < |lanIds| && lanIds[j] != "" ==> keys[j] != k
  }

  /** Position i holds the first non-empty login with key k. */
  predicate FirstWithKey(lanIds: seq<string>, keys: seq<string>, k: string, i: int)
    requires |keys| == |lanIds|
  {
    0 <= i < |lanIds| && lanIds[i] != "" && keys[i] == k && NoEarlier(lanIds, keys, k, i)
  }

  /**
   * The LanID index of RunBatchUpdate: for every non-empty login, its key maps
   * to the first profile (by position) that has that key.
   */
  method BuildLanIdIndex(lanIds: seq<string>) returns (index: map<string, nat>)
    ensures forall i :: 0 <= i < |lanIds| && lanIds[i] != "" ==> IndexKey(lanIds[i]) in index
    ensures forall k :: k in index ==> FirstWithKey(lanIds, IndexKeys(lanIds), k, index[k])
  {
    var keys := IndexKeys(lanIds);
    index := IndexByKey(lanIds, keys);
    forall j | 0 <= j < |lanIds| && lanIds[j] != "" ensures IndexKey(lanIds[j]) in index {
      assert keys[j] in index;
    }
  }

  /** The loop of the index: each non-empty login's key, computed beforehand, goes to its first position. */
  method IndexByKey(lanIds: seq<string>, keys: seq<string>) returns (index: map<string, nat>)
    requires |keys| == |lanIds|
    ensures IndexedUpTo(lanIds, keys, index, |lanIds|)
  {
    index := map[];
    var i := 0;
    while i < |lanIds|
      invariant 0 <= i <= |lanIds|
      invariant IndexedUpTo(lanIds, keys, index, i)
    {
      ghost var before := index;
      if lanIds[i] != "" {
        var k := keys[i];
        if k !in index {
          index := index[k := i];
        }
      }
      IndexStep(lanIds, keys, before, i);
      i := i + 1;
    }
  }

  /** The index of the logins before position i. */
  ghost predicate IndexedUpTo(lanIds: seq<string>, keys: seq<string>, index: map<string, nat>, i: nat)
    requires |keys| == |lanIds| && i <= |lanIds|
  {
    && (forall j :: 0 <= j < i && lanIds[j] != "" ==> keys[j] in index)
    && (forall k :: k in index ==> index[k] < i && FirstWithKey(lanIds, keys, k, index[k]))
  }

  lemma IndexStep(lanIds: seq<string>, keys: seq<string>, index: map<string, nat>, i: nat)
    requires |keys| == |lanIds| && i < |lanIds|
    requires IndexedUpTo(lanIds, keys, index, i)
    ensures IndexedUpTo(lanIds, keys, if lanIds[i] != "" && keys[i] !in index then index[keys[i] := i] else index, i + 1)
  {
    if lanIds[i] != "" && keys[i] !in index {
      assert NoEarlier(lanIds, keys, keys[i], i);
    }
  }

  // ---------------------------------------------------------------------------
  // Loaders

  /** Enumerable.Take: the first n elements, none for n <= 0. */
  function Take<T>(s: seq<T>, n: int): (r: seq<T>)
    ensures |r| == (if n <= 0 then 0 else if n < |s| then n else |s|)
    ensures r == s[..|r|]
  {
    if n <= 0 then [] else if n < |s| then s[..n] else s
  }

  /** The logins in lower case (String.ToLower). */
  function Lowered(lanIds: seq<string>): (r: seq<string>)
    ensures |r| == |lanIds|
    ensures forall i :: 0 <= i < |lanIds| ==> r[i] == Text.ToLower(lanIds[i])
  {
    seq(|lanIds|, i requires 0 <= i < |lanIds| => Text.ToLower(lanIds[i]))
  }

  /** The counters of one pass of a loader. */
  class LoaderStats {
    var checked: int
    var updated: int

    constructor()
      ensures checked == 0 && updated == 0
    {
      checked := 0;
      updated := 0;
    }
  }

  /**
   * A loader as the orchestration sees it. Its overridable members are
   * fixed when it is made: the spread count, the expiry, whether it needs a
   * secondary update, and the per-profile tests, which look at the profile
   * through its login.
   */
  class BatchLoader {
    const sourceName: string
    const spreadUpdateProfileCount: int
    const realTimeUpdateExpiry: int
    const secondaryUpdateRequired: bool
    const isValidProfile: string -> bool
    const bulkDataContains: string -> bool
    const bulkDataUsedToContain: string -> bool
    const shouldUpdateInSecondaryUpdate: string -> bool
    /** ProfilesChecked and ProfilesUpdated. */
    const stats: LoaderStats
    /** ProfilesCheckedInSecondaryUpdate and ProfilesUpdatedInSecondaryUpdate. */
    const secondaryStats: LoaderStats
    var bulkDataAvailable: bool
    var loaderInitialized: bool
    /** ProfilesToUpdate: the lower-case logins picked for this run, or null. */
    var profilesToUpdate: Option<seq<string>>

    constructor(sourceName: string, spreadUpdateProfileCount: int, realTimeUpdateExpiry: int, secondaryUpdateRequired: bool,
                isValidProfile: string -> bool, bulkDataContains: string -> bool, bulkDataUsedToContain: string -> bool,
                shouldUpdateInSecondaryUpdate: string -> bool)
      ensures this.sourceName == sourceName && this.spreadUpdateProfileCount == spreadUpdateProfileCount
      ensures this.realTimeUpdateExpiry == realTimeUpdateExpiry && this.secondaryUpdateRequired == secondaryUpdateRequired
      ensures this.isValidProfile == isValidProfile && this.bulkDataContains == bulkDataContains
      ensures this.bulkDataUsedToContain == bulkDataUsedToContain && this.shouldUpdateInSecondaryUpdate == shouldUpdateInSecondaryUpdate
      ensures fresh(stats) && fresh(secondaryStats) && stats != secondaryStats
      ensures stats.checked == 0 && stats.updated == 0 && secondaryStats.checked == 0 && secondaryStats.updated == 0
      ensures !bulkDataAvailable && !loaderInitialized && profilesToUpdate.None?
    {
      this.sourceName := sourceName;
      this.spreadUpdateProfileCount := spreadUpdateProfileCount;
      this.realTimeUpdateExpiry := realTimeUpdateExpiry;
      this.secondaryUpdateRequired := secondaryUpdateRequired;
      this.isValidProfile := isValidProfile;
      this.bulkDataContains := bulkDataContains;
      this.bulkDataUsedToContain := bulkDataUsedToContain;
      this.shouldUpdateInSecondaryUpdate := shouldUpdateInSecondaryUpdate;
      stats := new LoaderStats();
      secondaryStats := new LoaderStats();
      bulkDataAvailable := false;
      loaderInitialized := false;
      profilesToUpdate := None;
    }

    /**
     * ShouldUpdateInBatch, test by test: an invalid profile never; every
     * profile when the spread count is int.MaxValue; with bulk data, a
     * profile the data holds or held; otherwise a profile picked for this run.
     */
    predicate ShouldUpdateInBatch(lanId: string)
      reads this
    {
      if !isValidProfile(lanId) then false
      else if spreadUpdateProfileCount == IntMax then true
      else if bulkDataAvailable then bulkDataContains(lanId) || bulkDataUsedToContain(lanId)
      else if profilesToUpdate.Some? && |profilesToUpdate.value| > 0 then Text.ToLower(lanId) in profilesToUpdate.value
      else false
    }

    /** A valid profile this source has not refreshed within its expiry. */
    predicate Eligible(stamps: map<string, int>, now: int, lanId: string) {
      isValidProfile(lanId) && Expired(stamps, StampKey(sourceName, lanId), now, realTimeUpdateExpiry)
    }

    /** The eligible logins, in their order. */
    function EligibleOf(lanIds: seq<string>, stamps: map<string, int>, now: int): (r: seq<string>)
      ensures forall x :: x in r <==> x in lanIds && Eligible(stamps, now, x)
      ensures |r| <= |lanIds|
    {
      if |lanIds| == 0 then []
      else
        assert forall x :: x in lanIds <==> x == lanIds[0] || x in lanIds[1..];
        var here := if Eligible(stamps, now, lanIds[0]) then [lanIds[0]] else [];
        here + EligibleOf(lanIds[1..], stamps, now)
    }

    /**
     * SelectProfilesToUpdate: null when the spread count is 0 or
     * int.MaxValue; otherwise up to that many eligible profiles taken from
     * the random order `shuffled` (any arrangement of the eligible logins),
     * returned in lower case and stamped, in lower case, with the time now.
     * Eligibility tests the login as given, so a picked login with capitals
     * is still eligible after its stamp.
     */
    method SelectProfilesToUpdate(lanIds: seq<string>, shuffled: seq<string>, stamps: UpdateStamps, now: int)
      returns (r: Option<seq<string>>)
      requires multiset(shuffled) == multiset(EligibleOf(lanIds, stamps.stamps, now))
      modifies stamps
      ensures spreadUpdateProfileCount == 0 || spreadUpdateProfileCount == IntMax ==> r.None? && stamps.stamps == old(stamps.stamps)
      ensures spreadUpdateProfileCount != 0 && spreadUpdateProfileCount != IntMax ==>
        var picked := Take(shuffled, spreadUpdateProfileCount);
        && r == Some(Lowered(picked))
        && stamps.stamps == Stamp(old(stamps.stamps), StampKeys(sourceName, Lowered(picked)), now)
        && forall x :: x in picked && Text.ToLower(x) != x ==> Eligible(stamps.stamps, now, x)
    {
      if spreadUpdateProfileCount == 0 || spreadUpdateProfileCount == IntMax {
        return None;
      }
      var picked := Take(shuffled, spreadUpdateProfileCount);
      PickedMixedCaseStaysEligible(this, lanIds, shuffled, stamps.stamps, now);
      stamps.StampAll(StampKeys(sourceName, Lowered(picked)), now);
      return Some(Lowered(picked));
    }

    /**
     * The initialisation RunBatchUpdate gives each loader. `bulk` is what
     * LoadBulkData returns, None when it throws: the loader then stays
     * uninitialised and is neither run nor asked to export.
     */
    method Initialize(lanIds: seq<string>, bulk: Option<bool>, shuffled: seq<string>, stamps: UpdateStamps, now: int)
      requires multiset(shuffled) == multiset(EligibleOf(lanIds, stamps.stamps, now))
      modifies this, stamps
      ensures bulk.None? ==> (!loaderInitialized && bulkDataAvailable == old(bulkDataAvailable)
        && profilesToUpdate == old(profilesToUpdate) && stamps.stamps == old(stamps.stamps))
      ensures bulk.Some? ==> loaderInitialized && bulkDataAvailable == bulk.value
      ensures bulk.Some? && (spreadUpdateProfileCount == 0 || spreadUpdateProfileCount == IntMax) ==>
        profilesToUpdate.None? && stamps.stamps == old(stamps.stamps)
      ensures bulk.Some? && spreadUpdateProfileCount != 0 && spreadUpdateProfileCount != IntMax ==>
        var picked := Take(shuffled, spreadUpdateProfileCount);
        && profilesToUpdate == Some(Lowered(picked))
        && stamps.stamps == Stamp(old(stamps.stamps), StampKeys(sourceName, Lowered(picked)), now)
    {
      loaderInitialized := false;
      if bulk.None? {
        return;
      }
      bulkDataAvailable := bulk.value;
      profilesToUpdate := SelectProfilesToUpdate(lanIds, shuffled, stamps, now);
      loaderInitialized := true;
    }
  }

  /**
   * As written, the pick is stamped under the lower-case logins while
   * eligibility looks up the login as given: every picked login with
   * capitals is as eligible after the stamping as before it.
   */
  lemma PickedMixedCaseStaysEligible(l: BatchLoader, lanIds: seq<string>, shuffled: seq<string>, stamps: map<string, int>, now: int)
    requires multiset(shuffled) == multiset(l.EligibleOf(lanIds, stamps, now))
    ensures var picked := Take(shuffled, l.spreadUpdateProfileCount);
      forall x :: x in picked && Text.ToLower(x) != x ==>
        l.Eligible(Stamp(stamps, StampKeys(l.sourceName, Lowered(picked)), now), now, x)
  {
    var picked := Take(shuffled, l.spreadUpdateProfileCount);
    var keys := StampKeys(l.sourceName, Lowered(picked));
    StampSpec(stamps, keys, now);
    forall x | x in picked && Text.ToLower(x) != x
      ensures l.Eligible(Stamp(stamps, keys, now), now, x)
    {
      assert x in multiset(shuffled);
      assert l.Eligible(stamps, now, x);
      var key := StampKey(l.sourceName, x);
      if key in keys {
        var i :| 0 <= i < |keys| && keys[i] == key;
        var y := picked[i];
        assert l.sourceName + "|" + Text.ToLower(y) == l.sourceName + "|" + x;
        assert x == (l.sourceName + "|" + x)[|l.sourceName| + 1..];
        assert Text.ToLower(y) == (l.sourceName + "|" + Text.ToLower(y))[|l.sourceName| + 1..];
        Text.ToLowerIdempotent(y);
        assert false;
      }
    }
  }

  /**
   * What a pick promises: at most the spread count of profiles, as many as
   * are eligible up to that count, each one eligible; and after the stamping
   * none of them is eligible again for this source until its expiry has
   * passed.
   */
  lemma SelectedAreEligible(l: BatchLoader, lanIds: seq<string>, shuffled: seq<string>, stamps: map<string, int>, now: int)
    requires multiset(shuffled) == multiset(l.EligibleOf(lanIds, stamps, now))
    requires l.spreadUpdateProfileCount > 0
    ensures var picked := Take(shuffled, l.spreadUpdateProfileCount);
      && |picked| <= l.spreadUpdateProfileCount
      && |picked| == (if |l.EligibleOf(lanIds, stamps, now)| < l.spreadUpdateProfileCount then |l.EligibleOf(lanIds, stamps, now)| else l.spreadUpdateProfileCount)
      && (forall x :: x in picked ==> x in lanIds && l.Eligible(stamps, now, x))
      && forall x, t :: x in picked && t <= now + l.realTimeUpdateExpiry ==>
           !l.Eligible(Stamp(stamps, StampKeys(l.sourceName, picked), now), t, x)
  {
    var picked := Take(shuffled, l.spreadUpdateProfileCount);
    assert |shuffled| == |multiset(shuffled)| == |l.EligibleOf(lanIds, stamps, now)|;
    forall x | x in picked ensures x in lanIds && l.Eligible(stamps, now, x) {
      assert x in multiset(shuffled);
    }
    StampSpec(stamps, StampKeys(l.sourceName, picked), now);
    forall x | x in picked ensures StampKey(l.sourceName, x) in StampKeys(l.sourceName, picked) {
      var i :| 0 <= i < |picked| && picked[i] == x;
      assert StampKeys(l.sourceName, picked)[i] == StampKey(l.sourceName, x);
    }
  }

  /**
   * With no bulk data and a pick made, the batch pass takes a profile
   * exactly when it is valid and its login, in lower case, was picked.
   */
  lemma PickedShouldUpdate(l: BatchLoader, picked: seq<string>, lanId: string)
    requires !l.bulkDataAvailable && l.spreadUpdateProfileCount != IntMax
    requires l.profilesToUpdate == Some(Lowered(picked)) && |picked| > 0
    ensures l.ShouldUpdateInBatch(lanId) <==>
      l.isValidProfile(lanId) && exists i :: 0 <= i < |picked| && Text.ToLower(picked[i]) == Text.ToLower(lanId)
  {
    var lowered := Lowered(picked);
    if Text.ToLower(lanId) in lowered {
      var i :| 0 <= i < |lowered| && lowered[i] == Text.ToLower(lanId);
      assert Text.ToLower(picked[i]) == Text.ToLower(lanId);
    }
    if exists i :: 0 <= i < |picked| && Text.ToLower(picked[i]) == Text.ToLower(lanId) {
      var i :| 0 <= i < |picked| && Text.ToLower(picked[i]) == Text.ToLower(lanId);
      assert lowered[i] == Text.ToLower(lanId);
    }
  }

  /**
   * As written, SelectProfilesToUpdate stamps the lower-case login but tests
   * the login as given: a profile whose login has capitals is stamped under
   * a key the next pick never looks at, so it stays eligible at once.
   */
  lemma StampAsWrittenMissesMixedCase()
    ensures var stamped := Stamp(map[], StampKeys("Directory", Lowered(["DOMAIN\\Ann"])), 0);
      Expired(stamped, StampKey("Directory", "DOMAIN\\Ann"), 0, DefaultRealTimeUpdateExpiry)
  {
    var keys := StampKeys("Directory", Lowered(["DOMAIN\\Ann"]));
    assert Text.ToLower("DOMAIN\\Ann")[0] == 'd';
    assert keys[0][|"Directory|"|] == 'd';
    StampSpec(map[], keys, 0);
    assert StampKey("Directory", "DOMAIN\\Ann")[|"Directory|"|] == 'D';
    assert StampKey("Directory", "DOMAIN\\Ann") !in keys;
  }

  /** A loader that was initialised and has bulk data or a spread count: one run per profile. */
  predicate Active(l: BatchLoader)
    reads l
  {
    l.loaderInitialized && (l.bulkDataAvailable || l.spreadUpdateProfileCount > 0)
  }

  /** The active loaders, in their order. */
  function ActiveLoaders(pdls: seq<BatchLoader>): (r: seq<BatchLoader>)
    reads set l | l in pdls
    ensures |r| <= |pdls|
    ensures forall k :: 0 <= k < |r| ==> r[k] in pdls && Active(r[k])
    ensures forall k :: 0 <= k < |pdls| && Active(pdls[k]) ==> pdls[k] in r
  {
    if |pdls| == 0 then []
    else
      var rest := ActiveLoaders(pdls[1..]);
      assert forall k :: 1 <= k < |pdls| ==> pdls[k] == pdls[1..][k - 1];
      (if Active(pdls[0]) then [pdls[0]] else []) + rest
  }

  /** The loaders asked to export: every initialised one. */
  function Exporters(pdls: seq<BatchLoader>): (r: seq<BatchLoader>)
    reads set l | l in pdls
    ensures |r| <= |pdls|
    ensures forall k :: 0 <= k < |r| ==> r[k] in pdls && r[k].loaderInitialized
    ensures forall k :: 0 <= k < |pdls| && pdls[k].loaderInitialized ==> pdls[k] in r
  {
    if |pdls| == 0 then []
    else
      var rest := Exporters(pdls[1..]);
      assert forall k :: 1 <= k < |pdls| ==> pdls[k] == pdls[1..][k - 1];
      (if pdls[0].loaderInitialized then [pdls[0]] else []) + rest
  }

  /** The active loaders that ask for a secondary update. */
  function DelayedLoaders(active: seq<BatchLoader>): (r: seq<BatchLoader>)
    ensures |r| <= |active|
    ensures forall k :: 0 <= k < |r| ==> r[k] in active && r[k].secondaryUpdateRequired
    ensures forall k :: 0 <= k < |active| && active[k].secondaryUpdateRequired ==> active[k] in r
  {
    if |active| == 0 then []
    else
      var rest := DelayedLoaders(active[1..]);
      assert forall k :: 1 <= k < |active| ==> active[k] == active[1..][k - 1];
      (if active[0].secondaryUpdateRequired then [active[0]] else []) + rest
  }

  /** Every loader that runs is also an exporter, and every delayed loader is active. */
  lemma LoaderFilters(pdls: seq<BatchLoader>)
    ensures forall l :: l in ActiveLoaders(pdls) ==> l in Exporters(pdls)
    ensures forall l :: l in DelayedLoaders(ActiveLoaders(pdls)) ==> l in ActiveLoaders(pdls) && Active(l)
  {
    var a := ActiveLoaders(pdls);
    forall l | l in a ensures l in Exporters(pdls) {
      var k :| 0 <= k < |a| && a[k] == l;
      var j :| 0 <= j < |pdls| && pdls[j] == l;
    }
    var d := DelayedLoaders(a);
    forall l | l in d ensures l in a && Active(l) {
      var k :| 0 <= k < |d| && d[k] == l;
      var j :| 0 <= j < |a| && a[j] == l;
    }
  }

  // ---------------------------------------------------------------------------
  // The per-profile pass

  /** Whether a loader updates the profile in this pass. */
  predicate ShouldRun(l: BatchLoader, lanId: string, secondary: bool)
    reads l
  {
    if secondary then l.shouldUpdateInSecondaryUpdate(lanId) else l.ShouldUpdateInBatch(lanId)
  }

  function Runs(loaders: seq<BatchLoader>, lanId: string, secondary: bool): (r: seq<bool>)
    reads set l | l in loaders
    ensures |r| == |loaders|
    ensures forall k :: 0 <= k < |loaders| ==> r[k] == ShouldRun(loaders[k], lanId, secondary)
  {
    if |loaders| == 0 then []
    else Runs(loaders[..|loaders| - 1], lanId, secondary) + [ShouldRun(loaders[|loaders| - 1], lanId, secondary)]
  }

  /** The counters of each loader for the pass. */
  function PassStats(loaders: seq<BatchLoader>, secondary: bool): (r: seq<LoaderStats>)
    ensures |r| == |loaders|
    ensures forall k :: 0 <= k < |loaders| ==> r[k] == if secondary then loaders[k].secondaryStats else loaders[k].stats
  {
    seq(|loaders|, k requires 0 <= k < |loaders| => if secondary then loaders[k].secondaryStats else loaders[k].stats)
  }

  /**
   * The changed-property count the pass compares loader k's count with: the
   * count after the last loader before k that ran, or 0.
   */
  function Prev(runs: seq<bool>, counts: seq<nat>, k: nat): nat
    requires |runs| == |counts| && k <= |runs|
  {
    if k == 0 then 0 else if runs[k - 1] then counts[k - 1] else Prev(runs, counts, k - 1)
  }

  /** Loader k ran and left more changed properties than the pass had seen. */
  predicate Grew(runs: seq<bool>, counts: seq<nat>, k: nat)
    requires |runs| == |counts| && k < |runs|
  {
    runs[k] && counts[k] > Prev(runs, counts, k)
  }

  /** Whether one of the first n loaders grew the count. */
  function AnyGrew(runs: seq<bool>, counts: seq<nat>, n: nat): bool
    requires |runs| == |counts| && n <= |runs|
  {
    n > 0 && (AnyGrew(runs, counts, n - 1) || Grew(runs, counts, n - 1))
  }

  function GrewFlags(runs: seq<bool>, counts: seq<nat>): (r: seq<bool>)
    requires |runs| == |counts|
    ensures |r| == |runs|
    ensures forall k :: 0 <= k < |runs| ==> r[k] == Grew(runs, counts, k)
  {
    seq(|runs|, k requires 0 <= k < |runs| => Grew(runs, counts, k))
  }

  /** How many positions k have counters s and flag set. */
  function Tally(ss: seq<LoaderStats>, flags: seq<bool>, s: LoaderStats): nat
    requires |ss| == |flags|
  {
    if |ss| == 0 then 0
    else Tally(ss[..|ss| - 1], flags[..|flags| - 1], s) + (if ss[|ss| - 1] == s && flags[|flags| - 1] then 1 else 0)
  }

  /**
   * The body RunBatchUpdate runs for one profile, in either pass. counts[k]
   * is the number of changed properties after loader k's update (the update
   * itself is the loader's own code). The profile is to be saved exactly when
   * some loader that ran grew that number; each loader that runs is counted
   * as checked, and as updated when it grew the number.
   */
  method UpdateOneProfile(loaders: seq<BatchLoader>, lanId: string, counts: seq<nat>, secondary: bool) returns (save: bool)
    requires |counts| == |loaders|
    modifies set s | s in PassStats(loaders, secondary)
    ensures save == AnyGrew(old(Runs(loaders, lanId, secondary)), counts, |loaders|)
    ensures var runs := old(Runs(loaders, lanId, secondary));
      var ss := PassStats(loaders, secondary);
      forall s :: s in ss ==>
        && s.checked == old(s.checked) + Tally(ss, runs, s)
        && s.updated == old(s.updated) + Tally(ss, GrewFlags(runs, counts), s)
  {
    var runs := Runs(loaders, lanId, secondary);
    var ss := PassStats(loaders, secondary);
    save := CountPass(ss, runs, counts);
  }

  /** The loop of UpdateOneProfile over the loaders' counters, given whether each loader runs. */
  method CountPass(ss: seq<LoaderStats>, runs: seq<bool>, counts: seq<nat>) returns (save: bool)
    requires |ss| == |runs| == |counts|
    modifies set s | s in ss
    ensures save == AnyGrew(runs, counts, |ss|)
    ensures forall s :: s in ss ==>
      && s.checked == old(s.checked) + Tally(ss, runs, s)
      && s.updated == old(s.updated) + Tally(ss, GrewFlags(runs, counts), s)
  {
    ghost var grew := GrewFlags(runs, counts);
    ghost var checked0 := Checked(ss);
    ghost var updated0 := Updated(ss);
    save := false;
    var count := 0;
    var k := 0;
    assert Counted(ss, runs, grew, 0, checked0, updated0);
    while k < |ss|
      invariant 0 <= k <= |ss|
      invariant count == Prev(runs, counts, k)
      invariant save == AnyGrew(runs, counts, k)
      invariant Counted(ss, runs, grew, k, checked0, updated0)
    {
      var grows := runs[k] && counts[k] > count;
      PrevStep(runs, counts, k);
      Tick(ss[k], runs[k], grows, ss, runs, grew, k, checked0, updated0);
      if runs[k] {
        save := save || grows;
        count := counts[k];
      }
      k := k + 1;
    }
    assert ss[..k] == ss && runs[..k] == runs && grew[..k] == grew;
  }

  ghost function Checked(ss: seq<LoaderStats>): (r: seq<int>)
    reads set s | s in ss
    ensures |r| == |ss| && forall i :: 0 <= i < |ss| ==> r[i] == ss[i].checked
  {
    seq(|ss|, i requires 0 <= i < |ss| reads set s | s in ss => ss[i].checked)
  }

  ghost function Updated(ss: seq<LoaderStats>): (r: seq<int>)
    reads set s | s in ss
    ensures |r| == |ss| && forall i :: 0 <= i < |ss| ==> r[i] == ss[i].updated
  {
    seq(|ss|, i requires 0 <= i < |ss| reads set s | s in ss => ss[i].updated)
  }

  /** The counters of the first k loaders' stats hold their start values plus the tallies so far. */
  ghost predicate Counted(ss: seq<LoaderStats>, runs: seq<bool>, grew: seq<bool>, k: nat, checked0: seq<int>, updated0: seq<int>)
    requires |ss| == |runs| == |grew| && k <= |ss|
    reads set s | s in ss
  {
    && |checked0| == |ss| && |updated0| == |ss|
    && forall i :: 0 <= i < |ss| ==>
      && ss[i].checked == checked0[i] + Tally(ss[..k], runs[..k], ss[i])
      && ss[i].updated == updated0[i] + Tally(ss[..k], grew[..k], ss[i])
  }

  /** One loader's counting step, extending the tallies from k to k + 1 loaders. */
  method Tick(st: LoaderStats, ran: bool, grows: bool, ghost ss: seq<LoaderStats>, ghost runs: seq<bool>, ghost grew: seq<bool>, ghost k: nat,
              ghost checked0: seq<int>, ghost updated0: seq<int>)
    requires |ss| == |runs| == |grew| && k < |ss|
    requires st == ss[k] && ran == runs[k] && grows == grew[k]
    requires Counted(ss, runs, grew, k, checked0, updated0)
    modifies set s | s in ss
    ensures Counted(ss, runs, grew, k + 1, checked0, updated0)
  {
    TallyStep(ss, runs, k);
    TallyStep(ss, grew, k);
    Count(st, ran, grows);
  }

  /** The counter increments for one loader: checked when it ran, updated when it grew the count. */
  method Count(st: LoaderStats, ran: bool, grew: bool)
    modifies st
    ensures st.checked == old(st.checked) + (if ran then 1 else 0)
    ensures st.updated == old(st.updated) + (if grew then 1 else 0)
  {
    if ran {
      st.checked := st.checked + 1;
    }
    if grew {
      st.updated := st.updated + 1;
    }
  }

  lemma PrevStep(runs: seq<bool>, counts: seq<nat>, k: nat)
    requires |runs| == |counts| && k < |runs|
    ensures Prev(runs, counts, k + 1) == if runs[k] then counts[k] else Prev(runs, counts, k)
    ensures GrewFlags(runs, counts)[k] == (runs[k] && counts[k] > Prev(runs, counts, k))
    ensures AnyGrew(runs, counts, k + 1) == (AnyGrew(runs, counts, k) || (runs[k] && counts[k] > Prev(runs, counts, k)))
  {
  }

  lemma TallyStep(ss: seq<LoaderStats>, flags: seq<bool>, k: nat)
    requires |ss| == |flags| && k < |ss|
    ensures forall s :: Tally(ss[..k + 1], flags[..k + 1], s) == Tally(ss[..k], flags[..k], s) + (if ss[k] == s && flags[k] then 1 else 0)
  {
    assert ss[..k + 1][..k] == ss[..k] && flags[..k + 1][..k] == flags[..k];
  }

  /**
   * The count the pass starts from is 0, not the profile's count before the
   * pass: the profile is saved exactly when some loader that ran left any
   * changed property, including ones pending from before.
   */
  lemma {:induction false} SaveIffAnyChanged(runs: seq<bool>, counts: seq<nat>, n: nat)
    requires |runs| == |counts| && n <= |runs|
    ensures AnyGrew(runs, counts, n) <==> exists k :: 0 <= k < n && runs[k] && counts[k] > 0
    decreases n
  {
    if n > 0 {
      SaveIffAnyChanged(runs, counts, n - 1);
      if runs[n - 1] && counts[n - 1] > 0 && !(exists k :: 0 <= k < n - 1 && runs[k] && counts[k] > 0) {
        PrevZero(runs, counts, n - 1);
      }
    }
  }

  lemma {:induction false} PrevZero(runs: seq<bool>, counts: seq<nat>, k: nat)
    requires |runs| == |counts| && k <= |runs|
    requires forall j :: 0 <= j < k && runs[j] ==> counts[j] == 0
    ensures Prev(runs, counts, k) == 0
    decreases k
  {
    if k > 0 && !runs[k - 1] {
      PrevZero(runs, counts, k - 1);
    }
  }

  // ---------------------------------------------------------------------------
  // The real-time update

  /** What one loader does in RunRealtimeUpdate: whether it updated the profile, which is then saved and stamped. */
  predicate RealtimeSaves(l: BatchLoader, lanId: string, updated: bool, stamps: map<string, int>, now: int)
    reads l
  {
    l.isValidProfile(lanId) && Expired(stamps, StampKey(l.sourceName, lanId), now, l.realTimeUpdateExpiry) && updated
  }

  /**
   * RunRealtimeUpdate over the loaders in order: the sources whose update led
   * to a save, and the stamps afterwards. updated[k] is what loader k's
   * real-time update returns (false when it throws).
   */
  function Realtime(pdls: seq<BatchLoader>, lanId: string, updated: seq<bool>, stamps: map<string, int>, now: int): (seq<string>, map<string, int>)
    requires |updated| == |pdls|
    reads set l | l in pdls
    decreases |pdls|
  {
    if |pdls| == 0 then ([], stamps)
    else
      var l := pdls[0];
      if RealtimeSaves(l, lanId, updated[0], stamps, now) then
        var (rest, st) := Realtime(pdls[1..], lanId, updated[1..], stamps[StampKey(l.sourceName, lanId) := now], now);
        ([l.sourceName] + rest, st)
      else Realtime(pdls[1..], lanId, updated[1..], stamps, now)
  }

  /**
   * RunRealtimeUpdate: each loader for which the profile is valid and not
   * refreshed by that source within its expiry runs its real-time update;
   * an update that reports a change saves the profile and stamps it.
   */
  method RunRealtimeUpdate(pdls: seq<BatchLoader>, lanId: string, updated: seq<bool>, stamps: UpdateStamps, now: int)
    returns (saves: seq<string>)
    requires |updated| == |pdls|
    modifies stamps
    ensures saves == Realtime(pdls, lanId, updated, old(stamps.stamps), now).0
    ensures stamps.stamps == Realtime(pdls, lanId, updated, old(stamps.stamps), now).1
  {
    saves := [];
    var k := 0;
    assert pdls[0..] == pdls && updated[0..] == updated;
    ghost var spec := Realtime(pdls, lanId, updated, stamps.stamps, now);
    while k < |pdls|
      invariant 0 <= k <= |pdls|
      invariant spec.0 == saves + Realtime(pdls[k..], lanId, updated[k..], stamps.stamps, now).0
      invariant spec.1 == Realtime(pdls[k..], lanId, updated[k..], stamps.stamps, now).1
    {
      RealtimeUnfold(pdls, lanId, updated, stamps.stamps, now, k);
      var l := pdls[k];
      var key := StampKey(l.sourceName, lanId);
      if l.isValidProfile(lanId) && Expired(stamps.stamps, key, now, l.realTimeUpdateExpiry) {
        if updated[k] {
          ghost var rest := Realtime(pdls[k + 1..], lanId, updated[k + 1..], stamps.stamps[key := now], now).0;
          assert saves + ([l.sourceName] + rest) == (saves + [l.sourceName]) + rest;
          saves := saves + [l.sourceName];
          stamps.stamps := stamps.stamps[key := now];
        }
      }
      k := k + 1;
    }
    assert pdls[k..] == [] && updated[k..] == [];
  }

  lemma RealtimeUnfold(pdls: seq<BatchLoader>, lanId: string, updated: seq<bool>, stamps: map<string, int>, now: int, k: nat)
    requires |updated| == |pdls| && k < |pdls|
    ensures var l := pdls[k];
      var next := stamps[StampKey(l.sourceName, lanId) := now];
      Realtime(pdls[k..], lanId, updated[k..], stamps, now) ==
        if RealtimeSaves(l, lanId, updated[k], stamps, now)
        then ([l.sourceName] + Realtime(pdls[k + 1..], lanId, updated[k + 1..], next, now).0, Realtime(pdls[k + 1..], lanId, updated[k + 1..], next, now).1)
        else Realtime(pdls[k + 1..], lanId, updated[k + 1..], stamps, now)
  {
    assert pdls[k..][0] == pdls[k] && pdls[k..][1..] == pdls[k + 1..];
    assert updated[k..][0] == updated[k] && updated[k..][1..] == updated[k + 1..];
  }

  /** No stamp of the loaders' keys is older than the expiry window at time now. */
  predicate AllFresh(pdls: seq<BatchLoader>, lanId: string, updated: seq<bool>, stamps: map<string, int>, now: int)
    requires |updated| == |pdls|
    reads set l | l in pdls
  {
    forall k :: 0 <= k < |pdls| && updated[k] && pdls[k].isValidProfile(lanId) ==>
      !Expired(stamps, StampKey(pdls[k].sourceName, lanId), now, pdls[k].realTimeUpdateExpiry)
  }

  /**
   * After a real-time update, every loader whose update would report a change
   * is within its expiry window: stamps only move forward to now.
   */
  lemma {:induction false} RealtimeFreshens(pdls: seq<BatchLoader>, lanId: string, updated: seq<bool>, stamps: map<string, int>, now: int)
    requires |updated| == |pdls|
    requires forall k :: 0 <= k < |pdls| ==> pdls[k].realTimeUpdateExpiry >= 0
    requires forall k :: k in stamps ==> stamps[k] <= now
    ensures var st := Realtime(pdls, lanId, updated, stamps, now).1;
      && (forall k :: k in st ==> st[k] <= now)
      && forall k :: 0 <= k < |pdls| && updated[k] && pdls[k].isValidProfile(lanId) ==>
           !Expired(st, StampKey(pdls[k].sourceName, lanId), now, pdls[k].realTimeUpdateExpiry)
    decreases |pdls|
  {
    if |pdls| > 0 {
      var l := pdls[0];
      var next := if RealtimeSaves(l, lanId, updated[0], stamps, now) then stamps[StampKey(l.sourceName, lanId) := now] else stamps;
      assert forall key :: key in next ==> next[key] <= now;
      RealtimeFreshens(pdls[1..], lanId, updated[1..], next, now);
      RealtimeMonotone(pdls[1..], lanId, updated[1..], next, now);
      var st1 := Realtime(pdls[1..], lanId, updated[1..], next, now).1;
      assert forall key :: key in st1 ==> st1[key] <= now;
      var st := Realtime(pdls, lanId, updated, stamps, now).1;
      assert st == st1;
      forall k | 0 <= k < |pdls| && updated[k] && pdls[k].isValidProfile(lanId)
        ensures !Expired(st, StampKey(pdls[k].sourceName, lanId), now, pdls[k].realTimeUpdateExpiry)
      {
        if k > 0 {
          assert pdls[1..][k - 1] == pdls[k] && updated[1..][k - 1] == updated[k];
        } else {
          var key := StampKey(l.sourceName, lanId);
          assert !Expired(next, key, now, l.realTimeUpdateExpiry);
          assert key in st && (st[key] == next[key] || st[key] == now);
        }
      }
    }
  }

  /** A real-time update keeps every stamp it does not set and sets stamps only to now. */
  lemma {:induction false} RealtimeMonotone(pdls: seq<BatchLoader>, lanId: string, updated: seq<bool>, stamps: map<string, int>, now: int)
    requires |updated| == |pdls|
    ensures var st := Realtime(pdls, lanId, updated, stamps, now).1;
      forall k :: k in stamps ==> k in st && (st[k] == stamps[k] || st[k] == now)
    decreases |pdls|
  {
    if |pdls| > 0 {
      var l := pdls[0];
      var next := if RealtimeSaves(l, lanId, updated[0], stamps, now) then stamps[StampKey(l.sourceName, lanId) := now] else stamps;
      RealtimeMonotone(pdls[1..], lanId, updated[1..], next, now);
      assert Realtime(pdls, lanId, updated, stamps, now).1 == Realtime(pdls[1..], lanId, updated[1..], next, now).1;
    }
  }

  /** With every key fresh, a real-time update saves nothing. */
  lemma {:induction false} FreshSavesNothing(pdls: seq<BatchLoader>, lanId: string, updated: seq<bool>, stamps: map<string, int>, now: int)
    requires |updated| == |pdls|
    requires AllFresh(pdls, lanId, updated, stamps, now)
    ensures Realtime(pdls, lanId, updated, stamps, now).0 == []
    decreases |pdls|
  {
    if |pdls| > 0 {
      assert !RealtimeSaves(pdls[0], lanId, updated[0], stamps, now);
      assert forall k :: 0 <= k < |pdls[1..]| ==> pdls[1..][k] == pdls[k + 1] && updated[1..][k] == updated[k + 1];
      FreshSavesNothing(pdls[1..], lanId, updated[1..], stamps, now);
    }
  }

  /**
   * A profile refreshed in real time is not refreshed again by the same
   * sources at the same moment: running the update twice, the second run
   * saves nothing.
   */
  lemma RealtimeOncePerExpiry(pdls: seq<BatchLoader>, lanId: string, updated: seq<bool>, stamps: map<string, int>, now: int)
    requires |updated| == |pdls|
    requires forall k :: 0 <= k < |pdls| ==> pdls[k].realTimeUpdateExpiry >= 0
    requires forall k :: k in stamps ==> stamps[k] <= now
    ensures Realtime(pdls, lanId, updated, Realtime(pdls, lanId, updated, stamps, now).1, now).0 == []
  {
    RealtimeFreshens(pdls, lanId, updated, stamps, now);
    FreshSavesNothing(pdls, lanId, updated, Realtime(pdls, lanId, updated, stamps, now).1, now);
  }
}
