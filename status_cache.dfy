/** The plugin's use of the WordPress transient store: the memoised recursive permission
    check, the memoised web-server user, and the bulk invalidation behind the
    "Clear Plugin Cache" button.

    The store is a map from transient name to its value and time-to-live. Expiry is the
    store's business and is not modelled; a deletion the store refuses is modelled by the
    set `stuck` of names whose deletion has no effect. */
module StatusCache {
  import opened Php
  import opened Options
  import opened Status

  const MONTH_IN_SECONDS: int := 2592000

  /** `md5('nppp')`, the suffix of the plugin's fixed transient names. */
  const KEY_SUFFIX: string := "750333094800ef34d98ecb48dc338d73"

  const PERMISSIONS_KEY: string := "nppp_permissions_check_" + KEY_SUFFIX
  const WEBSERVER_USER_KEY: string := "nppp_webserver_user_" + KEY_SUFFIX

  /** The transients cleared every time, in the order they are deleted. */
  const FIXED_KEYS: seq<string> := [
    "nppp_cache_keys_wpfilesystem_error",
    "nppp_nginx_conf_not_found",
    "nppp_cache_keys_not_found",
    "nppp_cache_path_not_found",
    "nppp_fuse_path_not_found",
    "nppp_cache_keys_" + KEY_SUFFIX,
    "nppp_bindfs_version_" + KEY_SUFFIX,
    "nppp_libfuse_version_" + KEY_SUFFIX,
    PERMISSIONS_KEY,
    "nppp_cache_paths_" + KEY_SUFFIX,
    "nppp_fuse_paths_" + KEY_SUFFIX,
    WEBSERVER_USER_KEY
  ]

  const CATEGORY_PATTERN: string := "nppp_category_"
  const RATE_LIMIT_PATTERN: string := "nppp_rate_limit_"

  const CLEAR_FAILED: string := "An error occurred while clearing the plugin cache."
  const CLEAR_SUCCEEDED: string := "Plugin cache cleared successfully. Refreshing the Status.."

  datatype Transient = Transient(value: string, ttl: int)

  type Store = map<string, Transient>

  // =======================================================================
  // Get-or-compute
  // =======================================================================

  /** The value a memoised lookup reports and the store it leaves behind. */
  datatype Lookup = Lookup(value: string, after: Store)

  /** A memoised lookup: a stored value is returned untouched; otherwise `computed` is
      returned and stored for a month. */
  function GetOrCompute(entries: Store, key: string, computed: string): (r: Lookup)
  {
    if key in entries then Lookup(entries[key].value, entries)
    else Lookup(computed, entries[key := Transient(computed, MONTH_IN_SECONDS)])
  }

  /** After a lookup the key holds the reported value, and no other transient changed. */
  lemma GetOrComputeStores(entries: Store, key: string, computed: string)
    ensures var r := GetOrCompute(entries, key, computed);
      && key in r.after && r.after[key].value == r.value
      && (key in entries ==> r.value == entries[key].value)
      && (key !in entries ==> r.value == computed && r.after[key].ttl == MONTH_IN_SECONDS)
      && (forall k :: k != key ==> (k in r.after <==> k in entries))
      && (forall k :: k != key && k in entries ==> r.after[k] == entries[k])
  {
  }

  /** A second lookup never recomputes: it reports the first lookup's value, whatever it
      would have computed, and changes nothing. */
  lemma GetOrComputeMemoises(entries: Store, key: string, first: string, second: string)
    ensures var r1 := GetOrCompute(entries, key, first);
      GetOrCompute(r1.after, key, second) == r1
  {
  }

  // =======================================================================
  // Bulk invalidation
  // =======================================================================

  /** The targets contributed by one stored name: the name once for each pattern it
      contains anywhere (so a name containing both is listed twice). */
  function MatchesOf(name: string): (r: seq<string>)
    ensures forall t :: t in r <==> t == name && (Contains(name, CATEGORY_PATTERN) || Contains(name, RATE_LIMIT_PATTERN))
  {
    (if Contains(name, CATEGORY_PATTERN) then [name] else [])
    + (if Contains(name, RATE_LIMIT_PATTERN) then [name] else [])
  }

  /** The targets collected by the scan over the stored names, in scan order. */
  function DynamicTargets(names: seq<string>): seq<string>
    decreases |names|
  {
    if names == [] then []
    else DynamicTargets(names[..|names| - 1]) + MatchesOf(names[|names| - 1])
  }

  function ClearTargets(names: seq<string>): seq<string>
  {
    FIXED_KEYS + DynamicTargets(names)
  }

  lemma {:induction false} DynamicTargetsMembership(names: seq<string>, t: string)
    ensures t in DynamicTargets(names) <==>
      t in names && (Contains(t, CATEGORY_PATTERN) || Contains(t, RATE_LIMIT_PATTERN))
    decreases |names|
  {
    if names != [] {
      var init := names[..|names| - 1];
      DynamicTargetsMembership(init, t);
      assert names == init + [names[|names| - 1]];
    }
  }

  /** The targets are exactly the fixed names and every stored name that contains one of
      the two patterns anywhere, not only at its start. */
  lemma ClearTargetsMembership(names: seq<string>, t: string)
    ensures t in ClearTargets(names) <==>
      t in FIXED_KEYS || (t in names && (Contains(t, CATEGORY_PATTERN) || Contains(t, RATE_LIMIT_PATTERN)))
  {
    DynamicTargetsMembership(names, t);
  }

  /** Whether the delete-and-verify pass stopped at a target still present, and the store
      it leaves behind. */
  datatype Outcome = Outcome(failed: bool, after: Store)

  /** The delete-and-verify pass over the targets, in order. */
  function DeleteAll(targets: seq<string>, stuck: set<string>, entries: Store): Outcome
    decreases |targets|
  {
    if targets == [] then Outcome(false, entries)
    else
      var t := targets[0];
      var left := if t in stuck then entries else entries - {t};
      if t in left then Outcome(true, left)
      else DeleteAll(targets[1..], stuck, left)
  }

  /** The pass fails exactly when some target is stored and its deletion has no effect;
      it succeeds exactly when every target is gone, and then every target is gone. */
  lemma {:induction false} DeleteAllFails(targets: seq<string>, stuck: set<string>, entries: Store)
    ensures DeleteAll(targets, stuck, entries).failed <==>
      exists k :: 0 <= k < |targets| && targets[k] in stuck && targets[k] in entries
    decreases |targets|
  {
    if targets != [] {
      var t := targets[0];
      var left := if t in stuck then entries else entries - {t};
      DeleteAllFails(targets[1..], stuck, left);
      if t !in left {
        assert forall s :: s in stuck ==> (s in left <==> s in entries);
        assert forall k :: 1 <= k < |targets| ==> targets[k] == targets[1..][k - 1];
        if exists k :: 0 <= k < |targets| && targets[k] in stuck && targets[k] in entries {
          var k :| 0 <= k < |targets| && targets[k] in stuck && targets[k] in entries;
          assert k > 0;
          assert targets[1..][k - 1] in stuck && targets[1..][k - 1] in left;
        }
      }
    }
  }

  /** Nothing but the targets is touched; a successful pass leaves none of them stored. */
  lemma {:induction false} DeleteAllFrame(targets: seq<string>, stuck: set<string>, entries: Store)
    ensures var o := DeleteAll(targets, stuck, entries);
      && (forall k :: k !in targets ==> (k in o.after <==> k in entries))
      && (forall k :: k !in targets && k in entries ==> o.after[k] == entries[k])
      && (forall k :: k in o.after ==> k in entries)
      && (!o.failed ==> forall k :: k in targets ==> k !in o.after)
    decreases |targets|
  {
    if targets != [] {
      var t := targets[0];
      var left := if t in stuck then entries else entries - {t};
      DeleteAllFrame(targets[1..], stuck, left);
      var o := DeleteAll(targets, stuck, entries);
      if t !in left {
        assert o == DeleteAll(targets[1..], stuck, left);
        forall k | k in targets
          ensures k == t || k in targets[1..]
        {
          var j :| 0 <= j < |targets| && targets[j] == k;
          if j > 0 {
            assert targets[1..][j - 1] == k;
          }
        }
        if !o.failed {
          forall k | k in targets
            ensures k !in o.after
          {
            if k == t {
              assert k !in left;
            }
          }
        }
      }
    }
  }

  /** After a successful clear the status checks recompute: neither the permission verdict
      nor the web-server user is stored any more, so the next lookup reports what is
      computed afresh. */
  lemma ClearForcesRecompute(names: seq<string>, stuck: set<string>, entries: Store,
                             permission: string, user: string)
    requires !DeleteAll(ClearTargets(names), stuck, entries).failed
    ensures var after := DeleteAll(ClearTargets(names), stuck, entries).after;
      && GetOrCompute(after, PERMISSIONS_KEY, permission).value == permission
      && GetOrCompute(after, WEBSERVER_USER_KEY, user).value == user
  {
    DeleteAllFrame(ClearTargets(names), stuck, entries);
    assert PERMISSIONS_KEY in ClearTargets(names) by {
      assert ClearTargets(names)[8] == PERMISSIONS_KEY;
    }
    assert WEBSERVER_USER_KEY in ClearTargets(names) by {
      assert ClearTargets(names)[11] == WEBSERVER_USER_KEY;
    }
  }

  // =======================================================================
  // The store
  // =======================================================================

  class TransientStore {
    var entries: Store
    /** How many times the expensive recursive permission check has run. */
    ghost var expensiveChecks: nat

    constructor(initial: Store)
      ensures entries == initial && expensiveChecks == 0
    {
      entries := initial;
      expensiveChecks := 0;
    }

    /** `get_transient`: None stands for `false`, the answer for an absent name. */
    function Get(key: string): (r: Option<string>)
      reads this
      ensures r.Some? <==> key in entries
      ensures r.Some? ==> r.value == entries[key].value
    {
      if key in entries then Some(entries[key].value) else None
    }

    /** `nppp_check_permissions_recursive_with_cache`: None when the filesystem cannot be
        initialised; otherwise the stored verdict, or the verdict of `recursiveCheck` on
        the cache path, stored as 'true' or 'false' for a month. The check runs only when
        nothing is stored. */
    method CheckPermissionsWithCache(fsReady: bool, settings: Settings, recursiveCheck: string -> bool)
      returns (r: Option<string>)
      modifies this
      ensures !fsReady ==> r == None && entries == old(entries)
      ensures fsReady ==>
        var l := GetOrCompute(old(entries), PERMISSIONS_KEY,
                              if recursiveCheck(CachePath(settings)) then PERM_TRUE else PERM_FALSE);
        r == Some(l.value) && entries == l.after
      ensures expensiveChecks == old(expensiveChecks) + (if fsReady && PERMISSIONS_KEY !in old(entries) then 1 else 0)
    {
      if !fsReady {
        return None;
      }
      var result := Get(PERMISSIONS_KEY);
      if result.None? {
        var granted := recursiveCheck(CachePath(settings));
        expensiveChecks := expensiveChecks + 1;
        var verdict := if granted then PERM_TRUE else PERM_FALSE;
        entries := entries[PERMISSIONS_KEY := Transient(verdict, MONTH_IN_SECONDS)];
        result := Some(verdict);
      }
      return result;
    }

    /** `nppp_get_webserver_user`: a stored user is returned first, even when the filesystem
        is unavailable; otherwise None on filesystem failure; otherwise the reconciled user,
        which is stored for a month. `configExists` tests the config file's existence. */
    method GetWebserverUser(fsReady: bool, confPaths: seq<string>, configExists: string -> bool,
                            psOutput: Option<string>, confOutput: Option<string>)
      returns (r: Option<string>)
      modifies this
      ensures WEBSERVER_USER_KEY in old(entries) ==>
        r == Some(old(entries)[WEBSERVER_USER_KEY].value) && entries == old(entries)
      ensures WEBSERVER_USER_KEY !in old(entries) && !fsReady ==> r == None && entries == old(entries)
      ensures WEBSERVER_USER_KEY !in old(entries) && fsReady ==>
        var user := ReconcileUser(configExists(ConfigFile(confPaths)), ProcessUsers(psOutput), confOutput);
        r == Some(user) && entries == GetOrCompute(old(entries), WEBSERVER_USER_KEY, user).after
      ensures expensiveChecks == old(expensiveChecks)
    {
      if WEBSERVER_USER_KEY in entries {
        return Some(entries[WEBSERVER_USER_KEY].value);
      }
      if !fsReady {
        return None;
      }
      var configFile := ConfigFile(confPaths);
      var users := ProcessUsers(psOutput);
      var user := ReconcileUser(configExists(configFile), users, confOutput);
      entries := entries[WEBSERVER_USER_KEY := Transient(user, MONTH_IN_SECONDS)];
      r := Some(user);
    }

    /** `nppp_clear_plugin_cache`: collects the fixed names and the stored names matching
        either pattern (`names` lists the stored names in store order), then deletes each
        target and re-reads it, stopping with the error message at the first one still
        present. */
    method ClearPluginCache(names: seq<string>, stuck: set<string>) returns (message: string)
      modifies this
      ensures var o := DeleteAll(ClearTargets(names), stuck, old(entries));
        entries == o.after && message == (if o.failed then CLEAR_FAILED else CLEAR_SUCCEEDED)
      ensures expensiveChecks == old(expensiveChecks)
    {
      var transients := FIXED_KEYS;
      var i := 0;
      while i < |names|
        invariant 0 <= i <= |names|
        invariant transients == FIXED_KEYS + DynamicTargets(names[..i])
      {
        var name := names[i];
        assert names[..i + 1][..i] == names[..i];
        if Contains(name, CATEGORY_PATTERN) {
          transients := transients + [name];
        }
        if Contains(name, RATE_LIMIT_PATTERN) {
          transients := transients + [name];
        }
        i := i + 1;
      }
      assert names[..|names|] == names;
      ghost var start := entries;
      var j := 0;
      while j < |transients|
        invariant 0 <= j <= |transients|
        invariant DeleteAll(transients, stuck, start) == DeleteAll(transients[j..], stuck, entries)
        invariant expensiveChecks == old(expensiveChecks)
      {
        var t := transients[j];
        assert transients[j..][0] == t && transients[j..][1..] == transients[j + 1..];
        ghost var before := entries;
        if t !in stuck {
          entries := entries - {t};
        }
        assert DeleteAll(transients[j..], stuck, before)
          == if t in entries then Outcome(true, entries) else DeleteAll(transients[j + 1..], stuck, entries);
        if Get(t).Some? {
          return CLEAR_FAILED;
        }
        j := j + 1;
      }
      assert transients[j..] == [];
      return CLEAR_SUCCEEDED;
    }
  }

  /** Two permission checks in a row run the expensive check at most once and agree. */
  method RepeatedPermissionCheck(store: TransientStore, settings: Settings, recursiveCheck: string -> bool)
    returns (first: Option<string>, second: Option<string>)
    modifies store
    ensures first == second
    ensures store.expensiveChecks <= old(store.expensiveChecks) + 1
  {
    first := store.CheckPermissionsWithCache(true, settings, recursiveCheck);
    second := store.CheckPermissionsWithCache(true, settings, recursiveCheck);
  }
}
