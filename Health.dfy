/** The plugin: the registry that configuration fills in, the provisioning
    of the two well-known paths, and the interceptor that answers requests
    whose path names a registered group. */
module Health {
  import opened Wrappers
  import opened OrderedMaps
  import opened CheckMaps
  import opened Paths
  import Handle

  /** The paths Kubernetes recommends for liveness and readiness. */
  const HealthCheckURL: string := "healthz"
  const ReadyCheckURL: string := "readyz"
  const WellKnownPaths: set<string> := {HealthCheckURL, ReadyCheckURL}

  /** The registry as configuration sees it: path to check map. */
  type Registry = Entries<CheckMap>

  /** The checks registered under `url` (none if the path has no group). */
  function GroupAt(g: Registry, url: string): (m: CheckMap)
    ensures url !in KeysOf(g) ==> m == []
    ensures url in KeysOf(g) ==> Get(g, url) == Some(m)
  {
    match Get(g, url)
    case None => []
    case Some(m) => m
  }

  /** `getCheck` seen on the registry: the group for `url`, created empty and
      appended when it is missing. */
  function Provision(g: Registry, url: string): (r: Registry)
    ensures url in KeysOf(r)
  {
    if url in KeysOf(g) then g else Put(g, url, [])
  }

  /** `ensureWellKnown` as written: `!noHealth` provisions `readyz` and
      `!noReady` provisions `healthz`. */
  function WellKnown(g: Registry, noHealth: bool, noReady: bool): Registry {
    var g1 := if !noHealth then Provision(g, ReadyCheckURL) else g;
    if !noReady then Provision(g1, HealthCheckURL) else g1
  }

  /** As written, `readyz` is provisioned before `healthz`: with both flags
      clear and neither path registered, the two empty groups are appended
      in that order. */
  lemma WellKnownOrder(g: Registry)
    requires HealthCheckURL !in KeysOf(g) && ReadyCheckURL !in KeysOf(g)
    ensures WellKnown(g, false, false) == g + [(ReadyCheckURL, []), (HealthCheckURL, [])]
  {
    PutNew(g, ReadyCheckURL, []);
    var g1 := g + [(ReadyCheckURL, [])];
    PutNew(g1, HealthCheckURL, []);
    assert g1 + [(HealthCheckURL, [])] == g + [(ReadyCheckURL, []), (HealthCheckURL, [])];
  }

  /** `ensureWellKnown` as its documentation intends: each flag switches off
      the default group of its own path. */
  function IntendedWellKnown(g: Registry, noHealth: bool, noReady: bool): (r: Registry)
    requires DistinctKeys(g)
    ensures HealthCheckURL in KeysOf(r) <==> HealthCheckURL in KeysOf(g) || !noHealth
    ensures ReadyCheckURL in KeysOf(r) <==> ReadyCheckURL in KeysOf(g) || !noReady
    ensures DistinctKeys(r) && ExtendsEmpty(g, r, WellKnownPaths)
  {
    var g1 := if !noHealth then Provision(g, HealthCheckURL) else g;
    var r := if !noReady then Provision(g1, ReadyCheckURL) else g1;
    MaybeProvisionExtends(g, HealthCheckURL, !noHealth, WellKnownPaths);
    MaybeProvisionExtends(g1, ReadyCheckURL, !noReady, WellKnownPaths);
    ExtendsEmptyTrans(g, g1, r, WellKnownPaths);
    ProvisionKeys(g, HealthCheckURL, HealthCheckURL);
    ProvisionKeys(g, HealthCheckURL, ReadyCheckURL);
    ProvisionKeys(g1, ReadyCheckURL, HealthCheckURL);
    ProvisionKeys(g1, ReadyCheckURL, ReadyCheckURL);
    r
  }

  /** `r` is `g` with empty groups appended, each at one of `paths`. */
  ghost predicate ExtendsEmpty(g: Registry, r: Registry, paths: set<string>) {
    && |g| <= |r| && r[..|g|] == g
    && (forall i :: |g| <= i < |r| ==> r[i].1 == [] && r[i].0 in paths)
  }

  lemma ExtendsEmptyTrans(a: Registry, b: Registry, c: Registry, paths: set<string>)
    requires ExtendsEmpty(a, b, paths) && ExtendsEmpty(b, c, paths)
    ensures ExtendsEmpty(a, c, paths)
  {
    assert c[..|a|] == c[..|b|][..|a|];
    forall i | |a| <= i < |c| ensures c[i].1 == [] && c[i].0 in paths {
      if i < |b| {
        assert c[i] == c[..|b|][i];
      }
    }
  }

  /** Provisioning keeps the registry and at most appends an empty group at
      the path. */
  lemma ProvisionExtends(g: Registry, url: string, paths: set<string>)
    requires DistinctKeys(g) && url in paths
    ensures DistinctKeys(Provision(g, url)) && ExtendsEmpty(g, Provision(g, url), paths)
  {
    if url !in KeysOf(g) {
      PutNew(g, url, []);
      assert (g + [(url, [])])[..|g|] == g;
    }
  }

  /** Provisioning under a flag, or not at all, extends the same way. */
  lemma MaybeProvisionExtends(g: Registry, url: string, on: bool, paths: set<string>)
    requires DistinctKeys(g) && url in paths
    ensures var r := if on then Provision(g, url) else g;
      DistinctKeys(r) && ExtendsEmpty(g, r, paths)
  {
    if on {
      ProvisionExtends(g, url, paths);
    } else {
      assert g[..|g|] == g;
    }
  }

  /** After provisioning, the paths are the old ones and `url`. */
  lemma ProvisionKeys(g: Registry, url: string, k: string)
    ensures k in KeysOf(Provision(g, url)) <==> k in KeysOf(g) || k == url
  {
    if url !in KeysOf(g) {
      PutNew(g, url, []);
    }
  }

  /** Putting into a provisioned group is putting into the registry, and the
      provisioned group holds what the registry held there. */
  lemma ProvisionThenPut(g: Registry, url: string, m: CheckMap)
    requires DistinctKeys(g)
    ensures Put(Provision(g, url), url, m) == Put(g, url, m)
    ensures GroupAt(Provision(g, url), url) == GroupAt(g, url)
  {
    if url !in KeysOf(g) {
      var p := Provision(g, url);
      assert p == g + [(url, [])];
      assert Find(p, url) == Some(|g|);
      assert Find(g, url) == None;
    }
  }

  /** `ensureWellKnown` only appends empty groups: every group that existed is
      kept, where it was and with the checks it had, and every group it adds
      is empty and at a well-known path. */
  lemma WellKnownOnlyAddsEmpty(g: Registry, noHealth: bool, noReady: bool)
    requires DistinctKeys(g)
    ensures DistinctKeys(WellKnown(g, noHealth, noReady))
    ensures ExtendsEmpty(g, WellKnown(g, noHealth, noReady), WellKnownPaths)
  {
    var g1 := if !noHealth then Provision(g, ReadyCheckURL) else g;
    var r := if !noReady then Provision(g1, HealthCheckURL) else g1;
    MaybeProvisionExtends(g, ReadyCheckURL, !noHealth, WellKnownPaths);
    MaybeProvisionExtends(g1, HealthCheckURL, !noReady, WellKnownPaths);
    ExtendsEmptyTrans(g, g1, r, WellKnownPaths);
  }

  /** The crossing as coded: whether `healthz` is served after
      `ensureWellKnown` depends on `noReady`, and whether `readyz` is served
      depends on `noHealth`. */
  lemma WellKnownCrossed(g: Registry, noHealth: bool, noReady: bool)
    ensures var r := WellKnown(g, noHealth, noReady);
      && (HealthCheckURL in KeysOf(r) <==> HealthCheckURL in KeysOf(g) || !noReady)
      && (ReadyCheckURL in KeysOf(r) <==> ReadyCheckURL in KeysOf(g) || !noHealth)
  {
    var g1 := if !noHealth then Provision(g, ReadyCheckURL) else g;
    ProvisionKeys(g, ReadyCheckURL, HealthCheckURL);
    ProvisionKeys(g, ReadyCheckURL, ReadyCheckURL);
    ProvisionKeys(g1, HealthCheckURL, HealthCheckURL);
    ProvisionKeys(g1, HealthCheckURL, ReadyCheckURL);
  }

  /** `disableHealthCheck()` alone on an empty registry: as written `healthz`
      still gets its (always OK) default group and `readyz` does not; the
      documentation promises the reverse. */
  lemma WellKnownCrossedWitness()
    ensures HealthCheckURL in KeysOf(WellKnown([], true, false))
    ensures ReadyCheckURL !in KeysOf(WellKnown([], true, false))
    ensures HealthCheckURL !in KeysOf(IntendedWellKnown([], true, false))
    ensures ReadyCheckURL in KeysOf(IntendedWellKnown([], true, false))
  {
    WellKnownCrossed([], true, false);
    assert ReadyCheckURL != HealthCheckURL;
  }

  lemma WellKnownPathsAreNormal()
    ensures NormalizeURL(HealthCheckURL) == Ok(HealthCheckURL)
    ensures NormalizeURL(ReadyCheckURL) == Ok(ReadyCheckURL)
  {
    NormalizeURLVariants(0, HealthCheckURL, 0);
    NormalizeURLVariants(0, ReadyCheckURL, 0);
    assert Slashes(0) + HealthCheckURL + Slashes(0) == HealthCheckURL;
    assert Slashes(0) + ReadyCheckURL + Slashes(0) == ReadyCheckURL;
  }

  /** Both well-known paths are keys as registered. */
  lemma WellKnownPathsAreKeys()
    ensures IsNormalPath(HealthCheckURL) && IsNormalPath(ReadyCheckURL)
  {
    assert !IsWhitespace(HealthCheckURL[0]);
    assert !IsWhitespace(ReadyCheckURL[0]);
  }

  /** A builder entry holding a group: the same path, the builder's current
      check map, a valid builder and a normalised path. */
  ghost predicate Holds(c: (string, CheckMapBuilder), g: (string, CheckMap))
    reads c.1
  {
    g == (c.0, c.1.inner) && c.1.Valid() && IsNormalPath(c.0)
  }

  /** The builders `cs` hold the registry `gs`, entry by entry, and no builder
      serves two paths (so adding to one group leaves the others alone). */
  ghost predicate Coherent(cs: Entries<CheckMapBuilder>, gs: Registry, repr: set<object>)
    reads repr
    ensures Coherent(cs, gs, repr) ==> DistinctKeys(gs) && KeysOf(gs) == KeysOf(cs)
  {
    && |gs| == |cs|
    && DistinctKeys(cs)
    && (forall i :: 0 <= i < |cs| ==> cs[i].1 in repr && Holds(cs[i], gs[i]))
    && (forall i, j :: 0 <= i < j < |cs| ==> cs[i].1 != cs[j].1)
  }

  /** Registering a fresh, empty builder under a new normalised path. */
  lemma CoherentAppend(cs: Entries<CheckMapBuilder>, gs: Registry, repr: set<object>,
                       url: string, b: CheckMapBuilder)
    requires Coherent(cs, gs, repr) && b !in repr
    requires b.Valid() && b.inner == [] && IsNormalPath(url) && url !in KeysOf(cs)
    ensures Coherent(cs + [(url, b)], gs + [(url, [])], repr + {b})
  {
    var cs', gs' := cs + [(url, b)], gs + [(url, [])];
    PutNew(cs, url, b);
    forall i | 0 <= i < |cs'| ensures cs'[i].1 in repr + {b} && Holds(cs'[i], gs'[i]) {
      if i < |cs| {
        assert cs'[i] == cs[i] && gs'[i] == gs[i];
      }
    }
    forall i, j | 0 <= i < j < |cs'| ensures cs'[i].1 != cs'[j].1 {
      assert cs'[i] == cs[i];
      if j == |cs| {
        assert cs[i].1 in repr;
      } else {
        assert cs'[j] == cs[j];
      }
    }
  }

  /** `Health.Configuration`: the path-to-group registry and the two disable
      flags, filled in by the configuration calls. */
  class Configuration {
    var checks: Entries<CheckMapBuilder>
    var noHealth: bool
    var noReady: bool

    /** The registry's contents: each path with the check map of its builder. */
    ghost var Groups: Registry
    ghost var Repr: set<object>

    /** The builders hold the registry; `Repr` is the set of builders. */
    ghost predicate Valid()
      reads this`checks, this`Groups, this`Repr, Repr
      ensures Valid() ==> DistinctKeys(Groups) && KeysOf(Groups) == KeysOf(checks)
    {
      this !in Repr && Coherent(checks, Groups, Repr)
    }

    constructor ()
      ensures Valid() && fresh(Repr)
      ensures Groups == [] && !noHealth && !noReady
    {
      checks, noHealth, noReady := [], false, false;
      Groups, Repr := [], {};
    }

    /** The builder stored under `url` holds the registry's group there. */
    lemma BuilderAt(url: string, b: CheckMapBuilder)
      requires Valid() && Get(checks, url) == Some(b)
      ensures b in Repr && b.inner == GroupAt(Groups, url)
      ensures Get(Groups, url) == Some(b.inner)
    {
      var i :| 0 <= i < |checks| && KeysOf(checks)[i] == url;
      assert Get(checks, url) == Some(checks[i].1);
      assert Groups[i].0 == url;
    }

    /** Every group of a valid configuration is itself a map. */
    lemma GroupAtDistinct(url: string)
      requires Valid()
      ensures DistinctKeys(GroupAt(Groups, url))
    {
      match Get(checks, url)
      case None =>
      case Some(b) =>
        var i :| 0 <= i < |checks| && KeysOf(checks)[i] == url;
        assert Get(checks, url) == Some(checks[i].1);
        assert Holds(checks[i], Groups[i]);
        BuilderAt(url, b);
    }

    /** `ensureDisableUnambiguous`: refuses exactly when the group at `url`
        exists and already has a check. */
    function EnsureDisableUnambiguous(url: string): (r: Outcome)
      reads this`checks, this`Groups, this`Repr, Repr
      requires Valid()
      ensures r.Fail? <==> GroupAt(Groups, url) != []
      ensures r.Fail? ==> r.error == AmbiguousDisable
    {
      match Get(checks, url)
      case None => Pass
      case Some(b) =>
        BuilderAt(url, b);
        if b.NotEmpty() then Fail(AmbiguousDisable) else Pass
    }

    /** `disableHealthCheck`: the flag is set first, and stays set even when
        the call then refuses because `healthz` already has checks. Only the
        flag may change: the registry is left as it was. */
    method DisableHealthCheck() returns (r: Outcome)
      requires Valid()
      modifies this`noHealth
      ensures Valid() && noHealth
      ensures r.Fail? <==> GroupAt(Groups, HealthCheckURL) != []
      ensures r.Fail? ==> r.error == AmbiguousDisable
    {
      noHealth := true;
      r := EnsureDisableUnambiguous(HealthCheckURL);
    }

    /** `disableReadyCheck`: as `disableHealthCheck`, for `readyz`. */
    method DisableReadyCheck() returns (r: Outcome)
      requires Valid()
      modifies this`noReady
      ensures Valid() && noReady
      ensures r.Fail? <==> GroupAt(Groups, ReadyCheckURL) != []
      ensures r.Fail? ==> r.error == AmbiguousDisable
    {
      noReady := true;
      r := EnsureDisableUnambiguous(ReadyCheckURL);
    }

    /** `getCheck`: the builder for `url`, created and registered when
        missing. */
    method GetCheck(url: string) returns (b: CheckMapBuilder)
      requires Valid() && IsNormalPath(url)
      modifies this`checks, this`Groups, this`Repr
      ensures Valid() && fresh(Repr - old(Repr))
      ensures Groups == Provision(old(Groups), url)
      ensures Get(checks, url) == Some(b)
    {
      match Get(checks, url)
      case Some(existing) =>
        b := existing;
      case None =>
        b := new CheckMapBuilder();
        CoherentAppend(checks, Groups, Repr, url, b);
        PutNew(checks, url, b);
        PutNew(Groups, url, []);
        checks := checks + [(url, b)];
        Groups := Groups + [(url, [])];
        Repr := Repr + {b};
    }

    /** `customCheck`: refuses a path that is blank once its slashes are
        trimmed, changing nothing; otherwise adds the check to the group at
        the normalised path (created if missing) and touches no other group. */
    method CustomCheck(url: string, name: string, check: Check) returns (r: Outcome)
      requires Valid()
      modifies this`checks, this`Groups, this`Repr, Repr
      ensures Valid() && fresh(Repr - old(Repr))
      ensures r.Fail? <==> IsBlank(TrimSlashes(url))
      ensures r.Fail? ==> r.error == InvalidPath && Groups == old(Groups)
      ensures r.Pass? ==> var key := TrimSlashes(url);
        && Groups == Put(old(Groups), key, Put(GroupAt(old(Groups), key), name, check))
        && Get(GroupAt(Groups, key), name) == Some(check)
        && (forall u :: u != key ==> Get(Groups, u) == Get(old(Groups), u))
    {
      match NormalizeURL(url)
      case Err(e) =>
        r := Fail(e);
      case Ok(key) =>
        GroupAtDistinct(key);
        ghost var before := Groups;
        AddToGroup(key, name, check);
        assert GroupAt(Groups, key) == Put(GroupAt(before, key), name, check);
        r := Pass;
    }

    /** `getCheck(key).add(name, check)` for a normalised key. */
    method AddToGroup(key: string, name: string, check: Check)
      requires Valid() && IsNormalPath(key)
      modifies this`checks, this`Groups, this`Repr, Repr
      ensures Valid() && fresh(Repr - old(Repr))
      ensures Groups == Put(old(Groups), key, Put(GroupAt(old(Groups), key), name, check))
    {
      ghost var before := Groups;
      var b := GetCheck(key);
      BuilderAt(key, b);
      ghost var j := Find(checks, key).value;
      ghost var mid := Groups;
      AddAt(j, b, name, check);
      PutAt(mid, j, key, Put(mid[j].1, name, check));
      ProvisionThenPut(before, key, Put(mid[j].1, name, check));
    }

    /** `add` on the builder of entry `j`: that group gains the check, the
        others keep theirs. */
    method AddAt(ghost j: nat, b: CheckMapBuilder, name: string, check: Check)
      requires Valid() && j < |checks| && checks[j].1 == b
      modifies b, this`Groups
      ensures Valid() && Repr == old(Repr) && checks == old(checks)
      ensures Groups == old(Groups)[j := (checks[j].0, Put(old(Groups)[j].1, name, check))]
    {
      b.Add(name, check);
      Groups := Groups[j := (checks[j].0, b.inner)];
      forall i | 0 <= i < |checks| ensures checks[i].1 in Repr && Holds(checks[i], Groups[i]) {
        if i != j {
          assert old(Holds(checks[i], Groups[i]));
          assert checks[i].1 != b by {
            if i < j { assert old(checks[i].1 != checks[j].1); }
            else { assert old(checks[j].1 != checks[i].1); }
          }
        }
      }
    }

    /** `healthCheck(name, check)`: exactly `customCheck("healthz", ...)`,
        which never refuses. */
    method HealthCheck(name: string, check: Check) returns (r: Outcome)
      requires Valid()
      modifies this`checks, this`Groups, this`Repr, Repr
      ensures Valid() && fresh(Repr - old(Repr))
      ensures r == Pass
      ensures Groups == Put(old(Groups), HealthCheckURL,
                            Put(GroupAt(old(Groups), HealthCheckURL), name, check))
    {
      WellKnownPathsAreNormal();
      r := CustomCheck(HealthCheckURL, name, check);
    }

    /** `readyCheck(name, check)`: exactly `customCheck("readyz", ...)`. */
    method ReadyCheck(name: string, check: Check) returns (r: Outcome)
      requires Valid()
      modifies this`checks, this`Groups, this`Repr, Repr
      ensures Valid() && fresh(Repr - old(Repr))
      ensures r == Pass
      ensures Groups == Put(old(Groups), ReadyCheckURL,
                            Put(GroupAt(old(Groups), ReadyCheckURL), name, check))
    {
      WellKnownPathsAreNormal();
      r := CustomCheck(ReadyCheckURL, name, check);
    }

    /** `ensureWellKnown`, as written (see WellKnownCrossed). */
    method EnsureWellKnown()
      requires Valid()
      modifies this`checks, this`Groups, this`Repr
      ensures Valid() && fresh(Repr - old(Repr))
      ensures Groups == WellKnown(old(Groups), noHealth, noReady)
    {
      WellKnownPathsAreKeys();
      ProvisionIf(!noHealth, ReadyCheckURL);
      ProvisionIf(!noReady, HealthCheckURL);
    }

    /** `ensureWellKnown` with each flag guarding its own path, as the
        documentation of the two disable calls describes. */
    method EnsureWellKnownIntended()
      requires Valid()
      modifies this`checks, this`Groups, this`Repr
      ensures Valid() && fresh(Repr - old(Repr))
      ensures Groups == IntendedWellKnown(old(Groups), noHealth, noReady)
    {
      WellKnownPathsAreKeys();
      ProvisionIf(!noHealth, HealthCheckURL);
      ProvisionIf(!noReady, ReadyCheckURL);
    }

    /** One guarded `getCheck` of `ensureWellKnown`. */
    method ProvisionIf(on: bool, url: string)
      requires Valid() && IsNormalPath(url)
      modifies this`checks, this`Groups, this`Repr
      ensures Valid() && fresh(Repr - old(Repr))
      ensures Groups == if on then Provision(old(Groups), url) else old(Groups)
    {
      if on {
        var _ := GetCheck(url);
      }
    }

    /** `getChecksWithFunctions`: every path with the evaluation of its group
        as it stands now. */
    function GetChecksWithFunctions(): (r: Entries<Evaluator>)
      reads this`checks, this`Groups, this`Repr, Repr
      requires Valid()
      ensures KeysOf(r) == KeysOf(Groups)
      ensures DistinctKeys(r)
      ensures forall i :: 0 <= i < |r| ==> r[i].1() == RunAll(Groups[i].1)
    {
      var r := EvaluatorsOf(checks);
      assert KeysOf(r) == KeysOf(checks);
      r
    }

    function EvaluatorsOf(cs: Entries<CheckMapBuilder>): (r: Entries<Evaluator>)
      reads this`Repr, Repr
      requires forall i :: 0 <= i < |cs| ==> cs[i].1 in Repr
      ensures |r| == |cs|
      ensures forall i :: 0 <= i < |cs| ==> r[i].0 == cs[i].0 && r[i].1() == RunAll(cs[i].1.inner)
    {
      if cs == [] then []
      else [(cs[0].0, cs[0].1.ToFunction())] + EvaluatorsOf(cs[1..])
    }
  }

  /** The decision the installed interceptor makes for each request. */
  datatype Interceptor =
    | NoInterceptor
    | Installed(checks: Entries<Evaluator>, minLen: nat, maxLen: nat)

  /** The shortest of the keys (`lengths.min()`). */
  function MinLength(keys: seq<string>): (n: nat)
    requires keys != []
    ensures forall i :: 0 <= i < |keys| ==> n <= |keys[i]|
    ensures exists i :: 0 <= i < |keys| && n == |keys[i]|
  {
    if |keys| == 1 then |keys[0]|
    else
      var m := MinLength(keys[1..]);
      if |keys[0]| <= m then |keys[0]| else m
  }

  /** The longest of the keys (`lengths.max()`). */
  function MaxLength(keys: seq<string>): (n: nat)
    requires keys != []
    ensures forall i :: 0 <= i < |keys| ==> |keys[i]| <= n
    ensures exists i :: 0 <= i < |keys| && n == |keys[i]|
  {
    if |keys| == 1 then |keys[0]|
    else
      var m := MaxLength(keys[1..]);
      if |keys[0]| >= m then |keys[0]| else m
  }

  /** An interceptor as `addInterceptor` builds it: its bounds are those of
      its keys. */
  predicate WellFormed(i: Interceptor) {
    i.Installed? ==>
      && |i.checks| > 0
      && DistinctKeys(i.checks)
      && i.minLen == MinLength(KeysOf(i.checks))
      && i.maxLen == MaxLength(KeysOf(i.checks))
  }

  /** Which group, if any, handles a request: the path is trimmed of slashes,
      dropped when its length is outside the bounds, then looked up exactly. */
  function Route(i: Interceptor, requestPath: string): (r: Option<string>)
    ensures r.Some? ==> i.Installed? && r.value == TrimSlashes(requestPath)
    ensures r.Some? ==> r.value in KeysOf(i.checks)
  {
    match i
    case NoInterceptor => None
    case Installed(checks, minL, maxL) =>
      var path := TrimSlashes(requestPath);
      if |path| > maxL || |path| < minL then None
      else if Get(checks, path).None? then None
      else Some(path)
  }

  /** The length filter never turns away a registered path: a request is
      handled exactly when its trimmed path is a key. */
  lemma {:induction false} RouteExact(i: Interceptor, requestPath: string)
    requires WellFormed(i)
    ensures Route(i, requestPath).Some? <==>
      i.Installed? && TrimSlashes(requestPath) in KeysOf(i.checks)
  {
    var r, path := Route(i, requestPath), TrimSlashes(requestPath);
    if i.Installed? && path in KeysOf(i.checks) {
      WithinBounds(KeysOf(i.checks), path);
      assert Get(i.checks, path).Some?;
      assert r == Some(path);
    }
  }

  /** Every key lies within the bounds of the key lengths. */
  lemma WithinBounds(keys: seq<string>, k: string)
    requires k in keys
    ensures MinLength(keys) <= |k| <= MaxLength(keys)
  {
    var j :| 0 <= j < |keys| && keys[j] == k;
  }

  /** What the interceptor sends back for a handled request. */
  datatype Response = Response(status: Handle.HttpStatus, body: string)

  /** The interceptor body: pass the request through, or evaluate the
      matching group and respond with its status and JSON. */
  method Intercept(i: Interceptor, requestPath: string) returns (resp: Option<Response>)
    ensures resp.None? <==> Route(i, requestPath).None?
    ensures resp.Some? ==>
      var res := Get(i.checks, TrimSlashes(requestPath)).value();
      && (resp.value.status == Handle.OK <==> forall j :: 0 <= j < |res| ==> res[j].1)
      && (resp.value.status == Handle.InternalServerError <==> exists j :: 0 <= j < |res| && !res[j].1)
      && resp.value.body == Handle.Json(res)
  {
    match Route(i, requestPath)
    case None =>
      resp := None;
    case Some(key) =>
      var check := Get(i.checks, key).value;
      var status, json := Handle.HealthCheck(check);
      resp := Some(Response(status, json));
  }

  /** `Health`: the plugin instance holding the finished configuration. */
  class Health {
    const cfg: Configuration

    constructor (cfg: Configuration)
      ensures this.cfg == cfg
    {
      this.cfg := cfg;
    }

    /** `addInterceptor`: nothing is installed when there are no groups;
        otherwise an interceptor over every group's evaluation, bounded by
        the shortest and the longest path. */
    method AddInterceptor() returns (i: Interceptor)
      requires cfg.Valid()
      ensures WellFormed(i)
      ensures i.NoInterceptor? <==> cfg.Groups == []
      ensures i.Installed? ==> KeysOf(i.checks) == KeysOf(cfg.Groups)
      ensures i.Installed? ==> forall j :: 0 <= j < |i.checks| ==> i.checks[j].1() == RunAll(cfg.Groups[j].1)
    {
      var checks := cfg.GetChecksWithFunctions();
      if |checks| == 0 {
        return NoInterceptor;
      }
      var keys := KeysOf(checks);
      i := Installed(checks, MinLength(keys), MaxLength(keys));
    }
  }
}
