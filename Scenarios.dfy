/** Whole installations: configure, provision the well-known paths, install
    the interceptor, then answer requests. */
module Scenarios {
  import opened Wrappers
  import opened OrderedMaps
  import opened CheckMaps
  import opened Paths
  import Handle
  import P = Health

  /** The request paths used below: `/healthz`, `/readyz/`, `/readyz` and
      `/unrelated`. */
  const HealthzPath: string := "/" + P.HealthCheckURL
  const ReadyzSlashPath: string := "/" + P.ReadyCheckURL + "/"
  const ReadyzPath: string := "/" + P.ReadyCheckURL
  const OtherKey: string := "unrelated"
  const OtherPath: string := "/" + OtherKey

  lemma OneSlash()
    ensures Slashes(0) == "" && Slashes(1) == "/"
  {
    assert Slashes(1)[0] == '/';
  }

  /** A request for `/key` is trimmed to `key`. */
  lemma LeadingSlash(key: string)
    requires IsNormalPath(key)
    ensures TrimSlashes("/" + key) == key
  {
    OneSlash();
    assert Slashes(1) + key + Slashes(0) == "/" + key;
    TrimSlashesOf(1, key, 0);
  }

  /** A request for `/key/` is trimmed to `key`. */
  lemma BothSlashes(key: string)
    requires IsNormalPath(key)
    ensures TrimSlashes("/" + key + "/") == key
  {
    OneSlash();
    assert Slashes(1) + key + Slashes(1) == "/" + key + "/";
    TrimSlashesOf(1, key, 1);
  }

  /** A path with a visible first character and no boundary slash. */
  lemma NormalName(key: string)
    requires key != [] && key[0] != '/' && key[|key| - 1] != '/'
    requires 'a' <= key[0] <= 'z'
    ensures IsNormalPath(key)
  {
    assert !IsWhitespace(key[0]);
  }

  lemma TrimHealth()
    ensures TrimSlashes(HealthzPath) == P.HealthCheckURL
  {
    NormalName(P.HealthCheckURL);
    LeadingSlash(P.HealthCheckURL);
  }

  lemma TrimReady()
    ensures TrimSlashes(ReadyzSlashPath) == P.ReadyCheckURL
  {
    NormalName(P.ReadyCheckURL);
    BothSlashes(P.ReadyCheckURL);
  }

  lemma TrimOther()
    ensures TrimSlashes(OtherPath) == OtherKey
  {
    NormalName(OtherKey);
    LeadingSlash(OtherKey);
  }

  /** The body for a single result. */
  lemma JsonOne(k: string, v: bool)
    ensures Handle.Json([(k, v)]) == "{\"" + k + "\":" + Handle.BoolText(v) + "}"
  {
    var res: Results := [(k, v)];
    assert res[..0] == [];
    assert Handle.Members(res) == "\"" + Handle.EntryText(k, v);
  }

  /** The registry after `healthCheck("db", up)` on a fresh configuration. */
  lemma AfterHealthCheck(up: Check)
    ensures Put([], P.HealthCheckURL, Put(P.GroupAt([], P.HealthCheckURL), "db", up))
         == [(P.HealthCheckURL, [("db", up)])]
  {
    assert P.GroupAt([], P.HealthCheckURL) == [];
    var e: CheckMap := [];
    PutNew(e, "db", up);
    assert Put(e, "db", up) == [("db", up)];
    var r: P.Registry := [];
    PutNew(r, P.HealthCheckURL, [("db", up)]);
    assert Put(r, P.HealthCheckURL, [("db", up)]) == [(P.HealthCheckURL, [("db", up)])];
  }

  /** The registry after a further `readyCheck("cache", down)`. */
  lemma AfterReadyCheck(g: P.Registry, down: Check)
    requires |g| == 1 && g[0].0 == P.HealthCheckURL
    ensures Put(g, P.ReadyCheckURL, Put(P.GroupAt(g, P.ReadyCheckURL), "cache", down))
         == g + [(P.ReadyCheckURL, [("cache", down)])]
  {
    assert KeysOf(g) == [P.HealthCheckURL];
    assert P.ReadyCheckURL !in KeysOf(g);
    assert P.GroupAt(g, P.ReadyCheckURL) == [];
    var e: CheckMap := [];
    PutNew(e, "cache", down);
    assert P.GroupAt(g, P.ReadyCheckURL) == e;
    assert Put(e, "cache", down) == [("cache", down)];
    PutNew(g, P.ReadyCheckURL, [("cache", down)]);
  }

  /** A registry holding both well-known paths is left as it is. */
  lemma WellKnownPresent(g: P.Registry)
    requires |g| == 2 && g[0].0 == P.HealthCheckURL && g[1].0 == P.ReadyCheckURL
    ensures P.WellKnown(g, false, false) == g
  {
    assert KeysOf(g) == [P.HealthCheckURL, P.ReadyCheckURL];
  }

  /** The response to a request whose trimmed path is the `j`-th key. */
  lemma Answer(i: P.Interceptor, request: string, j: nat)
    requires P.WellFormed(i) && i.Installed? && j < |i.checks|
    requires TrimSlashes(request) == i.checks[j].0
    ensures P.Route(i, request) == Some(i.checks[j].0)
    ensures Get(i.checks, i.checks[j].0) == Some(i.checks[j].1)
  {
    P.RouteExact(i, request);
    assert KeysOf(i.checks)[j] == i.checks[j].0;
  }

  /** The configuration block of the installation below, followed by
      `ensureWellKnown`, which finds both paths present. */
  method ConfigureOneEach(up: Check, down: Check) returns (cfg: P.Configuration)
    ensures fresh(cfg) && cfg.Valid()
    ensures cfg.Groups == [(P.HealthCheckURL, [("db", up)]), (P.ReadyCheckURL, [("cache", down)])]
  {
    cfg := RegisterOneEach(up, down);
    WellKnownPresent(cfg.Groups);
    cfg.EnsureWellKnown();
  }

  /** `healthCheck("db", up)` then `readyCheck("cache", down)` on a fresh
      configuration: one group per path, in that order. */
  method RegisterOneEach(up: Check, down: Check) returns (cfg: P.Configuration)
    ensures fresh(cfg) && cfg.Valid() && !cfg.noHealth && !cfg.noReady
    ensures cfg.Groups == [(P.HealthCheckURL, [("db", up)]), (P.ReadyCheckURL, [("cache", down)])]
  {
    cfg := RegisterHealth(up);
    var _ := cfg.ReadyCheck("cache", down);
    AfterReadyCheck([(P.HealthCheckURL, [("db", up)])], down);
  }

  /** `healthCheck("db", up)` on a fresh configuration. */
  method RegisterHealth(up: Check) returns (cfg: P.Configuration)
    ensures fresh(cfg) && fresh(cfg.Repr) && cfg.Valid() && !cfg.noHealth && !cfg.noReady
    ensures cfg.Groups == [(P.HealthCheckURL, [("db", up)])]
  {
    cfg := new P.Configuration();
    var _ := cfg.HealthCheck("db", up);
    AfterHealthCheck(up);
  }

  /** One liveness check that succeeds and one readiness check that fails:
      `/healthz` answers OK with `{"db":true}`, `/readyz/` answers with a
      server error and `{"cache":false}`, any other path passes through. */
  method OneCheckEach() returns (health: Option<P.Response>, ready: Option<P.Response>,
                                 other: Option<P.Response>)
    ensures health == Some(P.Response(Handle.OK, "{\"db\":true}"))
    ensures ready == Some(P.Response(Handle.InternalServerError, "{\"cache\":false}"))
    ensures other == None
  {
    var i := InstallOneEach();
    health, ready, other := Serve(i);
  }

  /** The installation itself: the interceptor serves the two groups, in
      registration order, and evaluating them gives the two results. */
  method InstallOneEach() returns (i: P.Interceptor)
    ensures P.WellFormed(i) && i.Installed?
    ensures KeysOf(i.checks) == [P.HealthCheckURL, P.ReadyCheckURL]
    ensures i.checks[0].1() == [("db", true)] && i.checks[1].1() == [("cache", false)]
  {
    var up: Check := () => true;
    var down: Check := () => false;
    var cfg := ConfigureOneEach(up, down);
    var plugin := new P.Health(cfg);
    i := plugin.AddInterceptor();
    RunOne("db", up);
    RunOne("cache", down);
  }

  /** The three requests against the interceptor of that installation. */
  method Serve(i: P.Interceptor) returns (health: Option<P.Response>, ready: Option<P.Response>,
                                          other: Option<P.Response>)
    requires P.WellFormed(i) && i.Installed?
    requires KeysOf(i.checks) == [P.HealthCheckURL, P.ReadyCheckURL]
    requires i.checks[0].1() == [("db", true)] && i.checks[1].1() == [("cache", false)]
    ensures health == Some(P.Response(Handle.OK, "{\"db\":true}"))
    ensures ready == Some(P.Response(Handle.InternalServerError, "{\"cache\":false}"))
    ensures other == None
  {
    health := ServeHealth(i);
    ready := ServeReady(i);
    OtherRequest(i);
    other := P.Intercept(i, OtherPath);
  }

  method ServeHealth(i: P.Interceptor) returns (resp: Option<P.Response>)
    requires P.WellFormed(i) && i.Installed? && |i.checks| == 2
    requires i.checks[0].0 == P.HealthCheckURL && i.checks[0].1() == [("db", true)]
    ensures resp == Some(P.Response(Handle.OK, "{\"db\":true}"))
  {
    HealthRequest(i);
    Bodies();
    resp := P.Intercept(i, HealthzPath);
  }

  method ServeReady(i: P.Interceptor) returns (resp: Option<P.Response>)
    requires P.WellFormed(i) && i.Installed? && |i.checks| == 2
    requires i.checks[1].0 == P.ReadyCheckURL && i.checks[1].1() == [("cache", false)]
    ensures resp == Some(P.Response(Handle.InternalServerError, "{\"cache\":false}"))
  {
    ReadyRequest(i);
    Bodies();
    resp := P.Intercept(i, ReadyzSlashPath);
    ghost var res := i.checks[1].1();
    assert 0 < |res| && !res[0].1;
  }

  /** The two bodies of the installation below. */
  lemma Bodies()
    ensures Handle.Json([("db", true)]) == "{\"db\":true}"
    ensures Handle.Json([("cache", false)]) == "{\"cache\":false}"
  {
    JsonOne("db", true);
    JsonOne("cache", false);
  }

  /** Running a group of one check. */
  lemma RunOne(k: string, c: Check)
    ensures RunAll([(k, c)]) == [(k, c())]
  {
    var r := RunAll([(k, c)]);
    assert |r| == 1 && r[0] == (k, c());
  }

  /** `/healthz` is routed to the first group. */
  lemma HealthRequest(i: P.Interceptor)
    requires P.WellFormed(i) && i.Installed? && |i.checks| == 2
    requires i.checks[0].0 == P.HealthCheckURL
    ensures P.Route(i, HealthzPath) == Some(P.HealthCheckURL)
    ensures TrimSlashes(HealthzPath) == P.HealthCheckURL
    ensures Get(i.checks, P.HealthCheckURL) == Some(i.checks[0].1)
  {
    TrimHealth();
    Answer(i, HealthzPath, 0);
  }

  /** `/readyz/` is routed to the second group. */
  lemma ReadyRequest(i: P.Interceptor)
    requires P.WellFormed(i) && i.Installed? && |i.checks| == 2
    requires i.checks[1].0 == P.ReadyCheckURL
    ensures P.Route(i, ReadyzSlashPath) == Some(P.ReadyCheckURL)
    ensures TrimSlashes(ReadyzSlashPath) == P.ReadyCheckURL
    ensures Get(i.checks, P.ReadyCheckURL) == Some(i.checks[1].1)
  {
    TrimReady();
    Answer(i, ReadyzSlashPath, 1);
  }

  /** `/unrelated` names no group and passes through. */
  lemma OtherRequest(i: P.Interceptor)
    requires P.WellFormed(i)
    requires i.Installed? ==> KeysOf(i.checks) == [P.HealthCheckURL, P.ReadyCheckURL]
    ensures P.Route(i, OtherPath) == None
  {
    TrimOther();
    P.RouteExact(i, OtherPath);
  }

  /** Both defaults switched off and nothing registered: there is no group,
      so no interceptor is installed. */
  method DisableBoth() returns (r1: Outcome, r2: Outcome, i: P.Interceptor)
    ensures r1 == Pass && r2 == Pass
    ensures i == P.NoInterceptor
  {
    var cfg;
    cfg, r1, r2 := DisableOnFresh();
    cfg.EnsureWellKnown();
    assert cfg.Groups == [];
    var plugin := new P.Health(cfg);
    i := plugin.AddInterceptor();
  }

  /** Both disables on a fresh configuration: accepted, nothing registered. */
  method DisableOnFresh() returns (cfg: P.Configuration, r1: Outcome, r2: Outcome)
    ensures fresh(cfg) && cfg.Valid() && cfg.Groups == []
    ensures cfg.noHealth && cfg.noReady
    ensures r1 == Pass && r2 == Pass
  {
    cfg := new P.Configuration();
    r1 := cfg.DisableHealthCheck();
    assert cfg.Groups == [];
    r2 := cfg.DisableReadyCheck();
  }

  /** `disableHealthCheck()` alone, as written: `/healthz` is still answered
      with OK and an empty body, and `/readyz` is not answered. */
  method DisableHealthOnly() returns (r: Outcome, health: Option<P.Response>,
                                      ready: Option<P.Response>)
    ensures r == Pass
    ensures health == Some(P.Response(Handle.OK, "{}"))
    ensures ready == None
  {
    var i;
    r, i := InstallHealthOnly();
    health := ServeEmptyHealth(i);
    OnlyHealthRequest(i);
    ready := P.Intercept(i, ReadyzPath);
  }

  /** The installation: only the (empty) `healthz` group is served. */
  method InstallHealthOnly() returns (r: Outcome, i: P.Interceptor)
    ensures r == Pass
    ensures P.WellFormed(i) && i.Installed? && |i.checks| == 1
    ensures KeysOf(i.checks) == [P.HealthCheckURL] && i.checks[0].1() == []
  {
    var cfg := new P.Configuration();
    r := cfg.DisableHealthCheck();
    assert cfg.Groups == [] && cfg.noHealth && !cfg.noReady;
    cfg.EnsureWellKnown();
    OnlyHealthProvisioned();
    assert cfg.Groups == [(P.HealthCheckURL, [])];
    var plugin := new P.Health(cfg);
    i := plugin.AddInterceptor();
  }

  lemma OnlyHealthProvisioned()
    ensures P.WellKnown([], true, false) == [(P.HealthCheckURL, [])]
  {
    var e: P.Registry := [];
    PutNew(e, P.HealthCheckURL, []);
  }

  method ServeEmptyHealth(i: P.Interceptor) returns (resp: Option<P.Response>)
    requires P.WellFormed(i) && i.Installed? && |i.checks| == 1
    requires i.checks[0].0 == P.HealthCheckURL && i.checks[0].1() == []
    ensures resp == Some(P.Response(Handle.OK, "{}"))
  {
    TrimHealth();
    Answer(i, HealthzPath, 0);
    resp := P.Intercept(i, HealthzPath);
  }

  /** `/readyz` is not a key when only `healthz` is registered. */
  lemma OnlyHealthRequest(i: P.Interceptor)
    requires P.WellFormed(i)
    requires i.Installed? ==> KeysOf(i.checks) == [P.HealthCheckURL]
    ensures P.Route(i, ReadyzPath) == None
  {
    NormalName(P.ReadyCheckURL);
    LeadingSlash(P.ReadyCheckURL);
    P.RouteExact(i, ReadyzPath);
  }

  /** Disabling a default that already has a check refuses, after the flag
      has been set; a path of slashes only is refused and registers
      nothing. */
  method Refusals() returns (cfg: P.Configuration, disable: Outcome, slashes: Outcome)
    ensures disable == Fail(AmbiguousDisable) && cfg.noHealth
    ensures slashes == Fail(InvalidPath)
    ensures cfg.Groups == [(P.HealthCheckURL, [("db", (() => true))])]
  {
    var up: Check := () => true;
    cfg := RegisterHealth(up);
    ghost var g := cfg.Groups;
    assert P.GroupAt(g, P.HealthCheckURL) == [("db", up)];
    disable := cfg.DisableHealthCheck();
    assert AllSlashes("///");
    TrimSlashesEmpty("///");
    assert IsBlank(TrimSlashes("///"));
    slashes := cfg.CustomCheck("///", "x", up);
    assert cfg.Groups == g;
  }
}
