/**
 * The decisions inside the HTTP handlers of internal/api/handler.go: the auth
 * cookie gate, the login that sets the token on first use, the defaults applied
 * to monitors on add and update, and RestoreMonitor's guards and fallbacks. The
 * JSON binding and responses of the web framework are reduced to status codes.
 */
module Api {
  import opened Wrappers
  import opened Seqs
  import opened Config
  import opened ConfigStore
  import opened MonitorEngine
  import opened OfflineHot

  // ---------------------------------------------------------------------------
  // Authentication
  // ---------------------------------------------------------------------------

  /** What AuthMiddleware does with a request: let it through or answer 401. */
  datatype Gate = Pass | Unauthorized

  /**
   * AuthMiddleware, given the stored token and the auth_token cookie (None when the
   * request has none): without a stored token everything passes; otherwise only a
   * cookie equal to the stored token does.
   */
  function AuthGate(stored: string, cookie: Option<string>): (g: Gate)
    ensures g == Pass <==> stored == "" || cookie == Some(stored)
  {
    if stored == "" then Pass
    else if cookie.None? || cookie.value == "" then Unauthorized
    else if cookie.value != stored then Unauthorized
    else Pass
  }

  /** The data part of CheckAuth's answer. */
  datatype AuthState = AuthState(authenticated: bool, needSetup: bool)

  /** CheckAuth reports exactly what the middleware would decide, and whether a token still has to be set. */
  function CheckAuth(stored: string, cookie: Option<string>): (r: AuthState)
    ensures r.needSetup <==> stored == ""
    ensures r.authenticated <==> AuthGate(stored, cookie) == Pass
  {
    if stored == "" then AuthState(true, true)
    else if cookie.None? || cookie.value == "" then AuthState(false, false)
    else AuthState(cookie.value == stored, false)
  }

  /** Login's status code, the token stored afterwards, and the cookie it sets. */
  datatype LoginResult = LoginResult(code: int, stored: string, cookie: Option<string>)

  /**
   * Login with the request's token (None when the body has no token): a missing or
   * empty token is a 400; without a stored token the submitted one is stored; with
   * one, a different token is a 401. On success the cookie carries the token.
   */
  function Login(stored: string, token: Option<string>): (r: LoginResult)
    ensures r.code == 400 <==> token.None? || token.value == ""
    ensures r.code == 200 <==> token.Some? && token.value != "" && (stored == "" || token.value == stored)
    ensures r.code == 200 || r.code == 400 || r.code == 401
    ensures r.code == 200 ==> r.cookie == token && r.stored == token.value
    ensures r.code != 200 ==> r.cookie.None? && r.stored == stored
  {
    if token.None? || token.value == "" then LoginResult(400, stored, None)
    else if stored == "" then LoginResult(200, token.value, token)
    else if token.value != stored then LoginResult(401, stored, None)
    else LoginResult(200, stored, token)
  }

  /** A successful login hands out a cookie the middleware accepts. */
  lemma LoginGrantsAccess(stored: string, token: Option<string>)
    requires Login(stored, token).code == 200
    ensures AuthGate(Login(stored, token).stored, Login(stored, token).cookie) == Pass
    ensures !CheckAuth(Login(stored, token).stored, Login(stored, token).cookie).needSetup
  {
  }

  /** Once a token is stored, no login replaces it, and any other cookie is refused. */
  lemma StoredTokenIsFinal(stored: string, token: Option<string>, other: string)
    requires stored != "" && other != stored
    ensures Login(stored, token).stored == stored
    ensures AuthGate(Login(stored, token).stored, Some(other)) == Unauthorized
  {
  }

  // ---------------------------------------------------------------------------
  // AddMonitor / UpdateMonitor / DeleteMonitor
  // ---------------------------------------------------------------------------

  /** An empty check type becomes "ping". */
  function DefaultCheckType(checkType: string): (t: string)
    ensures t != ""
    ensures checkType != "" ==> t == checkType
    ensures checkType == "" ==> t == "ping"
  {
    if checkType == "" then "ping" else checkType
  }

  /** AddMonitor's defaults: an empty id becomes `freshId` (the handler's clock reading), an empty check type "ping". */
  function AddDefaults(m: MonitorConfig, freshId: string): (r: MonitorConfig)
    ensures m.id != "" ==> r.id == m.id
    ensures m.id == "" ==> r.id == freshId
    ensures m.checkType != "" ==> r.checkType == m.checkType
    ensures m.checkType == "" ==> r.checkType == "ping"
    ensures r == m.(id := r.id, checkType := r.checkType)
  {
    m.(id := if m.id == "" then freshId else m.id, checkType := DefaultCheckType(m.checkType))
  }

  /** UpdateMonitor's defaults: the id is always the one in the path, an empty check type becomes "ping". */
  function UpdateDefaults(m: MonitorConfig, pathId: string): (r: MonitorConfig)
    ensures r.id == pathId
    ensures m.checkType != "" ==> r.checkType == m.checkType
    ensures m.checkType == "" ==> r.checkType == "ping"
    ensures r == m.(id := r.id, checkType := r.checkType)
  {
    m.(id := pathId, checkType := DefaultCheckType(m.checkType))
  }

  /**
   * The "ping" default keeps the probe `check` runs (an empty check type already
   * probes by ping) but switches the backup watchdog on, which an empty check type
   * never runs.
   */
  lemma PingDefaultEnablesWatchdog(m: MonitorConfig, freshId: string, h: Health)
    requires m.checkType == ""
    ensures ProbeFor(AddDefaults(m, freshId).checkType) == ProbeFor(m.checkType) == PingProbe
    ensures !BackupWatched(m, h)
    ensures BackupWatched(AddDefaults(m, freshId), h) <==> h.status == Down && m.backupIP != ""
  {
  }

  /** The handler of POST /monitors: store the defaulted monitor, then (re)start it. */
  method AddMonitor(store: Store, engine: Engine, m: MonitorConfig, freshId: string)
    requires engine.Valid()
    modifies store, engine
    ensures engine.Valid()
    ensures var cfg := AddDefaults(m, freshId);
      && store.data == old(store.data).(monitors := UpsertedMonitors(old(store.data.monitors), cfg))
      && cfg.id in engine.monitors && fresh(engine.monitors[cfg.id])
      && engine.monitors[cfg.id].config == cfg && engine.monitors[cfg.id].State() == Fresh(cfg)
      && engine.monitors.Keys == old(engine.monitors.Keys) + {cfg.id}
      && (forall id :: id in old(engine.monitors) && id != cfg.id ==> engine.monitors[id] == old(engine.monitors[id]))
      && engine.scheduleLoops ==
           if cfg.scheduleEnabled && cfg.scheduleHours > 0 then old(engine.scheduleLoops) + {cfg.id}
           else old(engine.scheduleLoops) - {cfg.id}
    ensures engine.events == old(engine.events)
  {
    var cfg := m;
    if cfg.id == "" {
      cfg := cfg.(id := freshId);
    }
    if cfg.checkType == "" {
      cfg := cfg.(checkType := "ping");
    }
    store.UpsertMonitor(cfg);
    engine.StartMonitor(cfg);
  }

  /** The handler of PUT /monitors/:id. */
  method UpdateMonitor(store: Store, engine: Engine, pathId: string, m: MonitorConfig)
    requires engine.Valid()
    modifies store, engine
    ensures engine.Valid()
    ensures var cfg := UpdateDefaults(m, pathId);
      && store.data == old(store.data).(monitors := UpsertedMonitors(old(store.data.monitors), cfg))
      && pathId in engine.monitors && fresh(engine.monitors[pathId])
      && engine.monitors[pathId].config == cfg && engine.monitors[pathId].State() == Fresh(cfg)
      && engine.monitors.Keys == old(engine.monitors.Keys) + {pathId}
      && (forall id :: id in old(engine.monitors) && id != pathId ==> engine.monitors[id] == old(engine.monitors[id]))
      && engine.scheduleLoops ==
           if cfg.scheduleEnabled && cfg.scheduleHours > 0 then old(engine.scheduleLoops) + {pathId}
           else old(engine.scheduleLoops) - {pathId}
    ensures engine.events == old(engine.events)
  {
    var cfg := m.(id := pathId);
    if cfg.checkType == "" {
      cfg := cfg.(checkType := "ping");
    }
    store.UpsertMonitor(cfg);
    engine.StartMonitor(cfg);
  }

  /** The handler of DELETE /monitors/:id: remove from the store, then stop the loops. */
  method DeleteMonitor(store: Store, engine: Engine, id: string)
    requires engine.Valid()
    modifies store, engine
    ensures engine.Valid()
    ensures store.data == old(store.data).(monitors := MonitorsWithout(old(store.data.monitors), id))
    ensures engine.monitors == old(engine.monitors) - {id}
    ensures engine.scheduleLoops == old(engine.scheduleLoops) - {id}
    ensures engine.events == old(engine.events)
  {
    store.DeleteMonitor(id);
    engine.StopMonitor(id);
  }

  // ---------------------------------------------------------------------------
  // RestoreMonitor
  // ---------------------------------------------------------------------------

  /** One DNS update RestoreMonitor asks Cloudflare for. */
  datatype DnsUpdate = DnsUpdate(zoneId: string, subdomain: string, ip: string, proxied: bool)

  /** getDNSService's check: an API token, or an API key together with an e-mail. */
  predicate CredentialsUsable(c: CloudflareConfig): (ok: bool)
    ensures c.apiToken != "" ==> ok
    // without a token, the client built from the key needs the e-mail as well
    ensures ok && c.apiToken == "" ==> c.apiKey != "" && c.email != ""
    ensures c.apiToken == "" && (c.apiKey == "" || c.email == "") ==> !ok
  {
    c.apiToken != "" || (c.apiKey != "" && c.email != "")
  }

  /**
   * The early answers of RestoreMonitor, before ForceRestore: a body that is not
   * JSON (None) is a 400, an unknown monitor a 404, a monitor without zone a 400.
   */
  function RestoreRejection(body: Option<Option<bool>>, found: Option<MonitorConfig>): (r: Option<int>)
    ensures r.None? <==> body.Some? && found.Some? && found.value.zoneId != ""
    ensures r.Some? ==> r.value == 400 || r.value == 404
    ensures r == Some(404) <==> body.Some? && found.None?
  {
    if body.None? then Some(400)
    else if found.None? then Some(404)
    else if found.value.zoneId == "" then Some(400)
    else None
  }

  /** The proxied flag: the request's when it gives one, else the original IP's CDN setting. */
  function RestoreProxied(cfg: MonitorConfig, requested: Option<bool>): (proxied: bool)
    ensures requested.Some? ==> proxied == requested.value
    ensures requested.None? ==> proxied == cfg.originalIPCDNEnabled
  {
    if requested.Some? then requested.value else cfg.originalIPCDNEnabled
  }

  /** Every subdomain pointed back at the original IP, in order. */
  function PlannedUpdates(cfg: MonitorConfig, proxied: bool): (r: seq<DnsUpdate>)
    ensures |r| == |cfg.subdomains|
    ensures forall j :: 0 <= j < |r| ==> r[j] == DnsUpdate(cfg.zoneId, cfg.subdomains[j], cfg.originalIP, proxied)
  {
    seq(|cfg.subdomains|, j requires 0 <= j < |cfg.subdomains| =>
      DnsUpdate(cfg.zoneId, cfg.subdomains[j], cfg.originalIP, proxied))
  }

  function IsIn(failing: set<string>): string -> bool
  {
    (s: string) => s in failing
  }

  /** The history entry of a manual restore. */
  function RestoreEvent(cfg: MonitorConfig, fromIP: string, now: int): SwitchEvent
  {
    SwitchEvent(now, cfg.id, cfg.name, fromIP, cfg.originalIP, false, cfg.checkType, "restore")
  }

  /**
   * The loop over the monitor's subdomains: each is pointed back at the original IP
   * in turn, and the first failing update ends the loop.
   */
  method PushUpdates(cfg: MonitorConfig, proxied: bool, failing: set<string>)
    returns (ok: bool, updates: seq<DnsUpdate>)
    ensures ok <==> FirstWhere(cfg.subdomains, IsIn(failing)).None?
    ensures ok ==> updates == PlannedUpdates(cfg, proxied)
    ensures !ok ==> updates == PlannedUpdates(cfg, proxied)[..FirstWhere(cfg.subdomains, IsIn(failing)).value + 1]
  {
    ghost var planned := PlannedUpdates(cfg, proxied);
    updates := [];
    var i := 0;
    while i < |cfg.subdomains|
      invariant 0 <= i <= |cfg.subdomains|
      invariant updates == planned[..i]
      invariant forall j :: 0 <= j < i ==> cfg.subdomains[j] !in failing
    {
      var sub := cfg.subdomains[i];
      updates := updates + [DnsUpdate(cfg.zoneId, sub, cfg.originalIP, proxied)];
      assert updates == planned[..i + 1];
      if sub in failing {
        FirstWhereAt(cfg.subdomains, IsIn(failing), i);
        return false, updates;
      }
      i := i + 1;
    }
    assert planned[..i] == planned;
    return true, updates;
  }

  /**
   * What a restore that passed the guards leaves behind, given the store's data
   * before and after, and the IP the engine served before (`before`, "" when the
   * engine does not run the monitor): without usable credentials a 500 and no
   * update; otherwise the subdomains are updated in order up to the first failing
   * one (a 500), and only when all succeed is the restore logged (history bounded
   * to 200 entries), with the backup IP as from-IP when the engine gave none.
   */
  predicate RestoreFinished(data: Config, data': Config, cfg: MonitorConfig, requested: Option<bool>,
                            failing: set<string>, now: int, before: string, code: int, updates: seq<DnsUpdate>)
  {
    if !CredentialsUsable(ActiveCredentials(data)) then
      code == 500 && updates == [] && data' == data
    else
      var planned := PlannedUpdates(cfg, RestoreProxied(cfg, requested));
      var fromIP := if before == "" then cfg.backupIP else before;
      match FirstWhere(cfg.subdomains, IsIn(failing))
      case None =>
        && code == 200 && updates == planned
        && data' == data.(history := AppendBounded(data.history, RestoreEvent(cfg, fromIP, now), 200))
      case Some(i) =>
        code == 500 && updates == planned[..i + 1] && data' == data
  }

  /** RestoreMonitor from ForceRestore on. */
  method FinishRestore(store: Store, engine: Engine, cfg: MonitorConfig, requested: Option<bool>,
                       failing: set<string>, now: int)
    returns (code: int, updates: seq<DnsUpdate>)
    modifies store, if cfg.id in engine.monitors then {engine.monitors[cfg.id]} else {}
    ensures cfg.id in engine.monitors ==>
      engine.monitors[cfg.id].State() == Restored(engine.monitors[cfg.id].config, old(engine.monitors[cfg.id].State()))
    ensures RestoreFinished(old(store.data), store.data, cfg, requested, failing, now,
                            if cfg.id in engine.monitors then old(engine.monitors[cfg.id].currentIP) else "",
                            code, updates)
  {
    var before, _ := engine.ForceRestore(cfg.id);
    code, updates := PublishRestore(store, cfg, requested, failing, now, before);
  }

  /**
   * RestoreMonitor after ForceRestore, which reported the address `before` it
   * restored from: the credentials check, the DNS updates, then the history entry.
   */
  method PublishRestore(store: Store, cfg: MonitorConfig, requested: Option<bool>,
                        failing: set<string>, now: int, before: string)
    returns (code: int, updates: seq<DnsUpdate>)
    modifies store
    ensures RestoreFinished(old(store.data), store.data, cfg, requested, failing, now, before, code, updates)
  {
    var fromIP := before;
    if fromIP == "" {
      fromIP := cfg.backupIP;
    }
    var proxied := cfg.originalIPCDNEnabled;
    if requested.Some? {
      proxied := requested.value;
    }
    var creds := store.GetCloudflareConfig();
    if creds.apiToken == "" && (creds.apiKey == "" || creds.email == "") {
      return 500, [];
    }
    var pushed;
    pushed, updates := PushUpdates(cfg, proxied, failing);
    if !pushed {
      return 500, updates;
    }
    store.AppendSwitchEvent(RestoreEvent(cfg, fromIP, now), 200);
    code := 200;
  }

  /**
   * POST /monitors/:id/restore. `body` is the request body (None when it is not
   * JSON), `failing` the subdomains whose Cloudflare update fails and `now` the
   * clock in milliseconds. The answer's code, and the DNS updates issued, in order.
   * A rejected request changes nothing; an accepted one restores the engine's
   * monitor even when a later step fails.
   */
  method RestoreMonitor(store: Store, engine: Engine, id: string, body: Option<Option<bool>>,
                        failing: set<string>, now: int)
    returns (code: int, updates: seq<DnsUpdate>)
    modifies store, if id in engine.monitors then {engine.monitors[id]} else {}
    ensures var found := FindMonitor(old(store.data.monitors), id);
      RestoreRejection(body, found).Some? ==>
        && code == RestoreRejection(body, found).value && updates == []
        && store.data == old(store.data)
        && (id in engine.monitors ==> engine.monitors[id].State() == old(engine.monitors[id].State()))
    ensures var found := FindMonitor(old(store.data.monitors), id);
      RestoreRejection(body, found).None? ==>
        && (id in engine.monitors ==>
              engine.monitors[id].State() == Restored(engine.monitors[id].config, old(engine.monitors[id].State())))
        && RestoreFinished(old(store.data), store.data, found.value, body.value, failing, now,
                           if id in engine.monitors then old(engine.monitors[id].currentIP) else "",
                           code, updates)
  {
    if body.None? {
      return 400, [];
    }
    var cfg, ok := store.GetMonitor(id);
    if !ok {
      return 404, [];
    }
    if cfg.zoneId == "" {
      return 400, [];
    }
    code, updates := FinishRestore(store, engine, cfg, body.value, failing, now);
  }

  // ---------------------------------------------------------------------------
  // GetStatus: offline_hot
  // ---------------------------------------------------------------------------

  /** How many IP-down events GetStatus reads, newest first. */
  const StatusIPDownLimit := 2000

  /**
   * The offline_hot part of GetStatus: the newest 2000 IP-down events, newest
   * first, aggregated from the start of the day on.
   */
  method StatusOfflineHot(store: Store, startOfDay: int) returns (hot: seq<DownAgg>)
    ensures var listed := NewestFirst(store.data.ipDown, StatusIPDownLimit);
      var today := listed[..TodayCount(listed, startOfDay)];
      && SortedHot(hot)
      && (forall i :: 0 <= i < |hot| ==> hot[i].count >= HotCount && hot[i] == Aggregate(today, AggKey(hot[i])))
      && (forall k :: CountOf(today, k) >= HotCount ==> Aggregate(today, k) in hot)
      && (forall x :: multiset(hot)[x] <= 1)
  {
    var ipDown := store.ListIPDownEvents(StatusIPDownLimit);
    hot := OfflineHotList(ipDown, startOfDay);
  }

  /**
   * The IP-down log is appended in time order; listed newest first, the scan of
   * GetStatus then reads exactly the listed events of the day.
   */
  lemma ChronologicalLogScansTheDay(log: seq<IPDownEvent>, startOfDay: int)
    requires forall i, j :: 0 <= i < j < |log| ==> log[i].timestamp <= log[j].timestamp
    ensures var listed := NewestFirst(log, StatusIPDownLimit);
      forall i :: 0 <= i < |listed| ==>
        (i < TodayCount(listed, startOfDay) <==> listed[i].timestamp >= startOfDay)
  {
    var listed := NewestFirst(log, StatusIPDownLimit);
    forall i, j | 0 <= i < j < |listed|
      ensures listed[i].timestamp >= listed[j].timestamp
    {
      assert listed[i] == log[|log| - 1 - i] && listed[j] == log[|log| - 1 - j];
    }
    ScanReadsTheWholeDay(listed, startOfDay);
  }
}
