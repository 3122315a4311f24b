/**
 * The in-memory configuration store of internal/config/store.go.
 *
 * `Store.data` is the Go `Config` value; every mutating method changes it the way
 * the Go method does and is proved against a function on the old value. Saving to
 * disk (`saveLocked`) is left out: every save is taken to succeed, so the error
 * results of the Go methods are not modelled.
 */
module ConfigStore {
  import opened Wrappers
  import opened Seqs
  import opened Config

  /** The zero MonitorConfig that GetMonitor returns for an unknown id. */
  const NoMonitor: MonitorConfig :=
    MonitorConfig("", "", "", [], "", "", "", "", 0, 0, 0, 0, 0, false, false, false, 0, "")

  /** The configuration of a new store: every field at its zero value. */
  const EmptyConfig: Config :=
    Config(CloudflareConfig("", "", ""), [], 0, DingTalkConfig("", "", false),
           EmailConfig(false, "", 0, "", "", ""), TelegramConfig(false, "", ""),
           [], ServerConfig(0, ""), [], [])

  function MonitorIdIs(id: string): MonitorConfig -> bool
  {
    (m: MonitorConfig) => m.id == id
  }

  function AccountIdIs(id: string): CloudflareAccount -> bool
  {
    (a: CloudflareAccount) => a.id == id
  }

  /** No two monitors share an id. */
  predicate UniqueIds(ms: seq<MonitorConfig>)
  {
    forall i, j :: 0 <= i < j < |ms| ==> ms[i].id != ms[j].id
  }

  /** What GetMonitor finds: the first monitor with the id. */
  function FindMonitor(ms: seq<MonitorConfig>, id: string): (r: Option<MonitorConfig>)
    ensures r.Some? ==> r.value in ms && r.value.id == id
    ensures r.None? <==> forall m :: m in ms ==> m.id != id
  {
    match FirstWhere(ms, MonitorIdIs(id))
    case None => None
    case Some(i) => Some(ms[i])
  }

  /**
   * UpsertMonitor: the first monitor with the same id is replaced in place, or the
   * monitor is appended when there is none; every other entry keeps its place.
   */
  function UpsertedMonitors(ms: seq<MonitorConfig>, m: MonitorConfig): (r: seq<MonitorConfig>)
    ensures |r| == if FindMonitor(ms, m.id).Some? then |ms| else |ms| + 1
    ensures forall j :: 0 <= j < |ms| && FirstWhere(ms, MonitorIdIs(m.id)) != Some(j) ==> r[j] == ms[j]
    ensures FindMonitor(r, m.id) == Some(m)
  {
    match FirstWhere(ms, MonitorIdIs(m.id))
    case Some(i) =>
      FirstWhereAt(ms[i := m], MonitorIdIs(m.id), i);
      ms[i := m]
    case None =>
      FirstWhereAt(ms + [m], MonitorIdIs(m.id), |ms|);
      ms + [m]
  }

  /** DeleteMonitor: the first monitor with the id is removed, the rest keep their order. */
  function MonitorsWithout(ms: seq<MonitorConfig>, id: string): (r: seq<MonitorConfig>)
    ensures FindMonitor(ms, id).None? ==> r == ms
    ensures FindMonitor(ms, id).Some? ==>
      var i := FirstWhere(ms, MonitorIdIs(id)).value;
      && |r| == |ms| - 1
      && (forall j :: 0 <= j < i ==> r[j] == ms[j])
      && (forall j :: i <= j < |r| ==> r[j] == ms[j + 1])
  {
    match FirstWhere(ms, MonitorIdIs(id))
    case None => ms
    case Some(i) => RemoveAt(ms, i)
  }

  /** Upserting keeps monitor ids unique. */
  lemma UpsertKeepsIdsUnique(ms: seq<MonitorConfig>, m: MonitorConfig)
    requires UniqueIds(ms)
    ensures UniqueIds(UpsertedMonitors(ms, m))
  {
    var r := UpsertedMonitors(ms, m);
    if FirstWhere(ms, MonitorIdIs(m.id)).None? {
      assert forall j :: 0 <= j < |ms| ==> r[j] == ms[j] && ms[j].id != m.id;
    }
  }

  /** With unique ids, a deleted monitor can no longer be found. */
  lemma DeleteThenFindNothing(ms: seq<MonitorConfig>, id: string)
    requires UniqueIds(ms)
    ensures FindMonitor(MonitorsWithout(ms, id), id).None?
    ensures UniqueIds(MonitorsWithout(ms, id))
  {
    var r := MonitorsWithout(ms, id);
    match FirstWhere(ms, MonitorIdIs(id))
    case None =>
    case Some(i) =>
      forall m | m in r ensures m.id != id {
        var k :| 0 <= k < |r| && r[k] == m;
        if k < i {
          assert MonitorIdIs(id)(ms[k]) == false;
        } else {
          assert r[k] == ms[k + 1];
        }
      }
  }

  /** The credentials of an account. */
  function Credentials(a: CloudflareAccount): CloudflareConfig
  {
    CloudflareConfig(a.apiToken, a.apiKey, a.email)
  }

  /**
   * GetCloudflareConfig: the active account's credentials when the account list is
   * non-empty and the active index lies in it, else the default credentials.
   */
  function ActiveCredentials(cfg: Config): (r: CloudflareConfig)
    ensures 0 <= cfg.activeAccountIndex < |cfg.cloudflareAccounts| ==>
      r == Credentials(cfg.cloudflareAccounts[cfg.activeAccountIndex])
    ensures !(0 <= cfg.activeAccountIndex < |cfg.cloudflareAccounts|) ==> r == cfg.cloudflare
  {
    if |cfg.cloudflareAccounts| > 0 && cfg.activeAccountIndex >= 0
       && cfg.activeAccountIndex < |cfg.cloudflareAccounts|
    then Credentials(cfg.cloudflareAccounts[cfg.activeAccountIndex])
    else cfg.cloudflare
  }

  /** UpdateCloudflareAccount: the first account with the same id is replaced in place; else nothing changes. */
  function UpdatedAccounts(accounts: seq<CloudflareAccount>, a: CloudflareAccount): (r: seq<CloudflareAccount>)
    ensures |r| == |accounts|
    ensures forall j :: 0 <= j < |accounts| && FirstWhere(accounts, AccountIdIs(a.id)) != Some(j) ==>
      r[j] == accounts[j]
    ensures FirstWhere(accounts, AccountIdIs(a.id)).Some? ==> r[FirstWhere(accounts, AccountIdIs(a.id)).value] == a
  {
    match FirstWhere(accounts, AccountIdIs(a.id))
    case None => accounts
    case Some(i) => accounts[i := a]
  }

  /** DeleteCloudflareAccount, the list: the first account with the id is removed. */
  function AccountsWithout(accounts: seq<CloudflareAccount>, id: string): (r: seq<CloudflareAccount>)
    ensures FirstWhere(accounts, AccountIdIs(id)).None? ==> r == accounts
    ensures FirstWhere(accounts, AccountIdIs(id)).Some? ==>
      var i := FirstWhere(accounts, AccountIdIs(id)).value;
      && accounts[i].id == id
      && |r| == |accounts| - 1
      && (forall j :: 0 <= j < i ==> r[j] == accounts[j])
      && (forall j :: i <= j < |r| ==> r[j] == accounts[j + 1])
  {
    match FirstWhere(accounts, AccountIdIs(id))
    case None => accounts
    case Some(i) => RemoveAt(accounts, i)
  }

  /**
   * DeleteCloudflareAccount, the active index: reset to 0 when the active account
   * itself is removed, moved down by one when an earlier account is removed.
   */
  function ActiveAfterDelete(accounts: seq<CloudflareAccount>, active: int, id: string): (k: int)
    ensures FirstWhere(accounts, AccountIdIs(id)).None? ==> k == active
    ensures FirstWhere(accounts, AccountIdIs(id)) == Some(active) ==> k == 0
    // any other account that was active stays active, at its shifted position
    ensures FirstWhere(accounts, AccountIdIs(id)).Some? && FirstWhere(accounts, AccountIdIs(id)) != Some(active) &&
            0 <= active < |accounts| ==>
      var r := AccountsWithout(accounts, id);
      0 <= k < |r| && r[k] == accounts[active]
  {
    match FirstWhere(accounts, AccountIdIs(id))
    case None => active
    case Some(i) => if active == i then 0 else if active > i then active - 1 else active
  }

  /** Deleting another account keeps the same account active. */
  lemma DeleteKeepsActiveAccount(accounts: seq<CloudflareAccount>, active: int, id: string)
    requires 0 <= active < |accounts|
    requires FirstWhere(accounts, AccountIdIs(id)) != Some(active)
    ensures var r := AccountsWithout(accounts, id);
      var k := ActiveAfterDelete(accounts, active, id);
      0 <= k < |r| && r[k] == accounts[active]
  {
  }

  /** Deleting the active account makes the first remaining account active, or none is left. */
  lemma DeleteActiveFallsBackToFirst(accounts: seq<CloudflareAccount>, active: int, id: string)
    requires FirstWhere(accounts, AccountIdIs(id)) == Some(active)
    ensures ActiveAfterDelete(accounts, active, id) == 0
    ensures |AccountsWithout(accounts, id)| == |accounts| - 1
  {
  }

  /** ActivateCloudflareAccount: the index of the first account with the id, or unchanged. */
  function ActiveAfterActivate(accounts: seq<CloudflareAccount>, active: int, id: string): (k: int)
    ensures FirstWhere(accounts, AccountIdIs(id)).None? ==> k == active
    ensures FirstWhere(accounts, AccountIdIs(id)).Some? ==> 0 <= k < |accounts| && accounts[k].id == id
  {
    match FirstWhere(accounts, AccountIdIs(id))
    case None => active
    case Some(i) => i
  }

  /** After activating a known account, its credentials are the ones in use. */
  lemma ActivateThenCredentials(cfg: Config, id: string)
    requires FirstWhere(cfg.cloudflareAccounts, AccountIdIs(id)).Some?
    ensures var cfg' := cfg.(activeAccountIndex := ActiveAfterActivate(cfg.cloudflareAccounts, cfg.activeAccountIndex, id));
      var a := cfg.cloudflareAccounts[FirstWhere(cfg.cloudflareAccounts, AccountIdIs(id)).value];
      ActiveCredentials(cfg') == Credentials(a) && a.id == id
  {
  }

  /**
   * AppendSwitchEvent / AppendIPDownEvent: the event is appended last, and when
   * `max` is positive only the newest `max` entries are kept, in their order.
   */
  function AppendBounded<T>(log: seq<T>, e: T, max: int): (r: seq<T>)
    ensures |r| == if max > 0 && |log| + 1 > max then max else |log| + 1
    ensures r[|r| - 1] == e
    ensures max > 0 ==> |r| <= max
    ensures r == (log + [e])[|log| + 1 - |r|..]
  {
    var all := log + [e];
    if max > 0 && |all| > max then all[|all| - max..] else all
  }

  /** ListSwitchHistory / ListIPDownEvents: up to `limit` entries (all when limit <= 0), newest first. */
  function NewestFirst<T>(log: seq<T>, limit: int): (r: seq<T>)
    ensures |r| == if limit <= 0 || limit > |log| then |log| else limit
    ensures forall k :: 0 <= k < |r| ==> r[k] == log[|log| - 1 - k]
  {
    var n := if limit <= 0 || limit > |log| then |log| else limit;
    seq(n, k requires 0 <= k < n => log[|log| - 1 - k])
  }

  /** The entry just appended is the first one listed, whatever the bound and the limit. */
  lemma AppendedIsListedFirst<T>(log: seq<T>, e: T, max: int, limit: int)
    ensures |NewestFirst(AppendBounded(log, e, max), limit)| >= 1
    ensures NewestFirst(AppendBounded(log, e, max), limit)[0] == e
  {
  }

  /** Listing everything newest first and reading it backwards gives the log back. */
  lemma ListAllReversesLog<T>(log: seq<T>, limit: int)
    requires limit <= 0
    ensures forall k :: 0 <= k < |log| ==> NewestFirst(log, limit)[|log| - 1 - k] == log[k]
  {
  }

  /** The reverse-index loop of the List methods. */
  method ListNewest<T>(log: seq<T>, limit: int) returns (out: seq<T>)
    ensures out == NewestFirst(log, limit)
  {
    var n := limit;
    if n <= 0 || n > |log| {
      n := |log|;
    }
    out := [];
    var i := |log| - 1;
    while i >= 0 && |out| < n
      invariant -1 <= i < |log|
      invariant |out| == |log| - 1 - i <= n
      invariant forall k :: 0 <= k < |out| ==> out[k] == log[|log| - 1 - k]
    {
      out := out + [log[i]];
      i := i - 1;
    }
  }

  class Store {
    var data: Config

    /** NewStore: empty monitor list and logs, every other field at its zero value. */
    constructor ()
      ensures data == EmptyConfig
    {
      data := EmptyConfig;
    }

    method GetMonitor(id: string) returns (m: MonitorConfig, ok: bool)
      ensures ok <==> FindMonitor(data.monitors, id).Some?
      ensures ok ==> Some(m) == FindMonitor(data.monitors, id)
      ensures !ok ==> m == NoMonitor
    {
      var i := 0;
      while i < |data.monitors|
        invariant 0 <= i <= |data.monitors|
        invariant forall j :: 0 <= j < i ==> data.monitors[j].id != id
      {
        if data.monitors[i].id == id {
          FirstWhereAt(data.monitors, MonitorIdIs(id), i);
          return data.monitors[i], true;
        }
        i := i + 1;
      }
      return NoMonitor, false;
    }

    method UpsertMonitor(m: MonitorConfig)
      modifies this
      ensures data == old(data).(monitors := UpsertedMonitors(old(data.monitors), m))
    {
      var i := 0;
      while i < |data.monitors|
        invariant 0 <= i <= |data.monitors|
        invariant data == old(data)
        invariant forall j :: 0 <= j < i ==> data.monitors[j].id != m.id
      {
        if data.monitors[i].id == m.id {
          FirstWhereAt(data.monitors, MonitorIdIs(m.id), i);
          data := data.(monitors := data.monitors[i := m]);
          return;
        }
        i := i + 1;
      }
      data := data.(monitors := data.monitors + [m]);
    }

    method DeleteMonitor(id: string)
      modifies this
      ensures data == old(data).(monitors := MonitorsWithout(old(data.monitors), id))
    {
      var i := 0;
      while i < |data.monitors|
        invariant 0 <= i <= |data.monitors|
        invariant data == old(data)
        invariant forall j :: 0 <= j < i ==> data.monitors[j].id != id
      {
        if data.monitors[i].id == id {
          FirstWhereAt(data.monitors, MonitorIdIs(id), i);
          data := data.(monitors := data.monitors[..i] + data.monitors[i + 1..]);
          return;
        }
        i := i + 1;
      }
    }

    method GetCloudflareConfig() returns (r: CloudflareConfig)
      ensures r == ActiveCredentials(data)
    {
      if |data.cloudflareAccounts| > 0 && data.activeAccountIndex >= 0
         && data.activeAccountIndex < |data.cloudflareAccounts| {
        var account := data.cloudflareAccounts[data.activeAccountIndex];
        return CloudflareConfig(account.apiToken, account.apiKey, account.email);
      }
      return data.cloudflare;
    }

    method GetAuthToken() returns (token: string)
      ensures token == data.server.auth
    {
      return data.server.auth;
    }

    method SetAuthToken(token: string)
      modifies this
      ensures data == old(data).(server := old(data.server).(auth := token))
    {
      data := data.(server := data.server.(auth := token));
    }

    method HasAuthToken() returns (has: bool)
      ensures has <==> data.server.auth != ""
    {
      return data.server.auth != "";
    }

    method AddCloudflareAccount(account: CloudflareAccount)
      modifies this
      ensures data == old(data).(cloudflareAccounts := old(data.cloudflareAccounts) + [account])
    {
      data := data.(cloudflareAccounts := data.cloudflareAccounts + [account]);
    }

    method UpdateCloudflareAccount(account: CloudflareAccount)
      modifies this
      ensures data == old(data).(cloudflareAccounts := UpdatedAccounts(old(data.cloudflareAccounts), account))
    {
      var i := 0;
      while i < |data.cloudflareAccounts|
        invariant 0 <= i <= |data.cloudflareAccounts|
        invariant data == old(data)
        invariant forall j :: 0 <= j < i ==> data.cloudflareAccounts[j].id != account.id
      {
        if data.cloudflareAccounts[i].id == account.id {
          FirstWhereAt(data.cloudflareAccounts, AccountIdIs(account.id), i);
          data := data.(cloudflareAccounts := data.cloudflareAccounts[i := account]);
          return;
        }
        i := i + 1;
      }
    }

    method DeleteCloudflareAccount(id: string)
      modifies this
      ensures data == old(data).(
        cloudflareAccounts := AccountsWithout(old(data.cloudflareAccounts), id),
        activeAccountIndex := ActiveAfterDelete(old(data.cloudflareAccounts), old(data.activeAccountIndex), id))
    {
      var i := 0;
      while i < |data.cloudflareAccounts|
        invariant 0 <= i <= |data.cloudflareAccounts|
        invariant data == old(data)
        invariant forall j :: 0 <= j < i ==> data.cloudflareAccounts[j].id != id
      {
        if data.cloudflareAccounts[i].id == id {
          FirstWhereAt(data.cloudflareAccounts, AccountIdIs(id), i);
          data := data.(cloudflareAccounts := data.cloudflareAccounts[..i] + data.cloudflareAccounts[i + 1..]);
          if data.activeAccountIndex == i {
            data := data.(activeAccountIndex := 0);
          } else if data.activeAccountIndex > i {
            data := data.(activeAccountIndex := data.activeAccountIndex - 1);
          }
          return;
        }
        i := i + 1;
      }
    }

    method ActivateCloudflareAccount(id: string)
      modifies this
      ensures data == old(data).(
        activeAccountIndex := ActiveAfterActivate(old(data.cloudflareAccounts), old(data.activeAccountIndex), id))
    {
      var i := 0;
      while i < |data.cloudflareAccounts|
        invariant 0 <= i <= |data.cloudflareAccounts|
        invariant data == old(data)
        invariant forall j :: 0 <= j < i ==> data.cloudflareAccounts[j].id != id
      {
        if data.cloudflareAccounts[i].id == id {
          FirstWhereAt(data.cloudflareAccounts, AccountIdIs(id), i);
          data := data.(activeAccountIndex := i);
          return;
        }
        i := i + 1;
      }
    }

    method UpdateGlobalConfig(cloudflare: CloudflareConfig, dingTalk: DingTalkConfig,
                              email: EmailConfig, telegram: TelegramConfig)
      modifies this
      ensures data == old(data).(cloudflare := cloudflare, dingTalk := dingTalk, email := email, telegram := telegram)
    {
      data := data.(cloudflare := cloudflare, dingTalk := dingTalk, email := email, telegram := telegram);
    }

    method AppendSwitchEvent(e: SwitchEvent, max: int)
      modifies this
      ensures data == old(data).(history := AppendBounded(old(data.history), e, max))
    {
      var history := data.history + [e];
      if max > 0 && |history| > max {
        history := history[|history| - max..];
      }
      data := data.(history := history);
    }

    method AppendIPDownEvent(e: IPDownEvent, max: int)
      modifies this
      ensures data == old(data).(ipDown := AppendBounded(old(data.ipDown), e, max))
    {
      var ipDown := data.ipDown + [e];
      if max > 0 && |ipDown| > max {
        ipDown := ipDown[|ipDown| - max..];
      }
      data := data.(ipDown := ipDown);
    }

    method ListSwitchHistory(limit: int) returns (out: seq<SwitchEvent>)
      ensures out == NewestFirst(data.history, limit)
    {
      out := ListNewest(data.history, limit);
    }

    method ListIPDownEvents(limit: int) returns (out: seq<IPDownEvent>)
      ensures out == NewestFirst(data.ipDown, limit)
    {
      out := ListNewest(data.ipDown, limit);
    }
  }
}
