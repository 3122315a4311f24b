/**
 * The failover engine of internal/monitor/engine.go.
 *
 * Each registered monitor carries a small health record (status, IP in effect,
 * consecutive fail/success counters and the backup watchdog's counter and flag).
 * The pure step functions below (OnFailure, OnSuccess, OnScheduleTick,
 * OnBackupProbe, OnCheck, Restored) say what one step does to that record and
 * which callbacks it fires; the classes Monitor and Engine perform the same steps
 * in place, as the Go code does, and are proved against those functions.
 *
 * Probes are not modelled: the primary probe's outcome is a `bool` input and the
 * backup ping's outcome a BackupProbe input. Callbacks are recorded as Events
 * appended to `Engine.events`, in the order the Go code launches them.
 */
module MonitorEngine {
  import opened Config

  datatype Status = Normal | Down

  const RoleOriginal: string := "original"
  const RoleBackup: string := "backup"

  /** One callback invocation: OnSwitch, OnScheduledSwitch or OnIPDown. */
  datatype Event =
    | Switched(monitorId: string, toBackup: bool)
    | ScheduledSwitched(monitorId: string, fromIP: string, toIP: string)
    | IPDown(monitorId: string, ip: string, role: string)

  /** The mutable fields of a Monitor, as a value. */
  datatype Health = Health(
    status: Status,
    currentIP: string,
    failCount: nat,
    succCount: nat,
    backupFailCount: nat,
    backupDown: bool)

  /** The health record after a step, and the callbacks the step fired. */
  datatype Step = Step(next: Health, events: seq<Event>)

  /**
   * What the backup ping yields: the pinger could not be built (the watchdog then
   * returns without touching anything), the ping failed or lost 60% or more of its
   * packets, or it succeeded.
   */
  datatype BackupProbe = PingerSetupError | BackupLost | BackupHealthy

  /** Which probe `check` runs for a check type. */
  datatype ProbeKind = HttpProbe | TcpProbe | PingProbe

  function ProbeFor(checkType: string): (k: ProbeKind)
    ensures k == HttpProbe <==> checkType == "http" || checkType == "https"
    ensures k == TcpProbe <==> checkType == "tcping"
  {
    if checkType == "http" || checkType == "https" then HttpProbe
    else if checkType == "tcping" then TcpProbe
    else PingProbe
  }

  /** A freshly started monitor: Normal, on the original IP, every counter zero. */
  function Fresh(c: MonitorConfig): (h: Health)
    ensures h.status == Normal && h.currentIP == c.originalIP
    ensures h.failCount == 0 && h.succCount == 0 && h.backupFailCount == 0 && !h.backupDown
  {
    Health(Normal, c.originalIP, 0, 0, 0, false)
  }

  /**
   * handleFailure. While Normal a failure extends the failure streak; the streak
   * reaching the threshold (no defaulting: a threshold <= 0 trips at once) fails
   * over to the backup IP, firing OnIPDown for the original IP and then
   * OnSwitch(toBackup). While Down a failure only breaks the success streak.
   */
  function OnFailure(c: MonitorConfig, h: Health): (r: Step)
    // the backup watchdog's fields are never touched
    ensures r.next.backupFailCount == h.backupFailCount && r.next.backupDown == h.backupDown
    // a failure never restores
    ensures h.status == Down ==> r.next == h.(succCount := 0) && r.events == []
    // failover happens exactly when the extended streak reaches the threshold
    ensures h.status == Normal ==>
      (r.next.status == Down <==> h.failCount + 1 >= c.failureThreshold)
    ensures h.status == Normal && h.failCount + 1 < c.failureThreshold ==>
      r.next == h.(failCount := h.failCount + 1) && r.events == []
    ensures h.status == Normal && h.failCount + 1 >= c.failureThreshold ==>
      && r.next.currentIP == c.backupIP
      && r.next.failCount == 0
      && r.next.succCount == h.succCount
      && r.events == [IPDown(c.id, c.originalIP, RoleOriginal), Switched(c.id, true)]
  {
    if h.status == Normal then
      var n := h.failCount + 1;
      if n >= c.failureThreshold then
        Step(h.(status := Down, currentIP := c.backupIP, failCount := 0),
             [IPDown(c.id, c.originalIP, RoleOriginal), Switched(c.id, true)])
      else
        Step(h.(failCount := n), [])
    else
      Step(h.(succCount := 0), [])
  }

  /**
   * handleSuccess. While Down a success extends the success streak; reaching the
   * success threshold restores the original IP and fires OnSwitch(!toBackup).
   * While Normal a success only breaks the failure streak (the success counter is
   * left as it is).
   */
  function OnSuccess(c: MonitorConfig, h: Health): (r: Step)
    ensures r.next.backupFailCount == h.backupFailCount && r.next.backupDown == h.backupDown
    // a success never fails over
    ensures h.status == Normal ==> r.next == h.(failCount := 0) && r.events == []
    ensures h.status == Down ==>
      (r.next.status == Normal <==> h.succCount + 1 >= c.successThreshold)
    ensures h.status == Down && h.succCount + 1 < c.successThreshold ==>
      r.next == h.(succCount := h.succCount + 1) && r.events == []
    ensures h.status == Down && h.succCount + 1 >= c.successThreshold ==>
      && r.next.currentIP == c.originalIP
      && r.next.succCount == 0
      && r.next.failCount == h.failCount
      && r.events == [Switched(c.id, false)]
  {
    if h.status == Down then
      var n := h.succCount + 1;
      if n >= c.successThreshold then
        Step(h.(status := Normal, currentIP := c.originalIP, succCount := 0), [Switched(c.id, false)])
      else
        Step(h.(succCount := n), [])
    else
      Step(h.(failCount := 0), [])
  }

  /** The IP a scheduled switch moves to: the configured one, else the other of the pair. */
  function ScheduleTarget(c: MonitorConfig, h: Health): (to: string)
    ensures c.scheduleSwitchIP != "" ==> to == c.scheduleSwitchIP
    ensures c.scheduleSwitchIP == "" ==> to == (if h.currentIP == c.originalIP then c.backupIP else c.originalIP)
  {
    if c.scheduleSwitchIP != "" then c.scheduleSwitchIP
    else if h.currentIP == c.originalIP then c.backupIP
    else c.originalIP
  }

  /**
   * scheduledSwitch: suppressed while Down, and a no-op when the target is empty
   * or already in effect; otherwise moves to the target, clears both streaks and
   * fires OnScheduledSwitch(from, to). The status is never changed.
   */
  function OnScheduleTick(c: MonitorConfig, h: Health): (r: Step)
    ensures r.next.status == h.status
    ensures r.next.backupFailCount == h.backupFailCount && r.next.backupDown == h.backupDown
    ensures h.status == Down ==> r == Step(h, [])
    ensures r.events == [] <==> r.next == h
    ensures r.events != [] ==> h.status.Normal?
    ensures r.events != [] ==>
      && r.next.currentIP == ScheduleTarget(c, h)
      && r.next.currentIP != "" && r.next.currentIP != h.currentIP
      && r.next.failCount == 0 && r.next.succCount == 0
      && r.events == [ScheduledSwitched(c.id, h.currentIP, r.next.currentIP)]
    ensures h.status == Normal && ScheduleTarget(c, h) != "" && ScheduleTarget(c, h) != h.currentIP ==>
      r.events != []
  {
    if h.status == Down then Step(h, [])
    else
      var to := ScheduleTarget(c, h);
      if to == "" || to == h.currentIP then Step(h, [])
      else Step(h.(currentIP := to, failCount := 0, succCount := 0),
                [ScheduledSwitched(c.id, h.currentIP, to)])
  }

  /** The backup watchdog runs only while Down, for check type "ping", with a backup IP. */
  predicate BackupWatched(c: MonitorConfig, h: Health): (b: bool)
    // the watchdog only runs beside the ping probe, on a monitor that has failed over
    ensures b ==> ProbeFor(c.checkType) == PingProbe && h.status == Down
    ensures c.backupIP == "" ==> !b
  {
    h.status == Down && c.checkType == "ping" && c.backupIP != ""
  }

  /** The watchdog's failure threshold: the monitor's, defaulted to 3 when not positive. */
  function BackupThreshold(c: MonitorConfig): (t: int)
    ensures t >= 1
    ensures c.failureThreshold > 0 ==> t == c.failureThreshold
    ensures c.failureThreshold <= 0 ==> t == 3
  {
    if c.failureThreshold <= 0 then 3 else c.failureThreshold
  }

  /**
   * checkBackupHealth, after the probe. A healthy backup clears the counter and the
   * down flag silently; a lost one extends the counter, and the first time it
   * reaches the threshold while the flag is clear the flag is set, the counter
   * cleared and OnIPDown(backup) fired.
   */
  function OnBackupProbe(c: MonitorConfig, h: Health, p: BackupProbe): (r: Step)
    // only the watchdog's own fields can change
    ensures r.next.status == h.status && r.next.currentIP == h.currentIP
    ensures r.next.failCount == h.failCount && r.next.succCount == h.succCount
    ensures !BackupWatched(c, h) || p == PingerSetupError ==> r == Step(h, [])
    ensures BackupWatched(c, h) && p == BackupHealthy ==>
      r.next.backupFailCount == 0 && !r.next.backupDown && r.events == []
    // the alert fires at most once: only when the flag was clear, and it sets the flag
    ensures r.events != [] ==>
      && BackupWatched(c, h) && p == BackupLost && !h.backupDown
      && h.backupFailCount + 1 >= BackupThreshold(c)
      && r.next.backupDown && r.next.backupFailCount == 0
      && r.events == [IPDown(c.id, c.backupIP, RoleBackup)]
    ensures BackupWatched(c, h) && p == BackupLost && r.events == [] ==>
      r.next.backupFailCount == h.backupFailCount + 1 && r.next.backupDown == h.backupDown
    ensures (BackupWatched(c, h) && p == BackupLost && !h.backupDown &&
             h.backupFailCount + 1 >= BackupThreshold(c)) ==> r.events != []
  {
    if !BackupWatched(c, h) then Step(h, [])
    else
      match p
      case PingerSetupError => Step(h, [])
      case BackupHealthy => Step(h.(backupFailCount := 0, backupDown := false), [])
      case BackupLost =>
        var n := h.backupFailCount + 1;
        if n >= BackupThreshold(c) && !h.backupDown then
          Step(h.(backupDown := true, backupFailCount := 0), [IPDown(c.id, c.backupIP, RoleBackup)])
        else
          Step(h.(backupFailCount := n), [])
  }

  /** One tick of `check`: the primary outcome through the hysteresis, then the watchdog. */
  function OnCheck(c: MonitorConfig, h: Health, primaryOk: bool, p: BackupProbe): (r: Step)
    ensures var primary := if primaryOk then OnSuccess(c, h) else OnFailure(c, h);
      && r.next.status == primary.next.status
      && r.next.currentIP == primary.next.currentIP
      && r.next.failCount == primary.next.failCount
      && r.next.succCount == primary.next.succCount
      && |primary.events| <= |r.events|
      && r.events[..|primary.events|] == primary.events
    // the watchdog then runs on the state the primary outcome left
    ensures var primary := if primaryOk then OnSuccess(c, h) else OnFailure(c, h);
      var backup := OnBackupProbe(c, primary.next, p);
      && r.next.backupFailCount == backup.next.backupFailCount
      && r.next.backupDown == backup.next.backupDown
      && r.events[|primary.events|..] == backup.events
  {
    var primary := if primaryOk then OnSuccess(c, h) else OnFailure(c, h);
    var backup := OnBackupProbe(c, primary.next, p);
    Step(backup.next, primary.events + backup.events)
  }

  /**
   * ForceRestore's effect on a registered monitor: Normal on the original IP with
   * both streaks cleared; the watchdog's fields are left as they were.
   */
  function Restored(c: MonitorConfig, h: Health): (h': Health)
    ensures h'.status == Normal && h'.currentIP == c.originalIP
    ensures h'.failCount == 0 && h'.succCount == 0
    ensures h'.backupFailCount == h.backupFailCount && h'.backupDown == h.backupDown
  {
    h.(status := Normal, currentIP := c.originalIP, failCount := 0, succCount := 0)
  }

  /** A watched monitor (the Go struct Monitor, without its lock). */
  class Monitor {
    const config: MonitorConfig
    var status: Status
    var currentIP: string
    var failCount: nat
    var succCount: nat
    var backupFailCount: nat
    var backupDown: bool

    constructor (cfg: MonitorConfig)
      ensures config == cfg && State() == Fresh(cfg)
    {
      config := cfg;
      status := Normal;
      currentIP := cfg.originalIP;
      failCount, succCount := 0, 0;
      backupFailCount, backupDown := 0, false;
    }

    function State(): Health
      reads this
    {
      Health(status, currentIP, failCount, succCount, backupFailCount, backupDown)
    }
  }

  /**
   * The registry of monitors. `cancels` holds the ids whose loops have a live
   * context (the Go map of cancel functions); `scheduleLoops` those for which the
   * schedule loop was started as well. Callbacks are recorded in `events`.
   */
  class Engine {
    var monitors: map<string, Monitor>
    var cancels: set<string>
    var scheduleLoops: set<string>
    var events: seq<Event>

    ghost predicate Valid()
      reads this
    {
      && cancels == monitors.Keys
      && scheduleLoops <= cancels
      && (forall id :: id in monitors ==> monitors[id].config.id == id)
    }

    constructor ()
      ensures Valid()
      ensures monitors == map[] && cancels == {} && scheduleLoops == {} && events == []
    {
      monitors := map[];
      cancels := {};
      scheduleLoops := {};
      events := [];
    }

    /**
     * StartMonitor: cancels the loops of any monitor with the same id and
     * registers a fresh monitor in its place; the schedule loop is started only
     * when scheduling is enabled with a positive period.
     */
    method StartMonitor(cfg: MonitorConfig)
      requires Valid()
      modifies this
      ensures Valid()
      ensures monitors.Keys == old(monitors.Keys) + {cfg.id}
      ensures fresh(monitors[cfg.id])
      ensures monitors[cfg.id].config == cfg && monitors[cfg.id].State() == Fresh(cfg)
      ensures forall id :: id in old(monitors) && id != cfg.id ==> monitors[id] == old(monitors[id])
      ensures scheduleLoops ==
        if cfg.scheduleEnabled && cfg.scheduleHours > 0 then old(scheduleLoops) + {cfg.id}
        else old(scheduleLoops) - {cfg.id}
      ensures events == old(events)
    {
      if cfg.id in cancels {
        // cancelling the old context stops both of the old monitor's loops
        scheduleLoops := scheduleLoops - {cfg.id};
      }
      cancels := cancels + {cfg.id};
      var m := new Monitor(cfg);
      monitors := monitors[cfg.id := m];
      if cfg.scheduleEnabled && cfg.scheduleHours > 0 {
        scheduleLoops := scheduleLoops + {cfg.id};
      }
    }

    /** StopMonitor: cancels and unregisters; an unknown id changes nothing. */
    method StopMonitor(id: string)
      requires Valid()
      modifies this
      ensures Valid()
      ensures monitors == old(monitors) - {id}
      ensures cancels == old(cancels) - {id}
      ensures scheduleLoops == old(scheduleLoops) - {id}
      ensures events == old(events)
      ensures id !in old(monitors) ==> monitors == old(monitors)
    {
      if id in cancels {
        cancels := cancels - {id};
        monitors := monitors - {id};
        scheduleLoops := scheduleLoops - {id};
      }
    }

    /**
     * ForceRestore: for a registered id, returns the IP in effect before the call
     * and applies Restored; no callback is fired. An unknown id yields ("", false).
     */
    method ForceRestore(id: string) returns (fromIP: string, ok: bool)
      modifies if id in monitors then {monitors[id]} else {}
      ensures ok == (id in monitors)
      ensures !ok ==> fromIP == ""
      ensures ok ==> fromIP == old(monitors[id].currentIP)
      ensures ok ==> monitors[id].State() == Restored(monitors[id].config, old(monitors[id].State()))
    {
      if id !in monitors {
        return "", false;
      }
      var m := monitors[id];
      fromIP := m.currentIP;
      m.status := Normal;
      m.currentIP := m.config.originalIP;
      m.failCount := 0;
      m.succCount := 0;
      ok := true;
    }

    method HandleFailure(m: Monitor)
      modifies this`events, m
      ensures m.State() == OnFailure(m.config, old(m.State())).next
      ensures events == old(events) + OnFailure(m.config, old(m.State())).events
    {
      if m.status == Normal {
        m.failCount := m.failCount + 1;
        if m.failCount >= m.config.failureThreshold {
          events := events + [IPDown(m.config.id, m.config.originalIP, RoleOriginal)];
          m.status := Down;
          m.currentIP := m.config.backupIP;
          m.failCount := 0;
          events := events + [Switched(m.config.id, true)];
        }
      } else {
        m.succCount := 0;
      }
    }

    method HandleSuccess(m: Monitor)
      modifies this`events, m
      ensures m.State() == OnSuccess(m.config, old(m.State())).next
      ensures events == old(events) + OnSuccess(m.config, old(m.State())).events
    {
      if m.status == Down {
        m.succCount := m.succCount + 1;
        if m.succCount >= m.config.successThreshold {
          m.status := Normal;
          m.currentIP := m.config.originalIP;
          m.succCount := 0;
          events := events + [Switched(m.config.id, false)];
        }
      } else {
        m.failCount := 0;
      }
    }

    method ScheduledSwitch(m: Monitor)
      modifies this`events, m
      ensures m.State() == OnScheduleTick(m.config, old(m.State())).next
      ensures events == old(events) + OnScheduleTick(m.config, old(m.State())).events
    {
      if m.status == Down {
        return;
      }
      var fromIP := m.currentIP;
      var toIP := "";
      if m.config.scheduleSwitchIP != "" {
        toIP := m.config.scheduleSwitchIP;
      } else if fromIP == m.config.originalIP {
        toIP := m.config.backupIP;
      } else {
        toIP := m.config.originalIP;
      }
      if toIP == "" || toIP == fromIP {
        return;
      }
      m.currentIP := toIP;
      m.failCount := 0;
      m.succCount := 0;
      events := events + [ScheduledSwitched(m.config.id, fromIP, toIP)];
    }

    /** checkBackupHealth, with the outcome of the backup ping as input. */
    method CheckBackupHealth(m: Monitor, probe: BackupProbe)
      modifies this`events, m
      ensures m.State() == OnBackupProbe(m.config, old(m.State()), probe).next
      ensures events == old(events) + OnBackupProbe(m.config, old(m.State()), probe).events
    {
      var shouldCheck := m.status == Down && m.config.checkType == "ping" && m.config.backupIP != "";
      var wasDown := m.backupDown;
      var failCount := m.backupFailCount;
      if !shouldCheck {
        return;
      }
      var failureThreshold := m.config.failureThreshold;
      if failureThreshold <= 0 {
        failureThreshold := 3;
      }
      if probe == PingerSetupError {
        return;
      }
      if probe == BackupHealthy {
        m.backupFailCount := 0;
        m.backupDown := false;
        return;
      }
      failCount := failCount + 1;
      var trigger := failCount >= failureThreshold && !wasDown;
      if trigger {
        m.backupDown := true;
        m.backupFailCount := 0;
        events := events + [IPDown(m.config.id, m.config.backupIP, RoleBackup)];
      } else {
        m.backupFailCount := failCount;
      }
    }

    /** One tick of the check loop. */
    method Check(m: Monitor, primaryOk: bool, probe: BackupProbe)
      modifies this`events, m
      ensures m.State() == OnCheck(m.config, old(m.State()), primaryOk, probe).next
      ensures events == old(events) + OnCheck(m.config, old(m.State()), primaryOk, probe).events
    {
      if primaryOk {
        HandleSuccess(m);
      } else {
        HandleFailure(m);
      }
      CheckBackupHealth(m, probe);
    }
  }
}
