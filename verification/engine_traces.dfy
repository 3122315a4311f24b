/**
 * Properties of the failover engine over whole runs of the check loop: the
 * hysteresis counts consecutive outcomes only, failover and restore happen
 * exactly when a streak reaches its threshold, and the backup watchdog alerts at
 * most once between two healthy backup probes.
 */
module EngineTraces {
  import opened Config
  import opened MonitorEngine

  /** The inputs of one tick of the check loop. */
  datatype Tick = Tick(primaryOk: bool, backup: BackupProbe)

  /** Feeds the ticks, oldest first, through OnCheck, collecting every callback. */
  function Run(c: MonitorConfig, h: Health, ticks: seq<Tick>): Step
    decreases |ticks|
  {
    if ticks == [] then Step(h, [])
    else
      var before := Run(c, h, ticks[..|ticks| - 1]);
      var last := ticks[|ticks| - 1];
      var step := OnCheck(c, before.next, last.primaryOk, last.backup);
      Step(step.next, before.events + step.events)
  }

  /** The number of primary failures at the end of the run, since its last success. */
  function TrailingFailures(ticks: seq<Tick>): nat
  {
    if ticks == [] || ticks[|ticks| - 1].primaryOk then 0
    else 1 + TrailingFailures(ticks[..|ticks| - 1])
  }

  /** The number of primary successes at the end of the run, since its last failure. */
  function TrailingSuccesses(ticks: seq<Tick>): nat
  {
    if ticks == [] || !ticks[|ticks| - 1].primaryOk then 0
    else 1 + TrailingSuccesses(ticks[..|ticks| - 1])
  }

  /** The streak length a threshold actually demands: a threshold below one trips on the first outcome. */
  function Demanded(threshold: int): nat
  {
    if threshold <= 1 then 1 else threshold
  }

  /**
   * What a monitor's counters mean after a run of check ticks from a fresh start:
   * while Normal it serves the original IP and counts the trailing failures, and
   * while Down it serves the backup IP and counts the trailing successes, each
   * streak strictly below what its threshold demands.
   */
  ghost predicate CountsStreaks(c: MonitorConfig, ticks: seq<Tick>, h: Health)
  {
    && (h.status == Normal ==>
          && h.currentIP == c.originalIP
          && h.failCount == TrailingFailures(ticks) < Demanded(c.failureThreshold)
          && h.succCount == 0)
    && (h.status == Down ==>
          && h.currentIP == c.backupIP
          && h.succCount == TrailingSuccesses(ticks) < Demanded(c.successThreshold)
          && h.failCount == 0)
  }

  lemma {:induction false} RunCountsStreaks(c: MonitorConfig, ticks: seq<Tick>)
    ensures CountsStreaks(c, ticks, Run(c, Fresh(c), ticks).next)
    decreases |ticks|
  {
    if ticks != [] {
      var prefix := ticks[..|ticks| - 1];
      RunCountsStreaks(c, prefix);
    }
  }

  /**
   * Failover happens on a tick exactly when it completes a run of consecutive
   * failures as long as the failure threshold demands.
   */
  lemma FailoverExactlyAtThreshold(c: MonitorConfig, ticks: seq<Tick>)
    requires ticks != []
    requires Run(c, Fresh(c), ticks[..|ticks| - 1]).next.status == Normal
    ensures Run(c, Fresh(c), ticks).next.status == Down <==>
            TrailingFailures(ticks) == Demanded(c.failureThreshold)
  {
    RunCountsStreaks(c, ticks[..|ticks| - 1]);
  }

  /**
   * Restore happens on a tick exactly when it completes a run of consecutive
   * successes as long as the success threshold demands.
   */
  lemma RestoreExactlyAtThreshold(c: MonitorConfig, ticks: seq<Tick>)
    requires ticks != []
    requires Run(c, Fresh(c), ticks[..|ticks| - 1]).next.status == Down
    ensures Run(c, Fresh(c), ticks).next.status == Normal <==>
            TrailingSuccesses(ticks) == Demanded(c.successThreshold)
  {
    RunCountsStreaks(c, ticks[..|ticks| - 1]);
  }

  /** A run never fails over while its trailing failure streak is short, however long the run. */
  lemma NoFailoverWithoutStreak(c: MonitorConfig, ticks: seq<Tick>)
    requires TrailingFailures(ticks) < Demanded(c.failureThreshold)
    requires ticks != [] ==> Run(c, Fresh(c), ticks[..|ticks| - 1]).next.status == Normal
    ensures Run(c, Fresh(c), ticks).next.status == Normal
  {
    if ticks != [] {
      FailoverExactlyAtThreshold(c, ticks);
    }
  }

  function Flag(b: bool): nat { if b then 1 else 0 }

  /** The number of OnIPDown callbacks for the backup role. */
  function BackupAlerts(events: seq<Event>): nat
  {
    if events == [] then 0
    else BackupAlerts(events[..|events| - 1]) +
         (if events[|events| - 1].IPDown? && events[|events| - 1].role == RoleBackup then 1 else 0)
  }

  lemma {:induction false} BackupAlertsConcat(a: seq<Event>, b: seq<Event>)
    ensures BackupAlerts(a + b) == BackupAlerts(a) + BackupAlerts(b)
    decreases |b|
  {
    if b == [] {
      assert a + b == a;
    } else {
      assert (a + b)[..|a + b| - 1] == a + b[..|b| - 1];
      BackupAlertsConcat(a, b[..|b| - 1]);
    }
  }

  /** One check tick without a healthy backup probe raises the down flag exactly when it alerts. */
  lemma CheckAlertsWhenFlagRises(c: MonitorConfig, h: Health, t: Tick)
    requires t.backup != BackupHealthy
    ensures BackupAlerts(OnCheck(c, h, t.primaryOk, t.backup).events) + Flag(h.backupDown)
            == Flag(OnCheck(c, h, t.primaryOk, t.backup).next.backupDown)
  {
    var primary := if t.primaryOk then OnSuccess(c, h) else OnFailure(c, h);
    var backup := OnBackupProbe(c, primary.next, t.backup);
    assert BackupAlerts(primary.events) == 0 by {
      if |primary.events| == 2 {
        assert primary.events == [primary.events[0]] + [primary.events[1]];
        BackupAlertsConcat([primary.events[0]], [primary.events[1]]);
      }
    }
    BackupAlertsConcat(primary.events, backup.events);
  }

  /**
   * Between two healthy backup probes the backup alert fires at most once: over a
   * run with no healthy backup probe, the number of alerts is exactly how much the
   * down flag rose, so none at all if the flag was already set.
   */
  lemma {:induction false} BackupAlertOncePerEpisode(c: MonitorConfig, h: Health, ticks: seq<Tick>)
    requires forall i :: 0 <= i < |ticks| ==> ticks[i].backup != BackupHealthy
    ensures BackupAlerts(Run(c, h, ticks).events) + Flag(h.backupDown) == Flag(Run(c, h, ticks).next.backupDown)
    ensures BackupAlerts(Run(c, h, ticks).events) <= 1
    decreases |ticks|
  {
    if ticks != [] {
      var prefix := ticks[..|ticks| - 1];
      var last := ticks[|ticks| - 1];
      BackupAlertOncePerEpisode(c, h, prefix);
      var before := Run(c, h, prefix);
      var step := OnCheck(c, before.next, last.primaryOk, last.backup);
      CheckAlertsWhenFlagRises(c, before.next, last);
      BackupAlertsConcat(before.events, step.events);
    }
  }

  /**
   * The watchdog's down flag survives ForceRestore: after a restore with the flag
   * set, a later down-episode of the backup raises no alert until a healthy backup
   * probe has cleared the flag.
   */
  lemma RestoreKeepsBackupAlertSuppressed(c: MonitorConfig, h: Health, ticks: seq<Tick>)
    requires h.backupDown
    requires forall i :: 0 <= i < |ticks| ==> ticks[i].backup != BackupHealthy
    ensures BackupAlerts(Run(c, Restored(c, h), ticks).events) == 0
  {
    BackupAlertOncePerEpisode(c, Restored(c, h), ticks);
  }

  /**
   * With thresholds 3 and 2: three failures fail over (one OnIPDown for the
   * original IP, one OnSwitch to the backup); then a failure and two successes
   * restore (one OnSwitch back), leaving the monitor as freshly started.
   */
  lemma FailoverThenRestoreScenario(c: MonitorConfig)
    requires c.failureThreshold == 3 && c.successThreshold == 2 && c.checkType != "ping"
    ensures var fail, succ := Tick(false, BackupLost), Tick(true, BackupLost);
      && Run(c, Fresh(c), [fail, fail, fail]) ==
           Step(Fresh(c).(status := Down, currentIP := c.backupIP),
                [IPDown(c.id, c.originalIP, RoleOriginal), Switched(c.id, true)])
      && Run(c, Fresh(c), [fail, fail, fail, fail, succ, succ]) ==
           Step(Fresh(c),
                [IPDown(c.id, c.originalIP, RoleOriginal), Switched(c.id, true), Switched(c.id, false)])
  {
    var fail, succ := Tick(false, BackupLost), Tick(true, BackupLost);
    var ts := [fail, fail, fail, fail, succ, succ];
    var h0 := Fresh(c);
    var ip0 := IPDown(c.id, c.originalIP, RoleOriginal);
    assert ts[..0] == [];
    assert Run(c, h0, ts[..1]) == Step(h0.(failCount := 1), []);
    assert ts[..2][..1] == ts[..1];
    assert Run(c, h0, ts[..2]) == Step(h0.(failCount := 2), []);
    assert ts[..3][..2] == ts[..2];
    assert Run(c, h0, ts[..3]) == Step(h0.(status := Down, currentIP := c.backupIP), [ip0, Switched(c.id, true)]);
    assert ts[..3] == [fail, fail, fail];
    assert ts[..4][..3] == ts[..3];
    assert Run(c, h0, ts[..4]) == Step(h0.(status := Down, currentIP := c.backupIP), [ip0, Switched(c.id, true)]);
    assert ts[..5][..4] == ts[..4];
    assert Run(c, h0, ts[..5]) == Step(h0.(status := Down, currentIP := c.backupIP, succCount := 1), [ip0, Switched(c.id, true)]);
    assert ts[..5] == ts[..|ts| - 1];
  }

  /**
   * Without an explicit switch IP, two scheduled switches from the original IP go
   * to the backup and back, each reported as its own scheduled switch.
   */
  lemma ScheduleTogglesBack(c: MonitorConfig, h: Health)
    requires c.scheduleSwitchIP == "" && c.originalIP != "" && c.backupIP != "" && c.originalIP != c.backupIP
    requires h.status == Normal && h.currentIP == c.originalIP
    ensures var first := OnScheduleTick(c, h);
      var second := OnScheduleTick(c, first.next);
      && first.next.currentIP == c.backupIP
      && second.next.currentIP == c.originalIP
      && first.events + second.events ==
           [ScheduledSwitched(c.id, c.originalIP, c.backupIP), ScheduledSwitched(c.id, c.backupIP, c.originalIP)]
  {
  }
}
