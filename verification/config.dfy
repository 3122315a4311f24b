/**
 * The persisted configuration records of internal/config/config.go, as values.
 * Go's `int` and `int64` fields are unbounded integers here; nothing in the model
 * reaches their limits.
 */
module Config {

  datatype CloudflareConfig = CloudflareConfig(apiToken: string, apiKey: string, email: string)

  datatype CloudflareAccount = CloudflareAccount(
    id: string, name: string, apiToken: string, apiKey: string, email: string)

  datatype DingTalkConfig = DingTalkConfig(accessToken: string, secret: string, enabled: bool)

  datatype EmailConfig = EmailConfig(
    enabled: bool, host: string, port: int, username: string, password: string, to: string)

  datatype TelegramConfig = TelegramConfig(enabled: bool, botToken: string, chatId: string)

  /** One watched (original IP, backup IP) pair and how to probe it. */
  datatype MonitorConfig = MonitorConfig(
    id: string,
    name: string,
    zoneId: string,
    subdomains: seq<string>,
    checkType: string,
    checkTarget: string,
    originalIP: string,
    backupIP: string,
    failureThreshold: int,
    successThreshold: int,
    pingCount: int,
    interval: int,
    timeoutSeconds: int,
    originalIPCDNEnabled: bool,
    backupIPCDNEnabled: bool,
    scheduleEnabled: bool,
    scheduleHours: int,
    scheduleSwitchIP: string)

  datatype ServerConfig = ServerConfig(port: int, auth: string)

  /** One entry of the switch history; `reason` is "failover", "restore" or "schedule". */
  datatype SwitchEvent = SwitchEvent(
    timestamp: int, monitorId: string, name: string, fromIP: string, toIP: string,
    toBackup: bool, checkType: string, reason: string)

  /** One entry of the IP-down log; `role` is "original" or "backup". */
  datatype IPDownEvent = IPDownEvent(
    timestamp: int, monitorId: string, name: string, ip: string, role: string)

  datatype Config = Config(
    cloudflare: CloudflareConfig,
    cloudflareAccounts: seq<CloudflareAccount>,
    activeAccountIndex: int,
    dingTalk: DingTalkConfig,
    email: EmailConfig,
    telegram: TelegramConfig,
    monitors: seq<MonitorConfig>,
    server: ServerConfig,
    history: seq<SwitchEvent>,
    ipDown: seq<IPDownEvent>)
}
