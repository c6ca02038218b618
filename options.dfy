/** The plugin's settings array (`nginx_cache_settings` in the options store) and the
    keys and defaults the status, settings and widget code share. */
module Options {
  import opened Php

  /** A value held in the settings array: most are strings, the numeric limits are ints. */
  datatype Setting = Text(s: string) | Number(n: int)

  type Settings = map<string, Setting>

  const DEFAULT_CACHE_PATH: string := "/dev/shm/change-me-now"

  const CACHE_PATH_KEY: string := "nginx_cache_path"
  const EMAIL_KEY: string := "nginx_cache_email"
  const CPU_LIMIT_KEY: string := "nginx_cache_cpu_limit"
  const WAIT_REQUEST_KEY: string := "nginx_cache_wait_request"
  const REJECT_REGEX_KEY: string := "nginx_cache_reject_regex"
  const SEND_MAIL_KEY: string := "nginx_cache_send_mail"
  const AUTO_PRELOAD_KEY: string := "nginx_cache_auto_preload"
  const PURGE_ON_UPDATE_KEY: string := "nginx_cache_purge_on_update"
  const SCHEDULE_KEY: string := "nginx_cache_schedule"
  const API_KEY: string := "nginx_cache_api"
  const LIMIT_RATE_KEY: string := "nginx_cache_limit_rate"
  const API_KEY_KEY: string := "nginx_cache_api_key"
  const PRELOAD_MOBILE_KEY: string := "nginx_cache_auto_preload_mobile"
  const OPT_IN_KEY: string := "nginx_cache_tracking_opt_in"

  /** The text PHP makes of a setting when it is used as a string. */
  function AsText(v: Setting): string
  {
    match v
    case Text(s) => s
    case Number(n) => if n < 0 then "-" + DecimalString(-n) else DecimalString(n)
  }

  /** The cache directory every check inspects: the configured path, or the default
      placeholder when none is configured. */
  function CachePath(settings: Settings): (p: string)
    ensures CACHE_PATH_KEY !in settings ==> p == DEFAULT_CACHE_PATH
    ensures CACHE_PATH_KEY in settings && settings[CACHE_PATH_KEY].Text? ==> p == settings[CACHE_PATH_KEY].s
  {
    if CACHE_PATH_KEY in settings then AsText(settings[CACHE_PATH_KEY]) else DEFAULT_CACHE_PATH
  }

  /** `isset($settings[$key]) && $settings[$key] === $value` for a string `value`. */
  predicate HasText(settings: Settings, key: string, value: string)
  {
    key in settings && settings[key] == Text(value)
  }
}
