# Nginx cache purge & preload plugin — status, validation and widget logic

A Dafny model of the decision logic in a WordPress plugin that purges and preloads an
Nginx FastCGI cache. The model covers five parts of the plugin:

- **Status tab** (`includes/status.php`):
  - Whether the cache path exists.
  - Which permission verdict is shown.
  - Whether wget is installed, and whether the preload lock file is held.
  - The preload status.
  - The PHP-process user and the web-server user, and the isolation verdict built from them.
  - The Cache Path Permission label.
  - The count of pages held in the cache directory. This is a walk over the cache files with a
    counter, a one-shot regex test and early exits.
- **Transient store** (`includes/status.php`):
  - The memoised recursive permission check and the memoised web-server user.
  - The "Clear Plugin Cache" invalidation. It collects a fixed list of names plus every stored
    name that contains one of two patterns, then deletes each target and re-reads it.
- **Settings** (`includes/settings.php`):
  - The path validator, with its whitelist, critical-prefix scan, path grammar and existence
    test.
  - The settings sanitizer: range checks, yes/no switches, the 64-hex API key and
    backslash-run collapsing.
  - Cron-expression validation and saving.
  - The message-type whitelist of the settings page.
  - The AJAX handlers that change one key of the settings array.
- **Dashboard widget** (`includes/dashboard-widget.php`):
  - The in-progress check.
  - The search for the first cron slot carrying the preload hook.
  - The Enabled/Disabled table with its icons and the "Next Run" line.

How the model is built:

- **Host facilities become inputs.** Everything the host platform provides is an input to the
  model:
  - whether the WordPress filesystem could be initialised (`fsReady`);
  - directory and file tests, and the liveness probe for a process id;
  - what each `shell_exec` probe printed;
  - the user's cache-key regex, as a function from file content to its match;
  - PHP's URL validator and the text and e-mail sanitizers;
  - the cron array and the timezone string.
- **Pure code becomes Dafny functions.** The PHP code written as condition chains and
  expressions is modelled as functions, with lemmas about them.
- **Mutating code becomes imperative Dafny.** Code that mutates state or loops is modelled
  imperatively. Each such method is proved equal to a specification function, and the
  lemmas are stated about that function:
  - `Status.CountPagesInCache`
  - `TransientStore.ClearPluginCache`
  - `Settings.ValidatePath`
  - `Settings.SanitizeForm`
  - `DashboardWidget.ShowNextRun`
  - the `SettingsStore` handlers
- **PHP built-ins are modelled exactly** in module `Php`:
  - `empty` counts "" and "0" as empty;
  - `trim`, `explode`, `strpos`;
  - `intval`, which saturates at the 64-bit bounds.

Files:

| file | module | contents |
|---|---|---|
| `php.dfy` | `Php` | `Option`, PHP's `empty`, `trim`, `explode`/`implode`, `strpos` tests, `intval` and decimal rendering |
| `options.dfy` | `Options` | the settings array, its keys and the default cache path |
| `status.dfy` | `Status` | Status-tab decisions, user reconciliation, page counter |
| `status_cache.dfy` | `StatusCache` | transient store, memoised checks, plugin-cache clearing |
| `settings.dfy` | `Settings` | path validation, sanitizer, cron, single-key updates |
| `dashboard_widget.dfy` | `DashboardWidget` | widget in-progress flag, next-run search, status table |

## Model

| member | source | states |
|---|---|---|
| Options.CachePath | includes/status.php:21-23 | The cache path checked is the configured path, or `/dev/shm/change-me-now` when none is configured. |
| Status.CheckPath | includes/status.php:190-212 | The result has no filesystem exactly when the filesystem fails. It is 'Found' exactly when the filesystem works and the cache path is a directory. |
| Status.PermInCache | includes/status.php:112-146 | `check_path` with a missing path returns 'false'. `check_perm` or `check_fpm` with a missing path returns 'Not Found'. Otherwise the stored value comes back unchanged, absence included. |
| Status.PermInCacheRange | includes/status.php:120-145 | The result is the stored value or one of the two sentinels. A sentinel appears only when the path is missing. |
| Status.CommandStatus | includes/status.php:149-152 | 'Installed' exactly when the probe printed something other than "" or "0". |
| Status.LockHeldForWrittenPid | includes/status.php:169-175 | A PID file holding a positive decimal pid, optionally followed by non-digit text, means the lock is held exactly when that process is alive. |
| Status.LockNotHeldForNonPid | includes/status.php:169-175 | A missing PID file, "0", an empty file, or text not starting with a number never holds the lock. |
| Status.PreloadStatus | includes/status.php:155-187 | No result exactly when the filesystem fails. 'progress' exactly when the lock is held. 'true' exactly when the lock is free, the stored permission is not 'false', wget is installed and the path is found. |
| Status.WebsiteUser | includes/status.php:232-277 | A usable POSIX user name wins. Otherwise the result is the trimmed `ls` owner, or "Not Determined" when `ls` printed nothing. |
| Status.WebsiteUserEmptyOnlyForBlankOutput | includes/status.php:232-277 | The website user is empty only when the `ls` output was white space alone. |
| Status.Isolation | includes/status.php:489-493 | 'Not Isolated' exactly when the web-server user is strictly equal to the PHP process owner. |
| Status.PermWord | includes/status.php:523-526 | "Granted" exactly for 'true'. "Not Determined" exactly for 'Not Found'. "Need Action (Check Help)" for everything else. |
| Status.PermRowReading | includes/status.php:523-526 | With the path missing, the row reads "Not Determined" whatever is stored. With the path present, it reads "Granted" exactly when 'true' is stored. The label starts with that word. |
| Status.ConfigFile | includes/status.php:302-303 | The first located nginx.conf is used, or `/etc/nginx/nginx.conf` when none was found. |
| Status.TrimEach | includes/status.php:314 | Each line is trimmed; the order and the count of lines are kept. |
| Status.Distinct | includes/status.php:314 | `array_unique` keeps the same set of values and keeps the first value first. |
| Status.DistinctUnique | includes/status.php:314 | `array_unique` leaves no duplicates. |
| Status.DropEmpty | includes/status.php:314 | `array_filter` keeps exactly the values that are not PHP-empty. |
| Status.DropEmptyKeepsUnique | includes/status.php:314 | Filtering keeps a duplicate-free list duplicate-free. |
| Status.OutputLinesWellFormed | includes/status.php:314 | Every output line is trimmed and holds no line break. |
| Status.ProcessUsersWellFormed | includes/status.php:312-314 | Observed process users are non-empty, trimmed, single-line names, each listed once. |
| Status.FirstProcessUser | includes/status.php:334-337 | The first observed user is the first non-empty trimmed `ps` line. There is no user exactly when no such line exists. |
| Status.ConfigUserLineBreakBreaksIsolation | includes/status.php:316-331 | As written, with config user "www-data\n", the user returned is "www-data\n" and the verdict for a "www-data" PHP owner is 'Isolated'. |
| Status.ConfigUser | includes/status.php:316 | Corrected (see Findings): the configured user is the probe output trimmed, where the source keeps the raw output. |
| Status.ReconcileUserAsWritten | includes/status.php:316-331 | As written: a missing config file gives "Not Determined". Otherwise the raw probe output, line break included, wins whether or not `ps` confirms it. Otherwise the first process user. Otherwise "Not Determined". The result is always the sentinel, an observed user or the raw output. |
| Status.ReconcileUser | includes/status.php:305-342 | Corrected (see Findings): the same decision as `ReconcileUserAsWritten`, with the configured user trimmed before it is tested and returned. |
| Status.SameAccountNotIsolated | includes/status.php:316-331 | With the corrected reconciliation, the same account on both sides is 'Not Isolated', whatever white space trails the probe output. |
| Status.HasGetKeyIff | includes/status.php:408 | The GET-marker test holds exactly when `KEY:`, one white-space character, then "GET" on the same line occur somewhere in the content. |
| Status.PageCountOf | includes/status.php:346-383 | Filesystem failure gives no count. A missing path gives 'Not Found', checked before a stored 'false', which gives 'Undetermined'. Otherwise the result is the walk. |
| Status.CountPagesInCache | includes/status.php:346-451 | The counting loop, with its counter, one-shot flag and early returns, gives exactly `PageCountOf`. |
| Status.ValidatedWalkCounts | includes/status.php:438-450 | Once the regex is validated, a walk with no aborting entry counts exactly the surviving entries the regex matches. |
| Status.CleanWalkResult | includes/status.php:402-450 | Redirects and non-GET entries are never counted. The result is 'RegexError' when the first surviving entry fails the one-time test. Otherwise it is the number of matching survivors, 0 for none. |
| Status.FirstCandidateDecides | includes/status.php:416-436 | When the first surviving entry fails the one-time test, the result is 'RegexError' whatever follows. |
| Status.AbortMakesUndetermined | includes/status.php:391-447 | An unreadable file or an iterator exception reached by the walk makes the count 'Undetermined', whatever came before or after. |
| Status.SkippedEntryInvisible | includes/status.php:392-410 | A non-file, a 301/302 redirect or a non-GET entry changes nothing: the result is the same without it. |
| StatusCache.GetOrComputeStores | includes/status.php:37-52 | After a lookup, the key holds the reported value. An absent key gets the computed value with a month's time-to-live. No other transient changes. |
| StatusCache.GetOrComputeMemoises | includes/status.php:39-50 | A second lookup reports the first lookup's value and changes nothing. |
| StatusCache.MatchesOf | includes/status.php:84-94 | A stored name is a target exactly when it contains either pattern. |
| StatusCache.DynamicTargetsMembership | includes/status.php:84-94 | The scan collects exactly the stored names containing `nppp_category_` or `nppp_rate_limit_` anywhere. |
| StatusCache.ClearTargetsMembership | includes/status.php:61-94 | The targets are exactly the twelve fixed names plus the stored names matching a pattern by substring. |
| StatusCache.DeleteAllFails | includes/status.php:96-105 | The pass fails exactly when some target is stored and cannot be deleted. |
| StatusCache.DeleteAllFrame | includes/status.php:96-108 | Only targets are removed. After a successful pass, no target remains. |
| StatusCache.ClearForcesRecompute | includes/status.php:37-108 | After a successful clear, the permission check and the web-server user are computed afresh. |
| StatusCache.TransientStore.constructor | includes/status.php:20-53 | The store starts with the given transients and no expensive check run. |
| StatusCache.TransientStore.Get | includes/status.php:40 | `get_transient` answers exactly for stored names, with their value. |
| StatusCache.TransientStore.CheckPermissionsWithCache | includes/status.php:20-53 | Filesystem failure returns nothing and changes nothing. Otherwise it performs a get-or-compute of 'true'/'false' under the permission key. The expensive check runs exactly when nothing was stored. |
| StatusCache.TransientStore.GetWebserverUser | includes/status.php:280-343 | A stored user is returned untouched, even when the filesystem fails. Otherwise filesystem failure returns nothing. Otherwise the user from the corrected `ReconcileUser` (see Findings) is returned and stored for a month. |
| StatusCache.TransientStore.ClearPluginCache | includes/status.php:56-109 | The target list is the fixed names plus the pattern matches in store order. The store ends as the delete-and-verify pass leaves it. The error message is returned exactly when the pass stopped at a surviving target. |
| StatusCache.RepeatedPermissionCheck | includes/status.php:39-52 | Two checks in a row agree, and the expensive check runs at most once. |
| Settings.MessageType | includes/settings.php:73-76 | The message type is always allowed. It is the requested one exactly when that is allowed, and 'info' otherwise. |
| Settings.ValidatePath | includes/settings.php:1207-1254 | The loop over the critical directories, with its early returns, gives exactly `PathVerdictOf`. |
| Settings.DefaultPathWhitelisted | includes/settings.php:1215-1220 | `/dev/shm/change-me-now` is accepted before any other test. |
| Settings.CriticalPrefixRejected | includes/settings.php:1226-1233 | A path that starts with any of the fourteen critical directories is 'critical_path'. |
| Settings.UsrdataRejected | includes/settings.php:1229-1233 | The prefix test is a raw string test: `/usrdata/x` is 'critical_path'. |
| Settings.FirstLevelDirectoryRejected | includes/settings.php:1223-1238 | A single segment, with or without a trailing `/`, fails the path grammar. |
| Settings.TwoSegmentsMatch | includes/settings.php:1223-1238 | Two `[A-Za-z0-9_-]+` segments, with or without a trailing `/`, pass the grammar. |
| Settings.AcceptedMeaning | includes/settings.php:1207-1254 | An accepted path is the whitelisted default, or a non-critical, well-formed path that is a directory (a file in premium mode), with the filesystem available. |
| Settings.CollapseFront | includes/settings.php:1161 | Collapsing never lengthens the text and keeps its first character. |
| Settings.CollapseLeavesNoRun | includes/settings.php:1161 | After collapsing, no two backslashes are adjacent. |
| Settings.CollapseFixesNoRun | includes/settings.php:1161 | Text without a backslash run is left unchanged. |
| Settings.CollapseIdempotent | includes/settings.php:1161 | Collapsing twice is the same as collapsing once. |
| Settings.CollapseKeepsText | includes/settings.php:1161 | Collapsing changes nothing but backslashes. |
| Settings.CollapseSplits | includes/settings.php:1161 | A cut after a character other than a backslash splits no run: the two sides collapse on their own. |
| Settings.CollapseRun | includes/settings.php:1161 | A whole run of backslashes not followed by another leaves exactly one backslash. |
| Settings.MaximalRunBecomesOne | includes/settings.php:1161 | Each maximal run of backslashes becomes exactly one backslash, and the text on either side is collapsed on its own. |
| Settings.ApiKeyMatchesAsWritten | includes/settings.php:1189 | As written, the key pattern accepts 64 hexadecimal digits followed by nothing or by one line break. |
| Settings.ApiKeyLineBreakSlipsThrough | includes/settings.php:1189-1194 | As written, 64 hex digits followed by a line break pass the key pattern although they are not a 64-hex key. |
| Settings.ApiKeyCorrection | includes/settings.php:1189-1194 | A 64-hex key is exactly a key that passes the as-written pattern and holds no line break. |
| Settings.PathErrorMessage | includes/settings.php:1053-1066 | 'critical_path' and 'directory_not_exist_or_readable' get their own messages. Every other rejection gets the generic one. |
| Settings.PathField | includes/settings.php:1048-1084 | A non-empty path is kept, sanitized, exactly when the validator accepts it. Otherwise it is rejected with the message for its verdict. An empty path is left out. |
| Settings.EmailField | includes/settings.php:1087-1106 | A non-empty e-mail is kept, sanitized, exactly when it validates. Otherwise it is rejected with the e-mail error. |
| Settings.CpuLimitField | includes/settings.php:1109-1130 | A non-empty CPU limit is kept exactly when its `intval` lies in [10,100]. Otherwise it is rejected. |
| Settings.WaitTimeField | includes/settings.php:1133-1154 | A wait time that is present (even "") is kept exactly when its `intval` lies in [0,60]. Otherwise it is rejected. "" is kept as 0. |
| Settings.RejectRegexField | includes/settings.php:1157-1161 | A non-empty reject regex is kept, collapsed, so no backslash run remains and the other text is the same. It never raises an error. |
| Settings.ToggleField | includes/settings.php:1164-1177 | A switch is always stored. It holds 'yes' exactly when the input was the string 'yes', and 'no' otherwise. |
| Settings.LimitRateField | includes/settings.php:1180-1182 | A non-empty rate limit is kept, sanitized. It never raises an error. |
| Settings.ApiKeyField | includes/settings.php:1185-1200 | Corrected (see Findings): a non-empty API key is kept exactly when it is 64 hexadecimal characters. Otherwise it is rejected with the key error. |
| Settings.FormFields | includes/settings.php:1044-1200 | The sanitizer handles the twelve keys, one field each, in source order. |
| Settings.StoreSpec | includes/settings.php:1044-1204 | Storing one field sets or leaves out that key only. |
| Settings.Raised | includes/settings.php:1044-1204 | A rejected field raises exactly its error; other fields raise none. |
| Settings.StoreFirstHolds | includes/settings.php:1044-1204 | After storing a prefix of fields with distinct keys, each of those fields holds and no other key is present. |
| Settings.RaisedFirstSkip | includes/settings.php:1044-1204 | Fields that are not rejected add no error. |
| Settings.Sanitize | includes/settings.php:1044-1204 | The sanitized settings hold only the handled keys. |
| Settings.FieldsHaveDistinctKeys | includes/settings.php:1044-1204 | No two handled fields share a key. |
| Settings.FieldStored | includes/settings.php:1044-1204 | Each handled field's outcome is what the sanitized settings hold under its key. |
| Settings.SanitizeStoresEachField | includes/settings.php:1048-1203 | Each key of the sanitized settings holds exactly the outcome of its own field rule. |
| Settings.SanitizeErrorOrder | includes/settings.php:1044-1204 | Errors are raised in the order path, e-mail, CPU limit, wait time, API key, one at most per field. |
| Settings.SanitizeForm | includes/settings.php:1044-1204 | Building the sanitized array key by key gives exactly `Sanitize`. |
| Settings.EmptyFormStoresSwitchesOnly | includes/settings.php:1044-1204 | An empty form raises no error and stores exactly the five switches, all 'no'. |
| Settings.ClockShapeIsClock | includes/settings.php:786-789 | A time of the accepted shape is the rendering of an hour below 24 and a minute below 60. |
| Settings.ClockIsValid | includes/settings.php:786-789 | Every hour below 24 and minute below 60 renders to an accepted time that reads back the same. |
| Settings.CronExpressionRoundTrip | includes/settings.php:780-792 | Splitting a saved expression at its bar separator gives back the frequency and the time. |
| Settings.ScheduledExpressionsWellFormed | includes/settings.php:780-792 | Every saved expression splits into a valid frequency and a valid time. |
| Settings.SingleKeyUpdate | includes/settings.php:415-449 | An update reports success exactly when the write works and the value changed. Reposting the stored value reports an error. Only the one key changes. |
| Settings.SettingsStore.constructor | includes/settings.php:415-825 | The store starts from the given settings, schedule value and event state, with no request to schedule. |
| Settings.SettingsStore.UpdateFlag | includes/settings.php:415-449 | The send-mail switch, and likewise the auto-preload, auto-purge and REST-API switches (lines 452-523 and 644-678), change their own key. Each reports its success message exactly when the option was updated, and the update error otherwise. |
| Settings.SettingsStore.UpdateCacheSchedule | includes/settings.php:526-586 | The schedule switch is stored. Turning it off unschedules a scheduled preload event when clearing works. Each outcome reports its own message. |
| Settings.SettingsStore.RegenerateApiKey | includes/settings.php:589-615 | The new key is stored and returned on update. Otherwise the update error is reported. |
| Settings.SettingsStore.ResetRejectRegex | includes/settings.php:681-702 | The default reject regex is written and always returned as success. |
| Settings.SettingsStore.SaveCronExpression | includes/settings.php:759-825 | The frequency is checked first, then the time, then whether the save took effect, then the timezone, then whether there are events. A new event is requested only when all pass. |
| DashboardWidget.WidgetPreloadAlive | includes/dashboard-widget.php:18-41 | Filesystem failure returns nothing. The flag is true exactly when the PID file exists, its `intval` is positive and that process is alive. |
| DashboardWidget.WidgetAgreesWithStatus | includes/dashboard-widget.php:18-41 | The widget's flag is true exactly when the Status tab's preload status (includes/status.php:155-187) is 'progress'. |
| DashboardWidget.FirstPreloadSlot | includes/dashboard-widget.php:60-97 | The slot found carries the preload hook and no earlier slot does. There is none exactly when no slot carries the hook. |
| DashboardWidget.ShowNextRun | includes/dashboard-widget.php:44-113 | The nested search loops with the `break`s emit exactly one line, `NextRunOf`. |
| DashboardWidget.FirstSlotIs | includes/dashboard-widget.php:60-97 | The first slot carrying the hook is the one found. |
| DashboardWidget.NextRunMeaning | includes/dashboard-widget.php:58-112 | An empty cron array or an empty timezone gives "No event found". Otherwise "No event found" comes exactly when no slot carries the hook. The time shown is exactly the timestamp of the first slot carrying it. |
| DashboardWidget.Row | includes/dashboard-widget.php:124-160 | A row keeps its name, label and icon. It reads 'Enabled' exactly when its setting is set to its on-value, and 'Disabled' otherwise. |
| DashboardWidget.Statuses | includes/dashboard-widget.php:124-160 | There are seven rows, in source order, each built from its own entry. |
| DashboardWidget.StatusesReadTheirSettings | includes/dashboard-widget.php:124-160 | Each row is 'Enabled' exactly when its key holds 'yes', or '1' for opt-in. A missing key gives 'Disabled'. |
| DashboardWidget.StatusMark | includes/dashboard-widget.php:207-208 | The icon and colour are `dashicons-yes-alt` and `#5cb85c` exactly for 'Enabled', and `dashicons-dismiss` and `#d9534f` otherwise. |
| DashboardWidget.TableLinesQuiet | includes/dashboard-widget.php:202-218 | Rows other than the scheduled one give one line each, with the icon and colour of their status. |
| DashboardWidget.TableLinesAround | includes/dashboard-widget.php:202-229 | The scheduled row adds the next-run line right after itself exactly when it is 'Enabled'. Every row's switch line keeps its place, one further on after an enabled scheduled row. |
| DashboardWidget.TableLinesAppend | includes/dashboard-widget.php:202-229 | The table lines of two row lists are the lines of each, in order. |
| DashboardWidget.WidgetTableShape | includes/dashboard-widget.php:201-229 | The table has seven lines, plus one when scheduling is on. In that case the next-run line comes right after the scheduled row, and it appears nowhere else. Each switch line, at its index, shows its row's title, icon and the icon and colour of its status. |

## Left out

- **HTML output and echo:**
  - All markup, buttons and admin notices.
  - The translation of 'Enabled'. The model compares against the untranslated text.
- **AJAX access control:** nonce and capability checks, `wp_die`, `add_settings_error`.
  Only what the handlers decide is modelled.
- **Shell probes:** `command -v`, `ps aux | grep`, `ls -ld` and the nginx.conf `grep` are
  not modelled. Their outputs are inputs.
- **Helpers defined elsewhere in the plugin:** each is an input.
  - `nppp_is_process_alive`
  - `nppp_get_nginx_conf_paths`
  - `nppp_perform_file_operation`
  - `nppp_initialize_wp_filesystem`
  - `nppp_fetch_default_regex_for_cache_key`
  - `nppp_check_permissions_recursive`
  - `nppp_create_scheduled_events`, modelled as a recorded request
- **Library internals:** each is an input.
  - The evaluation of the user's cache-key regex and its `base64_decode`.
  - `FILTER_VALIDATE_URL`, `is_email`, `sanitize_email`, `sanitize_text_field`.
  - `md5`. The suffix is a constant.
- **Transients:**
  - Expiry is not modelled. A refused deletion is the `stuck` set.
  - The names scanned by the cache clear are taken as transient names. WordPress's
    `_transient_` option prefix is not modelled.
- **Randomness and time:**
  - `random_bytes` key generation; the new key is an input.
  - `DateTime`/timezone formatting of the next run. The model reports the raw timestamp.
  - WP-cron scheduling and unscheduling, which become a flag and a list of requests.
  - Log files.
- **Races:** the PID file vanishing between the existence test and the read, and concurrent
  transient or option writers.
- **Settings.SettingsStore.UpdateFlag, UpdateCacheSchedule, RegenerateApiKey,
  ResetRejectRegex:**
  - `update_option` is modelled as "updated exactly when the write works and the value
    differs".
  - The WordPress `sanitize_option` filter that runs the sanitizer again on the whole array
    is not modelled.
- **Php.IntVal:** the exponent forms of numeric strings are not modelled (`"1e3"` gives 1,
  not 1000). Only leading white space, a sign and decimal digits are read, with 64-bit
  saturation.
- **Status.ReconcileUser:**
  - `in_array` is loose comparison. Its outcome does not change the result, since both
    branches return the configured user.
  - The model compares strings strictly.
- Status.ConfigUser: applies the correction from Findings. The source keeps the raw `shell_exec` output with its line break; that behaviour is `Status.ReconcileUserAsWritten`.
- Status.ReconcileUser: applies the correction from Findings. It tests and returns the trimmed configured user, where the source tests and returns the raw output.
- StatusCache.TransientStore.GetWebserverUser: applies the correction from Findings. It caches the trimmed configured user, where the source caches the raw output with its line break. The as-written decision is `Status.ReconcileUserAsWritten`; there is no stateful as-written version.
- Settings.ApiKeyField: applies the correction from Findings. It rejects 64 hexadecimal digits followed by a line break, which the source accepts and stores. `Settings.Sanitize` and `Settings.SanitizeForm` inherit this stricter test. The as-written test is `Settings.ApiKeyMatchesAsWritten`.
- **Status.PageCountOf:** the recursive directory iterator becomes a sequence of entries in
  iteration order. An exception thrown part-way is the `IteratorFault` entry.
- **Settings.PathField:** in the sanitizer the validator runs in non-premium mode, so
  'file_not_found_or_not_readable' cannot arise there. The rejection message table still
  covers it through the generic message.
- **Settings.Sanitize:** the source assigns only the keys it keeps. The model removes a key
  it does not keep from an initially empty array, which gives the same result because every
  key is handled once.
- **Dashboard widget:** the Purge All, Preload All and star buttons are HTML only.

## Findings

| source | as written | input that shows it | evidently intended | confidence | as-written member | corrected member |
|---|---|---|---|---|---|---|
| includes/status.php:316-331 | The configured web-server user is the raw `shell_exec` output, trailing line break included. It is compared, cached and returned as such, so it never equals the PHP process owner. | nginx.conf says `user www-data;`, the probe prints "www-data\n", and PHP runs as www-data: the verdict is 'Isolated' | compare and return the configured user trimmed, so that the same account gives 'Not Isolated' | not executed | Status.ConfigUserLineBreakBreaksIsolation | Status.SameAccountNotIsolated |
| includes/settings.php:1189-1194 | The 64-hex key pattern ends in `$` without the D modifier, so PCRE also accepts one trailing line break, and the key is stored with it. | 64 times 'a' followed by "\n" | accept exactly 64 hexadecimal characters | not executed | Settings.ApiKeyLineBreakSlipsThrough | Settings.ApiKeyCorrection |
