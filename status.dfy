/** The status checks of the plugin's Status tab: cache-path existence, the permission
    flag kept in the transient store, command availability, the preload lock file, the
    PHP-process and web-server users and the isolation verdict, and the count of pages
    held in the Nginx cache directory.

    Everything the host provides is an input: whether the WordPress filesystem could be
    initialised (`fsReady`), directory tests, the outputs of shell probes, the liveness
    probe for a process id, the user's cache-key regular expression (as a function from
    file content to its match) and PHP's URL validator. */
module Status {
  import opened Php
  import opened Options

  // =======================================================================
  // Cache path
  // =======================================================================

  /** `nppp_check_path`: 'Found', 'Not Found', or nothing when the filesystem
      abstraction could not be initialised. */
  datatype PathStatus = Found | NotFound | NoFilesystem

  function CheckPath(fsReady: bool, settings: Settings, isDir: string -> bool): (r: PathStatus)
    ensures r == NoFilesystem <==> !fsReady
    ensures r == Found <==> fsReady && isDir(CachePath(settings))
  {
    if !fsReady then NoFilesystem
    else if isDir(CachePath(settings)) then Found
    else NotFound
  }

  // =======================================================================
  // Permission flag from the transient store
  // =======================================================================

  const PERM_FALSE: string := "false"
  const PERM_TRUE: string := "true"
  const PERM_NOT_FOUND: string := "Not Found"

  /** `nppp_check_perm_in_cache`: `cached` is what the transient store holds under the
      permission key (None when absent, which PHP returns as `false`). A missing cache
      path overrides it: 'false' for the purge row, 'Not Found' for the permission and
      PHP-FPM rows; otherwise the stored value comes back untouched. */
  function PermInCache(checkPath: bool, checkPerm: bool, checkFpm: bool,
                       path: PathStatus, cached: Option<string>): (r: Option<string>)
    ensures checkPath && path != Found ==> r == Some(PERM_FALSE)
    ensures !checkPath && (checkPerm || checkFpm) && path != Found ==> r == Some(PERM_NOT_FOUND)
    ensures path == Found || !(checkPath || checkPerm || checkFpm) ==> r == cached
  {
    if checkPath && path != Found then Some(PERM_FALSE)
    else if checkPerm && path != Found then Some(PERM_NOT_FOUND)
    else if checkFpm && path != Found then Some(PERM_NOT_FOUND)
    else cached
  }

  /** The permission check never invents a value: it returns what is stored or one of
      its two sentinels, and the sentinels appear only when the cache path is missing. */
  lemma PermInCacheRange(checkPath: bool, checkPerm: bool, checkFpm: bool,
                         path: PathStatus, cached: Option<string>)
    ensures var r := PermInCache(checkPath, checkPerm, checkFpm, path, cached);
      r == cached || (path != Found && (r == Some(PERM_FALSE) || r == Some(PERM_NOT_FOUND)))
  {
  }

  // =======================================================================
  // Commands
  // =======================================================================

  /** `nppp_check_command_status`: 'Installed' or 'Not Installed'. */
  datatype CommandState = Installed | NotInstalled

  /** `output` is what `command -v <name>` printed (None when `shell_exec` gave `null`).
      PHP's `empty` also treats the output "0" as nothing found. */
  function CommandStatus(output: Option<string>): (r: CommandState)
    ensures r == Installed <==> output.Some? && output.value != "" && output.value != "0"
  {
    if !IsEmptyOutput(output) then Installed else NotInstalled
  }

  // =======================================================================
  // Preload lock file
  // =======================================================================

  /** The preload lock is held when the PID file exists, its text reads (by `intval`) as
      a positive process id, and that process is alive. `pidFile` is None when the file
      does not exist; a failed read returns `false`, whose `intval` is 0, so it is
      modelled as the text "". */
  predicate PreloadLockHeld(pidFile: Option<string>, alive: int -> bool)
  {
    pidFile.Some? && IntVal(pidFile.value) > 0 && alive(IntVal(pidFile.value))
  }

  /** A lock file holding the decimal id of a positive process id, optionally followed
      by a line break or other non-digit text, is held exactly when that process lives. */
  lemma LockHeldForWrittenPid(pid: nat, rest: string, alive: int -> bool)
    requires 0 < pid <= PHP_INT_MAX
    requires rest == [] || !IsDigit(rest[0])
    ensures PreloadLockHeld(Some(DecimalString(pid) + rest), alive) <==> alive(pid)
  {
    IntValOfDecimal(pid, rest);
  }

  /** A lock file holding "0", nothing, or text that does not start with a number is
      never held, whatever the liveness probe says. */
  lemma LockNotHeldForNonPid(content: string, alive: int -> bool)
    requires content == "0" || content == [] || (!IsDigit(content[0]) && !IsNumericSpace(content[0])
             && content[0] != '-' && content[0] != '+')
    ensures !PreloadLockHeld(Some(content), alive)
    ensures !PreloadLockHeld(None, alive)
  {
    if content == "0" {
      IntValOfDecimal(0, "");
      assert DecimalString(0) + "" == "0";
    } else {
      IntValBounds(content);
    }
  }

  // =======================================================================
  // Preload status
  // =======================================================================

  /** `nppp_check_preload_status`: 'progress', 'true', 'false'. */
  datatype PreloadState = InProgress | Ready | NotReady

  /** 'progress' exactly when the lock is held; otherwise 'true' only when the stored
      permission is not 'false', wget is installed and the cache path exists.
      None is the early return when the filesystem cannot be initialised. */
  function PreloadStatus(fsReady: bool, pidFile: Option<string>, alive: int -> bool,
                         cached: Option<string>, wgetOutput: Option<string>,
                         path: PathStatus): (r: Option<PreloadState>)
    ensures r.None? <==> !fsReady
    ensures r == Some(InProgress) <==> fsReady && PreloadLockHeld(pidFile, alive)
    ensures r == Some(Ready) <==>
      fsReady && !PreloadLockHeld(pidFile, alive) && cached != Some(PERM_FALSE)
      && CommandStatus(wgetOutput) == Installed && path == Found
  {
    if !fsReady then None
    else if PreloadLockHeld(pidFile, alive) then Some(InProgress)
    else
      var cachedResult := PermInCache(false, false, false, path, cached);
      var wgetStatus := CommandStatus(wgetOutput);
      if cachedResult == Some(PERM_FALSE) || wgetStatus != Installed || path != Found then Some(NotReady)
      else Some(Ready)
  }

  // =======================================================================
  // Users and isolation
  // =======================================================================

  const NOT_DETERMINED: string := "Not Determined"

  /** What the POSIX lookup of the PHP process's effective user gave. */
  datatype PosixLookup = PosixUnavailable | NoPasswdEntry | PasswdName(name: string)

  /** `nppp_get_website_user`: the POSIX user name when it is usable; otherwise the owner
      of WordPress's index.php as `ls -ld | awk` printed it (`lsOutput`), trimmed;
      otherwise "Not Determined". */
  function WebsiteUser(posix: PosixLookup, lsOutput: Option<string>): (r: string)
    ensures posix.PasswdName? && !IsEmpty(posix.name) && posix.name != NOT_DETERMINED ==> r == posix.name
    ensures !(posix.PasswdName? && !IsEmpty(posix.name) && posix.name != NOT_DETERMINED) ==>
      r == if IsEmptyOutput(lsOutput) then NOT_DETERMINED else Trim(lsOutput.value)
  {
    var owner :=
      match posix
      case PosixUnavailable => ""
      case NoPasswdEntry => NOT_DETERMINED
      case PasswdName(name) => name;
    if IsEmpty(owner) || owner == NOT_DETERMINED then
      if !IsEmptyOutput(lsOutput) then Trim(lsOutput.value) else NOT_DETERMINED
    else owner
  }

  /** The website user is empty only when POSIX gave nothing usable and the `ls` output is
      made of white space alone; in every other case it names a user or "Not Determined". */
  lemma WebsiteUserEmptyOnlyForBlankOutput(posix: PosixLookup, lsOutput: Option<string>)
    ensures WebsiteUser(posix, lsOutput) == "" ==>
      lsOutput.Some? && forall i :: 0 <= i < |lsOutput.value| ==> IsTrimChar(lsOutput.value[i])
  {
    if lsOutput.Some? {
      TrimEmptyIff(lsOutput.value);
    }
  }

  /** The isolation verdict of the Status tab. */
  datatype IsolationState = NotIsolated | Isolated

  /** 'Not Isolated' exactly when the PHP process owner is the web-server user (strict
      `===`; None stands for the `null` returned on filesystem failure). */
  function Isolation(websiteUser: string, webserverUser: Option<string>): (r: IsolationState)
    ensures r == NotIsolated <==> webserverUser == Some(websiteUser)
  {
    if webserverUser == Some(websiteUser) then NotIsolated else Isolated
  }

  /** The first word of the Cache Path Permission row. */
  function PermWord(perm: Option<string>): (w: string)
    ensures w == "Granted" <==> perm == Some(PERM_TRUE)
    ensures w == "Not Determined" <==> perm == Some(PERM_NOT_FOUND)
    ensures w == "Need Action (Check Help)" <==> perm != Some(PERM_TRUE) && perm != Some(PERM_NOT_FOUND)
  {
    if perm == Some(PERM_TRUE) then "Granted"
    else if perm == Some(PERM_NOT_FOUND) then "Not Determined"
    else "Need Action (Check Help)"
  }

  /** The Cache Path Permission row: the word, then the PHP process owner in parentheses. */
  function PermLabel(perm: Option<string>, owner: string): (r: string)
  {
    PermWord(perm) + " (" + owner + ")"
  }

  /** The permission row as the Status tab computes it (`check_perm` set): with the cache
      path missing it reads "Not Determined" whatever is stored; with the path present it
      reads "Granted" exactly when the stored permission is 'true'. */
  lemma PermRowReading(path: PathStatus, cached: Option<string>, owner: string)
    ensures var w := PermWord(PermInCache(false, true, false, path, cached));
      && (path != Found ==> w == "Not Determined")
      && (path == Found ==> (w == "Granted" <==> cached == Some(PERM_TRUE)))
      && StartsWith(PermLabel(PermInCache(false, true, false, path, cached), owner), w)
  {
    var w := PermWord(PermInCache(false, true, false, path, cached));
    assert (w + (" (" + owner + ")"))[..|w|] == w;
    assert PermLabel(PermInCache(false, true, false, path, cached), owner) == w + (" (" + owner + ")");
  }

  // -----------------------------------------------------------------------
  // Web-server user
  // -----------------------------------------------------------------------

  const DEFAULT_NGINX_CONF: string := "/etc/nginx/nginx.conf"

  /** The config file inspected: the first located nginx.conf, or the default location. */
  function ConfigFile(confPaths: seq<string>): (f: string)
    ensures confPaths == [] ==> f == DEFAULT_NGINX_CONF
    ensures confPaths != [] ==> f == confPaths[0]
  {
    if confPaths != [] then confPaths[0] else DEFAULT_NGINX_CONF
  }

  /** `array_map('trim', …)`. */
  function TrimEach(xs: seq<string>): (r: seq<string>)
    ensures |r| == |xs|
    ensures forall i :: 0 <= i < |xs| ==> r[i] == Trim(xs[i])
    decreases |xs|
  {
    if xs == [] then [] else [Trim(xs[0])] + TrimEach(xs[1..])
  }

  /** No value is listed twice. */
  predicate Unique(xs: seq<string>)
  {
    forall i, j :: 0 <= i < j < |xs| ==> xs[i] != xs[j]
  }

  lemma UniqueCons(x: string, t: seq<string>)
    requires x !in t && Unique(t)
    ensures Unique([x] + t)
  {
    var r := [x] + t;
    forall i, j | 0 <= i < j < |r|
      ensures r[i] != r[j]
    {
      assert r[j] == t[j - 1];
      if i > 0 {
        assert r[i] == t[i - 1];
      }
    }
  }

  function RemoveAll(xs: seq<string>, x: string): (r: seq<string>)
    ensures |r| <= |xs|
    ensures forall y :: y in r <==> y in xs && y != x
    decreases |xs|
  {
    if xs == [] then []
    else if xs[0] == x then RemoveAll(xs[1..], x)
    else [xs[0]] + RemoveAll(xs[1..], x)
  }

  /** `array_unique`: the first occurrence of every value, in order. */
  function Distinct(xs: seq<string>): (r: seq<string>)
    ensures forall y :: y in r <==> y in xs
    ensures xs != [] ==> r != [] && r[0] == xs[0]
    decreases |xs|
  {
    if xs == [] then []
    else [xs[0]] + Distinct(RemoveAll(xs[1..], xs[0]))
  }

  lemma {:induction false} DistinctUnique(xs: seq<string>)
    ensures Unique(Distinct(xs))
    decreases |xs|
  {
    if xs != [] {
      var t := Distinct(RemoveAll(xs[1..], xs[0]));
      DistinctUnique(RemoveAll(xs[1..], xs[0]));
      UniqueCons(xs[0], t);
    }
  }

  /** `array_filter` on strings: drops every value PHP considers `false` ("" and "0"). */
  function DropEmpty(xs: seq<string>): (r: seq<string>)
    ensures forall y :: y in r <==> y in xs && !IsEmpty(y)
    decreases |xs|
  {
    if xs == [] then []
    else if IsEmpty(xs[0]) then DropEmpty(xs[1..])
    else [xs[0]] + DropEmpty(xs[1..])
  }

  lemma {:induction false} DropEmptyKeepsUnique(xs: seq<string>)
    requires Unique(xs)
    ensures Unique(DropEmpty(xs))
    decreases |xs|
  {
    if xs != [] {
      assert Unique(xs[1..]) by {
        forall i, j | 0 <= i < j < |xs| - 1
          ensures xs[1..][i] != xs[1..][j]
        {
          assert xs[1..][i] == xs[i + 1] && xs[1..][j] == xs[j + 1];
        }
      }
      DropEmptyKeepsUnique(xs[1..]);
      if !IsEmpty(xs[0]) {
        assert xs[0] !in xs[1..] by {
          forall k | 0 <= k < |xs| - 1
            ensures xs[1..][k] != xs[0]
          {
            assert xs[1..][k] == xs[k + 1];
          }
        }
        UniqueCons(xs[0], DropEmpty(xs[1..]));
      }
    }
  }

  /** The lines of a probe's output (nothing for no output), each trimmed. */
  function OutputLines(output: Option<string>): (r: seq<string>)
  {
    TrimEach(Split(if output.Some? then output.value else "", '\n'))
  }

  lemma TrimmedLine(line: string)
    requires '\n' !in line
    ensures Trim(Trim(line)) == Trim(line) && '\n' !in Trim(line)
  {
    TrimIdempotent(line);
    TrimChars(line);
  }

  lemma OutputLinesWellFormed(output: Option<string>)
    ensures forall u :: u in OutputLines(output) ==> Trim(u) == u && '\n' !in u
  {
    var lines := Split(if output.Some? then output.value else "", '\n');
    var tl := OutputLines(output);
    assert tl == TrimEach(lines);
    forall u | u in tl
      ensures Trim(u) == u && '\n' !in u
    {
      var k :| 0 <= k < |tl| && tl[k] == u;
      assert u == Trim(lines[k]);
      TrimmedLine(lines[k]);
    }
  }

  /** The users of the running web-server processes: the lines `ps aux | grep … | awk
      '{print $1}' | sort | uniq` printed (`psOutput`, None for no output), each trimmed,
      duplicates and empty values removed. */
  function ProcessUsers(psOutput: Option<string>): (r: seq<string>)
  {
    DropEmpty(Distinct(OutputLines(psOutput)))
  }

  /** Every observed user is a non-empty, trimmed, single-line name, listed once. */
  lemma ProcessUsersWellFormed(psOutput: Option<string>)
    ensures forall u :: u in ProcessUsers(psOutput) ==> !IsEmpty(u) && Trim(u) == u && '\n' !in u
    ensures Unique(ProcessUsers(psOutput))
  {
    OutputLinesWellFormed(psOutput);
    DistinctUnique(OutputLines(psOutput));
    DropEmptyKeepsUnique(Distinct(OutputLines(psOutput)));
  }

  /** The first line that is not empty. */
  function FirstNonEmpty(xs: seq<string>): (r: Option<string>)
    decreases |xs|
  {
    if xs == [] then None else if !IsEmpty(xs[0]) then Some(xs[0]) else FirstNonEmpty(xs[1..])
  }

  lemma {:induction false} FirstNonEmptyIgnoresEmpty(xs: seq<string>, x: string)
    requires IsEmpty(x)
    ensures FirstNonEmpty(RemoveAll(xs, x)) == FirstNonEmpty(xs)
    decreases |xs|
  {
    if xs != [] {
      FirstNonEmptyIgnoresEmpty(xs[1..], x);
    }
  }

  lemma {:induction false} FirstOfDropDistinct(xs: seq<string>)
    ensures DropEmpty(Distinct(xs)) == [] <==> FirstNonEmpty(xs).None?
    ensures DropEmpty(Distinct(xs)) != [] ==> FirstNonEmpty(xs) == Some(DropEmpty(Distinct(xs))[0])
    decreases |xs|
  {
    if xs != [] {
      var rest := RemoveAll(xs[1..], xs[0]);
      FirstOfDropDistinct(rest);
      assert Distinct(xs) == [xs[0]] + Distinct(rest);
      if IsEmpty(xs[0]) {
        assert DropEmpty(Distinct(xs)) == DropEmpty(Distinct(rest));
        FirstNonEmptyIgnoresEmpty(xs[1..], xs[0]);
      }
    }
  }

  /** The first observed user (`reset`) is the first line of the `ps` output that is not
      empty once trimmed; there is none exactly when no such line exists. */
  lemma FirstProcessUser(psOutput: Option<string>)
    ensures ProcessUsers(psOutput) == [] <==> FirstNonEmpty(OutputLines(psOutput)).None?
    ensures ProcessUsers(psOutput) != [] ==> FirstNonEmpty(OutputLines(psOutput)) == Some(ProcessUsers(psOutput)[0])
  {
    FirstOfDropDistinct(OutputLines(psOutput));
  }

  /** `nppp_get_webserver_user`'s decision as the source writes it. `confOutput` is the
      output of the `grep user nginx.conf | awk | sed` probe exactly as `shell_exec`
      returns it, line break included. */
  function ReconcileUserAsWritten(configExists: bool, users: seq<string>,
                                  confOutput: Option<string>): (r: string)
    ensures !configExists ==> r == NOT_DETERMINED
    ensures configExists && !IsEmptyOutput(confOutput) ==> r == confOutput.value
    ensures configExists && IsEmptyOutput(confOutput) ==>
      r == (if users != [] then users[0] else NOT_DETERMINED)
    ensures r == NOT_DETERMINED || r in users || (confOutput.Some? && r == confOutput.value)
  {
    if !configExists then NOT_DETERMINED
    else if !IsEmptyOutput(confOutput) && users != [] && confOutput.value in users then confOutput.value
    else if !IsEmptyOutput(confOutput) then confOutput.value
    else if users != [] then users[0]
    else NOT_DETERMINED
  }

  /** As written, the configured user keeps the line break `shell_exec` returns, so it is
      never equal to the PHP process owner: with nginx.conf saying `user www-data;`, the
      workers and PHP-FPM both running as www-data, the verdict is 'Isolated'. */
  lemma ConfigUserLineBreakBreaksIsolation()
    ensures ReconcileUserAsWritten(true, ["www-data"], Some("www-data\n")) == "www-data\n"
    ensures Isolation("www-data", Some(ReconcileUserAsWritten(true, ["www-data"], Some("www-data\n"))))
              == Isolated
  {
    assert "www-data\n" !in ["www-data"];
  }

  /** The configured user as a name: the probe output trimmed. */
  function ConfigUser(confOutput: Option<string>): (r: Option<string>)
    ensures r.Some? <==> confOutput.Some?
    ensures r.Some? ==> r.value == Trim(confOutput.value)
  {
    if confOutput.Some? then Some(Trim(confOutput.value)) else None
  }

  /** The web-server user: "Not Determined" without a config file; else the configured user
      (whether or not the process list confirms it); else the first observed process user;
      else "Not Determined". The configured user is compared and returned trimmed. */
  function ReconcileUser(configExists: bool, users: seq<string>, confOutput: Option<string>): (r: string)
    ensures !configExists ==> r == NOT_DETERMINED
    ensures configExists && !IsEmptyOutput(ConfigUser(confOutput)) ==> r == Trim(confOutput.value)
    ensures configExists && IsEmptyOutput(ConfigUser(confOutput)) && users != [] ==> r == users[0]
    ensures configExists && IsEmptyOutput(ConfigUser(confOutput)) && users == [] ==> r == NOT_DETERMINED
  {
    ReconcileUserAsWritten(configExists, users, ConfigUser(confOutput))
  }

  /** With the configured user trimmed, the same account on both sides is 'Not Isolated',
      whatever line break the probe printed after the name. */
  lemma SameAccountNotIsolated(user: string, trailer: string, users: seq<string>)
    requires !IsEmpty(user) && Trim(user) == user
    requires forall i :: 0 <= i < |trailer| ==> IsTrimChar(trailer[i])
    ensures Isolation(user, Some(ReconcileUser(true, users, Some(user + trailer)))) == NotIsolated
  {
    var s := user + trailer;
    assert user != [];
    assert TrimLeft(user) == user;
    assert TrimLeft(s) == s;
    TrimRightDropsTrailer(user, trailer);
  }

  lemma {:induction false} TrimRightDropsTrailer(user: string, trailer: string)
    requires user != [] && !IsTrimChar(user[|user| - 1])
    requires forall i :: 0 <= i < |trailer| ==> IsTrimChar(trailer[i])
    ensures TrimRight(user + trailer) == user
    decreases |trailer|
  {
    if trailer == [] {
      assert user + trailer == user;
    } else {
      var s := user + trailer;
      assert s[..|s| - 1] == user + trailer[..|trailer| - 1];
      TrimRightDropsTrailer(user, trailer[..|trailer| - 1]);
    }
  }

  // =======================================================================
  // Pages in cache
  // =======================================================================

  /** One item of the recursive walk over the cache directory: something that is not a
      regular file (a directory, say), a regular file with its readability and content,
      or the point at which the directory iterator throws. */
  datatype Entry = NonRegular | Regular(readable: bool, content: string) | IteratorFault

  /** What `preg_match($regex, $content, $matches)` gives: no match, a match whose
      `$matches` lacks index 1 or 2, or a match with both groups. */
  datatype RegexMatch = NoMatch | MatchWithoutGroups | MatchGroups(host: string, requestUri: string)

  /** `nppp_get_in_cache_page_count`: a count, or one of its status strings
      ('Not Found', 'Undetermined', 'RegexError'), or nothing on filesystem failure. */
  datatype PageCount = Pages(n: nat) | PathNotFound | Undetermined | RegexError | CountUnavailable

  const REDIRECT_301: string := "Status: 301 Moved Permanently"
  const REDIRECT_302: string := "Status: 302 Found"

  predicate IsRedirect(content: string)
  {
    Contains(content, REDIRECT_301) || Contains(content, REDIRECT_302)
  }

  /** PCRE's `\s`: space, \t, \n, \v, \f, \r. */
  predicate IsPcreSpace(c: char)
  {
    c == ' ' || c == '\t' || c == '\n' || c == '\U{000B}' || c == '\U{000C}' || c == '\r'
  }

  /** `.*GET` from index `j`: "GET" occurs at or after `j` with no line break before it. */
  predicate GetOnLine(s: string, j: nat)
    decreases |s| - j
  {
    j + 3 <= |s| && (s[j..j + 3] == "GET" || (s[j] != '\n' && GetOnLine(s, j + 1)))
  }

  /** `KEY:\s.*GET` matches at index `i`. */
  predicate KeyMarkerAt(s: string, i: nat)
  {
    i + 5 <= |s| && s[i..i + 4] == "KEY:" && IsPcreSpace(s[i + 4]) && GetOnLine(s, i + 5)
  }

  predicate KeyMarkerFrom(s: string, i: nat)
    requires i <= |s|
    decreases |s| - i
  {
    KeyMarkerAt(s, i) || (i < |s| && KeyMarkerFrom(s, i + 1))
  }

  /** `preg_match('/KEY:\s.*GET/', $content)`: the entry was cached for a GET request. */
  predicate HasGetKey(content: string)
  {
    KeyMarkerFrom(content, 0)
  }

  lemma {:induction false} KeyMarkerFromIff(s: string, i: nat)
    requires i <= |s|
    ensures KeyMarkerFrom(s, i) <==> exists k: nat :: i <= k && KeyMarkerAt(s, k)
    decreases |s| - i
  {
    if i < |s| {
      KeyMarkerFromIff(s, i + 1);
    }
  }

  /** The GET marker test is the unanchored search: it holds exactly when `KEY:`, one white
      space character, and then "GET" on the same line occur somewhere in the content. */
  lemma HasGetKeyIff(content: string)
    ensures HasGetKey(content) <==> exists k: nat :: KeyMarkerAt(content, k)
  {
    KeyMarkerFromIff(content, 0);
  }

  /** The plugin's skip rule for a readable file: a 301/302 redirect, or an entry not
      cached for a GET request. */
  predicate Skipped(content: string)
  {
    IsRedirect(content) || !HasGetKey(content)
  }

  /** An entry that survives the skips of rule `skips`: a readable regular file whose
      content the rule keeps. */
  predicate IsCandidate(e: Entry, skips: string -> bool)
  {
    e.Regular? && e.readable && !skips(e.content)
  }

  /** An entry that aborts the whole count with 'Undetermined'. */
  predicate Aborts(e: Entry)
  {
    e.IteratorFault? || (e.Regular? && !e.readable)
  }

  /** The one-time test of the cache-key regex: both groups present, the trimmed host and
      request URI not both empty, and `https://` + host + URI a valid URL. */
  predicate RegexValidates(m: RegexMatch, urlValid: string -> bool)
  {
    m.MatchGroups? &&
    var url := Trim(m.host) + Trim(m.requestUri);
    url != "" && urlValid("https://" + url)
  }

  function Plus(k: nat, r: PageCount): PageCount
  {
    if r.Pages? then Pages(k + r.n) else r
  }

  /** The walk over the entries, from the front, with skip rule `skips` (the plugin's is
      `Skipped`); `tested` records whether the regex has already been validated. */
  function Walk(entries: seq<Entry>, tested: bool, skips: string -> bool, rx: string -> RegexMatch,
                urlValid: string -> bool): PageCount
    decreases |entries|
  {
    if entries == [] then Pages(0)
    else
      var e := entries[0];
      if e.IteratorFault? then Undetermined
      else if e.NonRegular? then Walk(entries[1..], tested, skips, rx, urlValid)
      else if !e.readable then Undetermined
      else if skips(e.content) then Walk(entries[1..], tested, skips, rx, urlValid)
      else if !tested && !RegexValidates(rx(e.content), urlValid) then RegexError
      else Plus(if rx(e.content).NoMatch? then 0 else 1, Walk(entries[1..], true, skips, rx, urlValid))
  }

  /** The page count: the two preconditions in order (cache path first, then the stored
      permission), then the walk with the plugin's skip rule. */
  function PageCountOf(fsReady: bool, path: PathStatus, cachedPerm: Option<string>,
                       entries: seq<Entry>, rx: string -> RegexMatch,
                       urlValid: string -> bool): (r: PageCount)
    ensures !fsReady ==> r == CountUnavailable
    ensures fsReady && path != Found ==> r == PathNotFound
    ensures fsReady && path == Found && cachedPerm == Some(PERM_FALSE) ==> r == Undetermined
    ensures fsReady && path == Found && cachedPerm != Some(PERM_FALSE) ==>
      r == Walk(entries, false, Skipped, rx, urlValid)
  {
    if !fsReady then CountUnavailable
    else
      var cachedResult := PermInCache(false, false, false, path, cachedPerm);
      if path != Found then PathNotFound
      else if cachedResult == Some(PERM_FALSE) then Undetermined
      else Walk(entries, false, Skipped, rx, urlValid)
  }

  /** An aborting entry, or a surviving file that fails the pending one-time test, ends the
      walk whatever follows it. */
  lemma WalkStops(rest: seq<Entry>, tested: bool, rx: string -> RegexMatch, urlValid: string -> bool)
    requires rest != []
    ensures Aborts(rest[0]) ==> Walk(rest, tested, Skipped, rx, urlValid) == Undetermined
    ensures IsCandidate(rest[0], Skipped) && !tested && !RegexValidates(rx(rest[0].content), urlValid) ==>
      Walk(rest, tested, Skipped, rx, urlValid) == RegexError
  {
  }

  /** A non-file or a skipped file leaves the walk's result to the entries after it. */
  lemma WalkPassesOver(rest: seq<Entry>, tested: bool, rx: string -> RegexMatch, urlValid: string -> bool)
    requires rest != [] && (rest[0].NonRegular? || (rest[0].Regular? && rest[0].readable && Skipped(rest[0].content)))
    ensures Walk(rest, tested, Skipped, rx, urlValid) == Walk(rest[1..], tested, Skipped, rx, urlValid)
  {
  }

  /** A surviving file that passes (or no longer needs) the one-time test adds one when the
      regex matches it, and validates the regex for the entries after it. */
  lemma WalkCounts(rest: seq<Entry>, tested: bool, rx: string -> RegexMatch, urlValid: string -> bool)
    requires rest != [] && rest[0].Regular? && rest[0].readable && !Skipped(rest[0].content)
    requires tested || RegexValidates(rx(rest[0].content), urlValid)
    ensures Walk(rest, tested, Skipped, rx, urlValid) ==
      Plus(if rx(rest[0].content).NoMatch? then 0 else 1, Walk(rest[1..], true, Skipped, rx, urlValid))
  {
  }

  /** `nppp_get_in_cache_page_count`, one entry at a time with a counter and a
      one-shot flag, returning early on every error. */
  method CountPagesInCache(fsReady: bool, path: PathStatus, cachedPerm: Option<string>,
                           entries: seq<Entry>, rx: string -> RegexMatch,
                           urlValid: string -> bool) returns (r: PageCount)
    ensures r == PageCountOf(fsReady, path, cachedPerm, entries, rx, urlValid)
  {
    if !fsReady {
      return CountUnavailable;
    }
    var cachedResult := PermInCache(false, false, false, path, cachedPerm);
    if path != Found {
      return PathNotFound;
    }
    if cachedResult == Some(PERM_FALSE) {
      return Undetermined;
    }
    var urlsCount: nat := 0;
    var regexTested := false;
    var rest := entries;
    while rest != []
      invariant Walk(entries, false, Skipped, rx, urlValid) == Plus(urlsCount, Walk(rest, regexTested, Skipped, rx, urlValid))
      decreases |rest|
    {
      var e := rest[0];
      WalkStops(rest, regexTested, rx, urlValid);
      if e.IteratorFault? || (e.Regular? && !e.readable) {
        return Undetermined;
      } else if e.NonRegular? || Skipped(e.content) {
        WalkPassesOver(rest, regexTested, rx, urlValid);
      } else {
        if !regexTested {
          if !RegexValidates(rx(e.content), urlValid) {
            return RegexError;
          }
        }
        WalkCounts(rest, regexTested, rx, urlValid);
        regexTested := true;
        if !rx(e.content).NoMatch? {
          urlsCount := urlsCount + 1;
        }
      }
      rest := rest[1..];
    }
    return Pages(urlsCount);
  }

  // -----------------------------------------------------------------------
  // What the walk means
  // -----------------------------------------------------------------------

  /** The contents of the entries that survive the skips, in walk order. */
  function Candidates(entries: seq<Entry>, skips: string -> bool): seq<string>
    decreases |entries|
  {
    if entries == [] then []
    else if IsCandidate(entries[0], skips) then [entries[0].content] + Candidates(entries[1..], skips)
    else Candidates(entries[1..], skips)
  }

  /** How many of the given contents the cache-key regex matches. */
  function MatchCount(contents: seq<string>, rx: string -> RegexMatch): nat
    decreases |contents|
  {
    if contents == [] then 0
    else (if rx(contents[0]).NoMatch? then 0 else 1) + MatchCount(contents[1..], rx)
  }

  predicate NoAbort(entries: seq<Entry>)
  {
    forall k :: 0 <= k < |entries| ==> !Aborts(entries[k])
  }

  /** Once the regex has been validated, later entries are never validated again: a walk
      without aborting entries counts exactly the surviving entries the regex matches,
      whether or not their groups would pass the URL test. */
  lemma {:induction false} ValidatedWalkCounts(entries: seq<Entry>, skips: string -> bool,
                                               rx: string -> RegexMatch, urlValid: string -> bool)
    requires NoAbort(entries)
    ensures Walk(entries, true, skips, rx, urlValid) == Pages(MatchCount(Candidates(entries, skips), rx))
    decreases |entries|
  {
    if entries != [] {
      assert !Aborts(entries[0]);
      ValidatedWalkCounts(entries[1..], skips, rx, urlValid);
    }
  }

  /** A walk without aborting entries: 'RegexError' when the first surviving entry fails the
      one-time test, otherwise the number of surviving entries the regex matches (0 for a
      directory with none). Skipped entries are never counted. */
  lemma {:induction false} CleanWalkResult(entries: seq<Entry>, skips: string -> bool,
                                           rx: string -> RegexMatch, urlValid: string -> bool)
    requires NoAbort(entries)
    ensures var cs := Candidates(entries, skips);
      Walk(entries, false, skips, rx, urlValid) ==
        if cs == [] || RegexValidates(rx(cs[0]), urlValid) then Pages(MatchCount(cs, rx)) else RegexError
    decreases |entries|
  {
    if entries != [] {
      assert !Aborts(entries[0]);
      if IsCandidate(entries[0], skips) {
        ValidatedWalkCounts(entries[1..], skips, rx, urlValid);
      } else {
        CleanWalkResult(entries[1..], skips, rx, urlValid);
      }
    }
  }

  /** The first surviving entry alone decides 'RegexError', whatever follows it. */
  lemma {:induction false} FirstCandidateDecides(pre: seq<Entry>, e: Entry, post: seq<Entry>, skips: string -> bool,
                                                 rx: string -> RegexMatch, urlValid: string -> bool)
    requires NoAbort(pre) && Candidates(pre, skips) == []
    requires IsCandidate(e, skips) && !RegexValidates(rx(e.content), urlValid)
    ensures Walk(pre + [e] + post, false, skips, rx, urlValid) == RegexError
    decreases |pre|
  {
    if pre == [] {
      assert pre + [e] + post == [e] + post;
    } else {
      assert !Aborts(pre[0]) && !IsCandidate(pre[0], skips);
      assert (pre + [e] + post)[1..] == pre[1..] + [e] + post;
      FirstCandidateDecides(pre[1..], e, post, skips, rx, urlValid);
    }
  }

  /** An unreadable file or an iterator exception reached by the walk makes the whole
      count 'Undetermined', whatever was counted before and whatever follows. */
  lemma {:induction false} AbortMakesUndetermined(pre: seq<Entry>, e: Entry, post: seq<Entry>, tested: bool,
                                                  skips: string -> bool, rx: string -> RegexMatch,
                                                  urlValid: string -> bool)
    requires NoAbort(pre) && Aborts(e)
    requires tested || Candidates(pre, skips) == [] || RegexValidates(rx(Candidates(pre, skips)[0]), urlValid)
    ensures Walk(pre + [e] + post, tested, skips, rx, urlValid) == Undetermined
    decreases |pre|
  {
    if pre == [] {
      assert pre + [e] + post == [e] + post;
    } else {
      assert !Aborts(pre[0]);
      assert (pre + [e] + post)[1..] == pre[1..] + [e] + post;
      if IsCandidate(pre[0], skips) {
        AbortMakesUndetermined(pre[1..], e, post, true, skips, rx, urlValid);
      } else {
        AbortMakesUndetermined(pre[1..], e, post, tested, skips, rx, urlValid);
      }
    }
  }

  /** A skipped entry (not a regular file, or a readable file the rule skips) changes
      nothing: the walk gives the same result as if it were absent. */
  lemma {:induction false} SkippedEntryInvisible(pre: seq<Entry>, e: Entry, post: seq<Entry>, tested: bool,
                                                 skips: string -> bool, rx: string -> RegexMatch,
                                                 urlValid: string -> bool)
    requires e.NonRegular? || (e.Regular? && e.readable && skips(e.content))
    ensures Walk(pre + [e] + post, tested, skips, rx, urlValid) == Walk(pre + post, tested, skips, rx, urlValid)
    decreases |pre|
  {
    var a := pre + [e] + post;
    var b := pre + post;
    if pre == [] {
      assert a == [e] + post && a[0] == e && a[1..] == post;
      assert b == post;
    } else {
      assert a[0] == pre[0] && b[0] == pre[0];
      assert a[1..] == pre[1..] + [e] + post;
      assert b[1..] == pre[1..] + post;
      SkippedEntryInvisible(pre[1..], e, post, tested, skips, rx, urlValid);
      SkippedEntryInvisible(pre[1..], e, post, true, skips, rx, urlValid);
    }
  }

  /** With the plugin's rule, redirects and entries without the GET marker are skipped and
      so never counted: a regular readable file survives exactly when it is neither. */
  lemma PluginCandidates(e: Entry)
    ensures IsCandidate(e, Skipped) <==>
      e.Regular? && e.readable && !IsRedirect(e.content) && HasGetKey(e.content)
  {
  }
}
