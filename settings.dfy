/** The validation side of the plugin's settings page: the notice-type whitelist, the
    cache-path validator, the sanitiser of the settings form, the backslash collapsing of
    the reject regex, the cron-expression check, and the AJAX handlers that rewrite a
    single key of the settings array.

    The WordPress helpers are inputs: `sanitizeText` (`sanitize_text_field`),
    `sanitizeEmail`/`isEmail`, the directory and file tests, and whether the options
    store accepts a write. */
module Settings {
  import opened Php
  import opened Options

  // =======================================================================
  // Notice type
  // =======================================================================

  const ALLOWED_MESSAGE_TYPES: seq<string> := ["success", "error", "info", "warning"]

  /** The notice type shown after a redirect: the requested one when it is allowed,
      'info' otherwise. */
  function MessageType(requested: string): (t: string)
    ensures t in ALLOWED_MESSAGE_TYPES
    ensures t == requested <==> requested in ALLOWED_MESSAGE_TYPES
    ensures requested !in ALLOWED_MESSAGE_TYPES ==> t == "info"
  {
    if requested in ALLOWED_MESSAGE_TYPES then requested else "info"
  }

  // =======================================================================
  // Cache path
  // =======================================================================

  /** `nppp_validate_path`: `true`, `false` (filesystem unavailable), or one of the three
      rejection strings. */
  datatype PathVerdict = Accepted | InitFailed | CriticalPath | DirectoryMissing | FileMissing

  const CRITICAL_DIRECTORIES: seq<string> := [
    "/bin", "/boot", "/etc", "/lib", "/lib64", "/media", "/proc",
    "/root", "/sbin", "/srv", "/sys", "/usr", "/home", "/mnt"
  ]

  /** `strpos($path, $dir) === 0` for some critical directory: a raw prefix test. */
  predicate HasCriticalPrefix(path: string)
  {
    exists i :: 0 <= i < |CRITICAL_DIRECTORIES| && StartsWith(path, CRITICAL_DIRECTORIES[i])
  }

  /** `[a-zA-Z0-9_-]`. */
  predicate IsSegmentChar(c: char)
  {
    ('a' <= c <= 'z') || ('A' <= c <= 'Z') || ('0' <= c <= '9') || c == '_' || c == '-'
  }

  predicate IsSegment(s: string)
  {
    |s| > 0 && forall i :: 0 <= i < |s| ==> IsSegmentChar(s[i])
  }

  predicate AllSegments(parts: seq<string>)
  {
    forall k :: 0 <= k < |parts| ==> IsSegment(parts[k])
  }

  /** `/seg(/seg)+/?` matched against the whole of `t`. */
  predicate PathShape(t: string)
  {
    |t| >= 1 && t[0] == '/' &&
    var u := if |t| >= 2 && t[|t| - 1] == '/' then t[1..|t| - 1] else t[1..];
    var parts := Split(u, '/');
    |parts| >= 2 && AllSegments(parts)
  }

  /** `preg_match('/^\/(?:seg(?:\/seg)+)\/?$/', $path)`. Without the D modifier PCRE's `$`
      also matches just before a final line break, so one trailing "\n" is tolerated. */
  predicate PathGrammar(path: string)
  {
    PathShape(path) || (|path| >= 1 && path[|path| - 1] == '\n' && PathShape(path[..|path| - 1]))
  }

  /** The validator's verdict, check by check in the order the validator makes them. */
  function PathVerdictOf(fsReady: bool, path: string, premium: bool,
                         isDir: string -> bool, isFile: string -> bool): PathVerdict
  {
    if !fsReady then InitFailed
    else if path == DEFAULT_CACHE_PATH then Accepted
    else if HasCriticalPrefix(path) then CriticalPath
    else if !PathGrammar(path) then CriticalPath
    else if premium then (if isFile(path) then Accepted else FileMissing)
    else if isDir(path) then Accepted else DirectoryMissing
  }

  /** `nppp_validate_path`, scanning the critical directories in order and returning at
      the first that prefixes the path. */
  method ValidatePath(fsReady: bool, path: string, premium: bool,
                      isDir: string -> bool, isFile: string -> bool) returns (v: PathVerdict)
    ensures v == PathVerdictOf(fsReady, path, premium, isDir, isFile)
  {
    if !fsReady {
      return InitFailed;
    }
    if path == DEFAULT_CACHE_PATH {
      return Accepted;
    }
    var i := 0;
    while i < |CRITICAL_DIRECTORIES|
      invariant 0 <= i <= |CRITICAL_DIRECTORIES|
      invariant forall j :: 0 <= j < i ==> !StartsWith(path, CRITICAL_DIRECTORIES[j])
    {
      if StartsWith(path, CRITICAL_DIRECTORIES[i]) {
        return CriticalPath;
      }
      i := i + 1;
    }
    if !PathGrammar(path) {
      return CriticalPath;
    }
    if premium {
      if !isFile(path) {
        return FileMissing;
      }
    } else {
      if !isDir(path) {
        return DirectoryMissing;
      }
    }
    return Accepted;
  }

  /** The placeholder path is accepted before any other check, even when no such
      directory exists and even for a premium-mode file check. */
  lemma DefaultPathWhitelisted(premium: bool, isDir: string -> bool, isFile: string -> bool)
    ensures PathVerdictOf(true, DEFAULT_CACHE_PATH, premium, isDir, isFile) == Accepted
  {
  }

  /** Every path that starts with a critical directory as raw text is rejected, so a
      sibling such as /usrdata or /homework is rejected as well. */
  lemma CriticalPrefixRejected(path: string, i: nat, premium: bool,
                               isDir: string -> bool, isFile: string -> bool)
    requires i < |CRITICAL_DIRECTORIES| && StartsWith(path, CRITICAL_DIRECTORIES[i])
    ensures PathVerdictOf(true, path, premium, isDir, isFile) == CriticalPath
  {
    assert path != DEFAULT_CACHE_PATH by {
      assert path[1] == CRITICAL_DIRECTORIES[i][1] != 'd';
      assert DEFAULT_CACHE_PATH[1] == 'd';
    }
  }

  lemma UsrdataRejected(isDir: string -> bool, isFile: string -> bool)
    ensures PathVerdictOf(true, "/usrdata/x", false, isDir, isFile) == CriticalPath
  {
    CriticalPrefixRejected("/usrdata/x", 11, false, isDir, isFile);
  }

  /** A first-level directory such as /cache (with or without a trailing slash) never
      matches the grammar. */
  lemma FirstLevelDirectoryRejected(seg: string)
    requires IsSegment(seg)
    ensures !PathGrammar("/" + seg)
    ensures !PathGrammar("/" + seg + "/")
  {
    assert '/' !in seg;
    SplitWithoutSeparator(seg, '/');
    var t1 := "/" + seg;
    var t2 := "/" + seg + "/";
    assert t1[1..] == seg && t1[|t1| - 1] != '/';
    assert t2[1..|t2| - 1] == seg;
    assert t1[|t1| - 1] != '\n' && t2[|t2| - 1] != '\n';
  }

  /** Two segments under the root are accepted by the grammar, with or without a trailing
      slash. */
  lemma TwoSegmentsMatch(a: string, b: string)
    requires IsSegment(a) && IsSegment(b)
    ensures PathGrammar("/" + a + "/" + b)
    ensures PathGrammar("/" + a + "/" + b + "/")
  {
    assert '/' !in a && '/' !in b;
    SplitWithoutSeparator(b, '/');
    SplitAtFirst(a, b, '/');
    var t1 := "/" + a + "/" + b;
    var t2 := t1 + "/";
    assert t1[1..] == a + ['/'] + b;
    assert t2[1..|t2| - 1] == a + ['/'] + b;
    assert t1[|t1| - 1] == b[|b| - 1];
  }

  /** A path the validator accepts is the placeholder, or a well-formed path outside every
      critical directory that the filesystem test confirms. */
  lemma AcceptedMeaning(fsReady: bool, path: string, premium: bool,
                        isDir: string -> bool, isFile: string -> bool)
    requires PathVerdictOf(fsReady, path, premium, isDir, isFile) == Accepted
    ensures fsReady
    ensures path == DEFAULT_CACHE_PATH ||
      (!HasCriticalPrefix(path) && PathGrammar(path) && (if premium then isFile(path) else isDir(path)))
  {
  }

  // =======================================================================
  // Reject regex: backslash runs
  // =======================================================================

  /** `preg_replace('/\\\\+/', '\\', $s)`: every run of backslashes becomes one. */
  function CollapseBackslashes(s: string): string
    decreases |s|
  {
    if s == [] then []
    else if |s| >= 2 && s[0] == '\\' && s[1] == '\\' then CollapseBackslashes(s[1..])
    else [s[0]] + CollapseBackslashes(s[1..])
  }

  predicate NoDoubleBackslash(s: string)
  {
    forall i :: 0 <= i < |s| - 1 ==> !(s[i] == '\\' && s[i + 1] == '\\')
  }

  /** The input with every backslash removed: what collapsing must preserve. */
  function WithoutBackslashes(s: string): string
    decreases |s|
  {
    if s == [] then [] else (if s[0] == '\\' then [] else [s[0]]) + WithoutBackslashes(s[1..])
  }

  lemma {:induction false} CollapseFront(s: string)
    ensures |CollapseBackslashes(s)| <= |s|
    ensures s != [] ==> CollapseBackslashes(s) != [] && CollapseBackslashes(s)[0] == s[0]
    decreases |s|
  {
    if s != [] {
      CollapseFront(s[1..]);
    }
  }

  /** No run of two backslashes survives. */
  lemma {:induction false} CollapseLeavesNoRun(s: string)
    ensures NoDoubleBackslash(CollapseBackslashes(s))
    decreases |s|
  {
    if s != [] {
      CollapseLeavesNoRun(s[1..]);
      if !(|s| >= 2 && s[0] == '\\' && s[1] == '\\') {
        var t := CollapseBackslashes(s[1..]);
        var r := [s[0]] + t;
        CollapseFront(s[1..]);
        forall i | 0 <= i < |r| - 1
          ensures !(r[i] == '\\' && r[i + 1] == '\\')
        {
          if i > 0 {
            assert r[i] == t[i - 1] && r[i + 1] == t[i];
          }
        }
      }
    }
  }

  /** A string without a backslash run is left exactly as it is. */
  lemma {:induction false} CollapseFixesNoRun(s: string)
    requires NoDoubleBackslash(s)
    ensures CollapseBackslashes(s) == s
    decreases |s|
  {
    if s != [] {
      assert NoDoubleBackslash(s[1..]) by {
        forall i | 0 <= i < |s| - 2
          ensures !(s[1..][i] == '\\' && s[1..][i + 1] == '\\')
        {
          assert s[1..][i] == s[i + 1] && s[1..][i + 1] == s[i + 2];
        }
      }
      CollapseFixesNoRun(s[1..]);
      assert |s| < 2 || !(s[0] == '\\' && s[1] == '\\');
      assert [s[0]] + s[1..] == s;
    }
  }

  /** Collapsing is idempotent. */
  lemma CollapseIdempotent(s: string)
    ensures CollapseBackslashes(CollapseBackslashes(s)) == CollapseBackslashes(s)
  {
    CollapseLeavesNoRun(s);
    CollapseFixesNoRun(CollapseBackslashes(s));
  }

  /** A cut after a character other than a backslash splits no run, so the two sides
      collapse independently. */
  lemma {:induction false} CollapseSplits(a: string, b: string)
    requires a == [] || a[|a| - 1] != '\\'
    ensures CollapseBackslashes(a + b) == CollapseBackslashes(a) + CollapseBackslashes(b)
    decreases |a|
  {
    if a != [] {
      var s := a + b;
      assert s[0] == a[0] && s[1..] == a[1..] + b;
      CollapseSplits(a[1..], b);
      var drop := |a| >= 2 && a[0] == '\\' && a[1] == '\\';
      if |a| >= 2 {
        assert s[1] == a[1];
      }
      var ca := CollapseBackslashes(a[1..]);
      var cb := CollapseBackslashes(b);
      if drop {
        assert CollapseBackslashes(s) == ca + cb;
        assert CollapseBackslashes(a) == ca;
      } else {
        assert |a| == 1 ==> a[0] != '\\';
        assert CollapseBackslashes(s) == [a[0]] + (ca + cb);
        assert CollapseBackslashes(a) == [a[0]] + ca;
        assert [a[0]] + (ca + cb) == ([a[0]] + ca) + cb;
      }
    } else {
      assert a + b == b;
    }
  }

  /** Every character of `r` is a backslash. */
  predicate AllBackslashes(r: string)
    decreases |r|
  {
    r == [] || (r[0] == '\\' && AllBackslashes(r[1..]))
  }

  /** A whole run of backslashes, not followed by another, leaves exactly one. */
  lemma {:induction false} CollapseRun(r: string, b: string)
    requires r != [] && AllBackslashes(r)
    requires b == [] || b[0] != '\\'
    ensures CollapseBackslashes(r + b) == "\\" + CollapseBackslashes(b)
    decreases |r|
  {
    var s := r + b;
    assert s[0] == '\\';
    if |r| == 1 {
      assert s[1..] == b;
    } else {
      assert r[1..][0] == r[1];
      assert s[1] == '\\' && s[1..] == r[1..] + b;
      CollapseRun(r[1..], b);
    }
  }

  /** What `preg_replace` does with each maximal run: the run between `a` and `b` becomes
      one backslash and the text on either side is collapsed on its own. Together with
      CollapseFixesNoRun this determines the result for every input. */
  lemma MaximalRunBecomesOne(a: string, r: string, b: string)
    requires r != [] && AllBackslashes(r)
    requires a == [] || a[|a| - 1] != '\\'
    requires b == [] || b[0] != '\\'
    ensures CollapseBackslashes(a + r + b) == CollapseBackslashes(a) + "\\" + CollapseBackslashes(b)
  {
    var rb := r + b;
    assert a + r + b == a + rb;
    CollapseSplits(a, rb);
    CollapseRun(r, b);
    var ca, cb := CollapseBackslashes(a), CollapseBackslashes(b);
    assert ca + ("\\" + cb) == ca + "\\" + cb;
  }

  /** Collapsing only ever removes backslashes: everything else survives, in order. */
  lemma {:induction false} CollapseKeepsText(s: string)
    ensures WithoutBackslashes(CollapseBackslashes(s)) == WithoutBackslashes(s)
    decreases |s|
  {
    if s != [] {
      CollapseKeepsText(s[1..]);
      if !(|s| >= 2 && s[0] == '\\' && s[1] == '\\') {
        var t := CollapseBackslashes(s[1..]);
        assert ([s[0]] + t)[0] == s[0] && ([s[0]] + t)[1..] == t;
      }
    }
  }

  // =======================================================================
  // API key
  // =======================================================================

  predicate IsHexDigit(c: char)
  {
    ('0' <= c <= '9') || ('a' <= c <= 'f') || ('A' <= c <= 'F')
  }

  predicate AllHex(s: string)
  {
    forall i :: 0 <= i < |s| ==> IsHexDigit(s[i])
  }

  /** `preg_match('/^[0-9a-fA-F]{64}$/', $key)` as written: `$` also matches before a
      final line break, so 64 hex digits followed by "\n" pass and are stored as posted. */
  predicate ApiKeyMatchesAsWritten(key: string): (b: bool)
    ensures b <==> |key| >= 64 && IsApiKey(key[..64]) && (key[64..] == "" || key[64..] == "\n")
  {
    (|key| == 64 && AllHex(key)) || (|key| == 65 && AllHex(key[..64]) && key[64] == '\n')
  }

  /** A REST API key: exactly 64 hexadecimal digits. */
  predicate IsApiKey(key: string)
  {
    |key| == 64 && AllHex(key)
  }

  /** 64 'a's and a line break: accepted by the pattern as written, not an API key. */
  lemma ApiKeyLineBreakSlipsThrough()
    ensures var key := seq(64, _ => 'a') + "\n";
      ApiKeyMatchesAsWritten(key) && !IsApiKey(key)
  {
    var key := seq(64, _ => 'a') + "\n";
    assert key[..64] == seq(64, _ => 'a');
    assert key[64] == '\n';
  }

  /** The corrected test accepts exactly what the pattern accepts without the trailing
      line break. */
  lemma ApiKeyCorrection(key: string)
    ensures IsApiKey(key) <==> ApiKeyMatchesAsWritten(key) && '\n' !in key
  {
    if ApiKeyMatchesAsWritten(key) && |key| == 65 {
      assert key[64] in key;
    }
    if IsApiKey(key) {
      assert forall i :: 0 <= i < |key| ==> key[i] != '\n';
    }
  }

  // =======================================================================
  // Settings form
  // =======================================================================

  const PATH_CRITICAL_MESSAGE: string := "ERROR PATH: The specified Nginx Cache Directory appears to be a critical system directory or a first-level directory, which is not allowed."
  const PATH_MISSING_MESSAGE: string := "ERROR PATH: The specified Nginx Cache Directory does not exist. Please verify the Nginx Cache Directory."
  const PATH_INVALID_MESSAGE: string := "ERROR PATH: An invalid path was provided for the Nginx Cache Directory. Please provide a valid directory path."

  /** A settings error raised by the sanitiser. */
  datatype SettingsError =
    | InvalidPath(message: string)
    | InvalidEmail
    | InvalidCpuLimit
    | InvalidWaitTime
    | InvalidApiKey

  /** The path error shown for a rejected path. */
  function PathErrorMessage(v: PathVerdict): (m: string)
    ensures v == CriticalPath ==> m == PATH_CRITICAL_MESSAGE
    ensures v == DirectoryMissing ==> m == PATH_MISSING_MESSAGE
    ensures v != CriticalPath && v != DirectoryMissing ==> m == PATH_INVALID_MESSAGE
  {
    match v
    case CriticalPath => PATH_CRITICAL_MESSAGE
    case DirectoryMissing => PATH_MISSING_MESSAGE
    case _ => PATH_INVALID_MESSAGE
  }

  const TOGGLE_KEYS: seq<string> := [SEND_MAIL_KEY, AUTO_PRELOAD_KEY, PURGE_ON_UPDATE_KEY, SCHEDULE_KEY, API_KEY]

  const FORM_KEYS: seq<string> := [
    CACHE_PATH_KEY, EMAIL_KEY, CPU_LIMIT_KEY, WAIT_REQUEST_KEY, REJECT_REGEX_KEY,
    SEND_MAIL_KEY, AUTO_PRELOAD_KEY, PURGE_ON_UPDATE_KEY, SCHEDULE_KEY, API_KEY,
    LIMIT_RATE_KEY, API_KEY_KEY
  ]

  lemma FormKeysDistinct()
    ensures forall i, j :: 0 <= i < j < |FORM_KEYS| ==> FORM_KEYS[i] != FORM_KEYS[j]
  {
  }

  /** What the sanitiser makes of one form field: a value to store, an error to raise,
      or nothing. */
  datatype Field = Keep(value: Setting) | Reject(error: SettingsError) | Absent

  /** `!empty($input[$key])`. */
  predicate Filled(input: map<string, string>, key: string)
  {
    key in input && !IsEmpty(input[key])
  }

  /** The cache path: kept, sanitised, only when the validator accepts it; otherwise the
      error names the reason. Validation runs in directory mode. */
  function PathField(input: map<string, string>, fsReady: bool, isDir: string -> bool, isFile: string -> bool,
                     sanitizeText: string -> string): (f: Field)
    ensures f.Keep? <==> (Filled(input, CACHE_PATH_KEY) &&
      PathVerdictOf(fsReady, input[CACHE_PATH_KEY], false, isDir, isFile) == Accepted)
    ensures f.Keep? ==> f.value == Text(sanitizeText(input[CACHE_PATH_KEY]))
    ensures f.Reject? ==> (Filled(input, CACHE_PATH_KEY) && f.error.InvalidPath? &&
      f.error.message == PathErrorMessage(PathVerdictOf(fsReady, input[CACHE_PATH_KEY], false, isDir, isFile)))
    ensures f.Absent? <==> !Filled(input, CACHE_PATH_KEY)
  {
    if !Filled(input, CACHE_PATH_KEY) then Absent
    else
      var v := PathVerdictOf(fsReady, input[CACHE_PATH_KEY], false, isDir, isFile);
      if v == Accepted then Keep(Text(sanitizeText(input[CACHE_PATH_KEY])))
      else Reject(InvalidPath(PathErrorMessage(v)))
  }

  /** The notification address: kept, as `sanitize_email` leaves it, only when it is an
      address. */
  function EmailField(input: map<string, string>, sanitizeEmail: string -> string, isEmail: string -> bool): (f: Field)
    ensures f.Keep? <==> Filled(input, EMAIL_KEY) && isEmail(sanitizeEmail(input[EMAIL_KEY]))
    ensures f.Keep? ==> f.value == Text(sanitizeEmail(input[EMAIL_KEY]))
    ensures f.Reject? <==> Filled(input, EMAIL_KEY) && !isEmail(sanitizeEmail(input[EMAIL_KEY]))
    ensures f.Reject? ==> f.error == InvalidEmail
  {
    if !Filled(input, EMAIL_KEY) then Absent
    else if isEmail(sanitizeEmail(input[EMAIL_KEY])) then Keep(Text(sanitizeEmail(input[EMAIL_KEY])))
    else Reject(InvalidEmail)
  }

  /** The CPU limit: stored as an integer only when it lies in [10, 100]. */
  function CpuLimitField(input: map<string, string>): (f: Field)
    ensures f.Keep? <==> Filled(input, CPU_LIMIT_KEY) && 10 <= IntVal(input[CPU_LIMIT_KEY]) <= 100
    ensures f.Keep? ==> f.value.Number? && 10 <= f.value.n <= 100 && f.value.n == IntVal(input[CPU_LIMIT_KEY])
    ensures f.Reject? <==> Filled(input, CPU_LIMIT_KEY) && !(10 <= IntVal(input[CPU_LIMIT_KEY]) <= 100)
    ensures f.Reject? ==> f.error == InvalidCpuLimit
  {
    if !Filled(input, CPU_LIMIT_KEY) then Absent
    else
      var cpuLimit := IntVal(input[CPU_LIMIT_KEY]);
      if 10 <= cpuLimit <= 100 then Keep(Number(cpuLimit)) else Reject(InvalidCpuLimit)
  }

  /** The per-request wait: stored as an integer only when it lies in [0, 60]. It is
      checked whenever the field is posted, even empty, and '' reads as 0. */
  function WaitTimeField(input: map<string, string>): (f: Field)
    ensures f.Keep? <==> WAIT_REQUEST_KEY in input && 0 <= IntVal(input[WAIT_REQUEST_KEY]) <= 60
    ensures f.Keep? ==> f.value.Number? && 0 <= f.value.n <= 60 && f.value.n == IntVal(input[WAIT_REQUEST_KEY])
    ensures f.Reject? <==> WAIT_REQUEST_KEY in input && !(0 <= IntVal(input[WAIT_REQUEST_KEY]) <= 60)
    ensures f.Reject? ==> f.error == InvalidWaitTime
    ensures WAIT_REQUEST_KEY in input && input[WAIT_REQUEST_KEY] == "" ==> f == Keep(Number(0))
  {
    if WAIT_REQUEST_KEY !in input then Absent
    else
      var waitTime := IntVal(input[WAIT_REQUEST_KEY]);
      if 0 <= waitTime <= 60 then Keep(Number(waitTime)) else Reject(InvalidWaitTime)
  }

  /** The reject regex: stored with every run of backslashes collapsed to one; never an
      error. */
  function RejectRegexField(input: map<string, string>): (f: Field)
    ensures f.Keep? <==> Filled(input, REJECT_REGEX_KEY)
    ensures f.Keep? ==> f.value == Text(CollapseBackslashes(input[REJECT_REGEX_KEY]))
    ensures f.Keep? ==> (f.value.Text? && NoDoubleBackslash(f.value.s) &&
      WithoutBackslashes(f.value.s) == WithoutBackslashes(input[REJECT_REGEX_KEY]))
    ensures !f.Reject?
  {
    if !Filled(input, REJECT_REGEX_KEY) then Absent
    else
      var regex := input[REJECT_REGEX_KEY];
      CollapseLeavesNoRun(regex);
      CollapseKeepsText(regex);
      Keep(Text(CollapseBackslashes(regex)))
  }

  /** A yes/no switch: always stored, 'yes' exactly when the form posted 'yes'. */
  function ToggleField(input: map<string, string>, key: string): (f: Field)
    ensures f.Keep? && (f.value == Text("yes") || f.value == Text("no"))
    ensures f.value == Text("yes") <==> key in input && input[key] == "yes"
  {
    if key in input && input[key] == "yes" then Keep(Text("yes")) else Keep(Text("no"))
  }

  /** The download rate limit: stored sanitised whenever it is filled. */
  function LimitRateField(input: map<string, string>, sanitizeText: string -> string): (f: Field)
    ensures f.Keep? <==> Filled(input, LIMIT_RATE_KEY)
    ensures f.Keep? ==> f.value == Text(sanitizeText(input[LIMIT_RATE_KEY]))
    ensures !f.Reject?
  {
    if !Filled(input, LIMIT_RATE_KEY) then Absent else Keep(Text(sanitizeText(input[LIMIT_RATE_KEY])))
  }

  /** The REST API key: stored as posted only when it is an API key. */
  function ApiKeyField(input: map<string, string>): (f: Field)
    ensures f.Keep? <==> Filled(input, API_KEY_KEY) && IsApiKey(input[API_KEY_KEY])
    ensures f.Keep? ==> f.value.Text? && IsApiKey(f.value.s) && f.value.s == input[API_KEY_KEY]
    ensures f.Reject? <==> Filled(input, API_KEY_KEY) && !IsApiKey(input[API_KEY_KEY])
    ensures f.Reject? ==> f.error == InvalidApiKey
  {
    if !Filled(input, API_KEY_KEY) then Absent
    else if IsApiKey(input[API_KEY_KEY]) then Keep(Text(input[API_KEY_KEY]))
    else Reject(InvalidApiKey)
  }

  /** The WordPress and filesystem helpers the sanitiser consults. */
  datatype Helpers = Helpers(fsReady: bool, isDir: string -> bool, isFile: string -> bool,
                             sanitizeText: string -> string, sanitizeEmail: string -> string,
                             isEmail: string -> bool)

  /** A form field together with the key it is stored under. */
  datatype Handled = Handled(key: string, field: Field)

  /** The form's fields in the order the sanitiser checks them. */
  function FormFields(input: map<string, string>, env: Helpers): (fields: seq<Handled>)
    ensures |fields| == |FORM_KEYS|
    ensures forall i :: 0 <= i < |fields| ==> fields[i].key == FORM_KEYS[i]
  {
    [ Handled(CACHE_PATH_KEY, PathField(input, env.fsReady, env.isDir, env.isFile, env.sanitizeText)),
      Handled(EMAIL_KEY, EmailField(input, env.sanitizeEmail, env.isEmail)),
      Handled(CPU_LIMIT_KEY, CpuLimitField(input)),
      Handled(WAIT_REQUEST_KEY, WaitTimeField(input)),
      Handled(REJECT_REGEX_KEY, RejectRegexField(input)),
      Handled(SEND_MAIL_KEY, ToggleField(input, SEND_MAIL_KEY)),
      Handled(AUTO_PRELOAD_KEY, ToggleField(input, AUTO_PRELOAD_KEY)),
      Handled(PURGE_ON_UPDATE_KEY, ToggleField(input, PURGE_ON_UPDATE_KEY)),
      Handled(SCHEDULE_KEY, ToggleField(input, SCHEDULE_KEY)),
      Handled(API_KEY, ToggleField(input, API_KEY)),
      Handled(LIMIT_RATE_KEY, LimitRateField(input, env.sanitizeText)),
      Handled(API_KEY_KEY, ApiKeyField(input)) ]
  }

  /** `settings[key]` as a field leaves it: present with the kept value, absent otherwise. */
  predicate Holds(settings: Settings, key: string, f: Field)
  {
    (key in settings <==> f.Keep?) && (f.Keep? ==> settings[key] == f.value)
  }

  /** Storing a field's value under its key (a field that keeps nothing leaves the key
      unset), leaving every other key alone. */
  function Store(settings: Settings, key: string, f: Field): Settings
  {
    if f.Keep? then settings[key := f.value] else settings - {key}
  }

  lemma StoreSpec(settings: Settings, key: string, f: Field)
    ensures Holds(Store(settings, key, f), key, f)
    ensures forall k :: k != key ==> (k in Store(settings, key, f) <==> k in settings)
    ensures forall k :: k != key && k in settings ==> Store(settings, key, f)[k] == settings[k]
  {
  }

  /** The error a field raises, if any. */
  function Raised(f: Field): (errors: seq<SettingsError>)
    ensures f.Reject? ==> errors == [f.error]
    ensures !f.Reject? ==> errors == []
  {
    if f.Reject? then [f.error] else []
  }

  /** The settings array after storing the first `n` fields in order. */
  function StoreFirst(fields: seq<Handled>, n: nat): Settings
    requires n <= |fields|
  {
    if n == 0 then map[] else Store(StoreFirst(fields, n - 1), fields[n - 1].key, fields[n - 1].field)
  }

  /** The errors raised by the first `n` fields, in order. */
  function RaisedFirst(fields: seq<Handled>, n: nat): seq<SettingsError>
    requires n <= |fields|
  {
    if n == 0 then [] else RaisedFirst(fields, n - 1) + Raised(fields[n - 1].field)
  }

  predicate DistinctKeys(fields: seq<Handled>)
  {
    forall i, j :: 0 <= i < j < |fields| ==> fields[i].key != fields[j].key
  }

  /** Storing fields with distinct keys stores each exactly as it decides, and nothing
      under any other key. */
  lemma {:induction false} StoreFirstHolds(fields: seq<Handled>, n: nat)
    requires n <= |fields| && DistinctKeys(fields)
    ensures forall k :: k in StoreFirst(fields, n) ==> exists i :: 0 <= i < n && fields[i].key == k
    ensures forall i :: 0 <= i < n ==> Holds(StoreFirst(fields, n), fields[i].key, fields[i].field)
  {
    if n > 0 {
      StoreFirstHolds(fields, n - 1);
      var before := StoreFirst(fields, n - 1);
      var last := fields[n - 1];
      StoreSpec(before, last.key, last.field);
      forall k | k in StoreFirst(fields, n)
        ensures exists i :: 0 <= i < n && fields[i].key == k
      {
        if k != last.key {
          var i :| 0 <= i < n - 1 && fields[i].key == k;
        }
      }
    }
  }

  /** Fields that raise nothing add nothing to the errors. */
  lemma {:induction false} RaisedFirstSkip(fields: seq<Handled>, i: nat, j: nat)
    requires i <= j <= |fields|
    requires forall m :: i <= m < j ==> !fields[m].field.Reject?
    ensures RaisedFirst(fields, j) == RaisedFirst(fields, i)
    decreases j - i
  {
    if i < j {
      RaisedFirstSkip(fields, i, j - 1);
    }
  }

  /** The sanitised settings array and the errors added while building it. */
  datatype Sanitized = Sanitized(settings: Settings, errors: seq<SettingsError>)

  /** `nppp_nginx_cache_settings_sanitize`: every form field handled in the order the form
      is checked. */
  function Sanitize(input: map<string, string>, env: Helpers): (r: Sanitized)
    ensures forall k :: k in r.settings ==> k in FORM_KEYS
  {
    var fields := FormFields(input, env);
    FieldsHaveDistinctKeys(input, env);
    StoreFirstHolds(fields, |fields|);
    Sanitized(StoreFirst(fields, |fields|), RaisedFirst(fields, |fields|))
  }

  lemma FieldsHaveDistinctKeys(input: map<string, string>, env: Helpers)
    ensures DistinctKeys(FormFields(input, env))
  {
    FormKeysDistinct();
  }

  lemma FieldStored(input: map<string, string>, env: Helpers, i: nat)
    requires i < |FORM_KEYS|
    ensures Holds(Sanitize(input, env).settings, FORM_KEYS[i], FormFields(input, env)[i].field)
  {
    FieldsHaveDistinctKeys(input, env);
    StoreFirstHolds(FormFields(input, env), |FORM_KEYS|);
  }

  /** Every field of the form ends up under its own key, as its field function decides. */
  lemma SanitizeStoresEachField(input: map<string, string>, env: Helpers)
    ensures var out := Sanitize(input, env).settings;
      && Holds(out, CACHE_PATH_KEY, PathField(input, env.fsReady, env.isDir, env.isFile, env.sanitizeText))
      && Holds(out, EMAIL_KEY, EmailField(input, env.sanitizeEmail, env.isEmail))
      && Holds(out, CPU_LIMIT_KEY, CpuLimitField(input))
      && Holds(out, WAIT_REQUEST_KEY, WaitTimeField(input))
      && Holds(out, REJECT_REGEX_KEY, RejectRegexField(input))
      && (forall i :: 0 <= i < |TOGGLE_KEYS| ==> Holds(out, TOGGLE_KEYS[i], ToggleField(input, TOGGLE_KEYS[i])))
      && Holds(out, LIMIT_RATE_KEY, LimitRateField(input, env.sanitizeText))
      && Holds(out, API_KEY_KEY, ApiKeyField(input))
  {
    FieldStored(input, env, 0);
    FieldStored(input, env, 1);
    FieldStored(input, env, 2);
    FieldStored(input, env, 3);
    FieldStored(input, env, 4);
    FieldStored(input, env, 10);
    FieldStored(input, env, 11);
    forall i | 0 <= i < |TOGGLE_KEYS|
      ensures Holds(Sanitize(input, env).settings, TOGGLE_KEYS[i], ToggleField(input, TOGGLE_KEYS[i]))
    {
      FieldStored(input, env, i + 5);
      assert TOGGLE_KEYS[i] == FORM_KEYS[i + 5];
    }
  }

  /** The errors come in the order the form is checked: path, email, CPU limit, wait
      time, API key; the regex, the switches and the rate limit never raise one. */
  lemma SanitizeErrorOrder(input: map<string, string>, env: Helpers)
    ensures Sanitize(input, env).errors ==
      Raised(PathField(input, env.fsReady, env.isDir, env.isFile, env.sanitizeText)) +
      Raised(EmailField(input, env.sanitizeEmail, env.isEmail)) + Raised(CpuLimitField(input)) +
      Raised(WaitTimeField(input)) + Raised(ApiKeyField(input))
  {
    var fs := FormFields(input, env);
    assert !fs[4].field.Reject? && !fs[5].field.Reject? && !fs[6].field.Reject? && !fs[7].field.Reject?;
    assert !fs[8].field.Reject? && !fs[9].field.Reject? && !fs[10].field.Reject?;
    RaisedFirstSkip(fs, 4, 11);
    assert RaisedFirst(fs, 1) == Raised(fs[0].field);
    assert RaisedFirst(fs, 2) == Raised(fs[0].field) + Raised(fs[1].field);
    assert RaisedFirst(fs, 3) == Raised(fs[0].field) + Raised(fs[1].field) + Raised(fs[2].field);
  }

  /** `nppp_nginx_cache_settings_sanitize` as the plugin runs it: the settings array is
      built key by key, the path checked by the validator's loop, and each error appended
      where its field is checked. */
  method SanitizeForm(input: map<string, string>, env: Helpers) returns (out: Settings, errors: seq<SettingsError>)
    ensures Sanitized(out, errors) == Sanitize(input, env)
  {
    ghost var fs := FormFields(input, env);
    var path := Absent;
    if Filled(input, CACHE_PATH_KEY) {
      var verdict := ValidatePath(env.fsReady, input[CACHE_PATH_KEY], false, env.isDir, env.isFile);
      if verdict == Accepted {
        path := Keep(Text(env.sanitizeText(input[CACHE_PATH_KEY])));
      } else {
        path := Reject(InvalidPath(PathErrorMessage(verdict)));
      }
    }
    assert fs[0] == Handled(CACHE_PATH_KEY, path);
    out := Store(map[], CACHE_PATH_KEY, path);
    errors := Raised(path);
    var email := EmailField(input, env.sanitizeEmail, env.isEmail);
    out := Store(out, EMAIL_KEY, email);
    errors := errors + Raised(email);
    var cpuLimit := CpuLimitField(input);
    out := Store(out, CPU_LIMIT_KEY, cpuLimit);
    errors := errors + Raised(cpuLimit);
    var waitTime := WaitTimeField(input);
    out := Store(out, WAIT_REQUEST_KEY, waitTime);
    errors := errors + Raised(waitTime);
    out := Store(out, REJECT_REGEX_KEY, RejectRegexField(input));
    out := Store(out, SEND_MAIL_KEY, ToggleField(input, SEND_MAIL_KEY));
    out := Store(out, AUTO_PRELOAD_KEY, ToggleField(input, AUTO_PRELOAD_KEY));
    out := Store(out, PURGE_ON_UPDATE_KEY, ToggleField(input, PURGE_ON_UPDATE_KEY));
    out := Store(out, SCHEDULE_KEY, ToggleField(input, SCHEDULE_KEY));
    out := Store(out, API_KEY, ToggleField(input, API_KEY));
    out := Store(out, LIMIT_RATE_KEY, LimitRateField(input, env.sanitizeText));
    var apiKey := ApiKeyField(input);
    out := Store(out, API_KEY_KEY, apiKey);
    errors := errors + Raised(apiKey);
    StoreTwelve(fs);
    SanitizeErrorOrder(input, env);
  }

  /** Twelve fields stored one after the other. */
  lemma StoreTwelve(fs: seq<Handled>)
    requires |fs| == 12
    ensures StoreFirst(fs, 12) ==
      Store(Store(Store(Store(Store(Store(Store(Store(Store(Store(Store(Store(map[], fs[0].key, fs[0].field), fs[1].key, fs[1].field), fs[2].key, fs[2].field), fs[3].key, fs[3].field), fs[4].key, fs[4].field), fs[5].key, fs[5].field), fs[6].key, fs[6].field), fs[7].key, fs[7].field), fs[8].key, fs[8].field), fs[9].key, fs[9].field), fs[10].key, fs[10].field), fs[11].key, fs[11].field)
  {
    StoreFirstUnfold(fs, 12);
    StoreFirstUnfold(fs, 11);
    StoreFirstUnfold(fs, 10);
    StoreFirstUnfold(fs, 9);
    StoreFirstUnfold(fs, 8);
    StoreFirstUnfold(fs, 7);
    StoreFirstUnfold(fs, 6);
    StoreFirstUnfold(fs, 5);
    StoreFirstUnfold(fs, 4);
    StoreFirstUnfold(fs, 3);
    StoreFirstUnfold(fs, 2);
    StoreFirstUnfold(fs, 1);
  }

  lemma StoreFirstUnfold(fs: seq<Handled>, n: nat)
    requires 0 < n <= |fs|
    ensures StoreFirst(fs, n) == Store(StoreFirst(fs, n - 1), fs[n - 1].key, fs[n - 1].field)
  {
  }

  /** An empty form stores the five switches, all 'no', and nothing else, and raises
      no error. */
  lemma EmptyFormStoresSwitchesOnly(env: Helpers)
    ensures var r := Sanitize(map[], env);
      && r.errors == []
      && (forall k :: k in r.settings <==> k in TOGGLE_KEYS)
      && (forall k :: k in r.settings ==> r.settings[k] == Text("no"))
  {
    SanitizeStoresEachField(map[], env);
    SanitizeErrorOrder(map[], env);
    var r := Sanitize(map[], env);
    forall k | k in r.settings
      ensures k in TOGGLE_KEYS && r.settings[k] == Text("no")
    {
      assert k in FORM_KEYS;
    }
  }

  // =======================================================================
  // Cron expression
  // =======================================================================

  const FREQUENCIES: seq<string> := ["daily", "weekly", "monthly"]

  predicate ValidFrequency(freq: string)
  {
    freq in FREQUENCIES
  }

  /** `([01]\d|2[0-3]):([0-5]\d)` over exactly five characters. */
  predicate ClockShape(t: string)
  {
    |t| == 5 && t[2] == ':' &&
    (((t[0] == '0' || t[0] == '1') && IsDigit(t[1])) || (t[0] == '2' && '0' <= t[1] <= '3')) &&
    ('0' <= t[3] <= '5') && IsDigit(t[4])
  }

  /** `preg_match('/^([01]\d|2[0-3]):([0-5]\d)$/', $time)`; `$` tolerates one final "\n". */
  predicate ValidTime(t: string)
  {
    ClockShape(t) || (|t| == 6 && t[5] == '\n' && ClockShape(t[..5]))
  }

  /** An hour and minute written as HH:mm. */
  function Clock(hour: nat, minute: nat): (t: string)
    requires hour < 24 && minute < 60
    ensures |t| == 5
  {
    [DigitChar(hour / 10), DigitChar(hour % 10), ':', DigitChar(minute / 10), DigitChar(minute % 10)]
  }

  function Hour(t: string): nat
    requires ClockShape(t)
  {
    DigitValue(t[0]) * 10 + DigitValue(t[1])
  }

  function Minute(t: string): nat
    requires ClockShape(t)
  {
    DigitValue(t[3]) * 10 + DigitValue(t[4])
  }

  /** The time check accepts exactly the clock times 00:00 to 23:59: every HH:mm with
      a valid hour and minute passes, and whatever passes is one of them. */
  lemma ClockShapeIsClock(t: string)
    requires ClockShape(t)
    ensures Hour(t) < 24 && Minute(t) < 60
    ensures t == Clock(Hour(t), Minute(t))
  {
    var c := Clock(Hour(t), Minute(t));
    assert c[0] == t[0] && c[1] == t[1] && c[3] == t[3] && c[4] == t[4];
  }

  lemma ClockIsValid(hour: nat, minute: nat)
    requires hour < 24 && minute < 60
    ensures ClockShape(Clock(hour, minute))
    ensures Hour(Clock(hour, minute)) == hour && Minute(Clock(hour, minute)) == minute
  {
  }

  /** The stored cron expression. */
  function CronExpression(freq: string, time: string): string
  {
    freq + "|" + time
  }

  /** A valid frequency and time survive the round trip through the stored expression:
      splitting it at '|' gives them back. */
  lemma CronExpressionRoundTrip(freq: string, time: string)
    requires ValidFrequency(freq) && ValidTime(time)
    ensures Split(CronExpression(freq, time), '|') == [freq, time]
  {
    assert '|' !in freq;
    assert '|' !in time by {
      if ClockShape(time) {
        ClockShapeIsClock(time);
      } else {
        ClockShapeIsClock(time[..5]);
        assert time == time[..5] + "\n";
      }
    }
    SplitWithoutSeparator(time, '|');
    SplitAtFirst(freq, time, '|');
    assert CronExpression(freq, time) == freq + ['|'] + time;
  }

  // =======================================================================
  // Single-key updates
  // =======================================================================

  /** An AJAX response: `wp_send_json_success` or `wp_send_json_error` with its payload. */
  datatype Response = JsonSuccess(data: string) | JsonError(data: string)

  const UPDATE_ERROR: string := "Error updating option."

  /** What `update_option` reports and what the store then holds: a write happens, and is
      reported, only when the new array differs from the stored one and the store accepts
      the write. */
  datatype Update = Update(updated: bool, after: Settings)

  function UpdateOption(current: Settings, candidate: Settings, writeOk: bool): Update
  {
    if writeOk && candidate != current then Update(true, candidate) else Update(false, current)
  }

  /** Rewriting one key: nothing else changes; the update is reported exactly when the key
      did not already hold that value and the store accepted the write, so posting the
      current value again reports an error. */
  lemma SingleKeyUpdate(current: Settings, key: string, value: Setting, writeOk: bool)
    ensures var u := UpdateOption(current, current[key := value], writeOk);
      && (u.updated <==> writeOk && !(key in current && current[key] == value))
      && (u.updated ==> key in u.after && u.after[key] == value)
      && (forall k :: k != key ==> (k in u.after <==> k in current))
      && (forall k :: k != key && k in current ==> u.after[k] == current[k])
  {
    var candidate := current[key := value];
    if key in current && current[key] == value {
      assert candidate == current;
    } else {
      assert key in candidate && candidate[key] == value;
      assert candidate != current;
    }
  }

  /** The four AJAX switches that rewrite one key and answer with a fixed message. */
  datatype FlagHandler = SendMailHandler | AutoPreloadHandler | AutoPurgeHandler | RestApiHandler

  function HandlerKey(h: FlagHandler): string
  {
    match h
    case SendMailHandler => SEND_MAIL_KEY
    case AutoPreloadHandler => AUTO_PRELOAD_KEY
    case AutoPurgeHandler => PURGE_ON_UPDATE_KEY
    case RestApiHandler => API_KEY
  }

  function HandlerSuccess(h: FlagHandler): string
  {
    match h
    case SendMailHandler => "Settings saved successfully!"
    case AutoPreloadHandler => "Option updated successfully."
    case AutoPurgeHandler => "Option updated successfully."
    case RestApiHandler => "success"
  }

  /** The posted field after `sanitize_text_field(wp_unslash(…))`, or '' when absent. */
  function PostedText(posted: Option<string>, sanitizeText: string -> string): string
  {
    if posted.Some? then sanitizeText(posted.value) else ""
  }

  const UNSCHEDULE_SUCCESS: string := "Option updated successfully. Unschedule success."
  const NO_EVENT_FOUND: string := "Option updated successfully. No event found."
  const OPTION_UPDATED: string := "Option updated successfully."

  const INVALID_FREQUENCY: string := "Invalid cron frequency value."
  const INVALID_TIME: string := "Invalid time format."
  const TIMEZONE_MISSING: string := "Timezone not set in WordPress options!"
  const NO_ACTIVE_EVENTS: string := "No active scheduled events found!"
  const CRON_SCHEDULED: string := "New cron event scheduled successfully."
  const CRON_SAVE_ERROR: string := "Error saving cron expression."

  /** The options the settings handlers read and write: the settings array, the stored
      cron expression, whether the preload event is scheduled in WP-cron, and the cron
      expressions handed to the scheduler, in order. */
  class SettingsStore {
    var options: Settings
    var scheduleValue: Option<string>
    var preloadEventScheduled: bool
    var scheduleRequests: seq<string>

    constructor(initial: Settings, cronValue: Option<string>, eventScheduled: bool)
      ensures options == initial && scheduleValue == cronValue
      ensures preloadEventScheduled == eventScheduled && scheduleRequests == []
    {
      options := initial;
      scheduleValue := cronValue;
      preloadEventScheduled := eventScheduled;
      scheduleRequests := [];
    }

    /** `nppp_update_send_mail_option`, `nppp_update_auto_preload_option`,
        `nppp_update_auto_purge_option` and `nppp_update_api_option`. */
    method UpdateFlag(h: FlagHandler, posted: Option<string>, sanitizeText: string -> string, writeOk: bool)
      returns (resp: Response)
      modifies this
      ensures var u := UpdateOption(old(options), old(options)[HandlerKey(h) := Text(PostedText(posted, sanitizeText))], writeOk);
        options == u.after && resp == (if u.updated then JsonSuccess(HandlerSuccess(h)) else JsonError(UPDATE_ERROR))
      ensures scheduleValue == old(scheduleValue) && preloadEventScheduled == old(preloadEventScheduled)
      ensures scheduleRequests == old(scheduleRequests)
    {
      var value := PostedText(posted, sanitizeText);
      var currentOptions := options;
      currentOptions := currentOptions[HandlerKey(h) := Text(value)];
      var u := UpdateOption(options, currentOptions, writeOk);
      options := u.after;
      if u.updated {
        resp := JsonSuccess(HandlerSuccess(h));
      } else {
        resp := JsonError(UPDATE_ERROR);
      }
    }

    /** `nppp_update_cache_schedule_option`: switching the schedule off ('no' or '') also
        unschedules the preload event when one exists; `clearOk` says whether WP-cron
        cleared it. */
    method UpdateCacheSchedule(posted: Option<string>, sanitizeText: string -> string,
                               clearOk: bool, writeOk: bool) returns (resp: Response)
      modifies this
      ensures var value := PostedText(posted, sanitizeText);
        var off := value == "no" || value == "";
        var unscheduled := off && old(preloadEventScheduled) && clearOk;
        var noEvent := off && !old(preloadEventScheduled);
        var u := UpdateOption(old(options), old(options)[SCHEDULE_KEY := Text(value)], writeOk);
        && options == u.after
        && preloadEventScheduled == (old(preloadEventScheduled) && !unscheduled)
        && resp == (if !u.updated then JsonError(UPDATE_ERROR)
                    else if unscheduled then JsonSuccess(UNSCHEDULE_SUCCESS)
                    else if noEvent then JsonSuccess(NO_EVENT_FOUND)
                    else JsonSuccess(OPTION_UPDATED))
      ensures scheduleValue == old(scheduleValue) && scheduleRequests == old(scheduleRequests)
    {
      var cacheSchedule := PostedText(posted, sanitizeText);
      var unscheduledSuccessfully := false;
      var noExistingEventFound := false;
      if cacheSchedule == "no" || cacheSchedule == "" {
        if preloadEventScheduled {
          if clearOk {
            preloadEventScheduled := false;
            unscheduledSuccessfully := true;
          }
        } else {
          noExistingEventFound := true;
        }
      }
      var u := UpdateOption(options, options[SCHEDULE_KEY := Text(cacheSchedule)], writeOk);
      options := u.after;
      if u.updated {
        if unscheduledSuccessfully {
          resp := JsonSuccess(UNSCHEDULE_SUCCESS);
        } else if noExistingEventFound {
          resp := JsonSuccess(NO_EVENT_FOUND);
        } else {
          resp := JsonSuccess(OPTION_UPDATED);
        }
      } else {
        resp := JsonError(UPDATE_ERROR);
      }
    }

    /** `nppp_update_api_key_option`: stores a freshly generated key (`newKey`, the hex text
        of 32 random bytes) and answers with it. */
    method RegenerateApiKey(newKey: string, writeOk: bool) returns (resp: Response)
      modifies this
      ensures var u := UpdateOption(old(options), old(options)[API_KEY_KEY := Text(newKey)], writeOk);
        options == u.after && resp == (if u.updated then JsonSuccess(newKey) else JsonError(UPDATE_ERROR))
      ensures scheduleValue == old(scheduleValue) && preloadEventScheduled == old(preloadEventScheduled)
      ensures scheduleRequests == old(scheduleRequests)
    {
      var u := UpdateOption(options, options[API_KEY_KEY := Text(newKey)], writeOk);
      options := u.after;
      if u.updated {
        resp := JsonSuccess(newKey);
      } else {
        resp := JsonError(UPDATE_ERROR);
      }
    }

    /** `nppp_update_default_reject_regex_option`: stores the default reject regex and
        answers with it whether or not the write took effect. */
    method ResetRejectRegex(defaultRegex: string, writeOk: bool) returns (resp: Response)
      modifies this
      ensures options == UpdateOption(old(options), old(options)[REJECT_REGEX_KEY := Text(defaultRegex)], writeOk).after
      ensures resp == JsonSuccess(defaultRegex)
      ensures scheduleValue == old(scheduleValue) && preloadEventScheduled == old(preloadEventScheduled)
      ensures scheduleRequests == old(scheduleRequests)
    {
      var u := UpdateOption(options, options[REJECT_REGEX_KEY := Text(defaultRegex)], writeOk);
      options := u.after;
      resp := JsonSuccess(defaultRegex);
    }

    /** `nppp_get_save_cron_expression`: checks the frequency and the time, stores
        frequency|time, reads it back, and hands it to the scheduler only when the read-back
        value matches, the site has a timezone and WP-cron holds events. Each error answer
        ends the request. */
    method SaveCronExpression(freqPosted: Option<string>, timePosted: Option<string>,
                              sanitizeText: string -> string, writeOk: bool,
                              timezone: string, cronEmpty: bool) returns (resp: Response)
      modifies this
      ensures var freq := PostedText(freqPosted, sanitizeText);
        var time := PostedText(timePosted, sanitizeText);
        var expr := CronExpression(freq, time);
        var saved := writeOk || old(scheduleValue) == Some(expr);
        && (!ValidFrequency(freq) ==> resp == JsonError(INVALID_FREQUENCY) && scheduleValue == old(scheduleValue))
        && (ValidFrequency(freq) && !ValidTime(time) ==> resp == JsonError(INVALID_TIME) && scheduleValue == old(scheduleValue))
        && (ValidFrequency(freq) && ValidTime(time) ==>
              && scheduleValue == (if writeOk then Some(expr) else old(scheduleValue))
              && resp == (if !saved then JsonError(CRON_SAVE_ERROR)
                          else if IsEmpty(timezone) then JsonError(TIMEZONE_MISSING)
                          else if cronEmpty then JsonError(NO_ACTIVE_EVENTS)
                          else JsonSuccess(CRON_SCHEDULED)))
        && scheduleRequests == old(scheduleRequests) +
             (if ValidFrequency(freq) && ValidTime(time) && saved && !IsEmpty(timezone) && !cronEmpty
              then [expr] else [])
      ensures options == old(options) && preloadEventScheduled == old(preloadEventScheduled)
    {
      var cronFreq := PostedText(freqPosted, sanitizeText);
      var time := PostedText(timePosted, sanitizeText);
      if !ValidFrequency(cronFreq) {
        return JsonError(INVALID_FREQUENCY);
      }
      if !ValidTime(time) {
        return JsonError(INVALID_TIME);
      }
      var cronExpression := CronExpression(cronFreq, time);
      if writeOk {
        scheduleValue := Some(cronExpression);
      }
      var updatedValue := scheduleValue;
      if updatedValue == Some(cronExpression) {
        if IsEmpty(timezone) {
          return JsonError(TIMEZONE_MISSING);
        }
        if cronEmpty {
          return JsonError(NO_ACTIVE_EVENTS);
        }
        scheduleRequests := scheduleRequests + [cronExpression];
        return JsonSuccess(CRON_SCHEDULED);
      }
      return JsonError(CRON_SAVE_ERROR);
    }
  }

  /** Whatever is handed to the scheduler is a valid frequency and clock time joined by
      '|', and splits back into them. */
  lemma ScheduledExpressionsWellFormed(freq: string, time: string)
    requires ValidFrequency(freq) && ValidTime(time)
    ensures var parts := Split(CronExpression(freq, time), '|');
      |parts| == 2 && ValidFrequency(parts[0]) && ValidTime(parts[1])
  {
    CronExpressionRoundTrip(freq, time);
  }
}
