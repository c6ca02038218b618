/** The dashboard widget: whether a preload is running, the next run of the scheduled
    preload event, and the table of settings switches with their icons. The HTML around
    them is presentation and is represented only by the lines it shows. */
module DashboardWidget {
  import opened Php
  import opened Options
  import opened Status

  // =======================================================================
  // Preload in progress
  // =======================================================================

  /** `nppp_check_preload_status_widget`: nothing when the filesystem cannot be set up,
      otherwise whether the lock file names a positive process id that is alive. */
  function WidgetPreloadAlive(fsReady: bool, pidFile: Option<string>, alive: int -> bool): (r: Option<bool>)
    ensures r.None? <==> !fsReady
    ensures r == Some(true) <==>
      (fsReady && pidFile.Some? && IntVal(pidFile.value) > 0 && alive(IntVal(pidFile.value)))
  {
    if !fsReady then None
    else if pidFile.Some? then
      var pid := IntVal(pidFile.value);
      Some(pid > 0 && alive(pid))
    else Some(false)
  }

  /** The widget shows a preload as running exactly when the status page says it is in
      progress, whatever the other status signals are; when the filesystem cannot be set
      up, the widget's empty answer reads as not running. */
  lemma WidgetAgreesWithStatus(fsReady: bool, pidFile: Option<string>, alive: int -> bool,
                               cached: Option<string>, wgetOutput: Option<string>, path: PathStatus)
    ensures WidgetPreloadAlive(fsReady, pidFile, alive) == Some(true) <==>
      PreloadStatus(fsReady, pidFile, alive, cached, wgetOutput, path) == Some(InProgress)
  {
  }

  // =======================================================================
  // Next scheduled preload
  // =======================================================================

  const PRELOAD_HOOK: string := "npp_cache_preload_event"

  /** One entry of the WP-cron array: a timestamp and the hooks due then, in array order. */
  datatype CronSlot = CronSlot(timestamp: int, hooks: seq<string>)

  /** The "Next Run" entry the widget shows. */
  datatype NextRun = NextAt(timestamp: int) | NoEventFound

  predicate HasPreloadHook(slot: CronSlot)
  {
    PRELOAD_HOOK in slot.hooks
  }

  /** The first slot, in array order, whose hooks include the preload event. */
  function FirstPreloadSlot(events: seq<CronSlot>): (r: Option<nat>)
    ensures r.Some? ==> (r.value < |events| && HasPreloadHook(events[r.value])
      && forall j :: 0 <= j < r.value ==> !HasPreloadHook(events[j]))
    ensures r.None? <==> forall j :: 0 <= j < |events| ==> !HasPreloadHook(events[j])
  {
    if events == [] then None
    else if HasPreloadHook(events[0]) then Some(0)
    else match FirstPreloadSlot(events[1..])
      case None => None
      case Some(i) => Some(i + 1)
  }

  /** The entry shown: the first preload timestamp, provided the cron array is not empty
      and the site has a timezone. */
  function NextRunOf(events: seq<CronSlot>, timezone: string): NextRun
  {
    if events == [] || IsEmpty(timezone) then NoEventFound
    else match FirstPreloadSlot(events)
      case None => NoEventFound
      case Some(i) => NextAt(events[i].timestamp)
  }

  /** `nppp_get_active_cron_events_widget`: scans the cron array slot by slot and
      hook by hook, stops at the first preload hook, and shows exactly one entry. */
  method ShowNextRun(events: seq<CronSlot>, timezone: string) returns (shown: seq<NextRun>)
    ensures shown == [NextRunOf(events, timezone)]
  {
    shown := [];
    var hasEvents := false;
    if events != [] && !IsEmpty(timezone) {
      var i := 0;
      while i < |events|
        invariant 0 <= i <= |events|
        invariant !hasEvents && shown == []
        invariant forall j :: 0 <= j < i ==> !HasPreloadHook(events[j])
      {
        var hooks := events[i].hooks;
        var h := 0;
        while h < |hooks|
          invariant 0 <= h <= |hooks|
          invariant !hasEvents && shown == []
          invariant forall g :: 0 <= g < h ==> hooks[g] != PRELOAD_HOOK
        {
          if hooks[h] == PRELOAD_HOOK {
            hasEvents := true;
            assert hooks[h] in hooks;
            FirstSlotIs(events, i);
            shown := shown + [NextAt(events[i].timestamp)];
            break;
          }
          h := h + 1;
        }
        if hasEvents {
          break;
        }
        i := i + 1;
      }
    }
    if !hasEvents {
      shown := shown + [NoEventFound];
    }
  }

  /** A slot with the hook, preceded only by slots without it, is the first one. */
  lemma {:induction false} FirstSlotIs(events: seq<CronSlot>, i: nat)
    requires i < |events| && HasPreloadHook(events[i])
    requires forall j :: 0 <= j < i ==> !HasPreloadHook(events[j])
    ensures FirstPreloadSlot(events) == Some(i)
    decreases i
  {
    if i > 0 {
      FirstSlotIs(events[1..], i - 1);
    }
  }

  /** With an empty cron array or no timezone the widget reports that no event was
      found; otherwise it reports the first preload timestamp in array order, and no
      event exactly when no slot holds the preload hook. */
  lemma NextRunMeaning(events: seq<CronSlot>, timezone: string)
    ensures events == [] || IsEmpty(timezone) ==> NextRunOf(events, timezone) == NoEventFound
    ensures events != [] && !IsEmpty(timezone) ==>
      (NextRunOf(events, timezone) == NoEventFound <==>
        forall j :: 0 <= j < |events| ==> !HasPreloadHook(events[j]))
    ensures forall t :: NextRunOf(events, timezone) == NextAt(t) <==>
      (!IsEmpty(timezone) && exists i :: (0 <= i < |events| && HasPreloadHook(events[i]) &&
        events[i].timestamp == t && forall j :: 0 <= j < i ==> !HasPreloadHook(events[j])))
  {
    forall t
      ensures NextRunOf(events, timezone) == NextAt(t) <==>
        (!IsEmpty(timezone) && exists i :: (0 <= i < |events| && HasPreloadHook(events[i]) &&
          events[i].timestamp == t && forall j :: 0 <= j < i ==> !HasPreloadHook(events[j])))
    {
      if !IsEmpty(timezone) && exists i :: (0 <= i < |events| && HasPreloadHook(events[i]) &&
          events[i].timestamp == t && forall j :: 0 <= j < i ==> !HasPreloadHook(events[j])) {
        var i :| 0 <= i < |events| && HasPreloadHook(events[i]) &&
          events[i].timestamp == t && forall j :: 0 <= j < i ==> !HasPreloadHook(events[j]);
        FirstSlotIs(events, i);
      }
    }
  }

  // =======================================================================
  // Settings switches
  // =======================================================================

  const ENABLED: string := "Enabled"
  const DISABLED: string := "Disabled"

  /** One row of the `$statuses` table. */
  datatype StatusRow = StatusRow(name: string, title: string, status: string, icon: string)

  /** The rows in table order: name, title, setting key, the value that enables it, icon. */
  datatype RowSpec = RowSpec(name: string, title: string, key: string, onValue: string, icon: string)

  const ROW_SPECS: seq<RowSpec> := [
    RowSpec("auto_purge", "Auto Purge", PURGE_ON_UPDATE_KEY, "yes", "dashicons-trash"),
    RowSpec("auto_preload", "Auto Preload", AUTO_PRELOAD_KEY, "yes", "dashicons-update"),
    RowSpec("preload_mobile", "Preload Mobile", PRELOAD_MOBILE_KEY, "yes", "dashicons-smartphone"),
    RowSpec("scheduled_cache", "Scheduled Cache", SCHEDULE_KEY, "yes", "dashicons-clock"),
    RowSpec("rest_api", "REST API", API_KEY, "yes", "dashicons-admin-network"),
    RowSpec("send_mail", "Send Mail", SEND_MAIL_KEY, "yes", "dashicons-email-alt"),
    RowSpec("opt_in", "Opt-In", OPT_IN_KEY, "1", "dashicons-flag")
  ]

  const SCHEDULED_ROW: nat := 3

  /** A row is 'Enabled' exactly when its setting is the string that switches it on. */
  function Row(settings: Settings, spec: RowSpec): (row: StatusRow)
    ensures row.name == spec.name && row.title == spec.title && row.icon == spec.icon
    ensures row.status == ENABLED <==> HasText(settings, spec.key, spec.onValue)
    ensures row.status == ENABLED || row.status == DISABLED
  {
    StatusRow(spec.name, spec.title,
              if HasText(settings, spec.key, spec.onValue) then ENABLED else DISABLED, spec.icon)
  }

  /** The `$statuses` table for the stored settings. */
  function Statuses(settings: Settings): (rows: seq<StatusRow>)
    ensures |rows| == |ROW_SPECS|
    ensures forall i :: 0 <= i < |rows| ==> rows[i] == Row(settings, ROW_SPECS[i])
  {
    seq(|ROW_SPECS|, i requires 0 <= i < |ROW_SPECS| => Row(settings, ROW_SPECS[i]))
  }

  /** Each switch reads its own setting: the six feature switches need the string 'yes',
      the opt-in switch the string '1'; a missing key, or a number stored in its place,
      shows 'Disabled'. */
  lemma StatusesReadTheirSettings(settings: Settings)
    ensures var rows := Statuses(settings);
      && (rows[0].status == ENABLED <==> HasText(settings, PURGE_ON_UPDATE_KEY, "yes"))
      && (rows[1].status == ENABLED <==> HasText(settings, AUTO_PRELOAD_KEY, "yes"))
      && (rows[2].status == ENABLED <==> HasText(settings, PRELOAD_MOBILE_KEY, "yes"))
      && (rows[3].status == ENABLED <==> HasText(settings, SCHEDULE_KEY, "yes"))
      && (rows[4].status == ENABLED <==> HasText(settings, API_KEY, "yes"))
      && (rows[5].status == ENABLED <==> HasText(settings, SEND_MAIL_KEY, "yes"))
      && (rows[6].status == ENABLED <==> HasText(settings, OPT_IN_KEY, "1"))
    ensures forall i :: 0 <= i < |ROW_SPECS| && ROW_SPECS[i].key !in settings ==>
      Statuses(settings)[i].status == DISABLED
  {
    var rows := Statuses(settings);
    assert rows[0] == Row(settings, ROW_SPECS[0]) && rows[1] == Row(settings, ROW_SPECS[1]);
    assert rows[2] == Row(settings, ROW_SPECS[2]) && rows[3] == Row(settings, ROW_SPECS[3]);
    assert rows[4] == Row(settings, ROW_SPECS[4]) && rows[5] == Row(settings, ROW_SPECS[5]);
    assert rows[6] == Row(settings, ROW_SPECS[6]);
  }

  /** The icon beside a status and the colour it is drawn in. */
  function StatusMark(status: string): (mark: (string, string))
    ensures mark == ("dashicons-yes-alt", "#5cb85c") <==> status == ENABLED
    ensures mark == ("dashicons-dismiss", "#d9534f") <==> status != ENABLED
  {
    if status == ENABLED then ("dashicons-yes-alt", "#5cb85c") else ("dashicons-dismiss", "#d9534f")
  }

  /** A line of the widget's table: a switch with its icons, or the next-run entry. */
  datatype TableLine =
    | SwitchLine(title: string, icon: string, statusIcon: string, statusColor: string)
    | NextRunLine(next: NextRun)

  /** The table body for `rows`: a line per row, and after the scheduled-cache row, when
      it is enabled, the next-run entry. */
  function TableLines(rows: seq<StatusRow>, next: NextRun): seq<TableLine>
  {
    if rows == [] then [] else RowLines(rows[0], next) + TableLines(rows[1..], next)
  }

  /** The switch line of a row. */
  function SwitchOf(r: StatusRow): TableLine
  {
    SwitchLine(r.title, r.icon, StatusMark(r.status).0, StatusMark(r.status).1)
  }

  /** The lines one row contributes. */
  function RowLines(r: StatusRow, next: NextRun): seq<TableLine>
  {
    [SwitchOf(r)] +
    (if r.name == "scheduled_cache" && r.status == ENABLED then [NextRunLine(next)] else [])
  }

  /** `nppp_dashboard_widget`'s table. */
  function WidgetTable(settings: Settings, events: seq<CronSlot>, timezone: string): seq<TableLine>
  {
    TableLines(Statuses(settings), NextRunOf(events, timezone))
  }

  /** Rows other than the scheduled-cache one add exactly their own line. */
  lemma {:induction false} TableLinesQuiet(rows: seq<StatusRow>, next: NextRun)
    requires forall i :: 0 <= i < |rows| ==> rows[i].name != "scheduled_cache"
    ensures |TableLines(rows, next)| == |rows|
    ensures forall i :: 0 <= i < |rows| ==> TableLines(rows, next)[i] == SwitchOf(rows[i])
    decreases |rows|
  {
    if rows != [] {
      TableLinesQuiet(rows[1..], next);
    }
  }

  /** The widget shows one line per switch in table order, and the next-run entry
      exactly when scheduled caching is enabled, right after its row. */
  lemma WidgetTableShape(settings: Settings, events: seq<CronSlot>, timezone: string)
    ensures var lines := WidgetTable(settings, events, timezone);
      var scheduled := HasText(settings, SCHEDULE_KEY, "yes");
      && |lines| == |ROW_SPECS| + (if scheduled then 1 else 0)
      && (scheduled ==> lines[SCHEDULED_ROW + 1] == NextRunLine(NextRunOf(events, timezone)))
      && (forall i :: 0 <= i < |lines| && lines[i].NextRunLine? ==> scheduled && i == SCHEDULED_ROW + 1)
      && (forall k :: 0 <= k < |ROW_SPECS| ==>
            var status := Statuses(settings)[k].status;
            lines[if k <= SCHEDULED_ROW || !scheduled then k else k + 1] ==
              SwitchLine(ROW_SPECS[k].title, ROW_SPECS[k].icon, StatusMark(status).0, StatusMark(status).1))
  {
    var rows := Statuses(settings);
    StatusesReadTheirSettings(settings);
    var head := rows[..3];
    var tail := rows[4..];
    assert Quiet(head) by {
      assert head[0].name == "auto_purge" && head[1].name == "auto_preload" && head[2].name == "preload_mobile";
    }
    assert Quiet(tail) by {
      assert tail[0].name == "rest_api" && tail[1].name == "send_mail" && tail[2].name == "opt_in";
    }
    assert rows[3].name == "scheduled_cache";
    assert rows == head + [rows[3]] + tail;
    TableLinesAround(head, rows[3], tail, NextRunOf(events, timezone));
  }

  predicate Quiet(rows: seq<StatusRow>)
  {
    forall i :: 0 <= i < |rows| ==> rows[i].name != "scheduled_cache"
  }

  /** Around the one scheduled-cache row, the next-run entry appears right after it when
      it is enabled, and nowhere else; every row's switch line keeps its place, shifted by
      one after an enabled scheduled row. */
  lemma TableLinesAround(head: seq<StatusRow>, r: StatusRow, tail: seq<StatusRow>, next: NextRun)
    requires Quiet(head) && Quiet(tail) && r.name == "scheduled_cache"
    ensures var lines := TableLines(head + [r] + tail, next);
      && |lines| == |head| + 1 + |tail| + (if r.status == ENABLED then 1 else 0)
      && (r.status == ENABLED ==> lines[|head| + 1] == NextRunLine(next))
      && (forall i :: 0 <= i < |lines| && lines[i].NextRunLine? ==> r.status == ENABLED && i == |head| + 1)
      && (forall k :: 0 <= k < |head| + 1 + |tail| ==>
            lines[if k <= |head| || r.status != ENABLED then k else k + 1] == SwitchOf((head + [r] + tail)[k]))
  {
    TableLinesQuiet(head, next);
    TableLinesQuiet(tail, next);
    TableLinesSplit(head, r, tail, next);
    var front := TableLines(head, next);
    var middle := TableLines([r], next);
    var back := TableLines(tail, next);
    TableLinesSingle(r, next);
    NextRunOnlyInMiddle(front, middle, back);
    var rows := head + [r] + tail;
    var lines := front + middle + back;
    forall k | 0 <= k < |rows|
      ensures lines[if k <= |head| || r.status != ENABLED then k else k + 1] == SwitchOf(rows[k])
    {
      if k < |head| {
        assert rows[k] == head[k] && lines[k] == front[k];
      } else if k == |head| {
        assert rows[k] == r && lines[k] == middle[0];
      } else {
        var j := if r.status != ENABLED then k else k + 1;
        assert rows[k] == tail[k - |head| - 1];
        assert lines[j] == back[k - |head| - 1];
      }
    }
  }

  /** The lines around one row are the lines of the rows before it, its own, and those after. */
  lemma TableLinesSplit(head: seq<StatusRow>, r: StatusRow, tail: seq<StatusRow>, next: NextRun)
    ensures TableLines(head + [r] + tail, next) ==
      TableLines(head, next) + TableLines([r], next) + TableLines(tail, next)
  {
    assert head + [r] + tail == head + ([r] + tail);
    TableLinesAppend(head, [r] + tail, next);
    TableLinesAppend([r], tail, next);
  }

  /** The scheduled-cache row's own lines: its switch line, then the next-run entry when
      it is enabled. */
  lemma TableLinesSingle(r: StatusRow, next: NextRun)
    requires r.name == "scheduled_cache"
    ensures var m := TableLines([r], next);
      && |m| == 1 + (if r.status == ENABLED then 1 else 0)
      && m[0] == SwitchOf(r)
      && (r.status == ENABLED ==> m[1] == NextRunLine(next))
  {
    assert [r][1..] == [];
  }

  /** In `front + middle + back`, where neither `front` nor `back` holds a next-run line,
      every next-run line comes from `middle`. */
  lemma NextRunOnlyInMiddle(front: seq<TableLine>, middle: seq<TableLine>, back: seq<TableLine>)
    requires forall i :: 0 <= i < |front| ==> front[i].SwitchLine?
    requires forall i :: 0 <= i < |back| ==> back[i].SwitchLine?
    ensures forall i :: 0 <= i < |front + middle + back| && (front + middle + back)[i].NextRunLine? ==>
      |front| <= i < |front| + |middle| && middle[i - |front|].NextRunLine?
  {
  }

  lemma {:induction false} TableLinesAppend(a: seq<StatusRow>, b: seq<StatusRow>, next: NextRun)
    ensures TableLines(a + b, next) == TableLines(a, next) + TableLines(b, next)
    decreases |a|
  {
    if a == [] {
      assert a + b == b;
    } else {
      var ab := a + b;
      assert ab[0] == a[0];
      assert ab[1..] == a[1..] + b;
      TableLinesAppend(a[1..], b, next);
      calc {
        TableLines(ab, next);
        RowLines(a[0], next) + TableLines(a[1..] + b, next);
        RowLines(a[0], next) + (TableLines(a[1..], next) + TableLines(b, next));
        (RowLines(a[0], next) + TableLines(a[1..], next)) + TableLines(b, next);
      }
    }
  }
}
