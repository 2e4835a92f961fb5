/** The file activity tracker (`activityTracker`): watcher events on the
    project become entries of a newest-first list of at most 100, unless
    the tracker is disabled or the path is ignored. */
module ActivityTracker {
  import opened Options
  import opened Text
  import BoundedLog

  /** `MAX_ACTIVITIES`. */
  const MaxActivities: nat := 100

  /** One entry; its id and time of day are left out. */
  datatype Entry = Entry(kind: string, filePath: string, details: string, fileName: string)

  type Activities = s: seq<Entry> | |s| <= MaxActivities

  /** `addActivity(type, filePath, details)`: the entry goes first and the
      list is cut back to 100. */
  function AddActivity(log: Activities, kind: string, path: string, details: string, cwd: string): (r: Activities)
    ensures |r| > 0 && r[0] == Entry(kind, Relative(cwd, path), details, Basename(path))
    ensures r[1..] == if |log| < MaxActivities then log else log[..MaxActivities - 1]
  {
    BoundedLog.Prepend(log, Entry(kind, Relative(cwd, path), details, Basename(path)), MaxActivities)
  }

  /** The watcher's events; `WatchError` is only printed. */
  datatype WatchEvent =
    | Add(path: string)
    | Change(path: string)
    | Unlink(path: string)
    | AddDir(path: string)
    | UnlinkDir(path: string)
    | WatchError

  /** The entry type and details each event records. */
  function Describe(ev: WatchEvent): (r: Option<(string, string)>)
    ensures r.None? <==> ev.WatchError?
    ensures r.Some? ==> r.value.0 in {"add", "change", "delete"}
    ensures (ev.Add? || ev.AddDir?) <==> r.Some? && r.value.0 == "add"
    ensures (ev.Unlink? || ev.UnlinkDir?) <==> r.Some? && r.value.0 == "delete"
    // the details tell a file from a directory and name what happened
    ensures ev.Add? ==> r == Some(("add", "File created"))
    ensures ev.Change? ==> r == Some(("change", "File modified"))
    ensures ev.Unlink? ==> r == Some(("delete", "File deleted"))
    ensures ev.AddDir? ==> r == Some(("add", "Directory created"))
    ensures ev.UnlinkDir? ==> r == Some(("delete", "Directory deleted"))
  {
    match ev
    case Add(_) => Some(("add", "File created"))
    case Change(_) => Some(("change", "File modified"))
    case Unlink(_) => Some(("delete", "File deleted"))
    case AddDir(_) => Some(("add", "Directory created"))
    case UnlinkDir(_) => Some(("delete", "Directory deleted"))
    case WatchError => None
  }

  /** The tracker's configuration: `activityTracker.enabled` and the
      ignore test on the path relative to the watched root. `ignored` is
      the watcher's whole decision for that path: the glob matching, the
      backslash-to-slash rewrite before it, and the pruning of everything
      below an ignored directory. */
  datatype Config = Config(enabled: bool, ignored: string -> bool, root: string, cwd: string)

  /** Whether an event reaches `addActivity`. */
  predicate Records(cfg: Config, ev: WatchEvent) {
    cfg.enabled && !ev.WatchError? && !cfg.ignored(Relative(cfg.root, ev.path))
  }

  function EntryFor(cfg: Config, ev: WatchEvent): Entry
    requires !ev.WatchError?
  {
    var d := Describe(ev).value;
    Entry(d.0, Relative(cfg.cwd, ev.path), d.1, Basename(ev.path))
  }

  /** One watcher event. */
  function OnEvent(cfg: Config, log: Activities, ev: WatchEvent): (r: Activities)
    ensures !Records(cfg, ev) ==> r == log
    ensures Records(cfg, ev) ==> |r| > 0 && r[0] == EntryFor(cfg, ev) && |r| == if |log| < MaxActivities then |log| + 1 else |log|
  {
    if !Records(cfg, ev) then log
    else
      var d := Describe(ev).value;
      AddActivity(log, d.0, ev.path, d.1, cfg.cwd)
  }

  /** A run of events. */
  function OnEvents(cfg: Config, log: Activities, evs: seq<WatchEvent>): Activities
    decreases |evs|
  {
    if |evs| == 0 then log else OnEvents(cfg, OnEvent(cfg, log, evs[0]), evs[1..])
  }

  /** The entries of the recorded events, in arrival order. */
  function Recorded(cfg: Config, evs: seq<WatchEvent>): (r: seq<Entry>)
    ensures |r| <= |evs|
    ensures !cfg.enabled ==> r == []
  {
    if |evs| == 0 then []
    else (if Records(cfg, evs[0]) then [EntryFor(cfg, evs[0])] else []) + Recorded(cfg, evs[1..])
  }

  /** After any run the list holds the newest 100 recorded entries, newest
      first, followed by what was there before as room allows. */
  lemma {:induction false} OnEventsKeepsNewest(cfg: Config, log: Activities, evs: seq<WatchEvent>)
    ensures OnEvents(cfg, log, evs) == BoundedLog.FirstN(BoundedLog.Reverse(Recorded(cfg, evs)) + log, MaxActivities)
    decreases |evs|
  {
    OnEventsIsPrependAll(cfg, log, evs);
    BoundedLog.PrependAllKeepsNewest(log, Recorded(cfg, evs), MaxActivities);
  }

  lemma {:induction false} OnEventsIsPrependAll(cfg: Config, log: Activities, evs: seq<WatchEvent>)
    ensures OnEvents(cfg, log, evs) == BoundedLog.PrependAll(log, Recorded(cfg, evs), MaxActivities)
    decreases |evs|
  {
    if |evs| > 0 {
      var l1 := OnEvent(cfg, log, evs[0]);
      OnEventsIsPrependAll(cfg, l1, evs[1..]);
      if Records(cfg, evs[0]) {
        assert Recorded(cfg, evs) == [EntryFor(cfg, evs[0])] + Recorded(cfg, evs[1..]);
        assert l1 == BoundedLog.Prepend(log, EntryFor(cfg, evs[0]), MaxActivities);
      } else {
        assert Recorded(cfg, evs) == Recorded(cfg, evs[1..]);
      }
    }
  }

  /** A disabled tracker never records. */
  lemma DisabledRecordsNothing(cfg: Config, log: Activities, evs: seq<WatchEvent>)
    requires !cfg.enabled
    ensures OnEvents(cfg, log, evs) == log
  {
    OnEventsKeepsNewest(cfg, log, evs);
  }
}
