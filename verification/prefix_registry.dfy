/** The prefix-command loader and its watcher (`prefixHandler`): the
    registry is keyed by the definition's `name`, loads and unloads go
    through two 500 ms debouncers shared by every file. */
module PrefixRegistry {
  import opened Options
  import opened Text
  import opened Definition
  import C = Collection
  import Debounce
  import FileTree

  type Registry = C.Coll<JsName, Definition>

  /** Milliseconds both debouncers wait. */
  const Delay: nat := 500

  /** `loadCommand(filePath)`: a definition with a truthy `name` is stored
      under that name; a missing name or a throwing module leaves the
      registry alone. */
  function LoadPrefix(reg: Registry, path: string, disk: Disk): (r: Registry)
    ensures Require(disk, path).Throws? ==> r == reg
    ensures Require(disk, path).Exports? && !NameTruthy(Require(disk, path).def.name) ==> r == reg
    ensures Require(disk, path).Exports? && NameTruthy(Require(disk, path).def.name) ==>
              var d := Require(disk, path).def;
              C.Get(r, d.name) == Some(d) && forall k :: k != d.name ==> C.Get(r, k) == C.Get(reg, k)
  {
    match Require(disk, path)
    case Throws => reg
    case Exports(d) => if NameTruthy(d.name) then C.Set(reg, d.name, d) else reg
  }

  /** The key `unloadCommand` looks for: the file name without `.js`. */
  function FileKey(path: string): JsName {
    Str(BasenameWithout(path, ".js"))
  }

  /** `unloadCommand(filePath)`: removes the entry keyed by the file name,
      if any; an entry stored under a different `name` stays. */
  function UnloadPrefix(reg: Registry, path: string): (r: Registry)
    ensures !C.Has(r, FileKey(path))
    ensures forall k :: k != FileKey(path) ==> C.Get(r, k) == C.Get(reg, k)
    ensures !C.Has(reg, FileKey(path)) ==> r == reg
  {
    if C.Has(reg, FileKey(path)) then C.Delete(reg, FileKey(path)) else reg
  }

  /** `loadAllCommands` over the `.js` files in walk order. */
  function LoadAll(reg: Registry, files: seq<string>, disk: Disk): Registry
    decreases |files|
  {
    if |files| == 0 then reg else LoadAll(LoadPrefix(reg, files[0], disk), files[1..], disk)
  }

  /** The reference reading: the definitions that load, in file order. */
  function Loaded(files: seq<string>, disk: Disk): (r: seq<Definition>)
    ensures forall d :: d in r ==> NameTruthy(d.name)
  {
    if |files| == 0 then []
    else
      var rest := Loaded(files[1..], disk);
      match Require(disk, files[0])
      case Throws => rest
      case Exports(d) => if NameTruthy(d.name) then [d] + rest else rest
  }

  /** The last of `defs` named `name`. */
  function LastNamed(defs: seq<Definition>, name: JsName): (r: Option<Definition>)
    ensures r.Some? ==> r.value in defs && r.value.name == name
    ensures r.None? ==> forall d :: d in defs ==> d.name != name
  {
    if |defs| == 0 then None
    else
      var later := LastNamed(defs[1..], name);
      if later.Some? then later
      else if defs[0].name == name then Some(defs[0])
      else None
  }

  /** Last load wins, and names no file declares keep their entry. */
  lemma {:induction false} LoadAllLastWins(reg: Registry, files: seq<string>, disk: Disk, name: JsName)
    ensures C.Get(LoadAll(reg, files, disk), name)
            == match LastNamed(Loaded(files, disk), name)
               case Some(d) => Some(d)
               case None => C.Get(reg, name)
    decreases |files|
  {
    if |files| > 0 {
      LoadAllLastWins(LoadPrefix(reg, files[0], disk), files[1..], disk, name);
    }
  }

  /** The loader's state: the registry and the two shared debouncers. */
  datatype State = State(prefix: Registry, loadTimer: Debounce.Debouncer<string>,
                         unloadTimer: Debounce.Debouncer<string>)

  /** `prefixHandler(client, prefixPath)` before any watcher event: an
      existing registry is kept and every `.js` file under the folder is
      loaded into it. */
  function Init(existing: Option<Registry>, dir: string, tree: seq<FileTree.Node>, disk: Disk): (r: State)
    ensures r.loadTimer == Debounce.Idle && r.unloadTimer == Debounce.Idle
  {
    var reg := if existing.Some? then existing.value else C.Empty();
    State(LoadAll(reg, FileTree.AllFiles(dir, tree), disk), Debounce.Idle, Debounce.Idle)
  }

  /** After start-up a name maps to the last file loaded under it, else to
      what the existing registry held. */
  lemma InitKeepsExisting(existing: Option<Registry>, dir: string, tree: seq<FileTree.Node>, disk: Disk, name: JsName)
    ensures C.Get(Init(existing, dir, tree, disk).prefix, name)
            == match LastNamed(Loaded(FileTree.AllFiles(dir, tree), disk), name)
               case Some(d) => Some(d)
               case None => if existing.Some? then C.Get(existing.value, name) else None
  {
    var reg := if existing.Some? then existing.value else C.Empty();
    LoadAllLastWins(reg, FileTree.AllFiles(dir, tree), disk, name);
  }

  /** Watcher events and the two timers' ticks; which timer's tick comes
      first is the environment's choice. */
  datatype Event = Added(path: string) | Changed(path: string) | Removed(path: string) | LoadDue | UnloadDue

  /** One watcher callback or timer tick at time `now`; `disk` is the file
      system when the callback runs. */
  function Step(s: State, ev: Event, now: int, disk: Disk): (r: State)
    // only `.js` files are acted on
    ensures (ev.Added? || ev.Changed? || ev.Removed?) && !FileTree.IsScriptName(ev.path) ==> r == s
    // file events only (re)arm timers; the registry changes when a timer runs
    ensures (ev.Added? || ev.Changed? || ev.Removed?) ==> r.prefix == s.prefix
    ensures (ev.Added? || ev.Changed?) && FileTree.IsScriptName(ev.path) ==>
              r.loadTimer == Debounce.Pending(ev.path, now + Delay)
    ensures (ev.Changed? || ev.Removed?) && FileTree.IsScriptName(ev.path) ==>
              r.unloadTimer == Debounce.Pending(ev.path, now + Delay)
    ensures ev.Added? ==> r.unloadTimer == s.unloadTimer
    ensures ev.Removed? ==> r.loadTimer == s.loadTimer
    ensures ev.LoadDue? && s.loadTimer.Pending? && now >= s.loadTimer.due ==>
              r == s.(prefix := LoadPrefix(s.prefix, s.loadTimer.args, disk), loadTimer := Debounce.Idle)
    ensures ev.UnloadDue? && s.unloadTimer.Pending? && now >= s.unloadTimer.due ==>
              r == s.(prefix := UnloadPrefix(s.prefix, s.unloadTimer.args), unloadTimer := Debounce.Idle)
    ensures ev.LoadDue? && !(s.loadTimer.Pending? && now >= s.loadTimer.due) ==> r == s
    ensures ev.UnloadDue? && !(s.unloadTimer.Pending? && now >= s.unloadTimer.due) ==> r == s
  {
    match ev
    case Added(p) =>
      if FileTree.IsScriptName(p) then s.(loadTimer := Debounce.Call(s.loadTimer, p, now, Delay)) else s
    case Changed(p) =>
      if FileTree.IsScriptName(p)
      then s.(unloadTimer := Debounce.Call(s.unloadTimer, p, now, Delay),
              loadTimer := Debounce.Call(s.loadTimer, p, now, Delay))
      else s
    case Removed(p) =>
      if FileTree.IsScriptName(p) then s.(unloadTimer := Debounce.Call(s.unloadTimer, p, now, Delay)) else s
    case LoadDue =>
      var t := Debounce.Tick(s.loadTimer, now);
      if t.0.Some? then s.(prefix := LoadPrefix(s.prefix, t.0.value, disk), loadTimer := t.1) else s
    case UnloadDue =>
      var t := Debounce.Tick(s.unloadTimer, now);
      if t.0.Some? then s.(prefix := UnloadPrefix(s.prefix, t.0.value), unloadTimer := t.1) else s
  }

  /** A change unloads and then reloads the file once both timers ran (the
      unload timer was armed first, so its tick comes first). */
  lemma ChangeReloads(s: State, p: string, now: int, later: int, disk: Disk)
    requires FileTree.IsScriptName(p) && later >= now + Delay
    ensures var s1 := Step(s, Changed(p), now, disk);
            var s2 := Step(s1, UnloadDue, later, disk);
            var s3 := Step(s2, LoadDue, later, disk);
            s3.prefix == LoadPrefix(UnloadPrefix(s.prefix, p), p, disk)
            && s3.loadTimer == Debounce.Idle && s3.unloadTimer == Debounce.Idle
  {
  }

  /** As written, the load debouncer is shared by all files: adding a
      second script before the first one's timer ran cancels the first
      load, so `a.js` never enters the registry. */
  lemma SharedTimerDropsEarlierFile()
    ensures var disk := map["a.js" := Exports(Plain(Str("a"))), "b.js" := Exports(Plain(Str("b")))];
            var s0 := State(C.Empty(), Debounce.Idle, Debounce.Idle);
            var s1 := Step(s0, Added("a.js"), 0, disk);
            var s2 := Step(s1, Added("b.js"), 100, disk);
            var s3 := Step(s2, LoadDue, 600, disk);
            C.Has(s3.prefix, Str("b")) && !C.Has(s3.prefix, Str("a")) && s3.loadTimer == Debounce.Idle
  {
    var disk := map["a.js" := Exports(Plain(Str("a"))), "b.js" := Exports(Plain(Str("b")))];
    var s0: State := State(C.Empty(), Debounce.Idle, Debounce.Idle);
    var s1 := Step(s0, Added("a.js"), 0, disk);
    assert s1.loadTimer == Debounce.Pending("a.js", 500);
    var s2 := Step(s1, Added("b.js"), 100, disk);
    assert s2.loadTimer == Debounce.Pending("b.js", 600);
    assert FileTree.IsScriptName("b.js");
    assert Require(disk, "b.js") == Exports(Plain(Str("b")));
    var s3 := Step(s2, LoadDue, 600, disk);
    assert s3.prefix == LoadPrefix(C.Empty(), "b.js", disk);
    assert Str("a") != Str("b");
  }

  /** The evidently intended loader: one pending load and one pending
      unload per file, so arming one file never disturbs another. */
  datatype PerFileState = PerFileState(prefix: Registry, loads: map<string, int>, unloads: map<string, int>)

  datatype PerFileEvent =
    | FileAdded(path: string) | FileChanged(path: string) | FileRemoved(path: string)
    | LoadDueFor(path: string) | UnloadDueFor(path: string)

  function EventPath(ev: PerFileEvent): string {
    ev.path
  }

  function PerFileStep(s: PerFileState, ev: PerFileEvent, now: int, disk: Disk): (r: PerFileState)
    // another file's pending load and unload are untouched
    ensures forall q :: q != EventPath(ev) ==>
              (q in r.loads <==> q in s.loads) && (q in s.loads ==> r.loads[q] == s.loads[q])
    ensures forall q :: q != EventPath(ev) ==>
              (q in r.unloads <==> q in s.unloads) && (q in s.unloads ==> r.unloads[q] == s.unloads[q])
    ensures (ev.FileAdded? || ev.FileChanged?) && FileTree.IsScriptName(ev.path) ==>
              ev.path in r.loads && r.loads[ev.path] == now + Delay
    // a due load runs for exactly its own file
    ensures ev.LoadDueFor? && ev.path in s.loads && now >= s.loads[ev.path] ==>
              r.prefix == LoadPrefix(s.prefix, ev.path, disk) && ev.path !in r.loads
    ensures ev.UnloadDueFor? && ev.path in s.unloads && now >= s.unloads[ev.path] ==>
              r.prefix == UnloadPrefix(s.prefix, ev.path) && ev.path !in r.unloads
  {
    match ev
    case FileAdded(p) =>
      if FileTree.IsScriptName(p) then s.(loads := s.loads[p := now + Delay]) else s
    case FileChanged(p) =>
      if FileTree.IsScriptName(p)
      then s.(unloads := s.unloads[p := now + Delay], loads := s.loads[p := now + Delay])
      else s
    case FileRemoved(p) =>
      if FileTree.IsScriptName(p) then s.(unloads := s.unloads[p := now + Delay]) else s
    case LoadDueFor(p) =>
      if p in s.loads && now >= s.loads[p]
      then s.(prefix := LoadPrefix(s.prefix, p, disk), loads := s.loads - {p})
      else s
    case UnloadDueFor(p) =>
      if p in s.unloads && now >= s.unloads[p]
      then s.(prefix := UnloadPrefix(s.prefix, p), unloads := s.unloads - {p})
      else s
  }

  /** With per-file timers the same two additions load both files. */
  lemma PerFileKeepsEarlierFile()
    ensures var disk := map["a.js" := Exports(Plain(Str("a"))), "b.js" := Exports(Plain(Str("b")))];
            var s0 := PerFileState(C.Empty(), map[], map[]);
            var s1 := PerFileStep(s0, FileAdded("a.js"), 0, disk);
            var s2 := PerFileStep(s1, FileAdded("b.js"), 100, disk);
            var s3 := PerFileStep(s2, LoadDueFor("a.js"), 600, disk);
            var s4 := PerFileStep(s3, LoadDueFor("b.js"), 600, disk);
            C.Has(s4.prefix, Str("a")) && C.Has(s4.prefix, Str("b")) && s4.loads == map[]
  {
    var disk := map["a.js" := Exports(Plain(Str("a"))), "b.js" := Exports(Plain(Str("b")))];
    var s0 := PerFileState(C.Empty(), map[], map[]);
    var s1 := PerFileStep(s0, FileAdded("a.js"), 0, disk);
    assert FileTree.IsScriptName("a.js") && FileTree.IsScriptName("b.js");
    assert s1.loads == map["a.js" := 500];
    var s2 := PerFileStep(s1, FileAdded("b.js"), 100, disk);
    assert s2.loads == map["a.js" := 500, "b.js" := 600];
    assert Require(disk, "a.js") == Exports(Plain(Str("a")));
    assert Require(disk, "b.js") == Exports(Plain(Str("b")));
    var s3 := PerFileStep(s2, LoadDueFor("a.js"), 600, disk);
    assert C.Has(s3.prefix, Str("a"));
    assert s3.loads == map["b.js" := 600];
    var s4 := PerFileStep(s3, LoadDueFor("b.js"), 600, disk);
    assert Str("a") != Str("b");
    assert s4.loads == map[];
  }
}
