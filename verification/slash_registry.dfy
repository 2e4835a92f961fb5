/** The slash-command loader and its file watcher (`handleCommands`): the
    configuration guard, loading one file into the registry, loading the
    whole tree into global and developer declarations, the remote
    (un)registration calls, the debounced re-sync and the bounded activity
    list every log line feeds. */
module SlashRegistry {
  import opened Options
  import opened Text
  import opened Definition
  import C = Collection
  import BoundedLog
  import Debounce
  import FileTree

  /** Sample-configuration values that count as "not configured". */
  const PlaceholderTokens: seq<string> := [
    "YOUR_BOT_TOKEN",
    "YOUR_MONGODB_URL",
    "YOUR_BOT_ID",
    "YOUR_DEVELOPER_GUILD_ID",
    "YOUR_BOT_OWNER_ID",
    "YOUR_DEVELOPER_COMMANDS_SERVER_ID_1",
    "YOUR_DEVELOPER_COMMANDS_SERVER_ID_2",
    "YOUR_GUILD_JOIN_LOGS_CHANNEL_ID",
    "YOUR_GUILD_LEAVE_LOGS_CHANNEL_ID",
    "YOUR_COMMAND_LOGS_CHANNEL_ID"
  ]

  /** Milliseconds between the last watcher event and the re-sync. */
  const SyncDelay: nat := 5000

  /** `isConfigIncomplete`: the value is falsy or a placeholder. */
  function IsConfigIncomplete(value: Option<string>, placeholders: seq<string>): (r: bool)
    ensures value == None ==> r
    ensures value == Some("") ==> r
    ensures value.Some? && value.value in placeholders ==> r
    ensures r ==> value.None? || value.value == "" || value.value in placeholders
  {
    value.None? || value.value == "" || value.value in placeholders
  }

  datatype Severity = Success | Info | Warning | Error

  /** The activity `type` a log line records (`type.toLowerCase()`). */
  function SeverityTag(s: Severity): string {
    match s
    case Success => "success"
    case Info => "info"
    case Warning => "warning"
    case Error => "error"
  }

  /** One entry of the loader's activity list (its time of day is left out). */
  datatype Activity = Activity(kind: string, message: string)

  type ActivityLog = a: seq<Activity> | |a| <= BoundedLog.Capacity

  /** `addActivity(action, subject)`: the entry goes last, the oldest entry
      is dropped once there are more than 100. */
  function AddActivity(acts: ActivityLog, action: string, subject: string, cwd: string): (r: ActivityLog)
    ensures |r| > 0 && r[|r| - 1] == Activity(action, action + " " + Relative(cwd, subject))
    ensures |acts| < BoundedLog.Capacity ==> r == acts + [r[|r| - 1]]
    ensures |acts| == BoundedLog.Capacity ==> r == acts[1..] + [r[|r| - 1]]
  {
    BoundedLog.Append(acts, Activity(action, action + " " + Relative(cwd, subject)), BoundedLog.Capacity)
  }

  /** `log(message, type)`: only its effect on the activity list. */
  function Log(acts: ActivityLog, sev: Severity, message: string, cwd: string): ActivityLog {
    AddActivity(acts, SeverityTag(sev), message, cwd)
  }

  /** One log line: its severity and its text. */
  datatype Line = Line(sev: Severity, message: string)

  /** The activity entry a log line adds. */
  function EntryOf(l: Line, cwd: string): Activity {
    Activity(SeverityTag(l.sev), SeverityTag(l.sev) + " " + Relative(cwd, l.message))
  }

  function Entries(lines: seq<Line>, cwd: string): (r: seq<Activity>)
    ensures |r| == |lines|
    ensures forall i :: 0 <= i < |lines| ==> r[i] == EntryOf(lines[i], cwd)
  {
    seq(|lines|, i requires 0 <= i < |lines| => EntryOf(lines[i], cwd))
  }

  /** `log` for each line in turn: the list keeps the newest 100 of the old
      entries followed by one entry per line. */
  function LogLines(acts: ActivityLog, lines: seq<Line>, cwd: string): (r: ActivityLog)
    ensures r == BoundedLog.LastN(acts + Entries(lines, cwd), BoundedLog.Capacity)
  {
    BoundedLog.AppendAllKeepsNewest(acts, Entries(lines, cwd), BoundedLog.Capacity);
    BoundedLog.AppendAll(acts, Entries(lines, cwd), BoundedLog.Capacity)
  }

  /** The last entry after logging a non-empty batch of lines is the last
      line's. */
  lemma LastLogged(acts: ActivityLog, lines: seq<Line>, cwd: string)
    requires |lines| > 0
    ensures var r := LogLines(acts, lines, cwd);
            |r| > 0 && r[|r| - 1] == EntryOf(lines[|lines| - 1], cwd)
  {
    var all := acts + Entries(lines, cwd);
    assert all[|all| - 1] == EntryOf(lines[|lines| - 1], cwd);
  }

  /** The loader's view of the client: the registry and the activity list. */
  datatype Client = Client(commands: C.Coll<string, Definition>, activities: ActivityLog)

  /** A definition the registry accepts: `data.name` is a non-empty string. */
  predicate HasValidName(d: Definition) {
    d.data.Some? && d.data.value.name.Str? && d.data.value.name.s != ""
  }

  function NameOf(d: Definition): string
    requires HasValidName(d)
  {
    d.data.value.name.s
  }

  /** What loading `path` yields, independent of the registry. */
  function Loadable(disk: Disk, path: string): (r: Option<Definition>)
    ensures r.Some? ==> HasValidName(r.value)
  {
    if Contains(path, "schemas") then None
    else
      match Require(disk, path)
      case Throws => None
      case Exports(d) => if HasValidName(d) then Some(d) else None
  }

  /** `loadCommand(client, filePath)`. */
  function LoadCommand(cl: Client, path: string, disk: Disk, cwd: string): (r: (Option<Definition>, Client))
    ensures r.0 == Loadable(disk, path)
    ensures Contains(path, "schemas") ==> r.0.None? && r.1.commands == cl.commands
    ensures r.0.None? ==> r.1.commands == cl.commands
    ensures r.0.None? ==> |r.1.activities| > 0
    ensures r.0.None? && Contains(path, "schemas") ==> r.1.activities[|r.1.activities| - 1].kind == "warning"
    ensures r.0.None? && !Contains(path, "schemas") ==> r.1.activities[|r.1.activities| - 1].kind == "error"
    ensures r.0.Some? ==> C.Get(r.1.commands, NameOf(r.0.value)) == Some(r.0.value)
    ensures r.0.Some? ==> forall k :: k != NameOf(r.0.value) ==> C.Get(r.1.commands, k) == C.Get(cl.commands, k)
    ensures r.0.Some? ==> r.1.activities == cl.activities
  {
    var rel := Relative(cwd, path);
    if Contains(path, "schemas") then
      (None, Logged(cl, Warning, SchemaIgnored(rel), cwd))
    else
      match Require(disk, path)
      case Throws =>
        (None, Logged(cl, Error, LoadFailed(rel), cwd))
      case Exports(d) =>
        if !HasValidName(d) then
          (None, Logged(cl, Error, NameMissing(rel), cwd))
        else
          (Some(d), cl.(commands := C.Set(cl.commands, NameOf(d), d)))
  }

  function SchemaIgnored(rel: string): string {
    "Ignoring schema file: " + rel
  }

  function LoadFailed(rel: string): string {
    "Failed to load command from \"" + rel + "\"."
  }

  function NameMissing(rel: string): string {
    "The command file \"" + rel + "\" is missing a valid name property."
  }

  /** The client after one log line: the registry is untouched. */
  function Logged(cl: Client, sev: Severity, message: string, cwd: string): (r: Client)
    ensures r.commands == cl.commands
    ensures |r.activities| > 0 && r.activities[|r.activities| - 1].kind == SeverityTag(sev)
  {
    cl.(activities := Log(cl.activities, sev, message, cwd))
  }

  /** The declarations of one load pass, split by `devOnly`. */
  datatype Batch = Batch(global: seq<Descriptor>, dev: seq<Descriptor>, client: Client)

  /** `loadCommands(client, commandsPath)` over the files in walk order. */
  function LoadCommands(cl: Client, files: seq<string>, disk: Disk, cwd: string): (r: Batch)
    decreases |files|
  {
    if |files| == 0 then Batch([], [], cl)
    else
      var step := LoadCommand(cl, files[0], disk, cwd);
      var rest := LoadCommands(step.1, files[1..], disk, cwd);
      match step.0
      case None => rest
      case Some(d) =>
        if Truthy(d.devOnly) then Batch(rest.global, [d.data.value] + rest.dev, rest.client)
        else Batch([d.data.value] + rest.global, rest.dev, rest.client)
  }

  /** The reference reading: the files that load, in order. */
  function LoadedDefs(files: seq<string>, disk: Disk): (r: seq<Definition>)
    ensures forall d :: d in r ==> HasValidName(d)
  {
    if |files| == 0 then []
    else
      match Loadable(disk, files[0])
      case None => LoadedDefs(files[1..], disk)
      case Some(d) => [d] + LoadedDefs(files[1..], disk)
  }

  function Declarations(defs: seq<Definition>, dev: bool): seq<Descriptor>
    requires forall d :: d in defs ==> HasValidName(d)
  {
    if |defs| == 0 then []
    else
      assert defs[0] in defs && HasValidName(defs[0]);
      assert forall d :: d in defs[1..] ==> d in defs;
      (if Truthy(defs[0].devOnly) == dev then [defs[0].data.value] else [])
      + Declarations(defs[1..], dev)
  }

  /** Every loaded command lands in exactly one of the two arrays, developer
      ones when `devOnly` is truthy, in file order. */
  lemma {:induction false} LoadCommandsPartition(cl: Client, files: seq<string>, disk: Disk, cwd: string)
    ensures LoadCommands(cl, files, disk, cwd).global == Declarations(LoadedDefs(files, disk), false)
    ensures LoadCommands(cl, files, disk, cwd).dev == Declarations(LoadedDefs(files, disk), true)
    ensures |LoadCommands(cl, files, disk, cwd).global| + |LoadCommands(cl, files, disk, cwd).dev|
            == |LoadedDefs(files, disk)|
    decreases |files|
  {
    DeclarationsSplit(LoadedDefs(files, disk));
    if |files| > 0 {
      var step := LoadCommand(cl, files[0], disk, cwd);
      LoadCommandsPartition(step.1, files[1..], disk, cwd);
      var later := LoadedDefs(files[1..], disk);
      match Loadable(disk, files[0])
      case None =>
        assert LoadedDefs(files, disk) == later;
      case Some(d) =>
        assert LoadedDefs(files, disk) == [d] + later;
        DeclarationsCons(d, later, false);
        DeclarationsCons(d, later, true);
    }
  }

  lemma DeclarationsCons(d: Definition, defs: seq<Definition>, dev: bool)
    requires HasValidName(d) && forall e :: e in defs ==> HasValidName(e)
    ensures Declarations([d] + defs, dev)
            == (if Truthy(d.devOnly) == dev then [d.data.value] else []) + Declarations(defs, dev)
  {
    assert ([d] + defs)[0] == d;
    assert ([d] + defs)[1..] == defs;
  }

  lemma {:induction false} DeclarationsSplit(defs: seq<Definition>)
    requires forall d :: d in defs ==> HasValidName(d)
    ensures |Declarations(defs, false)| + |Declarations(defs, true)| == |defs|
  {
    if |defs| > 0 {
      assert forall d :: d in defs[1..] ==> d in defs;
      DeclarationsSplit(defs[1..]);
    }
  }

  /** The last of `defs` registered under `name`. */
  function LastNamed(defs: seq<Definition>, name: string): (r: Option<Definition>)
    requires forall d :: d in defs ==> HasValidName(d)
    ensures r.Some? ==> r.value in defs && NameOf(r.value) == name
    ensures r.None? ==> forall d :: d in defs ==> NameOf(d) != name
  {
    if |defs| == 0 then None
    else
      assert forall d :: d in defs[1..] ==> d in defs;
      var later := LastNamed(defs[1..], name);
      if later.Some? then later
      else if NameOf(defs[0]) == name then Some(defs[0])
      else None
  }

  /** Last load wins: after a pass, a name maps to the last file that
      loaded under it, and names no file declared keep their old entry. */
  lemma {:induction false} LoadCommandsLastWins(cl: Client, files: seq<string>, disk: Disk, cwd: string, name: string)
    ensures C.Get(LoadCommands(cl, files, disk, cwd).client.commands, name)
            == match LastNamed(LoadedDefs(files, disk), name)
               case Some(d) => Some(d)
               case None => C.Get(cl.commands, name)
    decreases |files|
  {
    if |files| > 0 {
      var step := LoadCommand(cl, files[0], disk, cwd);
      LoadCommandsLastWins(step.1, files[1..], disk, cwd, name);
    }
  }

  /** Calls made to the platform's REST interface. */
  datatype RemoteCall =
    | PutGlobal(body: seq<Descriptor>)
    | PutGuild(guild: string, body: seq<Descriptor>)
    | DeleteGlobalNamed(name: string)
    | DeleteGuildNamed(guild: string, name: string)

  /** `registerCommands`: replace the global set when there is anything
      global, and each developer server's set when there are developer
      commands and servers. */
  function RegisterCalls(global: seq<Descriptor>, dev: seq<Descriptor>, servers: seq<string>): (r: seq<RemoteCall>)
    ensures |global| > 0 ==> |r| > 0 && r[0] == PutGlobal(global)
    ensures |global| == 0 ==> forall c :: c in r ==> c.PutGuild?
    ensures forall c :: c in r && c.PutGuild? ==> c.body == dev && c.guild in servers
    ensures (|dev| == 0 || |servers| == 0) ==> forall c :: c in r ==> c.PutGlobal?
    ensures |dev| > 0 ==> forall s :: s in servers ==> PutGuild(s, dev) in r
    ensures |r| == (if |global| > 0 then 1 else 0) + (if |dev| > 0 then |servers| else 0)
  {
    (if |global| > 0 then [PutGlobal(global)] else [])
    + (if |dev| > 0 && |servers| > 0 then GuildPuts(servers, dev) else [])
  }

  function GuildPuts(servers: seq<string>, dev: seq<Descriptor>): (r: seq<RemoteCall>)
    ensures |r| == |servers|
    ensures forall i :: 0 <= i < |r| ==> r[i] == PutGuild(servers[i], dev)
  {
    seq(|servers|, i requires 0 <= i < |servers| => PutGuild(servers[i], dev))
  }

  /** The lines `registerCommands` logs apart from the outcome line of each
      REST call: the global refresh notice when there is anything global,
      then one notice per developer server, or the warning that there is
      nothing to send to developer servers. The global put's outcome line,
      logged between the two in the source, is not among them. */
  function RegisterLines(global: seq<Descriptor>, dev: seq<Descriptor>, servers: seq<string>): (r: seq<Line>)
    ensures |r| > 0
    ensures |global| > 0 <==> r[0] == Line(Info, StartGlobalMessage)
    ensures (|dev| == 0 || |servers| == 0) <==> r[|r| - 1] == Line(Warning, NoDevMessage)
    ensures |dev| > 0 && |servers| > 0 ==>
              |r| == (if |global| > 0 then 1 else 0) + |servers|
              && forall i :: 0 <= i < |servers| ==> r[|r| - |servers| + i] == Line(Info, StartGuildMessage(servers[i]))
  {
    (if |global| > 0 then [Line(Info, StartGlobalMessage)] else [])
    + (if |dev| > 0 && |servers| > 0
       then seq(|servers|, i requires 0 <= i < |servers| => Line(Info, StartGuildMessage(servers[i])))
       else [Line(Warning, NoDevMessage)])
  }

  const StartGlobalMessage: string := "Started refreshing global application (/) commands."
  const NoDevMessage: string := "No developer guild server IDs provided, or no developer commands to register."

  function StartGuildMessage(server: string): string {
    "Started refreshing developer guild (/) commands for server: " + server
  }

  /** `unregisterCommand`: delete the global declaration of that name, and
      the per-server ones when the first load found developer commands. */
  function UnregisterCalls(name: string, initialDev: seq<Descriptor>, servers: seq<string>): (r: seq<RemoteCall>)
    ensures |r| > 0 && r[0] == DeleteGlobalNamed(name)
    ensures forall c :: c in r ==> c.DeleteGlobalNamed? || c.DeleteGuildNamed?
    ensures forall c :: c in r ==> c.name == name
    ensures |r| == 1 <==> |initialDev| == 0 || |servers| == 0
    ensures |r| > 1 ==> |r| == |servers| + 1
                        && forall i :: 0 <= i < |servers| ==> r[i + 1] == DeleteGuildNamed(servers[i], name)
  {
    [DeleteGlobalNamed(name)]
    + (if |initialDev| > 0 && |servers| > 0
       then seq(|servers|, i requires 0 <= i < |servers| => DeleteGuildNamed(servers[i], name))
       else [])
  }

  /** The bot configuration fields the loader reads. */
  datatype BotConfig = BotConfig(id: Option<string>, token: Option<string>, devServers: seq<string>)

  /** What the loader sees of the file system. */
  datatype World = World(cwd: string, commandsPath: string, tree: seq<FileTree.Node>, disk: Disk)

  /** Loader state after start-up: client, pending re-sync, calls issued so
      far, and the developer declarations of the first load (captured by the
      unlink handler). */
  datatype Watcher = Watcher(client: Client, sync: Debounce.Debouncer<()>, calls: seq<RemoteCall>,
                             initialDev: seq<Descriptor>, servers: seq<string>)

  datatype Startup = Halted(activities: ActivityLog) | Started(w: Watcher)

  /** The first load pass over the commands tree, into the existing
      registry or a fresh one. */
  function FirstLoad(existing: Option<C.Coll<string, Definition>>, acts: ActivityLog, world: World): Batch {
    var commands := if existing.Some? then existing.value else C.Empty();
    LoadCommands(Client(commands, acts), FileTree.AllFiles(world.commandsPath, world.tree), world.disk, world.cwd)
  }

  /** `handleCommands` up to the watcher: the configuration guard, registry
      initialisation (an existing one is kept), the first load and the
      first registration. */
  function HandleCommands(cfg: BotConfig, existing: Option<C.Coll<string, Definition>>, acts: ActivityLog, world: World): (r: Startup)
    ensures r.Halted? <==> IsConfigIncomplete(cfg.id, PlaceholderTokens) || IsConfigIncomplete(cfg.token, PlaceholderTokens)
    ensures r.Halted? ==> |r.activities| > 0 && r.activities[|r.activities| - 1].kind == "error"
    ensures r.Started? ==> r.w.sync == Debounce.Idle && r.w.servers == cfg.devServers
    // the registration's lines follow the load pass's in the activity list
    ensures r.Started? ==>
              var b := FirstLoad(existing, acts, world);
              var lines := RegisterLines(b.global, b.dev, cfg.devServers);
              r.w.client.commands == b.client.commands
              && r.w.client.activities
                 == BoundedLog.LastN(b.client.activities + Entries(lines, world.cwd), BoundedLog.Capacity)
              && r.w.client.activities[|r.w.client.activities| - 1] == EntryOf(lines[|lines| - 1], world.cwd)
  {
    var idBad := IsConfigIncomplete(cfg.id, PlaceholderTokens);
    var tokenBad := IsConfigIncomplete(cfg.token, PlaceholderTokens);
    if idBad || tokenBad then Halted(HaltLog(acts, idBad, tokenBad, world.cwd))
    else
      var batch := FirstLoad(existing, acts, world);
      var lines := RegisterLines(batch.global, batch.dev, cfg.devServers);
      LastLogged(batch.client.activities, lines, world.cwd);
      var cl := batch.client.(activities := LogLines(batch.client.activities, lines, world.cwd));
      Started(Watcher(cl, Debounce.Idle, RegisterCalls(batch.global, batch.dev, cfg.devServers),
                      batch.dev, cfg.devServers))
  }

  /** A valid configuration with no developer commands or no developer
      servers ends its start-up activity list with the warning that there
      is nothing to register per server. */
  lemma StartWarnsWithoutDevServers(cfg: BotConfig, existing: Option<C.Coll<string, Definition>>, acts: ActivityLog,
                                    world: World)
    requires HandleCommands(cfg, existing, acts, world).Started?
    requires |FirstLoad(existing, acts, world).dev| == 0 || |cfg.devServers| == 0
    ensures var a := HandleCommands(cfg, existing, acts, world).w.client.activities;
            a[|a| - 1] == Activity("warning", "warning " + Relative(world.cwd, NoDevMessage))
  {
    var b := FirstLoad(existing, acts, world);
    var lines := RegisterLines(b.global, b.dev, cfg.devServers);
    var a := HandleCommands(cfg, existing, acts, world).w.client.activities;
    assert a[|a| - 1] == EntryOf(lines[|lines| - 1], world.cwd);
    WarningEntry(b.global, b.dev, cfg.devServers, world.cwd);
  }

  /** Without developer commands or servers, the last registration line
      logs a warning entry. */
  lemma WarningEntry(global: seq<Descriptor>, dev: seq<Descriptor>, servers: seq<string>, cwd: string)
    requires |dev| == 0 || |servers| == 0
    ensures var lines := RegisterLines(global, dev, servers);
            EntryOf(lines[|lines| - 1], cwd) == Activity("warning", "warning " + Relative(cwd, NoDevMessage))
  {
    var lines := RegisterLines(global, dev, servers);
    assert lines[|lines| - 1] == Line(Warning, NoDevMessage);
    var rel := Relative(cwd, NoDevMessage);
    assert SeverityTag(Warning) == "warning";
    assert "warning" + " " == "warning ";
    assert EntryOf(Line(Warning, NoDevMessage), cwd) == Activity("warning", ("warning" + " ") + rel);
  }

  /** Start-up keeps an existing registry: a name maps to the last file
      that loaded under it, else to its previous entry; the developer
      declarations captured for later unlinks are those of this first load. */
  lemma StartKeepsRegistry(cfg: BotConfig, existing: Option<C.Coll<string, Definition>>, acts: ActivityLog,
                           world: World, name: string)
    requires HandleCommands(cfg, existing, acts, world).Started?
    ensures var defs := LoadedDefs(FileTree.AllFiles(world.commandsPath, world.tree), world.disk);
            var w := HandleCommands(cfg, existing, acts, world).w;
            && C.Get(w.client.commands, name)
               == (match LastNamed(defs, name)
                   case Some(d) => Some(d)
                   case None => if existing.Some? then C.Get(existing.value, name) else None)
            && w.initialDev == Declarations(defs, true)
            && w.calls == RegisterCalls(Declarations(defs, false), Declarations(defs, true), cfg.devServers)
  {
    var commands := if existing.Some? then existing.value else C.Empty();
    var files := FileTree.AllFiles(world.commandsPath, world.tree);
    assert HandleCommands(cfg, existing, acts, world).w.client.commands == FirstLoad(existing, acts, world).client.commands;
    LoadCommandsLastWins(Client(commands, acts), files, world.disk, world.cwd, name);
    LoadCommandsPartition(Client(commands, acts), files, world.disk, world.cwd);
  }

  /** The error lines logged before the process exits. */
  function HaltLog(acts: ActivityLog, idBad: bool, tokenBad: bool, cwd: string): (r: ActivityLog)
    ensures |r| > 0 && r[|r| - 1].kind == "error"
  {
    var a1 := Log(acts, Error, "Missing or incorrect critical configuration.", cwd);
    var a2 := if idBad then Log(a1, Error, BadIdMessage, cwd) else a1;
    if tokenBad then Log(a2, Error, BadTokenMessage, cwd) else a2
  }

  const BadIdMessage: string :=
    "Bot ID is missing or incorrect. Please replace 'YOUR_BOT_ID' with your actual bot ID in config.json."
  const BadTokenMessage: string :=
    "Bot token is missing or incorrect. Please replace 'YOUR_BOT_TOKEN' with your actual bot token in config.json."

  /** Watcher events; `SyncDue` is the re-sync timer's tick. */
  datatype Event = Added(path: string) | Changed(path: string) | Removed(path: string) | SyncDue

  /** Paths the watcher only logs: schema and shared-function files. */
  predicate Excluded(path: string) {
    Contains(path, "schemas") || Contains(path, "functions")
  }

  /** One watcher callback at time `now`. */
  function Step(w: Watcher, world: World, ev: Event, now: int): (r: Watcher)
    ensures r.servers == w.servers && r.initialDev == w.initialDev
    // schema and function files are only logged
    ensures !ev.SyncDue? && Excluded(ev.path) ==>
              r.client.commands == w.client.commands && r.sync == w.sync && r.calls == w.calls
              && |r.client.activities| > 0 && r.client.activities[|r.client.activities| - 1].kind == "warning"
    // any other file event (re)arms the five-second re-sync
    ensures !ev.SyncDue? && !Excluded(ev.path) ==> r.sync == Debounce.Pending((), now + SyncDelay)
    ensures (ev.Added? || ev.Changed?) && !Excluded(ev.path) && Loadable(world.disk, ev.path).Some? ==>
              var d := Loadable(world.disk, ev.path).value;
              C.Get(r.client.commands, NameOf(d)) == Some(d)
              && forall k :: k != NameOf(d) ==> C.Get(r.client.commands, k) == C.Get(w.client.commands, k)
    ensures (ev.Added? || ev.Changed?) && !Excluded(ev.path) && Loadable(world.disk, ev.path).None? ==>
              r.client.commands == w.client.commands
    ensures (ev.Added? || ev.Changed?) ==> r.calls == w.calls
    ensures ev.Removed? && !Excluded(ev.path) ==>
              var name := BasenameWithout(ev.path, ".js");
              !C.Has(r.client.commands, name)
              && (forall k :: k != name ==> C.Get(r.client.commands, k) == C.Get(w.client.commands, k))
              && r.calls == w.calls + UnregisterCalls(name, w.initialDev, w.servers)
    // the re-sync runs only once its deadline has passed, and then disarms
    ensures ev.SyncDue? && !(w.sync.Pending? && now >= w.sync.due) ==> r == w
    ensures ev.SyncDue? && w.sync.Pending? && now >= w.sync.due ==>
              r.sync == Debounce.Idle
              && var batch := LoadCommands(w.client, FileTree.AllFiles(world.commandsPath, world.tree), world.disk, world.cwd);
                 r.calls == w.calls + RegisterCalls(batch.global, batch.dev, w.servers)
  {
    var cwd := world.cwd;
    match ev
    case Added(p) =>
      if Excluded(p) then Warn(w, ExcludedNote(p, "added", cwd), cwd)
      else Reload(w, world, p, now, Success, "New command file added: ", "added")
    case Changed(p) =>
      if Excluded(p) then Warn(w, ExcludedNote(p, "changed", cwd), cwd)
      else Reload(w, world, p, now, Info, "Command file changed: ", "changed")
    case Removed(p) =>
      if Excluded(p) then Warn(w, ExcludedNote(p, "removed", cwd), cwd)
      else Unload(w, world, p, now)
    case SyncDue => Resync(w, world, now)
  }

  /** The warning for an excluded file: schema files are named first. */
  function ExcludedNote(p: string, verb: string, cwd: string): string {
    (if Contains(p, "schemas") then "Schema file " else "Functions file ") + verb + ": " + Relative(cwd, p)
  }

  /** The `add` and `change` handlers past the exclusions: log, load the
      file, record the activity, re-arm the re-sync. */
  function Reload(w: Watcher, world: World, p: string, now: int, sev: Severity, message: string, action: string): (r: Watcher)
    ensures r.servers == w.servers && r.initialDev == w.initialDev && r.calls == w.calls
    ensures r.sync == Debounce.Pending((), now + SyncDelay)
    ensures Loadable(world.disk, p).Some? ==>
              var d := Loadable(world.disk, p).value;
              C.Get(r.client.commands, NameOf(d)) == Some(d)
              && forall k :: k != NameOf(d) ==> C.Get(r.client.commands, k) == C.Get(w.client.commands, k)
    ensures Loadable(world.disk, p).None? ==> r.client.commands == w.client.commands
  {
    var cwd := world.cwd;
    var cl1 := w.client.(activities := Log(w.client.activities, sev, message + Relative(cwd, p), cwd));
    var cl2 := LoadCommand(cl1, p, world.disk, cwd).1;
    var cl3 := cl2.(activities := AddActivity(cl2.activities, action, p, cwd));
    w.(client := cl3, sync := Debounce.Call(w.sync, (), now, SyncDelay))
  }

  /** The `unlink` handler past the exclusions: the entry named after the
      file goes, and its remote declarations are deleted. */
  function Unload(w: Watcher, world: World, p: string, now: int): (r: Watcher)
    ensures r.servers == w.servers && r.initialDev == w.initialDev
    ensures r.sync == Debounce.Pending((), now + SyncDelay)
    ensures var name := BasenameWithout(p, ".js");
            && !C.Has(r.client.commands, name)
            && (forall k :: k != name ==> C.Get(r.client.commands, k) == C.Get(w.client.commands, k))
            && r.calls == w.calls + UnregisterCalls(name, w.initialDev, w.servers)
    // the removal line, the unregistering line, then the `removed` entry
    ensures var name := BasenameWithout(p, ".js");
            var lines := [Line(Error, "Command file removed: " + Relative(world.cwd, p)),
                          Line(Info, "Unregistering global command: " + name)];
            r.client.activities
            == BoundedLog.LastN(w.client.activities + Entries(lines, world.cwd)
                                + [Activity("removed", "removed " + Relative(world.cwd, p))], BoundedLog.Capacity)
  {
    var cwd := world.cwd;
    var name := BasenameWithout(p, ".js");
    var lines := [Line(Error, "Command file removed: " + Relative(cwd, p)), Line(Info, "Unregistering global command: " + name)];
    var acts2 := LogLines(w.client.activities, lines, cwd);
    var commands := C.Delete(w.client.commands, name);
    var e := Activity("removed", "removed " + Relative(cwd, p));
    var acts3 := AddActivity(acts2, "removed", p, cwd);
    BoundedLog.LastNOfLastN(w.client.activities + Entries(lines, cwd), [e], BoundedLog.Capacity);
    assert "removed" + " " + Relative(cwd, p) == "removed " + Relative(cwd, p);
    assert acts3 == BoundedLog.LastN(acts2 + [e], BoundedLog.Capacity);
    w.(client := Client(commands, acts3),
       calls := w.calls + UnregisterCalls(name, w.initialDev, w.servers),
       sync := Debounce.Call(w.sync, (), now, SyncDelay))
  }

  /** The re-sync timer: once due, reload the whole tree and register it. */
  function Resync(w: Watcher, world: World, now: int): (r: Watcher)
    ensures r.servers == w.servers && r.initialDev == w.initialDev
    ensures !(w.sync.Pending? && now >= w.sync.due) ==> r == w
    ensures w.sync.Pending? && now >= w.sync.due ==>
              r.sync == Debounce.Idle
              && var batch := LoadCommands(w.client, FileTree.AllFiles(world.commandsPath, world.tree), world.disk, world.cwd);
                 r.calls == w.calls + RegisterCalls(batch.global, batch.dev, w.servers)
                 && r.client.commands == batch.client.commands
                 && r.client.activities
                    == BoundedLog.LastN(batch.client.activities
                                        + Entries(RegisterLines(batch.global, batch.dev, w.servers), world.cwd),
                                        BoundedLog.Capacity)
  {
    var t := Debounce.Tick(w.sync, now);
    if t.0.None? then w
    else
      var batch := LoadCommands(w.client, FileTree.AllFiles(world.commandsPath, world.tree), world.disk, world.cwd);
      var lines := RegisterLines(batch.global, batch.dev, w.servers);
      w.(client := batch.client.(activities := LogLines(batch.client.activities, lines, world.cwd)), sync := t.1,
         calls := w.calls + RegisterCalls(batch.global, batch.dev, w.servers))
  }

  function Warn(w: Watcher, message: string, cwd: string): (r: Watcher)
    ensures r.client.commands == w.client.commands && r.sync == w.sync && r.calls == w.calls
    ensures r.servers == w.servers && r.initialDev == w.initialDev
    ensures |r.client.activities| > 0 && r.client.activities[|r.client.activities| - 1].kind == "warning"
  {
    w.(client := w.client.(activities := Log(w.client.activities, Warning, message, cwd)))
  }
}
