# disco-bot core rules in Dafny

This project models the rules at the centre of the disco-bot Discord bot
template. The rest of the bot is glue around discord.js, chokidar and the
file system. Every external effect the model keeps, including its
failures, appears here as an input or as an entry in an output log:

- file contents and directory listings are inputs;
- what `require` yields for a file is a `Definition` record or a load failure;
- REST calls are entries in a call list;
- timers are explicit pending-timer state, with the clock passed in.

Modules, by the part of the bot they model:

- `SlashRegistry` (`handleCommands.js`). The configuration guard at start-up.
  Loading one command file into the registry and loading the whole tree into
  global and developer declarations. The register and unregister calls. The
  watcher's add, change and unlink decisions, with the five-second
  debounced re-sync. The activity list fed by every log line except the
  outcome line of each REST call.
- `PrefixRegistry` (`prefixHandler.js`). The prefix-command collection: the
  initial scan, load and unload by file, and the two 500 ms debouncers the
  watcher feeds.
- `PrefixDispatch` and `InteractionDispatch` (`prefixCreate.js`,
  `interactionCreate.js`). The message and interaction handlers as decision
  functions from definition, caller facts, time and cooldown table to an
  outcome and a new table. The gates are applied in the order the source
  applies them.
- `Cooldown` and `Gates`. The cooldown table (command, then user, then
  millisecond timestamp), the missing-permission filter and the role check
  that both handlers share.
- `Toggle` and `FileTree` (`manage.js`). The pause and resume text patcher on
  a file's lines. The pairing of a slash command with its prefix namesake.
  The recursive `.js` listing, the category tree and the counterpart lookup.
- `ActivityTracker` (`activityTracker.js`). The newest-first file activity
  list and the mapping from watcher events to entries.
- `FunctionRunner` (`functionHandler.js`). How a scheduled function is
  planned, the execution and retry counters, the shared interval handle,
  and the loading loop that a rejected clear ends.
- `Presence` (`ready.js`). Status, activity kind and name selection, and the
  name rotation.
- `Generator` (`cli.js`). The command template with builders, the fixed
  templates, the folder map, the no-overwrite rule, and the folder-creation
  and write failures.
- `UpdateMessage` (`updateBuilder.ts`). The component order of the update
  announcement and the bullet text.
- Shared helpers:
  - `Options`: JavaScript's `undefined` as `Option`.
  - `Text`: string and path helpers.
  - `Collection`: an insertion-ordered `Map`.
  - `BoundedLog`: the two bounded lists.
  - `Debounce`: a last-call-wins timer.
  - `Definition`: the exported command object.

Several quirks of the code are modelled as written:

- In the prefix handler, the `devOnly` and `adminOnly` checks compare a
  negated value with a string, so they never refuse a message sent in a
  server.
- The prefix handler writes the cooldown stamp before the owner and
  permission checks, so a refusal by those checks still starts the
  cooldown.
- The interaction handler's `adminOnly` refuses only when `BOT_ADMIN` is
  unset or empty, whoever the user is.
- Pausing a file that is already paused returns false.
- Toggling both versions of a command returns the conjunction of the
  toggles attempted.
- A `once` scheduled function that stops before any interval has started
  clears an `undefined` handle. That call rejects, and no later function
  is loaded.

## Model

| member | source | states |
|---|---|---|
| SlashRegistry.IsConfigIncomplete | src/functions/handlers/handleCommands.js:107-109 | A value is incomplete exactly when it is absent, empty or one of the placeholder tokens |
| SlashRegistry.AddActivity | src/functions/handlers/handleCommands.js:11-24 | The new entry goes last, holds the action and the path relative to the working directory, and the list keeps the newest 100 |
| BoundedLog.Append | src/functions/handlers/handleCommands.js:14-23 | Push then shift keeps exactly the last `cap` entries of the old list plus the new one |
| BoundedLog.AppendAllKeepsNewest | src/functions/handlers/handleCommands.js:14-23 | After any number of appends the list is the newest `cap` of everything appended, oldest first |
| SlashRegistry.LoadCommand | src/functions/handlers/handleCommands.js:124-150 | The result is the file's definition when the path has no "schemas", the file loads and `data.name` is a non-empty string. On success only that name's entry changes. Otherwise the registry is unchanged and a warning (schema) or error is logged |
| SlashRegistry.LoadCommandsPartition | src/functions/handlers/handleCommands.js:152-170 | Every loaded command lands in exactly one array, developer when `devOnly` is truthy, else global, and file order is kept |
| SlashRegistry.DeclarationsSplit | src/functions/handlers/handleCommands.js:158-167 | The global and developer declarations together number the loaded commands |
| SlashRegistry.LoadCommandsLastWins | src/functions/handlers/handleCommands.js:139-167 | After a load pass a name maps to the last loaded file declaring it, and names no file declares keep their old entry |
| SlashRegistry.RegisterCalls | src/functions/handlers/handleCommands.js:205-252 | The global set is replaced only when non-empty. The developer set goes to every configured server, only when both it and the server list are non-empty |
| SlashRegistry.RegisterLines | src/functions/handlers/handleCommands.js:205-252 | The global refresh notice comes first exactly when there is anything global. Then there is one notice per developer server, in order. When there are no developer commands or no servers, the last line is the warning instead |
| SlashRegistry.LogLines | src/functions/handlers/handleCommands.js:31-65 | Logging a batch of lines leaves the newest 100 of the old entries followed by one entry per line |
| SlashRegistry.UnregisterCalls | src/functions/handlers/handleCommands.js:172-203 | A global delete by name comes first. Then, when the start-up developer set and the server list are both non-empty, one delete by name per configured server follows, in server order. Otherwise nothing follows |
| SlashRegistry.HandleCommands | src/functions/handlers/handleCommands.js:254-285 | Start-up halts exactly when the bot id or token is incomplete, and then the last log entry is an error. A started loader has no re-sync pending and keeps the configured servers. Its registry is the first load's. Its activity list is the load pass's list followed by the registration's lines, and it ends with the last of them |
| SlashRegistry.StartWarnsWithoutDevServers | src/functions/handlers/handleCommands.js:249-251 | With no developer commands or no developer servers, the start-up activity list ends with the warning that there is nothing to register per server |
| SlashRegistry.StartKeepsRegistry | src/functions/handlers/handleCommands.js:279-285 | An existing registry is kept: each name maps to the last file loaded under it, else to its earlier entry |
| SlashRegistry.Step | src/functions/handlers/handleCommands.js:299-351 | Schema and functions paths are only logged. Other events re-arm the 5000 ms re-sync. Add and change load the file: a loadable file replaces its own name's entry and every other name keeps its entry, and an unloadable one changes nothing. Unlink deletes the key equal to the file name without ".js", keeps every other key, and issues the unregister calls. The re-sync reloads and re-registers only when due, and then logs the registration's lines |
| Debounce.Call | src/functions/handlers/prefixHandler.js:7-15 | A call cancels whatever was pending and arms one timer for its own arguments, due `delay` milliseconds after the call |
| Debounce.Tick | src/functions/handlers/prefixHandler.js:7-15 | A tick runs the pending call exactly when one is pending and due, and disarms |
| Debounce.BurstRunsNothing | src/functions/handlers/prefixHandler.js:7-15 | Within a burst of calls nothing runs, and the last call stays pending |
| Debounce.Coalesce | src/functions/handlers/prefixHandler.js:7-15 | A burst followed by a due tick runs exactly once, with the last call's arguments |
| PrefixRegistry.LoadPrefix | src/functions/handlers/prefixHandler.js:89-105 | A definition with a truthy `name` is stored under that name and nothing else changes; a missing name or a load failure leaves the collection unchanged |
| PrefixRegistry.UnloadPrefix | src/functions/handlers/prefixHandler.js:107-115 | The entry keyed by the file name without ".js" is removed when present; all other entries are unchanged |
| PrefixRegistry.LoadAllLastWins | src/functions/handlers/prefixHandler.js:117-131 | After the scan a name maps to the last `.js` file loaded under it, else keeps its earlier entry |
| PrefixRegistry.InitKeepsExisting | src/functions/handlers/prefixHandler.js:83-87 | An existing collection is extended, never replaced |
| PrefixRegistry.Step | src/functions/handlers/prefixHandler.js:139-161 | Only `.js` paths act. Add arms the load timer, unlink arms the unload timer and change arms both. A due tick loads or unloads the last path given |
| PrefixRegistry.ChangeReloads | src/functions/handlers/prefixHandler.js:149-155 | A change followed by both due ticks unloads and then reloads the same file |
| PrefixRegistry.SharedTimerDropsEarlierFile | src/functions/handlers/prefixHandler.js:139-147 | Two files added 100 ms apart register only the second |
| PrefixRegistry.PerFileStep | src/functions/handlers/prefixHandler.js:139-161 | With one timer per file, an event re-arms only its own file's timers |
| PrefixRegistry.PerFileKeepsEarlierFile | src/functions/handlers/prefixHandler.js:139-147 | With per-file timers the same two additions register both files |
| Text.SplitJoinRoundTrip | src/events/handlers/prefixCreate.js:72-73 | Splitting on runs of spaces undoes a single-space join of non-empty, space-free words |
| PrefixDispatch.Parse | src/events/handlers/prefixCreate.js:72-73 | The command name has no upper-case letter and, like every argument, no space |
| PrefixDispatch.ParseRoundTrip | src/events/handlers/prefixCreate.js:72-73 | A message written as prefix, name and space-separated words parses back to the lower-cased name and the words |
| PrefixDispatch.Resolve | src/events/handlers/prefixCreate.js:75-80 | The exact name wins; otherwise the first command, in insertion order, listing the token as an alias |
| PrefixDispatch.Gate | src/events/handlers/prefixCreate.js:106-251 | Each refusal happens exactly when every earlier check passed and its own check fails: the server-only and role checks, then `disabled`, then the `devOnly` fault in a direct message, then the cooldown with the exact time left. After those, the stamp is written and the owner check, the user permissions and the bot permissions follow, each naming the missing permissions in a server and faulting in a direct message. A command that passes every check runs with the parsed arguments |
| PrefixDispatch.HandleMessage | src/events/handlers/prefixCreate.js:48-104 | An empty prefix, a bot author or content without the set prefix is ignored. An unset prefix is matched as the text "undefined": other content is ignored, and matching content faults. A matched message from a human gets the not-ready reply without a registry. Otherwise its parsed name is resolved: an unresolved name is unknown, and a resolved command goes through the gates with the parsed arguments |
| PrefixDispatch.DevAndAdminFlagsInert | src/events/handlers/prefixCreate.js:146-196 | In a server, toggling `devOnly` or `adminOnly` never changes the outcome |
| PrefixDispatch.LateRefusalConsumesCooldown | src/events/handlers/prefixCreate.js:184-248 | A refusal by the owner or permission checks still records the caller's stamp |
| PrefixDispatch.RepeatWithinCooldown | src/events/handlers/prefixCreate.js:156-184 | After a run, the same message before the cooldown ends is refused for exactly the time left, and from its end it runs again |
| Cooldown.Amount | src/events/handlers/prefixCreate.js:157 | The cooldown is the configured seconds times 1000, or 3000 ms when unset or zero |
| Cooldown.Remaining | src/events/handlers/prefixCreate.js:165-167 | A wait is reported exactly when the user has a stamp and `now < stamp + amount`; the wait is the difference |
| Cooldown.Record | src/events/handlers/prefixCreate.js:184 | Only that user's stamp under that command becomes `now` |
| Cooldown.HeldOffForAmount | src/events/handlers/prefixCreate.js:156-184 | After a use at `now` the user is held off exactly until `now + amount` |
| Cooldown.OthersUnaffected | src/events/handlers/prefixCreate.js:163-184 | A stamp for one user or command never holds off another |
| Gates.MissingPerms | src/events/handlers/interactionCreate.js:113-115 | Never more permissions are reported missing than the command requires |
| Gates.MissingPermsMembers | src/events/handlers/interactionCreate.js:111-130 | A permission is reported missing exactly when it is required and not held |
| Gates.MissingPermsAppend | src/events/handlers/interactionCreate.js:151-155 | Filtering keeps the order of the required list |
| InteractionDispatch.Gate | src/events/handlers/interactionCreate.js:83-219 | Each refusal happens exactly when every earlier check passed and its own check fails, in this handler's order. `adminOnly` refuses whenever BOT_ADMIN is unset or empty. Then come the owner check, the user permissions, the roles and the bot permissions, each faulting in a direct message where it reads the member. Then a `disabled` of `true`, and then the cooldown with the exact time left. Only a run touches the table, stamping just this user under the given key at `now`. A command that passes every check runs |
| InteractionDispatch.HandleInteraction | src/events/handlers/interactionCreate.js:56-222 | Only chat-input interactions act. A missing registry gives the not-ready reply. Not-found happens exactly when the name is unregistered. A registered command goes through the gates with its own `name` field as the cooldown bucket |
| InteractionDispatch.DisabledOnlyWhenTrue | src/events/handlers/interactionCreate.js:171-181 | `false` and any value other than `true`, truthy or not, behave as an absent flag. `true` refuses once every earlier check passed, and otherwise hides nothing the earlier checks report |
| InteractionDispatch.SharedCooldownAcrossCommands | src/events/handlers/interactionCreate.js:189-219 | Two slash commands without a top-level `name` share one bucket: after "ping" runs, "pong" one second later is refused with 2000 ms left |
| InteractionDispatch.HandleInteractionPerCommand | src/events/handlers/interactionCreate.js:189-219 | With the bucket keyed by the typed command name, a run stamps the user there and no other command's stamps change |
| InteractionDispatch.PerCommandCooldownsIndependent | src/events/handlers/interactionCreate.js:189-219 | With per-command buckets, running one command never holds the user off a differently named one |
| Toggle.ParseSetting | manage.js:104-106 | A recognised setting line starts with whitespace indentation and `disabled:`, and ends with the setting's rest |
| Toggle.RenderParse | manage.js:106 | Parsing a rendered setting line gives back its indentation, value and rest |
| Toggle.Insert | manage.js:113-128 | Insertion fails exactly when no `module.exports = {` is followed by the anchor (optionally after one comment line). Otherwise the lines up to the first such opener are kept. Next comes `disabled: true,`, indented like the line after the opener, then the opener's trailing whitespace on a line of its own. Then comes the anchor line at that same indentation, and every line after the anchor as it was. A comment line in between is dropped |
| Toggle.Pause | manage.js:102-141 | An existing first setting becomes `true`, and the call succeeds only if the text changed. Otherwise the line is inserted before `data:` in a slash command file, else before `name:`, else the call fails. Nothing is written on failure |
| Toggle.Resume | manage.js:142-156 | The first `disabled: true` line becomes `false` and is written. With only `false` or no setting, the call succeeds without a write |
| Toggle.ToggleState | manage.js:97-169 | A readable file is paused or resumed as its lines say. A file that cannot be read fails. A toggle whose write throws reports failure, and a toggle that needs no write is unaffected by that. A write only happens on success |
| Toggle.PauseTwice | manage.js:136-139 | Pausing an already paused file returns false and writes nothing |
| Toggle.PauseThenResume | manage.js:102-156 | Pausing then resuming a file that has a setting gives the file with that setting `false` and every other line kept |
| Toggle.PauseInsertThenResume | manage.js:108-156 | Pausing a file without a setting writes exactly the insertion before its anchor. The insertion makes the inserted `disabled: true,` its first setting, with the anchor property two lines below. Resuming then turns exactly that line to `disabled: false,` and keeps every other line |
| Toggle.ToggleBoth | manage.js:174-221 | The file is toggled first. A file under `/commands/` or `/messages/` is paired with the same-named file below the other tree, which is then toggled on the files as the first write left them. The result is the conjunction of the two toggles, and the writes are the file's own, then the namesake's. Outside the two trees only the file is toggled and its result is the result |
| Toggle.PauseBothDisablesBoth | manage.js:186-214 | Pausing an enabled command whose enabled namesake exists writes both files, each with its setting set to `true`, and returns true |
| FileTree.ScriptsComplete | src/functions/handlers/handleCommands.js:111-122 | The recursive listing holds exactly the paths that lead through directories to a `.js` file |
| FileTree.GroupByCategoryIsFilter | manage.js:53-73 | Every file lands in exactly one category, its first path component or "Root". The categories are exactly those of the files. Each list keeps the files' order |
| FileTree.FirstNamed | manage.js:86-91 | The result is the first file whose name without ".js" matches, or none when no file matches |
| FileTree.FindMatching | manage.js:78-92 | A missing directory gives none; otherwise the first same-named file below it |
| ActivityTracker.AddActivity | src/functions/handlers/activityTracker.js:12-29 | The new entry goes first. It holds the type, relative path, details and file name. The rest is the old list cut to 99 |
| BoundedLog.Prepend | src/functions/handlers/activityTracker.js:25-29 | Unshift then slice keeps the new entry first and the first `cap` entries |
| BoundedLog.PrependAllKeepsNewest | src/functions/handlers/activityTracker.js:25-29 | After any number of insertions the list is the newest `cap` entries, newest first |
| ActivityTracker.Describe | src/functions/handlers/activityTracker.js:71-76 | add, change, unlink, addDir and unlinkDir map to add, change, delete, add and delete, with the details "File created", "File modified", "File deleted", "Directory created" and "Directory deleted"; errors record nothing |
| ActivityTracker.OnEvent | src/functions/handlers/activityTracker.js:49-76 | An event is recorded, first in the list, exactly when tracking is enabled, the event is no error and its path is not ignored; otherwise the list is unchanged |
| ActivityTracker.OnEventsKeepsNewest | src/functions/handlers/activityTracker.js:25-29 | After any run of events the list is the newest 100 recorded entries, newest first |
| ActivityTracker.DisabledRecordsNothing | src/functions/handlers/activityTracker.js:49-52 | A disabled tracker never changes the list |
| FunctionRunner.PlanOf | src/functions/handlers/functionHandler.js:43-86 | A set non-numeric interval aborts. Otherwise `once` runs now, a non-zero interval repeats, and with neither nothing runs |
| FunctionRunner.RunFunction | src/functions/handlers/functionHandler.js:58-80 | At the execution limit nothing runs. A success adds one execution, and a failure adds one retry. The schedule stops exactly at the execution limit, or on a failure that brings the retries to `retryAttempts`; a success never stops it, and absent limits never stop it |
| FunctionRunner.ExecutionsBounded | src/functions/handlers/functionHandler.js:59-69 | Executions never pass a non-negative `maxExecution` |
| FunctionRunner.CountersAccount | src/functions/handlers/functionHandler.js:55-80 | Counters only grow, and without an execution limit every invocation adds exactly one execution or one retry |
| FunctionRunner.Register | src/functions/handlers/functionHandler.js:32-86 | Non-function exports are skipped, and a missing config means the empty config. A repeating function's interval becomes active and is the one the shared handle names. An invalid or absent schedule starts nothing. A `once` function runs at once, and a stop then clears whichever interval the shared handle names. With no interval started yet that clear rejects and loading stops for good. Once loading has stopped, no export is handled |
| FunctionRunner.HaltedLoadsNothing | src/functions/handlers/functionHandler.js:89-99 | Once loading has stopped, handling any further exports leaves the runner as it is |
| FunctionRunner.OnceStopSkipsRest | src/functions/handlers/functionHandler.js:58-99 | A `once` function that stops before any interval exists is the last job registered, and no later export starts an interval |
| FunctionRunner.FailedOnceBlocksLaterInterval | src/functions/handlers/functionHandler.js:70-99 | A `once` function whose one allowed attempt fails, loaded before a repeating function, keeps that function's interval from ever starting |
| FunctionRunner.Fire | src/functions/handlers/functionHandler.js:58-85 | A tick updates only that function's counters. A stop removes the interval the shared handle names from the active ones, whichever function it belongs to, and nothing else changes them |
| FunctionRunner.StopClearsWrongInterval | src/functions/handlers/functionHandler.js:58-85 | When the first of two repeating functions reaches its limit, the second one's interval stops instead of its own |
| FunctionRunner.StopKeepsOwnInterval | src/functions/handlers/functionHandler.js:58-85 | Whenever a function other than the last one started stops, its own interval stays active and the last one started is stopped |
| FunctionRunner.FireOwn | src/functions/handlers/functionHandler.js:58-80 | A stop clears the function's own interval and no other |
| FunctionRunner.OwnStopIsolated | src/functions/handlers/functionHandler.js:59-63 | With own-interval stops, a function at its limit is no longer active and every other interval is untouched |
| Presence.StatusOf | src/events/handlers/ready.js:29-32 | The status is always one of the four valid ones: the lower-cased configured one when valid, else "online" |
| Presence.KindOf | src/events/handlers/ready.js:19-35 | "STREAMING", "LISTENING", "WATCHING", "COMPETING" and "CUSTOM" give their own kind, each exactly for its key. A missing or any other key is Playing |
| Presence.NameAt | src/events/handlers/ready.js:38 | The name is the indexed entry, or "DiscoBase" when that entry is empty or missing |
| Presence.UpdatePresence | src/events/handlers/ready.js:16-73 | One activity with the selected kind and name and a valid status. A state is present only for Custom with a non-empty `customState`. Without a names list the call fails |
| Presence.Start | src/events/handlers/ready.js:179-243 | Without enabled presence settings the fallback custom presence is set. Otherwise the first name is shown. A rotation starts exactly when there are more than one name, over all of them, every `interval` milliseconds, or 10000 when that is unset or zero |
| Presence.Advance | src/events/handlers/ready.js:199 | The next index stays in range and wraps to 0 after the last |
| Presence.IndexAfterIsModulo | src/events/handlers/ready.js:196-201 | After k ticks the rotation index is k mod the number of names |
| Presence.RotationShows | src/events/handlers/ready.js:196-201 | After k ticks the presence shows entry k mod the number of names |
| Presence.MissingNamesSetNothing | src/events/handlers/ready.js:187-193 | Enabled presence without `names` sets no presence at all |
| Presence.StartDefaulted | src/events/handlers/ready.js:187-193 | With `names` defaulted as the rotation defaults it, a presence is always set and shows "DiscoBase" |
| Generator.Imports | cli.js:31-86 | The import list always starts with SlashCommandBuilder |
| Generator.ImportsInBuilderOrder | cli.js:31-86 | The imports are SlashCommandBuilder followed by the selected builders' imports in the fixed order embed, button, select menu, modal |
| Generator.ActionRowPerComponent | cli.js:45-86 | ActionRowBuilder is imported once per selected button, select menu or modal, never de-duplicated |
| Generator.CommandTemplate | cli.js:30-103 | The template starts with the import line and the command skeleton, and ends with the example code followed by the closing braces, with nothing in between |
| Generator.ExamplesInBuilderOrder | cli.js:32-86 | The example code is the selected builders' example blocks in the fixed order embed, button, select menu, modal, whatever order they were selected in |
| Generator.OneBuilderTemplate | cli.js:30-103 | With one builder, the template is the base template with that builder's imports appended to the import list and its example block after the execution comment |
| Generator.NoBuildersIsBase | cli.js:30-103 | With no builders there is no example code and only SlashCommandBuilder is imported |
| Generator.FolderOf | cli.js:173-177 | command, event and prefix map to commands, events and messages, and to nothing else |
| Generator.TemplatesAreTrimmed | cli.js:123-124 | Trimming leaves every template unchanged |
| Generator.BuildersChosen | cli.js:149-171 | Builders are passed only for a command where a builder other than "none" was picked |
| Generator.ContentFor | cli.js:245-247 | The builder-aware template is used only for a command with builders; otherwise the fixed template for the file type |
| Generator.Generate | cli.js:122-249 | Declining to create the folder, or to create the first subfolder, aborts. A directory that cannot be created ends the run, at the first one in creation order: the folder, the first subfolder, then a new picked subfolder. Otherwise the target is the file name plus ".js" in the picked or new subfolder of the type's folder. An existing target is reported and never overwritten. A new target whose write fails is reported and not created, and any other new target is created. With plain names, the target lies in the type's folder |
| Generator.CreatedContent | cli.js:240-248 | The written content is exactly the chosen template |
| UpdateMessage.Heading | src/functions/handlers/updateBuilder.ts:40-45 | The heading is "### ", then the emoji's text when an id is given ("undefined" for an unknown id) or nothing, then a space and the heading text |
| UpdateMessage.Bullet | src/functions/handlers/updateBuilder.ts:55-61 | An entry is a line break, the bullet emoji and a space, then a markdown link when a url is set, else the text |
| UpdateMessage.Build | src/functions/handlers/updateBuilder.ts:34-86 | The heading comes first. The subheading and a separator follow only when a subheading is set. The bullet text is always present. A separator and a one-button row come last only when a button is set |
| UpdateMessage.OneLinePerItem | src/functions/handlers/updateBuilder.ts:55-64 | The bullet text has exactly one line break per item |

## Left out

- Discord REST and gateway calls are left out: replies, `setPresence` and the command log embeds. `SlashRegistry` records register and unregister calls as entries in a call list. A delete entry stands for the lookup-then-delete of one name, and REST failures and their log lines are not modelled.
- Timers, chokidar and `setIntervalAsync` become explicit pending-timer state with the time passed in. When two timers are due, the environment chooses which fires first.
- Async interleaving is left out: each handler runs to completion before the next event.
- Time of day, ids and console or chalk formatting are left out. Only the log lines' effect on the loader's activity list is kept. The colour codes `chalk` puts into the global refresh notice are not part of the modelled entry text.
- SlashRegistry.RegisterLines: the outcome line of each REST call is not modelled. This is the success or failure line that `registerCommands` and `unregisterCommand` log once a put or delete settles. These lines depend on the remote outcome, and the per-server ones also depend on the completion order of parallel requests. In particular, the global put's outcome line, which the source logs between the global notice and the per-server notices, is dropped. The loader's activity list holds every other line in source order.
- `logErrorToFile`, the Express server, `antiCrash.js`, the MongoDB connection, `watchFolders.js` and the React front-end are not part of this model.
- `getSimilarCommands` is not part of this model. An unknown prefix command is an `Unknown` outcome whatever the suggestions would be.
- ActivityTracker.Records: micromatch glob matching is a predicate parameter of the activity tracker, applied to the event's own relative path. The predicate stands for chokidar's effective decision. That decision includes the rewrite of `\` to `/` and the fact that nothing below an ignored directory is reported. With a plain glob match as the parameter, `node_modules/x.js` would be recorded although `node_modules` is ignored.
- The float `toFixed` time-left text is left out: waits are kept in integer milliseconds.
- Cooldown.Amount: `cooldown` is a whole number of seconds. A fractional value such as 1.5, which the source turns into 1500 ms, is not modelled.
- Only strings and numbers are modelled as names. Other JavaScript values, and prototype keys such as `constructor` looked up in an object map, are left out.
- Text.JoinPath: `path.join` normalises its result, and the model only concatenates. For a name with a `/`, `.` or `..` segment the model's path is the unnormalised spelling of the same file. Paths are compared as strings, so a file that exists under another spelling is not seen. Generator.Generate's in-folder guarantee is stated only for plain names for this reason.
- Text.Relative: only paths below the base are made relative. `..` segments and path normalisation are not modelled.
- Text.Basename: a path ending in `/` gives the empty name, whereas Node strips trailing separators.
- Text.IsSpace and Text.ToLower cover ASCII only. JavaScript's `\s`, `trim` and `toLowerCase` also act on other Unicode characters.
- Toggle.Pause: the source's regular expressions run on the whole text and can match across line breaks, because `\s` includes a newline. The model is line-based and misses several layouts:
  - `data:` followed by `new SlashCommandBuilder` on the next line;
  - blank lines between `module.exports = {` and the anchor;
  - the anchor on the same line as the opener;
  - a `//` comment after `module.exports = {` on the opener line, with the anchor on the next line. The source matches this layout, drops the comment and inserts `disabled: true,` on the opener line.
  In these layouts the model reports that no insertion happened.
- Toggle.Insert: an opener line `module.exports = { // comment` is not recognised, so a file with that layout gets no `disabled: true,` line and the toggle reports failure. The source accepts the layout, as the Toggle.Pause list above says. Recognising it would give such a file a second insertion point, which breaks the re-pause guarantee for files with two export blocks.
- Toggle.ParseSetting: a line break made of a lone carriage return is not treated as a line start.
- FunctionRunner.Register: the `initializer` delay only postpones the first run and is not kept. A numeric string interval is treated as its number.
- Presence.Start: a `names` value that is not an array (for example a string, whose length counts characters) is not modelled.
- The post-run command log and the `command.run`/`execute` outcome are not modelled. A command that passes every gate is a `Ran` outcome.

## Findings

| source | as written | input that shows it | evidently intended | confidence | as-written member | corrected member |
|---|---|---|---|---|---|---|
| src/functions/handlers/prefixHandler.js:139-147 | One load debouncer is shared by every file, so a later add cancels an earlier file's pending load | a.js added at 0 ms, b.js added at 100 ms, timer due at 600 ms: only b is registered | Every added file is loaded | not executed | PrefixRegistry.SharedTimerDropsEarlierFile | PrefixRegistry.PerFileKeepsEarlierFile |
| src/events/handlers/interactionCreate.js:191 | The cooldown bucket is `command.name`, which slash command files built from the template do not set, so every such command shares one bucket | user runs "ping" at t, then "pong" at t+1000 ms: refused with 2000 ms left | Each command has its own cooldown | not executed | InteractionDispatch.SharedCooldownAcrossCommands | InteractionDispatch.PerCommandCooldownsIndependent |
| src/functions/handlers/functionHandler.js:62 | Reaching a limit clears the module-wide `intervalId`, which names the last interval started, not the function's own | functions a (interval 1000, maxExecution 0) and b (interval 1000): a's first tick stops b, and a keeps firing | A function that reaches its limit stops its own schedule | not executed | FunctionRunner.StopClearsWrongInterval | FunctionRunner.OwnStopIsolated |
| src/events/handlers/ready.js:38 | `updatePresence` reads `config.names[index]` without the `["DiscoBase"]` default the caller applies, so a missing list throws and no presence is set | presence enabled with no `names` | The default name "DiscoBase" is shown | not executed | Presence.MissingNamesSetNothing | Presence.StartDefaulted |
