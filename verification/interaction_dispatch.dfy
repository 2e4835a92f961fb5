/** Dispatching a slash-command interaction (`interactionCreate`): lookup
    by command name and the gate sequence ending in `execute`, in this
    handler's own order. */
module InteractionDispatch {
  import opened Options
  import opened Definition
  import C = Collection
  import opened Gates
  import opened Cooldown

  type Registry = C.Coll<string, Definition>

  /** An interaction; `guild` is None in a direct message, where the member
      is absent too. */
  datatype Interaction = Interaction(chatInput: bool, commandName: string, user: string, guild: Option<Guild>)

  /** The environment variables read: `BOT_ADMIN` and `BOT_OWNER_ID`. */
  datatype Env = Env(admin: Option<string>, owner: Option<string>)

  datatype Outcome = Ignored | NotReady | NotFound | Rejected(reason: Reason) | Faulted | Ran(command: string)

  datatype Result = Result(outcome: Outcome, cooldowns: Table)

  /** The gates after lookup. `key` is the cooldown bucket. */
  function Gate(env: Env, cmd: Definition, it: Interaction, table: Table, now: int, key: JsName): (r: Result)
    // nothing but a run touches the cooldown table
    ensures !r.outcome.Ran? ==> r.cooldowns == table
    ensures r.outcome.Ran? ==> r.outcome.command == it.commandName
                               && Stamp(r.cooldowns, key, it.user) == Some(now)
                               && Remaining(table, key, it.user, cmd.cooldown, now).None?
                               && forall k, u :: (k, u) != (key, it.user) ==> Stamp(r.cooldowns, k, u) == Stamp(table, k, u)
    // `adminOnly` only asks whether BOT_ADMIN is set
    ensures Truthy(cmd.adminOnly) && (env.admin.None? || env.admin == Some("")) ==> r.outcome == Rejected(AdminOnly)
    ensures r.outcome.Ran? && Truthy(cmd.ownerOnly) ==> env.owner == Some(it.user)
    ensures r.outcome.Ran? ==> cmd.disabled != True
    ensures r.outcome.Ran? && |cmd.requiredRoles| > 0 ==>
              it.guild.Some? && HasAnyRole(cmd.requiredRoles, it.guild.value.memberRoles)
    ensures r.outcome.Ran? && cmd.userPermissions.Some? ==>
              it.guild.Some? && MissingPerms(cmd.userPermissions.value, it.guild.value.memberPermissions) == []
    ensures r.outcome.Ran? && cmd.botPermissions.Some? ==>
              it.guild.Some? && MissingPerms(cmd.botPermissions.value, it.guild.value.botPermissions) == []
    // each refusal, given that every earlier check passed
    ensures AdminPass(env, cmd) && !OwnerPass(env, cmd, it) ==> r.outcome == Rejected(OwnerOnly)
    ensures AdminPass(env, cmd) && OwnerPass(env, cmd, it) ==>
              (cmd.userPermissions.Some? && it.guild.None? ==> r.outcome == Faulted)
              && (!UserPermsPass(cmd.userPermissions, it.guild) && it.guild.Some? ==>
                    r.outcome == Rejected(MissingUserPermissions(MissingPerms(cmd.userPermissions.value,
                                                                              it.guild.value.memberPermissions))))
    ensures AdminPass(env, cmd) && OwnerPass(env, cmd, it) && UserPermsPass(cmd.userPermissions, it.guild) ==>
              (|cmd.requiredRoles| > 0 && it.guild.None? ==> r.outcome == Faulted)
              && (!RolesPass(cmd.requiredRoles, it.guild) && it.guild.Some? ==> r.outcome == Rejected(MissingRole))
    ensures AdminPass(env, cmd) && OwnerPass(env, cmd, it) && UserPermsPass(cmd.userPermissions, it.guild)
            && RolesPass(cmd.requiredRoles, it.guild) ==>
              (cmd.botPermissions.Some? && it.guild.None? ==> r.outcome == Faulted)
              && (!BotPermsPass(cmd.botPermissions, it.guild) && it.guild.Some? ==>
                    r.outcome == Rejected(MissingBotPermissions(MissingPerms(cmd.botPermissions.value,
                                                                             it.guild.value.botPermissions))))
    ensures ReachesCooldown(env, cmd, it) && cmd.disabled == True ==> r.outcome == Rejected(Disabled)
    ensures ReachesCooldown(env, cmd, it) && cmd.disabled != True
            && Remaining(table, key, it.user, cmd.cooldown, now).Some? ==>
              r == Result(Rejected(CoolingDown(Remaining(table, key, it.user, cmd.cooldown, now).value)), table)
    // a command that passes every check runs
    ensures ReachesCooldown(env, cmd, it) && cmd.disabled != True
            && Remaining(table, key, it.user, cmd.cooldown, now).None? ==>
              r == Result(Ran(it.commandName), Record(table, key, it.user, now))
  {
    if Truthy(cmd.adminOnly) && (env.admin.None? || env.admin == Some("")) then Result(Rejected(AdminOnly), table)
    else if Truthy(cmd.ownerOnly) && env.owner != Some(it.user) then Result(Rejected(OwnerOnly), table)
    else if cmd.userPermissions.Some? && it.guild.None? then Result(Faulted, table)
    else if cmd.userPermissions.Some?
            && MissingPerms(cmd.userPermissions.value, it.guild.value.memberPermissions) != [] then
      Result(Rejected(MissingUserPermissions(MissingPerms(cmd.userPermissions.value, it.guild.value.memberPermissions))), table)
    else if |cmd.requiredRoles| > 0 && it.guild.None? then Result(Faulted, table)
    else if |cmd.requiredRoles| > 0 && !HasAnyRole(cmd.requiredRoles, it.guild.value.memberRoles) then
      Result(Rejected(MissingRole), table)
    else if cmd.botPermissions.Some? && it.guild.None? then Result(Faulted, table)
    else if cmd.botPermissions.Some?
            && MissingPerms(cmd.botPermissions.value, it.guild.value.botPermissions) != [] then
      Result(Rejected(MissingBotPermissions(MissingPerms(cmd.botPermissions.value, it.guild.value.botPermissions))), table)
    // only the literal `true` disables here
    else if cmd.disabled == True then Result(Rejected(Disabled), table)
    else
      var left := Remaining(table, key, it.user, cmd.cooldown, now);
      if left.Some? then Result(Rejected(CoolingDown(left.value)), table)
      else Result(Ran(it.commandName), Record(table, key, it.user, now))
  }

  /** The admin check passes: the command is not admin-only, or
      BOT_ADMIN is set to a non-empty value. */
  predicate AdminPass(env: Env, cmd: Definition) {
    !Truthy(cmd.adminOnly) || (env.admin.Some? && env.admin.value != "")
  }

  /** The owner check passes. */
  predicate OwnerPass(env: Env, cmd: Definition, it: Interaction) {
    !Truthy(cmd.ownerOnly) || env.owner == Some(it.user)
  }

  /** Every check before the disabled flag passes. */
  predicate ReachesCooldown(env: Env, cmd: Definition, it: Interaction) {
    AdminPass(env, cmd) && OwnerPass(env, cmd, it) && UserPermsPass(cmd.userPermissions, it.guild)
    && RolesPass(cmd.requiredRoles, it.guild) && BotPermsPass(cmd.botPermissions, it.guild)
  }

  /** `execute(interaction, client)` up to running the command; the cooldown
      bucket is the definition's top-level `name`. */
  function HandleInteraction(env: Env, reg: Option<Registry>, table: Table, it: Interaction, now: int): (r: Result)
    ensures !it.chatInput ==> r == Result(Ignored, table)
    ensures it.chatInput && reg.None? ==> r == Result(NotReady, table)
    ensures r.outcome == NotFound <==> it.chatInput && reg.Some? && !C.Has(reg.value, it.commandName)
    ensures r.outcome.Ran? ==> reg.Some? && C.Has(reg.value, it.commandName)
                               && Stamp(r.cooldowns, C.Get(reg.value, it.commandName).value.name, it.user) == Some(now)
    // a registered command goes through the gates, bucketed by its `name` field
    ensures it.chatInput && reg.Some? && C.Get(reg.value, it.commandName).Some? ==>
              var cmd := C.Get(reg.value, it.commandName).value;
              r == Gate(env, cmd, it, table, now, cmd.name)
  {
    if !it.chatInput then Result(Ignored, table)
    else if reg.None? then Result(NotReady, table)
    else
      match C.Get(reg.value, it.commandName)
      case None => Result(NotFound, table)
      case Some(cmd) => Gate(env, cmd, it, table, now, cmd.name)
  }

  /** The disabled check is the last refusal before the cooldown: `true`
      refuses once every earlier check passed, while `false` and any value
      other than `true`, truthy or not, do not disable at all. */
  lemma DisabledOnlyWhenTrue(env: Env, cmd: Definition, it: Interaction, table: Table, now: int, key: JsName, t: bool)
    ensures Gate(env, cmd.(disabled := Other(t)), it, table, now, key) == Gate(env, cmd.(disabled := Unset), it, table, now, key)
    ensures Gate(env, cmd.(disabled := False), it, table, now, key) == Gate(env, cmd.(disabled := Unset), it, table, now, key)
    ensures ReachesCooldown(env, cmd, it) ==>
              Gate(env, cmd.(disabled := True), it, table, now, key) == Result(Rejected(Disabled), table)
    ensures !ReachesCooldown(env, cmd, it) ==>
              Gate(env, cmd.(disabled := True), it, table, now, key) == Gate(env, cmd.(disabled := Unset), it, table, now, key)
  {
  }

  /** As written, two slash commands that, like the generated template, set
      no top-level `name` share one cooldown bucket: using one holds the
      user off the other. */
  lemma SharedCooldownAcrossCommands(env: Env, a: Definition, b: Definition, user: string, g: Guild, table: Table, now: int)
    requires a.name == Missing && b.name == Missing
    requires a.data == Some(Descriptor(Str("ping"), "")) && b.data == Some(Descriptor(Str("pong"), ""))
    requires b.cooldown == 0
    requires HandleInteraction(env, Some([("ping", a), ("pong", b)]), table, Interaction(true, "ping", user, Some(g)), now).outcome.Ran?
    requires Gate(env, b, Interaction(true, "pong", user, Some(g)), map[], now, Missing).outcome.Ran?
    ensures var reg: Registry := [("ping", a), ("pong", b)];
            var t := HandleInteraction(env, Some(reg), table, Interaction(true, "ping", user, Some(g)), now).cooldowns;
            HandleInteraction(env, Some(reg), t, Interaction(true, "pong", user, Some(g)), now + 1000).outcome
            == Rejected(CoolingDown(2000))
  {
    var reg: Registry := [("ping", a), ("pong", b)];
    assert "ping" != "pong";
    C.GetAt(reg, 0);
    C.GetAt(reg, 1);
    var t := HandleInteraction(env, Some(reg), table, Interaction(true, "ping", user, Some(g)), now).cooldowns;
    assert Stamp(t, Missing, user) == Some(now);
    var it := Interaction(true, "pong", user, Some(g));
    var empty := Gate(env, b, it, map[], now, Missing);
    var r := Gate(env, b, it, t, now + 1000, Missing);
    assert r.outcome == Rejected(CoolingDown(2000));
  }

  /** `execute` with the cooldown bucket taken from the registered command
      name, as the reply "before reusing the command" intends. */
  function HandleInteractionPerCommand(env: Env, reg: Option<Registry>, table: Table, it: Interaction, now: int): (r: Result)
    ensures !it.chatInput ==> r == Result(Ignored, table)
    ensures r.outcome == NotFound <==> it.chatInput && reg.Some? && !C.Has(reg.value, it.commandName)
    ensures r.outcome.Ran? ==> Stamp(r.cooldowns, Str(it.commandName), it.user) == Some(now)
    ensures forall k, u :: k != Str(it.commandName) ==> Stamp(r.cooldowns, k, u) == Stamp(table, k, u)
  {
    if !it.chatInput then Result(Ignored, table)
    else if reg.None? then Result(NotReady, table)
    else
      match C.Get(reg.value, it.commandName)
      case None => Result(NotFound, table)
      case Some(cmd) => Gate(env, cmd, it, table, now, Str(it.commandName))
  }

  /** With per-command buckets, running one command never holds a user off
      another. */
  lemma PerCommandCooldownsIndependent(env: Env, reg: Registry, table: Table, first: Interaction, next: Interaction, now: int, later: int)
    requires first.commandName != next.commandName
    ensures var t := HandleInteractionPerCommand(env, Some(reg), table, first, now).cooldowns;
            HandleInteractionPerCommand(env, Some(reg), t, next, later).outcome
            == HandleInteractionPerCommand(env, Some(reg), table, next, later).outcome
  {
    var t := HandleInteractionPerCommand(env, Some(reg), table, first, now).cooldowns;
    var key := Str(next.commandName);
    assert Stamp(t, key, next.user) == Stamp(table, key, next.user);
    if next.chatInput && C.Get(reg, next.commandName).Some? {
      GateOutcomeByStamp(env, C.Get(reg, next.commandName).value, next, t, table, later, key);
    }
  }

  /** The gates read the cooldown table only through the user's stamp
      under the bucket. */
  lemma GateOutcomeByStamp(env: Env, cmd: Definition, it: Interaction, t1: Table, t2: Table, now: int, key: JsName)
    requires Stamp(t1, key, it.user) == Stamp(t2, key, it.user)
    ensures Gate(env, cmd, it, t1, now, key).outcome == Gate(env, cmd, it, t2, now, key).outcome
  {
    assert Remaining(t1, key, it.user, cmd.cooldown, now) == Remaining(t2, key, it.user, cmd.cooldown, now);
  }
}
