/** Dispatching a chat message to a prefix command (`messageCreate`):
    parsing, name then alias resolution, and the gate sequence ending in
    `run`. */
module PrefixDispatch {
  import opened Options
  import opened Text
  import opened Definition
  import C = Collection
  import opened Gates
  import opened Cooldown

  type Registry = C.Coll<JsName, Definition>

  datatype Author = Author(id: string, bot: bool)

  /** A chat message; `guild` is None in a direct message. */
  datatype Message = Message(content: string, author: Author, guild: Option<Guild>)

  /** The environment variables read: `PREFIX` and `BOT_OWNER_ID`. */
  datatype Env = Env(prefix: Option<string>, owner: Option<string>)

  /** What handling a message comes to. `Faulted` is a property read on an
      absent value (a TypeError that ends the handler). */
  datatype Outcome =
    | Ignored
    | NotReady
    | Unknown(name: string)
    | Rejected(reason: Reason)
    | Faulted
    | Ran(command: JsName, args: seq<string>)

  datatype Result = Result(outcome: Outcome, cooldowns: Table)

  /** `content.slice(prefix.length).trim().split(/ +/)`, then the first
      token lower-cased as the command name and the rest as arguments. */
  function Parse(content: string, prefixLength: nat): (r: (string, seq<string>))
    ensures forall i :: 0 <= i < |r.0| ==> !('A' <= r.0[i] <= 'Z')
    ensures ' ' !in r.0
    ensures forall a :: a in r.1 ==> ' ' !in a
  {
    var body := if prefixLength <= |content| then content[prefixLength..] else "";
    var tokens := SplitSpaces(Trim(body));
    assert tokens[0] in tokens;
    (ToLower(tokens[0]), tokens[1..])
  }

  /** A message written as the prefix, the name and single-space separated
      arguments parses back to the lower-cased name and those arguments. */
  lemma ParseRoundTrip(prefix: string, name: string, args: seq<string>)
    requires Word(name)
    requires forall a :: a in args ==> Word(a)
    ensures Parse(prefix + Join([name] + args, " "), |prefix|) == (ToLower(name), args)
  {
    var ts := [name] + args;
    var body := Join(ts, " ");
    assert (prefix + body)[|prefix|..] == body;
    forall i | 0 <= i < |ts| ensures Word(ts[i]) {
      if i > 0 { assert ts[i] in args; }
    }
    JoinEnds(ts);
    assert !IsSpace(ts[|ts| - 1][|ts[|ts| - 1]| - 1]);
    TrimUnchanged(body);
    forall t | t in ts ensures t != "" && ' ' !in t {
      if t != name { assert t in args; }
      assert IsSpace(' ');
    }
    SplitJoinRoundTrip(ts);
    assert ts[1..] == args;
  }

  /** A non-empty token with no whitespace in it. */
  predicate Word(t: string) {
    t != "" && forall i :: 0 <= i < |t| ==> !IsSpace(t[i])
  }

  /** The first character of a single-space join is the first piece's, the
      last is the last piece's. */
  lemma {:induction false} JoinEnds(ts: seq<string>)
    requires |ts| >= 1 && forall i :: 0 <= i < |ts| ==> ts[i] != ""
    ensures var j := Join(ts, " ");
            |j| > 0 && j[0] == ts[0][0] && j[|j| - 1] == ts[|ts| - 1][|ts[|ts| - 1]| - 1]
  {
    if |ts| == 1 {
      assert Join(ts, " ") == ts[0];
    } else {
      var rest := Join(ts[1..], " ");
      forall i | 0 <= i < |ts| - 1 ensures ts[1..][i] != "" {
        assert ts[1..][i] == ts[i + 1];
      }
      JoinEnds(ts[1..]);
      var j := ts[0] + " " + rest;
      assert Join(ts, " ") == j;
      assert j[0] == ts[0][0];
      assert j[|j| - 1] == rest[|rest| - 1];
      assert ts[1..][|ts| - 2] == ts[|ts| - 1];
    }
  }

  /** The first definition, in insertion order, listing `name` as an alias. */
  function FirstWithAlias(defs: seq<Definition>, name: string): (r: Option<Definition>)
    ensures r.Some? ==> r.value in defs && name in r.value.aliases
    ensures r.None? ==> forall d :: d in defs ==> name !in d.aliases
    ensures r.Some? ==> exists i :: (0 <= i < |defs| && defs[i] == r.value
                                     && forall j :: 0 <= j < i ==> name !in defs[j].aliases)
  {
    if |defs| == 0 then None
    else if name in defs[0].aliases then Some(defs[0])
    else
      var r := FirstWithAlias(defs[1..], name);
      if r.Some? then
        ghost var i :| 0 <= i < |defs| - 1 && defs[1..][i] == r.value
                     && forall j :: 0 <= j < i ==> name !in defs[1..][j].aliases;
        assert defs[i + 1] == r.value;
        r
      else r
  }

  /** `client.prefix.get(name)`, falling back to the first alias match. */
  function Resolve(reg: Registry, name: string): (r: Option<Definition>)
    ensures C.Has(reg, Str(name)) ==> r == C.Get(reg, Str(name))
    ensures !C.Has(reg, Str(name)) ==> r == FirstWithAlias(C.Values(reg), name)
    ensures r.None? ==> !C.Has(reg, Str(name)) && forall d :: d in C.Values(reg) ==> name !in d.aliases
  {
    var exact := C.Get(reg, Str(name));
    if exact.Some? then exact else FirstWithAlias(C.Values(reg), name)
  }

  /** The gates after resolution, in the order the handler applies them. */
  function Gate(env: Env, cmd: Definition, msg: Message, table: Table, now: int, args: seq<string>): (r: Result)
    ensures r.outcome.Rejected? || r.outcome.Faulted? || r.outcome.Ran?
    // roles and the disabled flag refuse before the cooldown is consulted
    ensures |cmd.requiredRoles| > 0 && msg.guild.None? ==> r == Result(Rejected(GuildOnly), table)
    ensures (|cmd.requiredRoles| > 0 && msg.guild.Some?
             && !HasAnyRole(cmd.requiredRoles, msg.guild.value.memberRoles)) ==> r == Result(Rejected(MissingRole), table)
    // a run consumes the cooldown window and respects the previous one
    ensures r.outcome.Ran? ==> r.outcome == Ran(cmd.name, args)
                               && Stamp(r.cooldowns, cmd.name, msg.author.id) == Some(now)
                               && Remaining(table, cmd.name, msg.author.id, cmd.cooldown, now).None?
    ensures r.outcome.Ran? ==> !Truthy(cmd.disabled)
    ensures r.outcome.Ran? && Truthy(cmd.ownerOnly) ==> env.owner == Some(msg.author.id)
    ensures r.outcome.Ran? && |cmd.requiredRoles| > 0 ==>
              msg.guild.Some? && HasAnyRole(cmd.requiredRoles, msg.guild.value.memberRoles)
    ensures r.outcome.Ran? && cmd.userPermissions.Some? ==>
              msg.guild.Some? && MissingPerms(cmd.userPermissions.value, msg.guild.value.memberPermissions) == []
    ensures r.outcome.Ran? && cmd.botPermissions.Some? ==>
              msg.guild.Some? && MissingPerms(cmd.botPermissions.value, msg.guild.value.botPermissions) == []
    ensures r.outcome.Rejected? && r.outcome.reason.CoolingDown? ==>
              r.outcome.reason.remainingMs > 0
              && forall k, u :: Stamp(r.cooldowns, k, u) == Stamp(table, k, u)
    // each refusal, given that every earlier check passed
    ensures RolesPass(cmd.requiredRoles, msg.guild) && Truthy(cmd.disabled) ==> r == Result(Rejected(Disabled), table)
    ensures RolesPass(cmd.requiredRoles, msg.guild) && !Truthy(cmd.disabled) && Truthy(cmd.devOnly) && msg.guild.None? ==>
              r == Result(Faulted, table)
    ensures ReachesCooldown(cmd, msg) && Remaining(table, cmd.name, msg.author.id, cmd.cooldown, now).Some? ==>
              r == Result(Rejected(CoolingDown(Remaining(table, cmd.name, msg.author.id, cmd.cooldown, now).value)),
                          EnsureKey(table, cmd.name))
    ensures ReachesCooldown(cmd, msg) && Remaining(table, cmd.name, msg.author.id, cmd.cooldown, now).None? ==>
              r.cooldowns == Record(EnsureKey(table, cmd.name), cmd.name, msg.author.id, now)
              && (!OwnerPass(env, cmd, msg) ==> r.outcome == Rejected(OwnerOnly))
              && (OwnerPass(env, cmd, msg) && cmd.userPermissions.Some? && msg.guild.None? ==> r.outcome == Faulted)
              && (OwnerPass(env, cmd, msg) && !UserPermsPass(cmd.userPermissions, msg.guild) && msg.guild.Some? ==>
                    r.outcome == Rejected(MissingUserPermissions(MissingPerms(cmd.userPermissions.value,
                                                                              msg.guild.value.memberPermissions))))
              && ((OwnerPass(env, cmd, msg) && UserPermsPass(cmd.userPermissions, msg.guild)
                   && cmd.botPermissions.Some? && msg.guild.None?) ==> r.outcome == Faulted)
              && ((OwnerPass(env, cmd, msg) && UserPermsPass(cmd.userPermissions, msg.guild)
                   && !BotPermsPass(cmd.botPermissions, msg.guild) && msg.guild.Some?) ==>
                    r.outcome == Rejected(MissingBotPermissions(MissingPerms(cmd.botPermissions.value,
                                                                             msg.guild.value.botPermissions))))
    // a command that passes every check runs
    ensures ReachesCooldown(cmd, msg) && Remaining(table, cmd.name, msg.author.id, cmd.cooldown, now).None?
            && OwnerPass(env, cmd, msg) && UserPermsPass(cmd.userPermissions, msg.guild)
            && BotPermsPass(cmd.botPermissions, msg.guild) ==>
              r == Result(Ran(cmd.name, args), Record(EnsureKey(table, cmd.name), cmd.name, msg.author.id, now))
  {
    if |cmd.requiredRoles| > 0 && msg.guild.None? then Result(Rejected(GuildOnly), table)
    else if |cmd.requiredRoles| > 0 && !HasAnyRole(cmd.requiredRoles, msg.guild.value.memberRoles) then
      Result(Rejected(MissingRole), table)
    else if Truthy(cmd.disabled) then Result(Rejected(Disabled), table)
    // the developer-server comparison never holds, but reads `guild.id`
    else if Truthy(cmd.devOnly) && msg.guild.None? then Result(Faulted, table)
    else
      var t1 := EnsureKey(table, cmd.name);
      var left := Remaining(t1, cmd.name, msg.author.id, cmd.cooldown, now);
      if left.Some? then Result(Rejected(CoolingDown(left.value)), t1)
      else
        var t2 := Record(t1, cmd.name, msg.author.id, now);
        // `adminOnly` compares a boolean with a string and never refuses
        if Truthy(cmd.ownerOnly) && env.owner != Some(msg.author.id) then Result(Rejected(OwnerOnly), t2)
        else if cmd.userPermissions.Some? && msg.guild.None? then Result(Faulted, t2)
        else if cmd.userPermissions.Some?
                && MissingPerms(cmd.userPermissions.value, msg.guild.value.memberPermissions) != [] then
          Result(Rejected(MissingUserPermissions(MissingPerms(cmd.userPermissions.value, msg.guild.value.memberPermissions))), t2)
        else if cmd.botPermissions.Some? && msg.guild.None? then Result(Faulted, t2)
        else if cmd.botPermissions.Some?
                && MissingPerms(cmd.botPermissions.value, msg.guild.value.botPermissions) != [] then
          Result(Rejected(MissingBotPermissions(MissingPerms(cmd.botPermissions.value, msg.guild.value.botPermissions))), t2)
        else Result(Ran(cmd.name, args), t2)
  }

  /** The role, disabled and developer checks let the message through to
      the cooldown. */
  predicate ReachesCooldown(cmd: Definition, msg: Message) {
    RolesPass(cmd.requiredRoles, msg.guild) && !Truthy(cmd.disabled) && !(Truthy(cmd.devOnly) && msg.guild.None?)
  }

  /** The owner check passes. */
  predicate OwnerPass(env: Env, cmd: Definition, msg: Message) {
    !Truthy(cmd.ownerOnly) || env.owner == Some(msg.author.id)
  }

  /** `execute(message, client)` up to running the command. */
  function HandleMessage(env: Env, reg: Option<Registry>, table: Table, msg: Message, now: int): (r: Result)
    ensures env.prefix == Some("") ==> r == Result(Ignored, table)
    ensures msg.author.bot ==> r == Result(Ignored, table)
    // an unset PREFIX is matched as the text "undefined" and then faults
    ensures env.prefix.None? ==> r.outcome == Ignored || r.outcome == NotReady || r.outcome == Faulted
    ensures r.outcome.Ran? ==> env.prefix.Some? && StartsWith(msg.content, env.prefix.value)
                               && reg.Some? && !msg.author.bot
    ensures r.outcome.Unknown? ==> reg.Some? && Resolve(reg.value, r.outcome.name).None?
    // a set prefix the content does not start with is ignored
    ensures env.prefix.Some? && !StartsWith(msg.content, env.prefix.value) ==> r == Result(Ignored, table)
    ensures env.prefix.None? && !StartsWith(msg.content, "undefined") ==> r == Result(Ignored, table)
    ensures env.prefix.None? && !msg.author.bot && StartsWith(msg.content, "undefined") ==>
              r == Result(if reg.None? then NotReady else Faulted, table)
    // a matched message from a human goes through parsing, resolution and the gates
    ensures Matched(env, msg) && reg.None? ==> r == Result(NotReady, table)
    ensures Matched(env, msg) && reg.Some? ==>
              var parsed := Parse(msg.content, |env.prefix.value|);
              r == match Resolve(reg.value, parsed.0)
                   case None => Result(Unknown(parsed.0), table)
                   case Some(cmd) => Gate(env, cmd, msg, table, now, parsed.1)
  {
    var shown := if env.prefix.Some? then env.prefix.value else "undefined";
    if env.prefix == Some("") then Result(Ignored, table)
    else if !StartsWith(msg.content, shown) || msg.author.bot then Result(Ignored, table)
    else if reg.None? then Result(NotReady, table)
    else if env.prefix.None? then Result(Faulted, table)
    else Dispatch(env, reg.value, table, msg, now, |env.prefix.value|)
  }

  /** The prefix is set and non-empty, the content starts with it and the
      author is no bot. */
  predicate Matched(env: Env, msg: Message) {
    env.prefix.Some? && env.prefix.value != "" && StartsWith(msg.content, env.prefix.value) && !msg.author.bot
  }

  /** Parsing, resolution and the gates, once the prefix matched. */
  function Dispatch(env: Env, reg: Registry, table: Table, msg: Message, now: int, prefixLength: nat): (r: Result)
    ensures r.outcome.Unknown? ==> Resolve(reg, r.outcome.name).None?
    ensures r.outcome.Unknown? ==> r.cooldowns == table
  {
    var parsed := Parse(msg.content, prefixLength);
    match Resolve(reg, parsed.0)
    case None => Result(Unknown(parsed.0), table)
    case Some(cmd) => Gate(env, cmd, msg, table, now, parsed.1)
  }

  /** `devOnly` never refuses a message sent in a server, and `adminOnly`
      never refuses at all. */
  lemma DevAndAdminFlagsInert(env: Env, cmd: Definition, msg: Message, table: Table, now: int, args: seq<string>,
                              dev: Flag, admin: Flag)
    requires msg.guild.Some?
    ensures Gate(env, cmd.(devOnly := dev, adminOnly := admin), msg, table, now, args) == Gate(env, cmd, msg, table, now, args)
  {
  }

  /** A refusal by the owner or permission checks still consumes the
      cooldown: the stamp is written before those checks. */
  lemma LateRefusalConsumesCooldown(env: Env, cmd: Definition, msg: Message, table: Table, now: int, args: seq<string>)
    requires var o := Gate(env, cmd, msg, table, now, args).outcome;
             o.Rejected? && (o.reason.OwnerOnly? || o.reason.MissingUserPermissions? || o.reason.MissingBotPermissions?)
    ensures Stamp(Gate(env, cmd, msg, table, now, args).cooldowns, cmd.name, msg.author.id) == Some(now)
  {
  }

  /** Sending the same message again within the cooldown is refused with
      the time left; once it has passed, it runs again. */
  lemma RepeatWithinCooldown(env: Env, cmd: Definition, msg: Message, table: Table, now: int, later: int, args: seq<string>)
    requires Gate(env, cmd, msg, table, now, args).outcome.Ran?
    requires now <= later
    ensures var t := Gate(env, cmd, msg, table, now, args).cooldowns;
            later < now + Amount(cmd.cooldown) ==>
              Gate(env, cmd, msg, t, later, args) == Result(Rejected(CoolingDown(now + Amount(cmd.cooldown) - later)), t)
    ensures var t := Gate(env, cmd, msg, table, now, args).cooldowns;
            later >= now + Amount(cmd.cooldown) ==> Gate(env, cmd, msg, t, later, args).outcome.Ran?
  {
    var t := Gate(env, cmd, msg, table, now, args).cooldowns;
    assert Stamp(t, cmd.name, msg.author.id) == Some(now);
    assert EnsureKey(t, cmd.name) == t;
  }
}
