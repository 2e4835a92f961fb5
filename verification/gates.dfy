/** The checks both dispatchers apply before running a command, and the
    reasons they reject with. */
module Gates {
  import opened Options

  /** The server a message or interaction came from: the member's roles and
      permissions there, and the bot's permissions. */
  datatype Guild = Guild(id: string, memberRoles: set<string>, memberPermissions: set<string>,
                         botPermissions: set<string>)

  /** Why a command was refused; each has its own reply. */
  datatype Reason =
    | GuildOnly
    | MissingRole
    | Disabled
    | CoolingDown(remainingMs: int)
    | AdminOnly
    | OwnerOnly
    | MissingUserPermissions(perms: seq<string>)
    | MissingBotPermissions(perms: seq<string>)

  /** `required.filter(p => !held.has(p))`: the missing permissions, in the
      order the command lists them. */
  function MissingPerms(required: seq<string>, held: set<string>): (r: seq<string>)
    ensures |r| <= |required|
  {
    if |required| == 0 then []
    else (if required[0] in held then [] else [required[0]]) + MissingPerms(required[1..], held)
  }

  /** Filtering is order-preserving: what is missing from `a + b` is what
      is missing from `a`, then what is missing from `b`. */
  lemma {:induction false} MissingPermsAppend(a: seq<string>, b: seq<string>, held: set<string>)
    ensures MissingPerms(a + b, held) == MissingPerms(a, held) + MissingPerms(b, held)
  {
    if |a| == 0 {
      assert a + b == b;
    } else {
      var head: seq<string> := if a[0] in held then [] else [a[0]];
      assert a + b == [a[0]] + (a[1..] + b);
      MissingPermsCons(a[0], a[1..] + b, held);
      MissingPermsAppend(a[1..], b, held);
      assert a == [a[0]] + a[1..];
      MissingPermsCons(a[0], a[1..], held);
    }
  }

  /** A permission is reported missing exactly when the command requires it
      and it is not held. */
  lemma {:induction false} MissingPermsMembers(required: seq<string>, held: set<string>)
    ensures forall p :: p in MissingPerms(required, held) <==> p in required && p !in held
  {
    if |required| > 0 {
      MissingPermsMembers(required[1..], held);
      assert required == [required[0]] + required[1..];
      MissingPermsCons(required[0], required[1..], held);
    }
  }

  lemma MissingPermsCons(x: string, rest: seq<string>, held: set<string>)
    ensures MissingPerms([x] + rest, held) == (if x in held then [] else [x]) + MissingPerms(rest, held)
  {
    assert ([x] + rest)[1..] == rest;
  }

  /** `required.some(id => roles.has(id))`. */
  predicate HasAnyRole(required: seq<string>, roles: set<string>) {
    exists i :: 0 <= i < |required| && required[i] in roles
  }

  /** The role check passes: no roles are required, or the caller is in a
      server and holds one of them. */
  predicate RolesPass(required: seq<string>, guild: Option<Guild>) {
    |required| == 0 || (guild.Some? && HasAnyRole(required, guild.value.memberRoles))
  }

  /** The caller's permission check passes: none are required, or the
      caller is in a server and holds every required one. */
  predicate UserPermsPass(required: Option<seq<string>>, guild: Option<Guild>) {
    required.None? || (guild.Some? && MissingPerms(required.value, guild.value.memberPermissions) == [])
  }

  /** The bot's permission check passes, likewise. */
  predicate BotPermsPass(required: Option<seq<string>>, guild: Option<Guild>) {
    required.None? || (guild.Some? && MissingPerms(required.value, guild.value.botPermissions) == [])
  }
}
