/** The per-command, per-user cooldown table both dispatchers share
    (`client.cooldowns`): command name to user id to the time of the last
    accepted use, in milliseconds. */
module Cooldown {
  import opened Options
  import opened Definition

  type Table = map<JsName, map<string, int>>

  /** `(command.cooldown || 3) * 1000`: seconds to milliseconds, three
      seconds when the field is absent or falsy (0). */
  function Amount(cooldown: int): (ms: int)
    ensures cooldown == 0 ==> ms == 3000
    ensures cooldown != 0 ==> ms == cooldown * 1000
    ensures cooldown >= 0 ==> ms >= 1000
  {
    (if cooldown == 0 then 3 else cooldown) * 1000
  }

  /** The recorded time of `user`'s last use of `key`. */
  function Stamp(t: Table, key: JsName, user: string): (r: Option<int>)
    ensures r.Some? <==> key in t && user in t[key]
  {
    if key in t && user in t[key] then Some(t[key][user]) else None
  }

  /** Milliseconds left before `user` may use `key` again, or None when the
      use is allowed (no stamp, or `now` at or past stamp plus amount). */
  function Remaining(t: Table, key: JsName, user: string, cooldown: int, now: int): (r: Option<int>)
    ensures r.Some? ==> r.value > 0
    ensures r.Some? <==> Stamp(t, key, user).Some? && now < Stamp(t, key, user).value + Amount(cooldown)
    ensures r.Some? ==> now + r.value == Stamp(t, key, user).value + Amount(cooldown)
  {
    match Stamp(t, key, user)
    case None => None
    case Some(s) => if now < s + Amount(cooldown) then Some(s + Amount(cooldown) - now) else None
  }

  /** `timestamps.set(user, now)` under `key`. */
  function Record(t: Table, key: JsName, user: string, now: int): (r: Table)
    ensures Stamp(r, key, user) == Some(now)
    ensures forall k, u :: (k, u) != (key, user) ==> Stamp(r, k, u) == Stamp(t, k, u)
    ensures key in t ==> r.Keys == t.Keys
  {
    var inner := if key in t then t[key] else map[];
    t[key := inner[user := now]]
  }

  /** The prefix dispatcher first stores an empty timestamp map under a
      name it has not seen; no stamp changes. */
  function EnsureKey(t: Table, key: JsName): (r: Table)
    ensures key in r
    ensures forall k, u :: Stamp(r, k, u) == Stamp(t, k, u)
  {
    if key in t then t else t[key := map[]]
  }

  /** After an accepted use at `now`, the same user is held off for exactly
      the cooldown amount, whatever else is in the table. */
  lemma HeldOffForAmount(t: Table, key: JsName, user: string, cooldown: int, now: int, later: int)
    ensures Remaining(Record(t, key, user, now), key, user, cooldown, later).Some?
            <==> later < now + Amount(cooldown)
  {
  }

  /** A stamp for one user or one command never holds off another. */
  lemma OthersUnaffected(t: Table, key: JsName, user: string, now: int, k: JsName, u: string, cooldown: int, later: int)
    requires (k, u) != (key, user)
    ensures Remaining(Record(t, key, user, now), k, u, cooldown, later) == Remaining(t, k, u, cooldown, later)
  {
  }
}
