/** The bot's presence at start-up (`updatePresence` and the presence part
    of the `ready` event): status and activity chosen from the presence
    settings, and the rotation through the configured names. */
module Presence {
  import opened Options
  import opened Text

  /** Discord's activity kinds. */
  datatype ActivityType = Playing | Streaming | Listening | Watching | Competing | Custom

  datatype Activity = Activity(kind: ActivityType, name: string, state: Option<string>)

  datatype Presence = Presence(activities: seq<Activity>, status: string)

  /** The `presence` object of the settings file; absent fields are None. */
  datatype PresenceConfig = PresenceConfig(
    enabled: bool,
    names: Option<seq<string>>,
    interval: Option<int>,
    status: Option<string>,
    kind: Option<string>,
    customState: Option<string>,
    streamingUrl: Option<string>)

  /** The settings file: absent, unreadable (the parse throws), or parsed
      with or without a `presence` object. */
  datatype Settings = NoFile | Unreadable | Parsed(presence: Option<PresenceConfig>)

  const ValidStatuses: seq<string> := ["online", "idle", "dnd", "invisible"]

  const DefaultName: string := "DiscoBase"

  const DefaultInterval: int := 10000

  /** The presence used when presence is not configured. */
  const Fallback: Presence :=
    Presence([Activity(Custom, "custom", Some("\U{1F90D} made by luxe"))], "online")

  /** The configured status lower-cased when it is a valid one, else "online". */
  function StatusOf(status: Option<string>): (r: string)
    ensures r in ValidStatuses
    ensures status.Some? && ToLower(status.value) in ValidStatuses ==> r == ToLower(status.value)
    ensures status.None? || ToLower(status.value) !in ValidStatuses ==> r == "online"
  {
    if status.Some? && ToLower(status.value) in ValidStatuses then ToLower(status.value) else "online"
  }

  /** The activity kind named by the upper-case key, Playing otherwise. */
  function KindOf(key: Option<string>): (r: ActivityType)
    ensures key.None? ==> r == Playing
    ensures key.Some? && key.value !in ["STREAMING", "LISTENING", "WATCHING", "COMPETING", "CUSTOM"] ==> r == Playing
    ensures r == Custom <==> key == Some("CUSTOM")
    ensures r == Streaming <==> key == Some("STREAMING")
    ensures r == Listening <==> key == Some("LISTENING")
    ensures r == Watching <==> key == Some("WATCHING")
    ensures r == Competing <==> key == Some("COMPETING")
  {
    if key.None? then Playing
    else match key.value
      case "STREAMING" => Streaming
      case "LISTENING" => Listening
      case "WATCHING" => Watching
      case "COMPETING" => Competing
      case "CUSTOM" => Custom
      case _ => Playing
  }

  /** `names[index] || "DiscoBase"`: an empty or missing entry falls back. */
  function NameAt(names: seq<string>, index: nat): (r: string)
    ensures r != ""
    ensures index < |names| && names[index] != "" ==> r == names[index]
    ensures index >= |names| || names[index] == "" ==> r == DefaultName
  {
    if index < |names| && names[index] != "" then names[index] else DefaultName
  }

  /** `updatePresence(config, index)`: the presence set, or None when the
      call fails because `names` is absent (reading an index of undefined
      throws, and the failure is only logged). */
  function UpdatePresence(cfg: PresenceConfig, index: nat): (r: Option<Presence>)
    ensures r.None? <==> cfg.names.None?
    ensures r.Some? ==> |r.value.activities| == 1 && r.value.status in ValidStatuses
    ensures r.Some? ==> (r.value.activities[0].kind == KindOf(cfg.kind)
                         && r.value.activities[0].name == NameAt(cfg.names.value, index))
    // a state is attached only to a custom activity with a non-empty state
    ensures r.Some? ==> (r.value.activities[0].state.Some? <==>
                           KindOf(cfg.kind) == Custom && cfg.customState.Some? && cfg.customState.value != "")
    ensures r.Some? && r.value.activities[0].state.Some? ==> r.value.activities[0].state == cfg.customState
  {
    if cfg.names.None? then None
    else
      var kind := KindOf(cfg.kind);
      var state := if kind == Custom && cfg.customState.Some? && cfg.customState.value != "" then cfg.customState else None;
      Some(Presence([Activity(kind, NameAt(cfg.names.value, index), state)], StatusOf(cfg.status)))
  }

  /** The rotation timer: how many names it cycles through and how often. */
  datatype Rotation = Rotation(count: nat, interval: int)

  /** What the `ready` handler does with presence: the presence set first
      (None when that call fails) and the rotation, if any. */
  datatype PresencePlan = PresencePlan(initial: Option<Presence>, rotation: Option<Rotation>)

  function Start(settings: Settings): (r: PresencePlan)
    ensures !(settings.Parsed? && settings.presence.Some? && settings.presence.value.enabled) ==>
              r == PresencePlan(Some(Fallback), None)
    ensures settings.Parsed? && settings.presence.Some? && settings.presence.value.enabled ==>
              r.initial == UpdatePresence(settings.presence.value, 0)
    // rotation needs more than one configured name
    ensures r.rotation.Some? ==> (r.rotation.value.count > 1 && r.rotation.value.interval != 0
                                  && settings.presence.value.names.Some?
                                  && r.rotation.value.count == |settings.presence.value.names.value|)
    // more than one name rotates every `interval || 10000` milliseconds
    ensures settings.Parsed? && settings.presence.Some? && settings.presence.value.enabled ==>
              var cfg := settings.presence.value;
              (cfg.names.Some? && |cfg.names.value| > 1 ==>
                 r.rotation == Some(Rotation(|cfg.names.value|,
                                             if cfg.interval.Some? && cfg.interval.value != 0 then cfg.interval.value
                                             else DefaultInterval)))
              && (cfg.names.None? || |cfg.names.value| <= 1 ==> r.rotation.None?)
  {
    if settings.Parsed? && settings.presence.Some? && settings.presence.value.enabled then
      var cfg := settings.presence.value;
      var count := if cfg.names.Some? then |cfg.names.value| else 1;
      var interval := if cfg.interval.Some? && cfg.interval.value != 0 then cfg.interval.value else DefaultInterval;
      PresencePlan(UpdatePresence(cfg, 0), if count > 1 then Some(Rotation(count, interval)) else None)
    else PresencePlan(Some(Fallback), None)
  }

  /** One rotation tick: the next index, wrapping around. */
  function Advance(index: nat, count: nat): (r: nat)
    requires count > 0
    ensures r < count
    ensures index < count - 1 ==> r == index + 1
    ensures index == count - 1 ==> r == 0
  {
    (index + 1) % count
  }

  /** The index after `ticks` rotations starting from 0. */
  function IndexAfter(ticks: nat, count: nat): nat
    requires count > 0
  {
    if ticks == 0 then 0 else Advance(IndexAfter(ticks - 1, count), count)
  }

  /** The rotation visits the names cyclically: after `k` ticks it shows
      entry `k mod count`. */
  lemma IndexAfterIsModulo(ticks: nat, count: nat)
    requires count > 0
    ensures IndexAfter(ticks, count) == ticks % count
  {
    var q := IndexAfterSplit(ticks, count);
    ModUnique(ticks, count, q, IndexAfter(ticks, count));
  }

  /** The index after `ticks` ticks is what is left of `ticks` once whole
      rounds of `count` are taken away. */
  lemma {:induction false} IndexAfterSplit(ticks: nat, count: nat) returns (q: nat)
    requires count > 0
    ensures IndexAfter(ticks, count) < count
    ensures ticks == q * count + IndexAfter(ticks, count)
  {
    if ticks == 0 {
      q := 0;
    } else {
      var q0 := IndexAfterSplit(ticks - 1, count);
      if IndexAfter(ticks - 1, count) + 1 < count {
        q := q0;
      } else {
        q := q0 + 1;
        assert q * count == q0 * count + count;
      }
    }
  }

  lemma ModUnique(x: int, n: int, q: int, m: int)
    requires n > 0 && 0 <= m < n && x == q * n + m
    ensures x % n == m
  {
    var q' := x / n;
    assert x == q' * n + x % n;
    Distrib(q', q, n);
    if q' > q {
      MulAtLeast(q' - q, n);
    } else if q' < q {
      Distrib(q, q', n);
      MulAtLeast(q - q', n);
    }
  }

  lemma Distrib(a: int, b: int, n: int)
    ensures (a - b) * n == a * n - b * n
  {
  }

  lemma {:induction false} MulAtLeast(d: int, n: int)
    requires d >= 1 && n > 0
    ensures d * n >= n
    decreases d
  {
    if d > 1 {
      MulAtLeast(d - 1, n);
      assert d * n == (d - 1) * n + n;
    }
  }

  /** The presence shown after `k` rotation ticks names configured entry
      `k mod count` (or the default name for an empty entry). */
  lemma RotationShows(settings: Settings, ticks: nat)
    requires Start(settings).rotation.Some?
    ensures var cfg := settings.presence.value;
            var n := Start(settings).rotation.value.count;
            UpdatePresence(cfg, IndexAfter(ticks, n)).Some?
            && UpdatePresence(cfg, IndexAfter(ticks, n)).value.activities[0].name
               == NameAt(cfg.names.value, ticks % n)
  {
    IndexAfterIsModulo(ticks, Start(settings).rotation.value.count);
  }

  /** As written, presence enabled without a `names` list sets no presence
      at all: `updatePresence` reads an index of the absent list, throws,
      and only logs the failure, although the default name was meant. */
  lemma MissingNamesSetNothing()
    ensures var cfg := PresenceConfig(true, None, None, None, None, None, None);
            Start(Parsed(Some(cfg))) == PresencePlan(None, None)
  {
  }

  /** The evidently intended start: `names` defaults to ["DiscoBase"] in
      `updatePresence` as it does for the rotation. */
  function StartDefaulted(settings: Settings): (r: PresencePlan)
    ensures r.initial.Some?
    ensures settings.Parsed? && settings.presence.Some? && settings.presence.value.enabled
            && settings.presence.value.names.None? ==>
              |r.initial.value.activities| == 1 && r.initial.value.activities[0].name == DefaultName && r.rotation.None?
    ensures settings.Parsed? && settings.presence.Some? && settings.presence.value.names.Some? ==>
              r == Start(settings)
  {
    if settings.Parsed? && settings.presence.Some? && settings.presence.value.names.None? then
      Start(Parsed(Some(settings.presence.value.(names := Some([DefaultName])))))
    else Start(settings)
  }
}
