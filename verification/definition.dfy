/** What a command, prefix-command or event file exports, as far as the
    loaders and dispatchers look at it, and JavaScript's truthiness on those
    fields. Evaluating a file (`require`) either yields such a record or
    throws. */
module Definition {
  import opened Options

  /** A JavaScript value used as a name or `Map` key: absent, a string, or a
      number (other kinds of value are not modelled). */
  datatype JsName = Missing | Str(s: string) | Num(n: int)

  predicate NameTruthy(n: JsName) {
    match n
    case Missing => false
    case Str(s) => s != ""
    case Num(k) => k != 0
  }

  /** An optional flag field: `true`, `false`, absent, or some other value
      whose truthiness is recorded. */
  datatype Flag = True | False | Unset | Other(truthy: bool)

  predicate Truthy(f: Flag) {
    f == True || (f.Other? && f.truthy)
  }

  /** `command.data`, a SlashCommandBuilder; `toJSON()` yields the declaration
      pushed to the platform, which the model identifies with the builder. */
  datatype Descriptor = Descriptor(name: JsName, description: string)

  /** The exported definition object. Absent lists are empty lists, except
      the two permission lists, whose presence alone changes behaviour. A
      `cooldown` of 0 stands for an absent or falsy one. */
  datatype Definition = Definition(
    name: JsName,
    data: Option<Descriptor>,
    aliases: seq<string>,
    disabled: Flag,
    devOnly: Flag,
    adminOnly: Flag,
    ownerOnly: Flag,
    cooldown: int,
    requiredRoles: seq<string>,
    userPermissions: Option<seq<string>>,
    botPermissions: Option<seq<string>>)

  /** The outcome of `require(path)`. */
  datatype Module = Exports(def: Definition) | Throws

  /** The files as `require` would evaluate them; a missing file throws. */
  type Disk = map<string, Module>

  function Require(disk: Disk, path: string): (m: Module)
    ensures path !in disk ==> m.Throws?
  {
    if path in disk then disk[path] else Throws
  }

  /** The shape of a command file with nothing set but the given name. */
  function Plain(name: JsName): Definition {
    Definition(name, None, [], Unset, Unset, Unset, Unset, 0, [], None, None)
  }
}
