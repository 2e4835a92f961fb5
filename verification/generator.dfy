/** The file generator (`cli.js`): the command template with the chosen
    discord.js builders, the fixed prefix and event templates, the folder
    each kind of file goes to, and the rule that an existing file is never
    overwritten. */
module Generator {
  import opened Options
  import opened Text

  /** The builders the generator offers, in the order it adds them. */
  datatype Builder = Embed | Button | SelectMenu | Modal

  const BuilderOrder: seq<Builder> := [Embed, Button, SelectMenu, Modal]

  /** The imports one builder adds. Each of the three component builders
      brings its own `ActionRowBuilder`; nothing is de-duplicated. */
  function ImportsFor(b: Builder): seq<string> {
    match b
    case Embed => ["EmbedBuilder"]
    case Button => ["ButtonBuilder", "ButtonStyle", "ActionRowBuilder"]
    case SelectMenu => ["StringSelectMenuBuilder", "StringSelectMenuOptionBuilder", "ActionRowBuilder"]
    case Modal => ["ModalBuilder", "TextInputBuilder", "TextInputStyle", "ActionRowBuilder"]
  }

  /** The import list: `SlashCommandBuilder`, then each selected builder's
      imports in the fixed builder order. */
  function Imports(builders: seq<Builder>): (r: seq<string>)
    ensures |r| >= 1 && r[0] == "SlashCommandBuilder"
  {
    ["SlashCommandBuilder"]
      + (if Embed in builders then ImportsFor(Embed) else [])
      + (if Button in builders then ImportsFor(Button) else [])
      + (if SelectMenu in builders then ImportsFor(SelectMenu) else [])
      + (if Modal in builders then ImportsFor(Modal) else [])
  }

  /** The commented example code one builder adds inside `execute`: each
      line on a new line, indented by eight spaces. */
  function Example(b: Builder): string {
    match b
    case Embed =>
      "\n        // Example: Create an embed"
      + "\n        // const embed = new EmbedBuilder()"
      + "\n        //     .setColor('Blue')"
      + "\n        //     .setTitle('Title')"
      + "\n        //     .setDescription('Description');"
      + "\n        // await interaction.reply({ embeds: [embed] });"
    case Button =>
      "\n        // Example: Create a button"
      + "\n        // const button = new ButtonBuilder()"
      + "\n        //     .setCustomId('button_id')"
      + "\n        //     .setLabel('Click Me')"
      + "\n        //     .setStyle(ButtonStyle.Primary);"
      + "\n        // const row = new ActionRowBuilder().addComponents(button);"
      + "\n        // await interaction.reply({ content: 'Message with button', components: [row] });"
    case SelectMenu =>
      "\n        // Example: Create a select menu"
      + "\n        // const select = new StringSelectMenuBuilder()"
      + "\n        //     .setCustomId('select_id')"
      + "\n        //     .setPlaceholder('Make a selection')"
      + "\n        //     .addOptions("
      + "\n        //         new StringSelectMenuOptionBuilder().setLabel('Option 1').setValue('option1'),"
      + "\n        //         new StringSelectMenuOptionBuilder().setLabel('Option 2').setValue('option2')"
      + "\n        //     );"
      + "\n        // const row = new ActionRowBuilder().addComponents(select);"
      + "\n        // await interaction.reply({ content: 'Select an option', components: [row] });"
    case Modal =>
      "\n        // Example: Show a modal"
      + "\n        // const modal = new ModalBuilder()"
      + "\n        //     .setCustomId('modal_id')"
      + "\n        //     .setTitle('Modal Title');"
      + "\n        // const input = new TextInputBuilder()"
      + "\n        //     .setCustomId('input_id')"
      + "\n        //     .setLabel('Input Label')"
      + "\n        //     .setStyle(TextInputStyle.Short);"
      + "\n        // const row = new ActionRowBuilder().addComponents(input);"
      + "\n        // modal.addComponents(row);"
      + "\n        // await interaction.showModal(modal);"
  }

  /** The example code: each selected builder's block, in the fixed
      builder order. */
  function ExampleCode(builders: seq<Builder>): string {
    Blocks(Example, builders)
  }

  /** The selected builders' blocks in the fixed builder order, for any
      choice `ex` of block per builder. */
  function Blocks(ex: Builder -> string, builders: seq<Builder>): string {
    (if Embed in builders then ex(Embed) else "")
      + (if Button in builders then ex(Button) else "")
      + (if SelectMenu in builders then ex(SelectMenu) else "")
      + (if Modal in builders then ex(Modal) else "")
  }

  /** The builders of `order` that were selected, keeping `order`'s order. */
  function Selected(order: seq<Builder>, builders: seq<Builder>): (r: seq<Builder>)
    ensures forall b :: b in r <==> b in order && b in builders
  {
    if |order| == 0 then []
    else (if order[0] in builders then [order[0]] else []) + Selected(order[1..], builders)
  }

  function FlatImports(bs: seq<Builder>): seq<string> {
    if |bs| == 0 then [] else ImportsFor(bs[0]) + FlatImports(bs[1..])
  }

  lemma FlatImportsAppend(a: seq<Builder>, b: seq<Builder>)
    ensures FlatImports(a + b) == FlatImports(a) + FlatImports(b)
  {
    if |a| > 0 {
      assert (a + b)[0] == a[0];
      assert (a + b)[1..] == a[1..] + b;
      FlatImportsAppend(a[1..], b);
      assert FlatImports(a + b) == ImportsFor(a[0]) + FlatImports(a[1..] + b);
    } else {
      assert a + b == b;
    }
  }

  function Part(builders: seq<Builder>, b: Builder): seq<string> {
    if b in builders then ImportsFor(b) else []
  }

  function Pick(builders: seq<Builder>, b: Builder): seq<Builder> {
    if b in builders then [b] else []
  }

  lemma SelectedInOrder(builders: seq<Builder>)
    ensures Selected(BuilderOrder, builders)
            == Pick(builders, Embed) + (Pick(builders, Button) + (Pick(builders, SelectMenu) + Pick(builders, Modal)))
  {
    var o := BuilderOrder;
    assert o[4..] == [];
    assert Selected(o[3..], builders) == Pick(builders, Modal);
    assert Selected(o[2..], builders) == Pick(builders, SelectMenu) + Selected(o[3..], builders);
    assert Selected(o[1..], builders) == Pick(builders, Button) + Selected(o[2..], builders);
  }

  lemma FlatPick(builders: seq<Builder>, b: Builder)
    ensures FlatImports(Pick(builders, b)) == Part(builders, b)
  {
    if b in builders {
      assert FlatImports([b]) == ImportsFor(b) + FlatImports([]);
    }
  }

  lemma FlatOfSelected(builders: seq<Builder>)
    ensures FlatImports(Selected(BuilderOrder, builders))
            == Part(builders, Embed) + (Part(builders, Button) + (Part(builders, SelectMenu) + Part(builders, Modal)))
  {
    var e, bt, sm, md := Pick(builders, Embed), Pick(builders, Button), Pick(builders, SelectMenu), Pick(builders, Modal);
    SelectedInOrder(builders);
    FlatImportsAppend(sm, md);
    FlatImportsAppend(bt, sm + md);
    FlatImportsAppend(e, bt + (sm + md));
    FlatPick(builders, Embed);
    FlatPick(builders, Button);
    FlatPick(builders, SelectMenu);
    FlatPick(builders, Modal);
  }

  lemma Assoc<T>(h: seq<T>, a: seq<T>, b: seq<T>, c: seq<T>, d: seq<T>)
    ensures h + (a + (b + (c + d))) == h + a + b + c + d
  {
  }

  /** The reference reading of the import list: the selected builders in
      their fixed order, each contributing its imports. */
  lemma ImportsInBuilderOrder(builders: seq<Builder>)
    ensures Imports(builders) == ["SlashCommandBuilder"] + FlatImports(Selected(BuilderOrder, builders))
  {
    var e, bt, sm, md := Part(builders, Embed), Part(builders, Button), Part(builders, SelectMenu), Part(builders, Modal);
    FlatOfSelected(builders);
    ImportsByPart(builders);
    Assoc(["SlashCommandBuilder"], e, bt, sm, md);
  }

  /** How many times `x` occurs in `s`. */
  function CountOf(s: seq<string>, x: string): nat {
    if |s| == 0 then 0 else (if s[0] == x then 1 else 0) + CountOf(s[1..], x)
  }

  lemma {:induction false} CountOfAppend(a: seq<string>, b: seq<string>, x: string)
    ensures CountOf(a + b, x) == CountOf(a, x) + CountOf(b, x)
  {
    if |a| == 0 {
      assert a + b == b;
    } else {
      assert (a + b)[0] == a[0];
      assert (a + b)[1..] == a[1..] + b;
      CountOfAppend(a[1..], b, x);
    }
  }

  lemma PartCount(builders: seq<Builder>, b: Builder)
    ensures CountOf(Part(builders, b), "ActionRowBuilder") == if b in builders && b != Embed then 1 else 0
  {
    if b in builders {
      ImportCount(b);
    } else {
      assert Part(builders, b) == [];
    }
  }

  /** Each component builder imports `ActionRowBuilder` once; the embed
      builder does not import it. */
  lemma ImportCount(b: Builder)
    ensures CountOf(ImportsFor(b), "ActionRowBuilder") == if b == Embed then 0 else 1
  {
    var x := "ActionRowBuilder";
    match b
    case Embed =>
      Absent("EmbedBuilder", x);
    case Button =>
      Absent("ButtonBuilder", x);
      Absent("ButtonStyle", x);
      Last2("ButtonBuilder", "ButtonStyle", x);
    case SelectMenu =>
      Absent("StringSelectMenuBuilder", x);
      Absent("StringSelectMenuOptionBuilder", x);
      Last2("StringSelectMenuBuilder", "StringSelectMenuOptionBuilder", x);
    case Modal =>
      Absent("ModalBuilder", x);
      Absent("TextInputBuilder", x);
      Absent("TextInputStyle", x);
      assert ["ModalBuilder", "TextInputBuilder", "TextInputStyle", x]
          == ["ModalBuilder"] + ["TextInputBuilder", "TextInputStyle", x];
      CountOfAppend(["ModalBuilder"], ["TextInputBuilder", "TextInputStyle", x], x);
      Last2("TextInputBuilder", "TextInputStyle", x);
  }

  /** A list of two names other than `x`, then `x`, counts `x` once. */
  lemma Last2(a: string, b: string, x: string)
    requires a != x && b != x
    ensures CountOf([a, b, x], x) == 1
  {
    assert [x][1..] == [];
    assert CountOf([x], x) == 1;
    assert [b, x][1..] == [x];
    assert CountOf([b, x], x) == 1;
    assert [a, b, x][1..] == [b, x];
  }

  lemma Absent(a: string, x: string)
    requires x == "ActionRowBuilder"
    requires a in {"EmbedBuilder", "ButtonBuilder", "ButtonStyle", "StringSelectMenuBuilder",
                   "StringSelectMenuOptionBuilder", "ModalBuilder", "TextInputBuilder", "TextInputStyle",
                   "SlashCommandBuilder"}
    ensures a != x
  {
    if |a| == |x| {
      assert a == "TextInputBuilder";
      assert a[0] != x[0];
    }
  }

  lemma CountOfConcat(a: seq<string>, b: seq<string>, c: seq<string>, d: seq<string>, e: seq<string>, x: string)
    ensures CountOf(a + b + c + d + e, x) == CountOf(a, x) + CountOf(b, x) + CountOf(c, x) + CountOf(d, x) + CountOf(e, x)
  {
    CountOfAppend(a + b + c + d, e, x);
    CountOfAppend(a + b + c, d, x);
    CountOfAppend(a + b, c, x);
    CountOfAppend(a, b, x);
  }

  lemma ImportsByPart(builders: seq<Builder>)
    ensures Imports(builders) == ["SlashCommandBuilder"] + Part(builders, Embed) + Part(builders, Button)
                                 + Part(builders, SelectMenu) + Part(builders, Modal)
  {
  }

  /** `ActionRowBuilder` is imported once for each selected component
      builder, so it is duplicated when more than one is selected. */
  lemma ActionRowPerComponent(builders: seq<Builder>)
    ensures CountOf(Imports(builders), "ActionRowBuilder")
            == (if Button in builders then 1 else 0)
             + (if SelectMenu in builders then 1 else 0)
             + (if Modal in builders then 1 else 0)
  {
    ImportsByPart(builders);
    CountOfConcat(["SlashCommandBuilder"], Part(builders, Embed), Part(builders, Button),
      Part(builders, SelectMenu), Part(builders, Modal), "ActionRowBuilder");
    Absent("SlashCommandBuilder", "ActionRowBuilder");
    assert ["SlashCommandBuilder"][1..] == [];
    PartCount(builders, Embed);
    PartCount(builders, Button);
    PartCount(builders, SelectMenu);
    PartCount(builders, Modal);
  }

  lemma Starts(a: string, z: string)
    requires |a| > 0
    ensures |a + z| > 0 && (a + z)[0] == a[0]
  {
  }

  lemma Ends(a: string, z: string)
    requires |z| > 0
    ensures (a + z)[|a + z| - 1] == z[|z| - 1]
  {
  }

  lemma ImportLineStart(imports: seq<string>)
    ensures |ImportLine(imports)| > 0 && ImportLine(imports)[0] == 'c'
  {
    var a := "const { ";
    var b := a + Join(imports, ", ");
    Starts(a, Join(imports, ", "));
    Starts(b, " } = require('discord.js');\n\n");
  }

  /** The first line of the command template: the import list. */
  function ImportLine(imports: seq<string>): string {
    "const { " + Join(imports, ", ") + " } = require('discord.js');\n\n"
  }

  const CommandBody: string :=
    "module.exports = {\n    data: new SlashCommandBuilder()\n        .setName('your-command')\n"
    + "        .setDescription('Describe your command here.'),\n\n    async execute(interaction, client) {\n"
    + "        // Command execution logic goes here"

  const CommandClose: string := "\n    }\n};"

  /** `generateCommandTemplate(builders)`: the import line, the command
      skeleton, the builders' example code inside `execute`, and the
      closing braces. */
  function CommandTemplate(builders: seq<Builder>): (r: string)
    ensures |r| > 0 && r[0] == 'c' && r[|r| - 1] == ';'
    // the skeleton with its import line first, the example code right
    // before the closing braces, and nothing else
    ensures StartsWith(r, ImportLine(Imports(builders)) + CommandBody)
    ensures EndsWith(r, ExampleCode(builders) + CommandClose)
    ensures |r| == |ImportLine(Imports(builders)) + CommandBody| + |ExampleCode(builders) + CommandClose|
  {
    var line := ImportLine(Imports(builders));
    ImportLineStart(Imports(builders));
    Framed(line, CommandBody, ExampleCode(builders), CommandClose);
    line + CommandBody + ExampleCode(builders) + CommandClose
  }

  /** A head, a body, some code and a closing text, laid end to end. */
  lemma Framed(head: string, body: string, code: string, close: string)
    requires |head| > 0 && |close| > 0
    ensures var r := head + body + code + close;
            && r[0] == head[0] && r[|r| - 1] == close[|close| - 1]
            && StartsWith(r, head + body) && EndsWith(r, code + close)
            && |r| == |head + body| + |code + close|
  {
    var r := head + body + code + close;
    assert r[..|head + body|] == head + body;
    assert r[|head + body|..] == code + close;
  }

  /** The blocks of a list of builders, taken in the list's order. */
  function FlatBlocks(ex: Builder -> string, bs: seq<Builder>): string {
    if |bs| == 0 then "" else ex(bs[0]) + FlatBlocks(ex, bs[1..])
  }

  lemma FlatBlocksAppend(ex: Builder -> string, a: seq<Builder>, b: seq<Builder>)
    ensures FlatBlocks(ex, a + b) == FlatBlocks(ex, a) + FlatBlocks(ex, b)
  {
    if |a| > 0 {
      assert (a + b)[0] == a[0];
      assert (a + b)[1..] == a[1..] + b;
      FlatBlocksAppend(ex, a[1..], b);
    } else {
      assert a + b == b;
    }
  }

  function BlockPart(ex: Builder -> string, builders: seq<Builder>, b: Builder): string {
    if b in builders then ex(b) else ""
  }

  lemma FlatBlockPick(ex: Builder -> string, builders: seq<Builder>, b: Builder)
    ensures FlatBlocks(ex, Pick(builders, b)) == BlockPart(ex, builders, b)
  {
    if b in builders {
      assert FlatBlocks(ex, [b]) == ex(b) + FlatBlocks(ex, []);
    }
  }

  /** Whatever the blocks, they come in the fixed builder order, whatever
      order the builders were selected in. */
  lemma BlocksInBuilderOrder(ex: Builder -> string, builders: seq<Builder>)
    ensures Blocks(ex, builders) == FlatBlocks(ex, Selected(BuilderOrder, builders))
  {
    var e, bt, sm, md := Pick(builders, Embed), Pick(builders, Button), Pick(builders, SelectMenu), Pick(builders, Modal);
    var pe, pb, ps, pm := BlockPart(ex, builders, Embed), BlockPart(ex, builders, Button),
                          BlockPart(ex, builders, SelectMenu), BlockPart(ex, builders, Modal);
    SelectedInOrder(builders);
    FlatBlockPick(ex, builders, Embed);
    FlatBlockPick(ex, builders, Button);
    FlatBlockPick(ex, builders, SelectMenu);
    FlatBlockPick(ex, builders, Modal);
    calc {
      FlatBlocks(ex, Selected(BuilderOrder, builders));
      FlatBlocks(ex, e + (bt + (sm + md)));
      { FlatBlocksAppend(ex, e, bt + (sm + md)); }
      pe + FlatBlocks(ex, bt + (sm + md));
      { FlatBlocksAppend(ex, bt, sm + md); }
      pe + (pb + FlatBlocks(ex, sm + md));
      { FlatBlocksAppend(ex, sm, md); }
      pe + (pb + (ps + pm));
      { Assoc4(pe, pb, ps, pm); }
      pe + pb + ps + pm;
    }
  }

  lemma Assoc4(a: string, b: string, c: string, d: string)
    ensures a + (b + (c + d)) == a + b + c + d
  {
  }

  /** The reference reading of the example code: the selected builders in
      their fixed order, each contributing its example block. */
  lemma ExamplesInBuilderOrder(builders: seq<Builder>)
    ensures ExampleCode(builders) == FlatBlocks(Example, Selected(BuilderOrder, builders))
  {
    BlocksInBuilderOrder(Example, builders);
  }

  /** A single builder contributes just its own block. */
  lemma BlocksOne(ex: Builder -> string, b: Builder)
    ensures Blocks(ex, [b]) == ex(b)
  {
    match b
    case Embed => assert Button !in [b] && SelectMenu !in [b] && Modal !in [b];
    case Button => assert Embed !in [b] && SelectMenu !in [b] && Modal !in [b];
    case SelectMenu => assert Embed !in [b] && Button !in [b] && Modal !in [b];
    case Modal => assert Embed !in [b] && Button !in [b] && SelectMenu !in [b];
  }

  /** One builder turns the base template into: its imports appended to
      the import list, and its example block after the execution comment. */
  lemma OneBuilderTemplate(b: Builder)
    ensures CommandTemplate([b])
            == ImportLine(["SlashCommandBuilder"] + ImportsFor(b)) + CommandBody + Example(b) + CommandClose
  {
    assert Imports([b]) == ["SlashCommandBuilder"] + ImportsFor(b) by {
      match b
      case Embed => assert Button !in [b] && SelectMenu !in [b] && Modal !in [b];
      case Button => assert Embed !in [b] && SelectMenu !in [b] && Modal !in [b];
      case SelectMenu => assert Embed !in [b] && Button !in [b] && Modal !in [b];
      case Modal => assert Embed !in [b] && Button !in [b] && SelectMenu !in [b];
    }
    BlocksOne(Example, b);
  }

  /** With no builders there is no example code, and the template imports
      only `SlashCommandBuilder`. */
  lemma NoBuildersIsBase()
    ensures ExampleCode([]) == ""
    ensures Imports([]) == ["SlashCommandBuilder"]
    ensures CommandTemplate([]) == ImportLine(["SlashCommandBuilder"]) + CommandBody + CommandClose
  {
    assert Embed !in [] && Button !in [] && SelectMenu !in [] && Modal !in [];
  }

  /** The three kinds of file the generator writes. */
  datatype FileType = Command | Event | Prefix

  const PrefixBody: string :=
    " This is a basic structure for a prefix command in discoBase using discord.js\n\n"
    + "module.exports = {\n    name: 'command-name',\n    description: 'command-description.',\n"
    + "    aliases: ['alias_1', 'alias_2'],\n    run: async (client, message, args) => {\n"
    + "        // Command execution logic goes here\n    },\n"

  const PrefixTemplate: string := "//!" + PrefixBody + "};"

  const EventBody: string :=
    "    name: 'event-name',\n    async execute(eventObject, client) {\n        // Event handling logic goes here\n    }\n"

  const EventTemplate: string := "module.exports = {\n" + EventBody + "};"

  /** `templates[fileType]`; the command entry is the template without builders. */
  function TemplateFor(t: FileType): string {
    match t
    case Command => CommandTemplate([])
    case Prefix => PrefixTemplate
    case Event => EventTemplate
  }

  /** `folderMap[fileType]`. */
  function FolderOf(t: FileType): (r: string)
    ensures t == Command <==> r == "commands"
    ensures t == Event <==> r == "events"
    ensures t == Prefix <==> r == "messages"
  {
    match t
    case Command => "commands"
    case Event => "events"
    case Prefix => "messages"
  }

  /** Trimming before writing leaves every template as it is: none starts
      or ends with whitespace. */
  lemma TemplatesAreTrimmed(t: FileType, builders: seq<Builder>)
    ensures Trim(TemplateFor(t)) == TemplateFor(t)
    ensures Trim(CommandTemplate(builders)) == CommandTemplate(builders)
  {
    TrimUnchanged(CommandTemplate(builders));
    match t
    case Command => TrimUnchanged(CommandTemplate([]));
    case Prefix => PrefixTrimmed();
    case Event => EventTrimmed();
  }

  lemma PrefixTrimmed()
    ensures Trim(PrefixTemplate) == PrefixTemplate
  {
    Edges("//!", PrefixBody, "};");
    TrimUnchanged(PrefixTemplate);
  }

  lemma EventTrimmed()
    ensures Trim(EventTemplate) == EventTemplate
  {
    Edges("module.exports = {\n", EventBody, "};");
    TrimUnchanged(EventTemplate);
  }

  lemma Edges(a: string, mid: string, z: string)
    requires |a| > 0 && |z| > 0
    ensures (a + mid + z)[0] == a[0]
    ensures (a + mid + z)[|a + mid + z| - 1] == z[|z| - 1]
  {
  }

  /** The answers given to the prompts. `builder` is the builder picked
      when builders were wanted (None for "none"); `subfolderPick` is the
      value picked from the subfolder list, where "new" asks for a name. */
  datatype Answers = Answers(
    fileType: FileType,
    fileName: string,
    useBuilders: bool,
    builder: Option<Builder>,
    createFolder: bool,
    createSubfolder: bool,
    firstSubfolder: string,
    subfolderPick: string,
    newSubfolder: string)

  /** What the project looks like: whether the target folder exists, its
      subdirectories, the files that already exist, the directories whose
      `mkdirSync` throws, and the paths whose `writeFile` reports an
      error. */
  datatype Project = Project(
    root: string,
    folderExists: bool,
    subfolders: seq<string>,
    existing: set<string>,
    mkdirFails: set<string>,
    unwritable: set<string>)

  /** How a run ends. A throwing `mkdirSync` ends the run with the
      directory it could not create; a failed write is logged and leaves
      no file. */
  datatype Outcome =
    | Aborted
    | MkdirFailed(dir: string)
    | AlreadyExists(path: string)
    | WriteFailed(path: string)
    | Created(path: string, content: string)
  {
    /** The run reached the existence check of the target file. */
    predicate Targeted() {
      AlreadyExists? || WriteFailed? || Created?
    }
  }

  /** The builders passed to the template: only a command asks, and
      "none" adds nothing. */
  function BuildersChosen(a: Answers): (r: seq<Builder>)
    ensures |r| <= 1
    ensures r != [] <==> a.fileType == Command && a.useBuilders && a.builder.Some?
  {
    if a.fileType == Command && a.useBuilders && a.builder.Some? then [a.builder.value] else []
  }

  /** The template written for the answers. */
  function ContentFor(a: Answers): (r: string)
    ensures BuildersChosen(a) != [] ==> r == CommandTemplate(BuildersChosen(a))
    ensures BuildersChosen(a) == [] ==> r == TemplateFor(a.fileType)
  {
    var bs := BuildersChosen(a);
    if a.fileType == Command && |bs| > 0 then CommandTemplate(bs) else TemplateFor(a.fileType)
  }

  /** The subfolders listed once the folder exists: none right after it
      was created. */
  function Listed(p: Project): seq<string> {
    if p.folderExists then p.subfolders else []
  }

  /** The subfolders offered: the listed ones, or the new one when the
      user creates the first. */
  function Offered(p: Project, a: Answers): Option<seq<string>> {
    var listed := Listed(p);
    if |listed| > 0 then Some(listed)
    else if a.createSubfolder then Some([a.firstSubfolder])
    else None
  }

  /** The subfolder the file goes in: the picked one, or the new one. */
  function SubfolderOf(a: Answers): string {
    if a.subfolderPick == "new" then a.newSubfolder else a.subfolderPick
  }

  /** `path.join(__dirname, 'src', folder)`. */
  function FolderPath(p: Project, a: Answers): string {
    JoinPath(p.root + "/src", FolderOf(a.fileType))
  }

  /** `path.join(__dirname, 'src', folder, subfolder, fileName + '.js')`. */
  function TargetPath(p: Project, a: Answers): string {
    JoinPath(JoinPath(FolderPath(p, a), SubfolderOf(a)), a.fileName + ".js")
  }

  /** The first subfolder created when the folder has none, then the new
      subfolder picked from the list, in the order the run creates them. */
  function SubfolderDirs(p: Project, a: Answers): seq<string> {
    (if |Listed(p)| == 0 then [JoinPath(FolderPath(p, a), a.firstSubfolder)] else [])
    + (if a.subfolderPick == "new" then [JoinPath(FolderPath(p, a), a.newSubfolder)] else [])
  }

  /** The directories the run asks `mkdirSync` for when it does not
      abort: the folder when it is missing, then the subfolders once they
      are offered. */
  function Mkdirs(p: Project, a: Answers): seq<string> {
    (if !p.folderExists then [FolderPath(p, a)] else [])
    + (if Offered(p, a).Some? then SubfolderDirs(p, a) else [])
  }

  /** The first directory in `ds` whose creation throws. */
  function FirstFailing(ds: seq<string>, fails: set<string>): (r: Option<string>)
    ensures r.None? <==> forall i :: 0 <= i < |ds| ==> ds[i] !in fails
    ensures r.Some? ==> r.value in ds && r.value in fails
    decreases |ds|
  {
    if |ds| == 0 then None
    else if ds[0] in fails then Some(ds[0])
    else FirstFailing(ds[1..], fails)
  }

  /** The generator's run: the file it creates, or why it does not. */
  function Generate(p: Project, a: Answers): (r: Outcome)
    requires Offered(p, a).Some? ==> a.subfolderPick in Offered(p, a).value + ["new"]
    // declining the folder aborts; a folder that cannot be created ends the run
    ensures !p.folderExists && !a.createFolder ==> r == Aborted
    ensures !p.folderExists && a.createFolder && FolderPath(p, a) in p.mkdirFails ==>
              r == MkdirFailed(FolderPath(p, a))
    // with the folder in place, declining the first subfolder aborts
    ensures (p.folderExists || a.createFolder) && Offered(p, a).None? && FolderPath(p, a) !in p.mkdirFails ==>
              r == Aborted
    // the run ends at the first directory in creation order that cannot be made
    ensures (p.folderExists || a.createFolder) ==>
              (r.MkdirFailed? <==> FirstFailing(Mkdirs(p, a), p.mkdirFails).Some?)
    ensures r.MkdirFailed? ==> Some(r.dir) == FirstFailing(Mkdirs(p, a), p.mkdirFails)
    // otherwise the target exists already, or is written, or the write fails
    ensures (p.folderExists || a.createFolder) && Offered(p, a).Some?
            && FirstFailing(Mkdirs(p, a), p.mkdirFails).None? ==>
              r.Targeted() && r.path == TargetPath(p, a)
              && (r.AlreadyExists? <==> TargetPath(p, a) in p.existing)
              && (r.WriteFailed? <==> TargetPath(p, a) !in p.existing && TargetPath(p, a) in p.unwritable)
              && (r.Created? <==> TargetPath(p, a) !in p.existing && TargetPath(p, a) !in p.unwritable)
    // an existing file is never overwritten
    ensures r.Created? ==> r.path !in p.existing && r.content == Trim(ContentFor(a))
    ensures r.AlreadyExists? ==> r.path in p.existing
    // with plain names, the file lies in the type's folder
    ensures r.Targeted() && PlainSegment(SubfolderOf(a)) && '/' !in a.fileName ==>
              StartsWith(r.path, p.root + "/src/" + FolderOf(a.fileType) + "/")
              && EndsWith(r.path, "/" + a.fileName + ".js")
  {
    if !p.folderExists && !a.createFolder then Aborted
    else
      var failing := FirstFailing(Mkdirs(p, a), p.mkdirFails);
      if !p.folderExists && FolderPath(p, a) in p.mkdirFails then
        assert Mkdirs(p, a)[0] == FolderPath(p, a);
        MkdirFailed(FolderPath(p, a))
      else if Offered(p, a).None? then
        assert Mkdirs(p, a) == (if !p.folderExists then [FolderPath(p, a)] else []);
        Aborted
      else if failing.Some? then MkdirFailed(failing.value)
      else
        var path := TargetPath(p, a);
        PathShape(p.root, FolderOf(a.fileType), SubfolderOf(a), a.fileName);
        if path in p.existing then AlreadyExists(path)
        else if path in p.unwritable then WriteFailed(path)
        else Created(path, Trim(ContentFor(a)))
  }

  /** The target path lies in the folder and ends in the file name. */
  lemma PathShape(root: string, folder: string, sub: string, name: string)
    ensures var path := JoinPath(JoinPath(JoinPath(root + "/src", folder), sub), name + ".js");
            StartsWith(path, root + "/src/" + folder + "/") && EndsWith(path, "/" + name + ".js")
  {
    var pre := root + "/src/" + folder + "/";
    var suf := "/" + name + ".js";
    var path := JoinPath(JoinPath(JoinPath(root + "/src", folder), sub), name + ".js");
    assert path == pre + (sub + suf);
    assert path == (pre + sub) + suf;
    PrefixOfConcat(pre, sub + suf);
    SuffixOfConcat(pre + sub, suf);
  }

  lemma PrefixOfConcat(a: string, b: string)
    ensures StartsWith(a + b, a)
  {
    assert (a + b)[..|a|] == a;
  }

  lemma SuffixOfConcat(a: string, b: string)
    ensures EndsWith(a + b, b)
  {
    assert (a + b)[|a + b| - |b|..] == b;
  }

  /** The file written holds the template exactly, with the builder's
      imports and example only for a command with a builder. */
  lemma CreatedContent(p: Project, a: Answers)
    requires Offered(p, a).Some? ==> a.subfolderPick in Offered(p, a).value + ["new"]
    requires Generate(p, a).Created?
    ensures Generate(p, a).content == ContentFor(a)
    ensures a.fileType != Command ==> Generate(p, a).content == TemplateFor(a.fileType)
  {
    TemplatesAreTrimmed(a.fileType, BuildersChosen(a));
  }
}
