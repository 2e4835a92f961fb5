/** Directory walking shared by the loaders and the management tool: the
    recursive listing of `.js` files (`getAllFiles`, `getAllCommandFiles`,
    `loadAllCommands`), their grouping into categories (`getFileTree`) and
    the lookup of a same-named counterpart (`findMatchingCommand`). */
module FileTree {
  import opened Options
  import opened Text

  /** A directory entry as `readdirSync` lists it, in listing order. */
  datatype Node = File(name: string) | Dir(name: string, children: seq<Node>)

  /** A file path relative to the scanned root, as its list of components. */
  type RelPath = seq<string>

  predicate IsScriptName(name: string) {
    EndsWith(name, ".js")
  }

  /** The `.js` files below `nodes`, depth first in listing order. A
      directory is always descended into, even when its name ends in `.js`. */
  function Scripts(nodes: seq<Node>): (r: seq<RelPath>)
    ensures forall i :: 0 <= i < |r| ==> |r[i]| >= 1
    decreases nodes
  {
    if |nodes| == 0 then []
    else NodeScripts(nodes[0]) + Scripts(nodes[1..])
  }

  function NodeScripts(n: Node): (r: seq<RelPath>)
    ensures forall i :: 0 <= i < |r| ==> |r[i]| >= 1
    decreases n
  {
    match n
    case File(name) => if IsScriptName(name) then [[name]] else []
    case Dir(name, ch) => Prefixed(name, Scripts(ch))
  }

  /** Each path of `inner`, one directory further down. */
  function Prefixed(name: string, inner: seq<RelPath>): (r: seq<RelPath>)
    ensures |r| == |inner|
    ensures forall i :: 0 <= i < |r| ==> r[i] == [name] + inner[i]
  {
    seq(|inner|, i requires 0 <= i < |inner| => [name] + inner[i])
  }

  /** The independent reading: `p` leads through directories to a `.js` file. */
  ghost predicate Reaches(nodes: seq<Node>, p: RelPath)
    decreases |p|
  {
    && |p| >= 1
    && exists i :: 0 <= i < |nodes| && ReachesNode(nodes[i], p)
  }

  ghost predicate ReachesNode(n: Node, p: RelPath)
    decreases |p|, 0
  {
    && |p| >= 1
    && match n
       case File(name) => |p| == 1 && p[0] == name && IsScriptName(name)
       case Dir(name, ch) => |p| >= 2 && p[0] == name && Reaches(ch, p[1..])
  }

  /** The listing holds exactly the paths that reach a script file. */
  lemma {:induction false} ScriptsComplete(nodes: seq<Node>, p: RelPath)
    ensures p in Scripts(nodes) <==> Reaches(nodes, p)
    decreases |p|, |nodes|
  {
    if |nodes| == 0 {
    } else {
      NodeScriptsComplete(nodes[0], p);
      ScriptsComplete(nodes[1..], p);
      if Reaches(nodes, p) {
        var i :| 0 <= i < |nodes| && ReachesNode(nodes[i], p);
        if i > 0 {
          assert nodes[1..][i - 1] == nodes[i];
        }
      }
      if Reaches(nodes[1..], p) {
        var i :| 0 <= i < |nodes[1..]| && ReachesNode(nodes[1..][i], p);
        assert nodes[i + 1] == nodes[1..][i];
      }
    }
  }

  lemma {:induction false} NodeScriptsComplete(n: Node, p: RelPath)
    ensures p in NodeScripts(n) <==> ReachesNode(n, p)
    decreases |p|, 0
  {
    match n
    case File(name) =>
      if |p| == 1 && p[0] == name {
        assert p == [name];
      }
    case Dir(name, ch) =>
      DirMembers(name, ch, p);
      if |p| >= 2 {
        ScriptsComplete(ch, p[1..]);
      }
  }

  /** A directory lists exactly its name prefixed to each path below it. */
  lemma DirMembers(name: string, ch: seq<Node>, p: RelPath)
    ensures p in NodeScripts(Dir(name, ch)) <==> |p| >= 2 && p[0] == name && p[1..] in Scripts(ch)
  {
    if |p| >= 2 && p[0] == name && p[1..] in Scripts(ch) {
      DirListsBelow(name, ch, p);
    }
    if p in NodeScripts(Dir(name, ch)) {
      DirListsOnlyBelow(name, ch, p);
    }
  }

  lemma DirListsBelow(name: string, ch: seq<Node>, p: RelPath)
    requires |p| >= 2 && p[0] == name && p[1..] in Scripts(ch)
    ensures p in NodeScripts(Dir(name, ch))
  {
    var inner := Scripts(ch);
    var i :| 0 <= i < |inner| && inner[i] == p[1..];
    var r := NodeScripts(Dir(name, ch));
    assert r[i] == [name] + inner[i];
    assert p == [name] + p[1..];
  }

  lemma DirListsOnlyBelow(name: string, ch: seq<Node>, p: RelPath)
    requires p in NodeScripts(Dir(name, ch))
    ensures |p| >= 2 && p[0] == name && p[1..] in Scripts(ch)
  {
    var inner := Scripts(ch);
    var r := NodeScripts(Dir(name, ch));
    var i :| 0 <= i < |r| && r[i] == p;
    assert r[i] == [name] + inner[i];
    assert p[1..] == inner[i];
  }

  /** The absolute path Node builds with `path.join`. */
  function AbsPath(base: string, p: RelPath): string {
    base + "/" + Join(p, "/")
  }

  /** `getAllFiles(base)`: absolute paths of every `.js` file, in walk order. */
  function AllFiles(base: string, nodes: seq<Node>): (r: seq<string>)
    ensures |r| == |Scripts(nodes)|
    ensures forall i :: 0 <= i < |r| ==> r[i] == AbsPath(base, Scripts(nodes)[i])
  {
    var ps := Scripts(nodes);
    seq(|ps|, i requires 0 <= i < |ps| => AbsPath(base, ps[i]))
  }

  /** One entry of the management tool's tree. */
  datatype FileEntry = FileEntry(name: string, path: string, relativePath: string)

  /** First component of the relative path, or "Root" for a top-level file. */
  function Category(p: RelPath): string {
    if |p| > 1 then p[0] else "Root"
  }

  function EntryOf(base: string, p: RelPath): FileEntry {
    var abs := AbsPath(base, p);
    FileEntry(BasenameWithout(abs, ".js"), abs, Join(p, "/"))
  }

  /** The reference reading of one category: its files in listing order. */
  function EntriesIn(base: string, files: seq<RelPath>, c: string): seq<FileEntry> {
    if |files| == 0 then []
    else (if Category(files[0]) == c then [EntryOf(base, files[0])] else [])
         + EntriesIn(base, files[1..], c)
  }

  lemma {:induction false} EntriesInSnoc(base: string, files: seq<RelPath>, f: RelPath, c: string)
    ensures EntriesIn(base, files + [f], c)
         == EntriesIn(base, files, c) + (if Category(f) == c then [EntryOf(base, f)] else [])
    decreases |files|
  {
    if |files| > 0 {
      assert (files + [f])[1..] == files[1..] + [f];
      EntriesInSnoc(base, files[1..], f, c);
    } else {
      assert (files + [f])[1..] == [];
    }
  }

  /** `getFileTree`: files grouped by category, each list in listing order. */
  function GroupByCategory(base: string, files: seq<RelPath>): map<string, seq<FileEntry>>
    decreases |files|
  {
    if |files| == 0 then map[]
    else
      var t := GroupByCategory(base, files[..|files| - 1]);
      var f := files[|files| - 1];
      var c := Category(f);
      t[c := (if c in t then t[c] else []) + [EntryOf(base, f)]]
  }

  /** Every file lands in exactly its own category; categories are exactly
      those of the files; each list is the category's files in order. */
  lemma GroupByCategoryIsFilter(base: string, files: seq<RelPath>)
    ensures forall c :: c in GroupByCategory(base, files)
                <==> exists f :: f in files && Category(f) == c
    ensures forall c :: c in GroupByCategory(base, files)
                ==> GroupByCategory(base, files)[c] == EntriesIn(base, files, c)
  {
    GroupKeys(base, files);
    GroupLists(base, files);
  }

  lemma {:induction false} GroupKeys(base: string, files: seq<RelPath>)
    ensures forall c :: c in GroupByCategory(base, files)
                <==> exists f :: f in files && Category(f) == c
    decreases |files|
  {
    if |files| > 0 {
      var init := files[..|files| - 1];
      var f := files[|files| - 1];
      assert files == init + [f];
      GroupKeys(base, init);
      var t := GroupByCategory(base, init);
      forall c ensures c in GroupByCategory(base, files) <==> exists g :: g in files && Category(g) == c {
        if c in t {
          var g :| g in init && Category(g) == c;
          assert g in files;
        }
        if exists g :: g in files && Category(g) == c {
          var g :| g in files && Category(g) == c;
          if g != f {
            assert g in init;
          }
        }
      }
    }
  }

  lemma {:induction false} GroupLists(base: string, files: seq<RelPath>)
    ensures forall c :: c in GroupByCategory(base, files)
                ==> GroupByCategory(base, files)[c] == EntriesIn(base, files, c)
    decreases |files|
  {
    if |files| > 0 {
      var init := files[..|files| - 1];
      var f := files[|files| - 1];
      assert files == init + [f];
      GroupLists(base, init);
      GroupKeys(base, init);
      forall c ensures EntriesIn(base, files, c)
          == EntriesIn(base, init, c) + (if Category(f) == c then [EntryOf(base, f)] else []) {
        EntriesInSnoc(base, init, f, c);
      }
      var t := GroupByCategory(base, init);
      forall c | c !in t ensures EntriesIn(base, init, c) == [] {
        NotInGroupEmpty(base, init, c);
      }
    }
  }

  lemma {:induction false} NotInGroupEmpty(base: string, files: seq<RelPath>, c: string)
    requires forall g :: g in files ==> Category(g) != c
    ensures EntriesIn(base, files, c) == []
    decreases |files|
  {
    if |files| > 0 {
      assert files[0] in files;
      assert forall g :: g in files[1..] ==> g in files;
      NotInGroupEmpty(base, files[1..], c);
    }
  }

  /** `getFileTree(base)`. */
  function FileTreeOf(base: string, nodes: seq<Node>): map<string, seq<FileEntry>> {
    GroupByCategory(base, Scripts(nodes))
  }

  predicate NoneNamedBefore(files: seq<string>, i: int, baseName: string)
    requires 0 <= i <= |files|
  {
    forall j :: 0 <= j < i ==> BasenameWithout(files[j], ".js") != baseName
  }

  /** Position of the first of `files` whose name without ".js" is
      `baseName` (JavaScript's `findIndex`), or -1. */
  function FirstNamedIndex(files: seq<string>, baseName: string): (i: int)
    ensures -1 <= i < |files|
    ensures i >= 0 ==> BasenameWithout(files[i], ".js") == baseName && NoneNamedBefore(files, i, baseName)
    ensures i == -1 ==> NoneNamedBefore(files, |files|, baseName)
  {
    if |files| == 0 then -1
    else if BasenameWithout(files[0], ".js") == baseName then 0
    else
      var j := FirstNamedIndex(files[1..], baseName);
      var i := if j < 0 then -1 else j + 1;
      NoneNamedBeforeCons(files, if j < 0 then |files[1..]| else j, baseName);
      i
  }

  lemma NoneNamedBeforeCons(files: seq<string>, j: int, baseName: string)
    requires |files| > 0 && 0 <= j <= |files| - 1
    requires BasenameWithout(files[0], ".js") != baseName
    requires NoneNamedBefore(files[1..], j, baseName)
    ensures NoneNamedBefore(files, j + 1, baseName)
  {
    forall k | 0 < k < j + 1 ensures BasenameWithout(files[k], ".js") != baseName {
      assert files[k] == files[1..][k - 1];
    }
  }

  /** The first of `files` whose name without ".js" is `baseName`
      (JavaScript's `find`). */
  function FirstNamed(files: seq<string>, baseName: string): (r: Option<string>)
    ensures r.Some? ==> exists i :: 0 <= i < |files| && files[i] == r.value && NoneNamedBefore(files, i, baseName)
    ensures r.Some? ==> BasenameWithout(r.value, ".js") == baseName
    ensures r.None? ==> forall f :: f in files ==> BasenameWithout(f, ".js") != baseName
  {
    var i := FirstNamedIndex(files, baseName);
    if i < 0 then None else Some(files[i])
  }

  /** `findMatchingCommand(fileName, searchDir)`: nothing when the directory
      does not exist (`listing` is None), else the first file below it with
      the same base name. */
  function FindMatching(fileName: string, searchDir: string, listing: Option<seq<Node>>): (r: Option<string>)
    ensures listing.None? ==> r.None?
    ensures listing.Some? ==> r == FirstNamed(AllFiles(searchDir, listing.value), BasenameWithout(fileName, ".js"))
  {
    if listing.None? then None
    else FirstNamed(AllFiles(searchDir, listing.value), BasenameWithout(fileName, ".js"))
  }
}
