/** Pausing and resuming a command by rewriting its source file
    (`toggleCommandState` and `toggleBothCommandVersions`). The file is
    seen as its lines (split at `\n`); every pattern is matched within a
    line, with the one multi-line pattern, the insertion point after
    `module.exports = {`, matched in its two usual layouts. */
module Toggle {
  import opened Options
  import opened Text
  import FileTree

  type Lines = seq<string>

  /** Length of the run of whitespace at the start of `s`. */
  function LeadingSpace(s: string): (n: nat)
    ensures n <= |s|
    ensures forall i :: 0 <= i < n ==> IsSpace(s[i])
    ensures n < |s| ==> !IsSpace(s[n])
  {
    if |s| > 0 && IsSpace(s[0]) then 1 + LeadingSpace(s[1..]) else 0
  }

  lemma {:induction false} LeadingSpaceOf(ind: string, s: string)
    requires forall i :: 0 <= i < |ind| ==> IsSpace(ind[i])
    requires |s| > 0 && !IsSpace(s[0])
    ensures LeadingSpace(ind + s) == |ind|
    decreases |ind|
  {
    if |ind| > 0 {
      var t := ind + s;
      assert t[0] == ind[0];
      assert t[1..] == ind[1..] + s;
      forall i | 0 <= i < |ind| - 1 ensures IsSpace(ind[1..][i]) {
        assert ind[1..][i] == ind[i + 1];
      }
      LeadingSpaceOf(ind[1..], s);
    } else {
      assert ind + s == s;
    }
  }

  /** The indentation that starts a line. */
  function Indent(s: string): (r: string)
    ensures forall i :: 0 <= i < |r| ==> IsSpace(r[i])
  {
    var n := LeadingSpace(s);
    assert forall i :: 0 <= i < n ==> s[..n][i] == s[i];
    s[..n]
  }

  /** A line after its indentation. */
  function Unindented(s: string): string {
    s[LeadingSpace(s)..]
  }

  /** The whitespace that ends a line. */
  function Trailing(s: string): string {
    s[|TrimEnd(s)|..]
  }

  /** A `disabled:` line as `^(\s*)disabled:\s*(false|true)` sees it:
      indentation, value, and whatever follows the value. */
  datatype Setting = Setting(indent: string, value: bool, rest: string)

  function ParseSetting(line: string): (r: Option<Setting>)
    ensures r.Some? ==> StartsWith(line, r.value.indent + "disabled:")
    ensures r.Some? ==> forall i :: 0 <= i < |r.value.indent| ==> IsSpace(r.value.indent[i])
    ensures r.Some? ==> EndsWith(line, r.value.rest)
  {
    var n := LeadingSpace(line);
    var after := line[n..];
    if !StartsWith(after, "disabled:") then None
    else
      match ParseValue(after[9..])
      case None => None
      case Some(p) =>
        KeyAfterIndent(line, n);
        SuffixEndsWith(line, n + 9, p.1);
        Some(Setting(line[..n], p.0, p.1))
  }

  /** `\s*(false|true)` and what follows it. */
  function ParseValue(tail: string): (r: Option<(bool, string)>)
    ensures r.Some? ==> EndsWith(tail, r.value.1)
  {
    var v := tail[LeadingSpace(tail)..];
    if StartsWith(v, "false") then Some((false, v[5..]))
    else if StartsWith(v, "true") then Some((true, v[4..]))
    else None
  }

  lemma KeyAfterIndent(line: string, n: nat)
    requires n <= |line| && StartsWith(line[n..], "disabled:")
    ensures StartsWith(line, line[..n] + "disabled:")
  {
    assert line[..n + 9] == line[..n] + line[n..][..9];
  }

  lemma SuffixEndsWith(s: string, k: nat, p: string)
    requires k <= |s| && EndsWith(s[k..], p)
    ensures EndsWith(s, p)
  {
    assert s[k..][|s[k..]| - |p|..] == s[|s| - |p|..];
  }

  /** The line the replacement writes: `$1disabled: <value>` and the rest. */
  function Render(s: Setting): string {
    s.indent + "disabled: " + (if s.value then "true" else "false") + s.rest
  }

  /** Parsing a rendered line gives back the setting. */
  lemma RenderParse(s: Setting)
    requires forall i :: 0 <= i < |s.indent| ==> IsSpace(s.indent[i])
    ensures ParseSetting(Render(s)) == Some(s)
  {
    var word := if s.value then "true" else "false";
    var x := "disabled: " + word + s.rest;
    var line := Render(s);
    assert line == s.indent + x;
    IndentSplit(s.indent, x);
    assert x[..9] == "disabled:";
    assert x[9..] == " " + (word + s.rest);
    ValueParse(word, s.rest, s.value);
  }

  /** An indentation followed by a non-space splits back into the two. */
  lemma IndentSplit(ind: string, x: string)
    requires forall i :: 0 <= i < |ind| ==> IsSpace(ind[i])
    requires |x| > 0 && x[0] == 'd'
    ensures LeadingSpace(ind + x) == |ind|
    ensures (ind + x)[..|ind|] == ind && (ind + x)[|ind|..] == x
  {
    LeadingSpaceOf(ind, x);
  }

  /** The value part: one space, the word, the rest. */
  lemma ValueParse(word: string, rest: string, value: bool)
    requires word == if value then "true" else "false"
    ensures ParseValue(" " + (word + rest)) == Some((value, rest))
  {
    var tail := " " + (word + rest);
    assert (word + rest)[0] == word[0];
    LeadingSpaceOf(" ", word + rest);
    var v := tail[1..];
    assert v == word + rest;
    if value {
      assert v[..4] == "true";
      assert v[0] == 't';
    } else {
      assert v[..5] == "false";
    }
  }

  /** Index of the first line `pick` accepts, or -1. */
  function FirstSetting(lines: Lines, onlyTrue: bool): (i: int)
    ensures -1 <= i < |lines|
    ensures i >= 0 ==> Accepts(lines[i], onlyTrue)
    ensures forall j {:trigger Accepts(lines[j], onlyTrue)} :: 0 <= j < (if i < 0 then |lines| else i) ==> !Accepts(lines[j], onlyTrue)
  {
    if |lines| == 0 then -1
    else if Accepts(lines[0], onlyTrue) then 0
    else
      var j := FirstSetting(lines[1..], onlyTrue);
      if j < 0 then -1 else j + 1
  }

  /** `data:\s*new\s+SlashCommandBuilder` starting at the first character. */
  predicate SlashBuilderAt(s: string) {
    StartsWith(s, "data:")
    && var a := s[5..];
       var b := a[LeadingSpace(a)..];
       StartsWith(b, "new")
       && var c := b[3..];
          LeadingSpace(c) > 0 && StartsWith(c[LeadingSpace(c)..], "SlashCommandBuilder")
  }

  predicate HasSlashBuilder(lines: Lines) {
    exists i, k :: 0 <= i < |lines| && 0 <= k <= |lines[i]| && SlashBuilderAt(lines[i][k..])
  }

  /** `^\s*name:\s*['"`]`. */
  predicate NameLine(line: string) {
    var n := LeadingSpace(line);
    StartsWith(line[n..], "name:")
    && var t := line[n + 5..];
       var m := LeadingSpace(t);
       m < |t| && (t[m] == '\'' || t[m] == '"' || t[m] == '`')
  }

  predicate HasNameLine(lines: Lines) {
    exists i :: 0 <= i < |lines| && NameLine(lines[i])
  }

  /** A line ending in `module.exports = {` (any spacing), followed by
      nothing but whitespace. */
  predicate IsOpener(line: string) {
    var a := TrimEnd(line);
    |a| > 0 && a[|a| - 1] == '{'
    && var b := TrimEnd(a[..|a| - 1]);
       EndsWith(b, "=") && EndsWith(TrimEnd(b[..|b| - 1]), "module.exports")
  }

  /** A line that is, after its indentation, a `//` comment running to the
      line break (`.` stops at a carriage return). */
  predicate IsComment(line: string) {
    var n := LeadingSpace(line);
    StartsWith(line[n..], "//") && '\r' !in line[n + 2..]
  }

  /** A line that is, after its indentation, the property `anchor`. */
  predicate IsAnchor(line: string, anchor: string) {
    StartsWith(Unindented(line), anchor)
  }

  /** How many lines after opener `o` the anchor sits (1 directly, 2 after
      one comment line), or 0 when `o` is no match. The comment is tried
      first, as the optional group is. */
  function MatchAt(lines: Lines, o: nat, anchor: string): (d: nat)
    requires o < |lines|
    ensures d <= 2 && o + d < |lines|
    ensures d > 0 ==> IsOpener(lines[o]) && IsAnchor(lines[o + d], anchor)
    ensures d == 2 ==> IsComment(lines[o + 1])
  {
    if !IsOpener(lines[o]) then 0
    else if o + 2 < |lines| && IsComment(lines[o + 1]) && IsAnchor(lines[o + 2], anchor) then 2
    else if o + 1 < |lines| && IsAnchor(lines[o + 1], anchor) then 1
    else 0
  }

  /** The leftmost opener the insertion pattern matches at, or -1. */
  function FirstMatch(lines: Lines, from: nat, anchor: string): (o: int)
    requires from <= |lines|
    ensures o == -1 || from <= o < |lines|
    ensures o >= 0 ==> MatchAt(lines, o, anchor) > 0
    ensures forall j :: from <= j < (if o < 0 then |lines| else o) ==> MatchAt(lines, j, anchor) == 0
    decreases |lines| - from
  {
    if from == |lines| then -1
    else if MatchAt(lines, from, anchor) > 0 then from
    else FirstMatch(lines, from + 1, anchor)
  }

  /** `$1$2disabled: true,\n$2$4`: the opener, the new property at the
      first indentation, the opener's trailing whitespace as a line of its
      own, then the anchor line re-indented; a comment in between is
      dropped. */
  function Insert(lines: Lines, anchor: string): (r: Option<Lines>)
    ensures r.Some? ==> |r.value| > |lines| - 1
    ensures r.None? <==> FirstMatch(lines, 0, anchor) < 0
    ensures r.Some? ==>
              var o := FirstMatch(lines, 0, anchor);
              Rewritten(lines, r.value, o, MatchAt(lines, o, anchor))
  {
    var o := FirstMatch(lines, 0, anchor);
    if o < 0 then None else Some(Rewrite(lines, o, MatchAt(lines, o, anchor)))
  }

  /** `u` is `lines` with the opener `o` kept, and the lines after it up
      to the anchor line `d` lines below replaced by three: `disabled:
      true,` at the indentation of the line after the opener, the opener's
      trailing whitespace, and the anchor line at that same indentation.
      Every line before the opener and after the anchor is kept. */
  predicate Rewritten(lines: Lines, u: Lines, o: nat, d: nat) {
    && 1 <= d && o + d < |lines| && |u| == |lines| + 3 - d
    && var ind := Indent(lines[o + 1]);
       && u[..o + 1] == lines[..o + 1]
       && u[o + 1] == Render(Setting(ind, true, ","))
       && u[o + 2] == Trailing(lines[o])
       && u[o + 3] == ind + Unindented(lines[o + d])
       && u[o + 4..] == lines[o + d + 1..]
  }

  /** The replacement at opener `o` whose anchor line sits `d` lines below. */
  function Rewrite(lines: Lines, o: nat, d: nat): (u: Lines)
    requires 1 <= d && o + d < |lines|
    ensures Rewritten(lines, u, o, d)
  {
    var ind := Indent(lines[o + 1]);
    Splice(lines, o, d, Render(Setting(ind, true, ",")), Trailing(lines[o]), ind + Unindented(lines[o + d]))
  }

  /** Lines `o + 1` to `o + d` replaced by the three lines `a`, `b`, `c`. */
  function Splice(lines: Lines, o: nat, d: nat, a: string, b: string, c: string): (u: Lines)
    requires 1 <= d && o + d < |lines|
    ensures |u| == |lines| + 3 - d
    ensures u[..o + 1] == lines[..o + 1]
    ensures u[o + 1] == a && u[o + 2] == b && u[o + 3] == c
    ensures u[o + 4..] == lines[o + d + 1..]
  {
    var pre, post := lines[..o + 1], lines[o + d + 1..];
    var u := pre + [a, b, c] + post;
    assert u[..o + 1] == pre;
    assert u[o + 4..] == post;
    u
  }

  /** The outcome of one toggle: its return value and the text written. */
  datatype Toggled = Toggled(ok: bool, written: Option<Lines>)

  /** The property the new `disabled:` goes before: `data:` in a slash
      command, `name:` in a prefix command, none when neither is found. */
  function InsertionAnchor(lines: Lines): (a: string)
    ensures a == "data:" <==> HasSlashBuilder(lines)
    ensures a == "name:" <==> !HasSlashBuilder(lines) && HasNameLine(lines)
    ensures a == "" <==> !HasSlashBuilder(lines) && !HasNameLine(lines)
  {
    if HasSlashBuilder(lines) then "data:" else if HasNameLine(lines) then "name:" else ""
  }

  /** `toggleCommandState(file, true)` on the file's lines. */
  function Pause(lines: Lines): (r: Toggled)
    ensures r.written.Some? <==> r.ok
    ensures r.ok ==> r.written.value != lines
    // an existing `disabled:` line: only its value changes, to true
    ensures FirstSetting(lines, false) >= 0 ==>
              var i := FirstSetting(lines, false);
              var s := ParseSetting(lines[i]).value;
              (r.ok <==> Render(s.(value := true)) != lines[i])
              && (r.ok ==> r.written.value == lines[i := Render(s.(value := true))])
    // otherwise the property is inserted before `data:` or `name:`
    ensures FirstSetting(lines, false) < 0 ==>
              (r.ok <==> InsertionAnchor(lines) != "" && Insert(lines, InsertionAnchor(lines)).Some?)
    ensures FirstSetting(lines, false) < 0 && r.ok ==> r.written == Insert(lines, InsertionAnchor(lines))
  {
    var i := FirstSetting(lines, false);
    if i >= 0 then
      var s := ParseSetting(lines[i]).value;
      var updated := lines[i := Render(s.(value := true))];
      if updated == lines then Toggled(false, None) else Toggled(true, Some(updated))
    else
      var anchor := InsertionAnchor(lines);
      if anchor == "" then Toggled(false, None)
      else
        match Insert(lines, anchor)
        case None => Toggled(false, None)
        case Some(u) => Toggled(true, Some(u))
  }

  /** `toggleCommandState(file, false)`: the first `disabled: true` becomes
      `disabled: false`; with none, nothing is written and the call still
      succeeds. */
  function Resume(lines: Lines): (r: Toggled)
    ensures r.ok
    ensures r.written.Some? <==> FirstSetting(lines, true) >= 0
    ensures r.written.Some? ==>
              var i := FirstSetting(lines, true);
              var s := ParseSetting(lines[i]).value;
              |r.written.value| == |lines|
              && r.written.value[i] == Render(s.(value := false))
              && forall j :: 0 <= j < |lines| && j != i ==> r.written.value[j] == lines[j]
  {
    var i := FirstSetting(lines, true);
    if i < 0 then Toggled(true, None)
    else
      var s := ParseSetting(lines[i]).value;
      Toggled(true, Some(lines[i := Render(s.(value := false))]))
  }

  /** The whole operation. `writable` says whether `writeFileSync` would
      succeed; a file that cannot be read, or whose write throws, fails
      without a write. */
  function ToggleState(file: Option<Lines>, disable: bool, writable: bool): (r: Toggled)
    ensures file.None? ==> r == Toggled(false, None)
    ensures r.written.Some? ==> r.ok && writable
    // a readable file is paused or resumed as its lines say
    ensures file.Some? && writable ==> r == (if disable then Pause(file.value) else Resume(file.value))
    // a throwing write reports failure; a toggle that writes nothing is unaffected
    ensures file.Some? && !writable ==>
              var t := if disable then Pause(file.value) else Resume(file.value);
              r == (if t.written.Some? then Toggled(false, None) else t)
  {
    match file
    case None => Toggled(false, None)
    case Some(lines) =>
      var t := if disable then Pause(lines) else Resume(lines);
      if t.written.Some? && !writable then Toggled(false, None) else t
  }

  /** Accepted by the `FirstSetting` scan. */
  predicate Accepts(line: string, onlyTrue: bool) {
    ParseSetting(line).Some? && (onlyTrue ==> ParseSetting(line).value.value)
  }

  /** Settings stay put when lines before them are untouched. */
  lemma FirstSettingPrefix(a: Lines, b: Lines, k: nat, onlyTrue: bool)
    requires k <= |a| && k < |b| && a[..k] == b[..k]
    requires FirstSetting(a, onlyTrue) >= k || FirstSetting(a, onlyTrue) < 0
    requires Accepts(b[k], onlyTrue)
    ensures FirstSetting(b, onlyTrue) == k
  {
    var i := FirstSetting(b, onlyTrue);
    var ia := FirstSetting(a, onlyTrue);
    assert forall j :: 0 <= j < k ==> !Accepts(a[j], onlyTrue);
    assert forall j :: 0 <= j < k ==> b[j] == a[j] by {
      forall j | 0 <= j < k ensures b[j] == a[j] {
        assert b[j] == b[..k][j];
      }
    }
    assert i >= 0 && Accepts(b[i], onlyTrue);
    assert i >= k;
  }

  /** Pausing twice: the second call finds the property already true,
      leaves the file alone and reports failure. */
  lemma PauseTwice(lines: Lines)
    requires Pause(lines).ok
    ensures !Pause(Pause(lines).written.value).ok
    ensures Pause(Pause(lines).written.value).written.None?
  {
    if FirstSetting(lines, false) >= 0 {
      PauseTwiceExisting(lines);
    } else {
      PauseTwiceInserted(lines);
    }
  }

  lemma PauseTwiceExisting(lines: Lines)
    requires Pause(lines).ok && FirstSetting(lines, false) >= 0
    ensures !Pause(Pause(lines).written.value).ok
  {
    var u := Pause(lines).written.value;
    var i := FirstSetting(lines, false);
    var t := ParseSetting(lines[i]).value.(value := true);
    assert u == lines[i := Render(t)];
    RenderParse(t);
    assert u[..i] == lines[..i];
    FirstSettingPrefix(lines, u, i, false);
  }

  lemma PauseTwiceInserted(lines: Lines)
    requires Pause(lines).ok && FirstSetting(lines, false) < 0
    ensures !Pause(Pause(lines).written.value).ok
  {
    var o, t := InsertedLine(lines);
    NoopAfterInsert(lines, Pause(lines).written.value, o, t);
  }

  /** A file that had no setting, once given a `disabled: true` line, is
      left alone by the next pause. */
  lemma NoopAfterInsert(lines: Lines, u: Lines, o: nat, t: Setting)
    requires FirstSetting(lines, false) < 0
    requires o + 1 < |u| && o + 1 <= |lines| && u[..o + 1] == lines[..o + 1] && u[o + 1] == Render(t)
    requires t.value && forall i :: 0 <= i < |t.indent| ==> IsSpace(t.indent[i])
    ensures !Pause(u).ok
  {
    InsertedFirst(lines, u, o, t);
    PauseNoop(u, o + 1, t);
  }

  lemma InsertedFirst(lines: Lines, u: Lines, o: nat, t: Setting)
    requires FirstSetting(lines, false) < 0
    requires o + 1 < |u| && o + 1 <= |lines| && u[..o + 1] == lines[..o + 1] && u[o + 1] == Render(t)
    requires forall i :: 0 <= i < |t.indent| ==> IsSpace(t.indent[i])
    ensures FirstSetting(u, false) == o + 1 && ParseSetting(u[o + 1]) == Some(t)
  {
    RenderParse(t);
    assert Accepts(u[o + 1], false);
    FirstSettingPrefix(lines, u, o + 1, false);
  }

  /** Where a successful insertion put the new `disabled: true,` line. */
  lemma InsertedLine(lines: Lines) returns (o: nat, t: Setting)
    requires Pause(lines).ok && FirstSetting(lines, false) < 0
    ensures var u := Pause(lines).written.value;
            o + 1 < |u| && o + 1 <= |lines| && u[..o + 1] == lines[..o + 1] && u[o + 1] == Render(t)
    ensures t.value && forall i :: 0 <= i < |t.indent| ==> IsSpace(t.indent[i])
  {
    PauseInserts(lines);
    o, t := InsertFacts(lines, InsertionAnchor(lines));
  }

  lemma PauseInserts(lines: Lines)
    requires Pause(lines).ok && FirstSetting(lines, false) < 0
    ensures Insert(lines, InsertionAnchor(lines)).Some?
    ensures Pause(lines).written == Insert(lines, InsertionAnchor(lines))
    ensures var a := InsertionAnchor(lines); |a| > 0 && !IsSpace(a[0])
  {
    var a := InsertionAnchor(lines);
    assert a[0] == 'd' || a[0] == 'n';
  }

  lemma InsertFacts(lines: Lines, anchor: string) returns (o: nat, t: Setting)
    requires Insert(lines, anchor).Some?
    ensures var u := Insert(lines, anchor).value;
            o + 1 < |u| && o + 1 <= |lines| && u[..o + 1] == lines[..o + 1] && u[o + 1] == Render(t)
    ensures t.value && forall i :: 0 <= i < |t.indent| ==> IsSpace(t.indent[i])
  {
    var u := Insert(lines, anchor).value;
    o := FirstMatch(lines, 0, anchor);
    var ind := Indent(lines[o + 1]);
    t := Setting(ind, true, ",");
    assert u[o + 1] == Render(t);
  }

  /** Pausing does nothing when the first setting already says `true`. */
  lemma PauseNoop(u: Lines, k: int, t: Setting)
    requires FirstSetting(u, false) == k && k >= 0
    requires t.value && ParseSetting(u[k]) == Some(t) && u[k] == Render(t)
    ensures !Pause(u).ok
  {
    assert t.(value := true) == t;
    assert u[k := Render(t)] == u;
  }

  /** `u` holds `disabled: true,` at line `o + 1`, at the indentation of
      line `o + 1` of `lines`, as its first setting, with the anchor
      property two lines below it; resuming `u` turns exactly that line to
      `disabled: false,` and keeps every other line. */
  predicate PausedAt(lines: Lines, u: Lines, o: nat, anchor: string) {
    && o + 1 < |lines| && o + 3 < |u|
    && var ind := Indent(lines[o + 1]);
       && FirstSetting(u, false) == o + 1
       && ParseSetting(u[o + 1]) == Some(Setting(ind, true, ","))
       && IsAnchor(u[o + 3], anchor)
       && Resume(u).written == Some(u[o + 1 := Render(Setting(ind, false, ","))])
  }

  /** Pausing a file with no `disabled:` line writes the insertion, right
      after the opener, and resuming the written file undoes only the new
      line's value. */
  lemma PauseInsertThenResume(lines: Lines)
    requires FirstSetting(lines, false) < 0 && Pause(lines).ok
    ensures Pause(lines).written == Insert(lines, InsertionAnchor(lines))
    ensures var anchor := InsertionAnchor(lines);
            var o := FirstMatch(lines, 0, anchor);
            0 <= o && PausedAt(lines, Insert(lines, anchor).value, o, anchor)
  {
    var anchor := InsertionAnchor(lines);
    PauseInserts(lines);
    InsertThenResume(lines, anchor);
  }

  /** The same for an insertion at any anchor that starts with a
      non-space character. */
  lemma InsertThenResume(lines: Lines, anchor: string)
    requires FirstSetting(lines, false) < 0 && Insert(lines, anchor).Some?
    requires |anchor| > 0 && !IsSpace(anchor[0])
    ensures var o := FirstMatch(lines, 0, anchor);
            0 <= o && PausedAt(lines, Insert(lines, anchor).value, o, anchor)
  {
    var o := FirstMatch(lines, 0, anchor);
    var d := MatchAt(lines, o, anchor);
    RewrittenThenResume(lines, Insert(lines, anchor).value, o, d, anchor);
  }

  /** The same for any list rewritten at an opener whose anchor line is
      `d` lines below it. */
  lemma RewrittenThenResume(lines: Lines, u: Lines, o: nat, d: nat, anchor: string)
    requires FirstSetting(lines, false) < 0 && Rewritten(lines, u, o, d)
    requires IsAnchor(lines[o + d], anchor) && |anchor| > 0 && !IsSpace(anchor[0])
    ensures PausedAt(lines, u, o, anchor)
  {
    AnchorReindented(lines[o + d], lines[o + 1], anchor);
    InsertedIsFirst(lines, u, o, Setting(Indent(lines[o + 1]), true, ","));
  }

  /** The inserted `disabled: true` line is the first setting of either
      kind, so a resume rewrites it. */
  lemma InsertedIsFirst(lines: Lines, u: Lines, o: nat, t: Setting)
    requires FirstSetting(lines, false) < 0
    requires o + 1 < |u| && o + 1 <= |lines| && u[..o + 1] == lines[..o + 1] && u[o + 1] == Render(t)
    requires t.value && forall i :: 0 <= i < |t.indent| ==> IsSpace(t.indent[i])
    ensures FirstSetting(u, false) == o + 1 && ParseSetting(u[o + 1]) == Some(t)
    ensures Resume(u).written == Some(u[o + 1 := Render(t.(value := false))])
  {
    InsertedFirst(lines, u, o, t);
    assert FirstSetting(lines, true) < 0 by {
      if FirstSetting(lines, true) >= 0 {
        assert Accepts(lines[FirstSetting(lines, true)], false);
      }
    }
    FirstSettingPrefix(lines, u, o + 1, true);
  }

  /** The anchor line moved to the indentation of another line is still
      the anchor. */
  lemma AnchorReindented(line: string, other: string, anchor: string)
    requires IsAnchor(line, anchor) && |anchor| > 0 && !IsSpace(anchor[0])
    ensures IsAnchor(Indent(other) + Unindented(line), anchor)
  {
    var ind := Indent(other);
    var body := Unindented(line);
    assert body[0] == anchor[0];
    LeadingSpaceOf(ind, body);
    assert (ind + body)[|ind|..] == body;
  }

  /** Pausing a file that has a `disabled:` line and then resuming it
      leaves that line saying `disabled: false` and every other line as it
      was. */
  lemma PauseThenResume(lines: Lines)
    requires FirstSetting(lines, false) >= 0
    ensures var i := FirstSetting(lines, false);
            var s := ParseSetting(lines[i]).value;
            var paused := if Pause(lines).ok then Pause(lines).written.value else lines;
            var resumed := Resume(paused).written;
            resumed.Some? && resumed.value == lines[i := Render(s.(value := false))]
  {
    var i := FirstSetting(lines, false);
    var s := ParseSetting(lines[i]).value;
    PausedExisting(lines, i, s);
    ResumeAfterPause(lines, i, s);
  }

  /** Pausing a file with a setting leaves it with that setting `true`. */
  lemma PausedExisting(lines: Lines, i: int, s: Setting)
    requires i == FirstSetting(lines, false) && i >= 0 && s == ParseSetting(lines[i]).value
    ensures (if Pause(lines).ok then Pause(lines).written.value else lines) == lines[i := Render(s.(value := true))]
  {
    if !Pause(lines).ok {
      assert Render(s.(value := true)) == lines[i];
    }
  }

  lemma ResumeAfterPause(lines: Lines, i: int, s: Setting)
    requires i == FirstSetting(lines, false) && i >= 0 && s == ParseSetting(lines[i]).value
    ensures var paused := lines[i := Render(s.(value := true))];
            Resume(paused).written == Some(lines[i := Render(s.(value := false))])
  {
    var t := s.(value := true);
    var paused := lines[i := Render(t)];
    PausedFirstTrue(lines, i, t);
    ResumeAt(paused, i, t);
    assert paused[i := Render(t.(value := false))] == lines[i := Render(s.(value := false))];
  }

  /** After the pause, the rewritten line is the first `true` setting. */
  lemma PausedFirstTrue(lines: Lines, i: int, t: Setting)
    requires i == FirstSetting(lines, false) && i >= 0 && t == ParseSetting(lines[i]).value.(value := true)
    ensures FirstSetting(lines[i := Render(t)], true) == i
    ensures ParseSetting(lines[i := Render(t)][i]) == Some(t)
  {
    var paused := lines[i := Render(t)];
    RenderParse(t);
    NoEarlierTrue(lines, i);
    assert paused[..i] == lines[..i];
    assert Accepts(paused[i], true);
    FirstSettingPrefix(lines, paused, i, true);
  }

  /** Resuming rewrites the first `true` setting and nothing else. */
  lemma ResumeAt(u: Lines, i: int, t: Setting)
    requires FirstSetting(u, true) == i && i >= 0 && ParseSetting(u[i]) == Some(t)
    ensures Resume(u).written == Some(u[i := Render(t.(value := false))])
  {
    var w := Resume(u).written.value;
    assert |w| == |u| && w[i] == Render(t.(value := false));
    assert forall j :: 0 <= j < |u| && j != i ==> w[j] == u[j];
  }

  /** No `true` setting precedes the first setting. */
  lemma NoEarlierTrue(lines: Lines, i: int)
    requires i == FirstSetting(lines, false) && i >= 0
    ensures FirstSetting(lines, true) >= i || FirstSetting(lines, true) < 0
  {
    var j := FirstSetting(lines, true);
    if 0 <= j < i {
      assert Accepts(lines[j], false);
      assert false;
    }
  }

  /** `toggleBothCommandVersions`: the two trees, the files as read, and
      the files whose write would throw. */
  datatype Project = Project(root: string, commands: Option<seq<FileTree.Node>>,
                             messages: Option<seq<FileTree.Node>>, files: map<string, Lines>,
                             unwritable: set<string>)

  /** The outcome: the return value and the writes, in order. */
  datatype BothToggled = BothToggled(ok: bool, writes: seq<(string, Lines)>)

  function Read(files: map<string, Lines>, path: string): Option<Lines> {
    if path in files then Some(files[path]) else None
  }

  /** Toggling one file of the project as it stands. */
  function ToggleIn(proj: Project, files: map<string, Lines>, path: string, disable: bool): Toggled {
    ToggleState(Read(files, path), disable, path !in proj.unwritable)
  }

  /** The namesake in the other tree: a file under `/commands/` is paired
      with the same-named file below `src/messages`, one under
      `/messages/` with the same-named file below `src/commands`. */
  function Counterpart(proj: Project, path: string): (m: Option<string>)
    ensures !Contains(path, "/commands/") && !Contains(path, "/messages/") ==> m.None?
    ensures Contains(path, "/commands/") ==>
              m == FileTree.FindMatching(BasenameWithout(path, ".js"), proj.root + "/src/messages", proj.messages)
    ensures !Contains(path, "/commands/") && Contains(path, "/messages/") ==>
              m == FileTree.FindMatching(BasenameWithout(path, ".js"), proj.root + "/src/commands", proj.commands)
  {
    var name := BasenameWithout(path, ".js");
    if Contains(path, "/commands/") then FileTree.FindMatching(name, proj.root + "/src/messages", proj.messages)
    else if Contains(path, "/messages/") then FileTree.FindMatching(name, proj.root + "/src/commands", proj.commands)
    else None
  }

  /** Toggle `path`, then its namesake under the other tree when `path`
      lies under a `/commands/` or `/messages/` directory. */
  function ToggleBoth(proj: Project, path: string, disable: bool): (r: BothToggled)
    ensures |r.writes| <= 2
    // the file's own toggle comes first
    ensures var first := ToggleIn(proj, proj.files, path, disable);
            first.written.Some? ==> |r.writes| > 0 && r.writes[0] == (path, first.written.value)
    // the result is the conjunction of the toggles attempted, and the
    // namesake is toggled on the files as the first write left them
    ensures var first := ToggleIn(proj, proj.files, path, disable);
            var files1 := if first.written.Some? then proj.files[path := first.written.value] else proj.files;
            var m := Counterpart(proj, path);
            var writes1 := if first.written.Some? then [(path, first.written.value)] else [];
            && (m.None? ==> r == BothToggled(first.ok, writes1))
            && (m.Some? ==>
                  var second := ToggleIn(proj, files1, m.value, disable);
                  r.ok == (first.ok && second.ok)
                  && r.writes == writes1 + (if second.written.Some? then [(m.value, second.written.value)] else []))
    // only a file under one of the two trees has a counterpart
    ensures !Contains(path, "/commands/") && !Contains(path, "/messages/") ==>
              r.ok == ToggleIn(proj, proj.files, path, disable).ok && forall w :: w in r.writes ==> w.0 == path
  {
    var first := ToggleIn(proj, proj.files, path, disable);
    var writes1 := if first.written.Some? then [(path, first.written.value)] else [];
    var files1 := if first.written.Some? then proj.files[path := first.written.value] else proj.files;
    match Counterpart(proj, path)
    case None => BothToggled(first.ok, writes1)
    case Some(m) =>
      var second := ToggleIn(proj, files1, m, disable);
      BothToggled(first.ok && second.ok, writes1 + (if second.written.Some? then [(m, second.written.value)] else []))
  }

  /** Pausing one version of an enabled command whose namesake is enabled
      too disables both: the file first, then its namesake, each with only
      its setting line changed, and the call succeeds. */
  lemma PauseBothDisablesBoth(proj: Project, path: string, m: string)
    requires Counterpart(proj, path) == Some(m) && m != path
    requires path in proj.files && m in proj.files
    requires path !in proj.unwritable && m !in proj.unwritable
    requires Enabled(proj.files[path]) && Enabled(proj.files[m])
    ensures ToggleBoth(proj, path, true)
            == BothToggled(true, [(path, SetTrue(proj.files[path])), (m, SetTrue(proj.files[m]))])
  {
    PauseEnabled(proj.files[path]);
    PauseEnabled(proj.files[m]);
    var files1 := proj.files[path := SetTrue(proj.files[path])];
    assert Read(files1, m) == Some(proj.files[m]);
  }

  /** The first `disabled:` line says `false`. */
  predicate Enabled(lines: Lines) {
    FirstSetting(lines, false) >= 0 && !ParseSetting(lines[FirstSetting(lines, false)]).value.value
  }

  /** The lines with their first setting set to `true`. */
  function SetTrue(lines: Lines): Lines
    requires FirstSetting(lines, false) >= 0
  {
    var i := FirstSetting(lines, false);
    lines[i := Render(ParseSetting(lines[i]).value.(value := true))]
  }

  /** Pausing an enabled file succeeds and writes the setting as `true`. */
  lemma PauseEnabled(lines: Lines)
    requires Enabled(lines)
    ensures Pause(lines) == Toggled(true, Some(SetTrue(lines)))
  {
    var i := FirstSetting(lines, false);
    var s := ParseSetting(lines[i]).value;
    var t := s.(value := true);
    RenderParse(t);
    assert Render(t) != lines[i];
  }
}
