/** String and path helpers shared by the model. Strings are sequences of
    characters; paths use `/` as the only separator. */
module Text {

  predicate StartsWith(s: string, p: string) {
    |p| <= |s| && s[..|p|] == p
  }

  predicate EndsWith(s: string, p: string) {
    |p| <= |s| && s[|s| - |p|..] == p
  }

  /** JavaScript's `s.includes(sub)`. */
  predicate Contains(s: string, sub: string)
    decreases |s|
  {
    StartsWith(s, sub) || (|s| > 0 && Contains(s[1..], sub))
  }

  /** The occurrence-based reading of `Contains`. */
  ghost predicate OccursAt(s: string, sub: string, k: int) {
    0 <= k && k + |sub| <= |s| && s[k..k + |sub|] == sub
  }

  lemma {:induction false} OccursImpliesContains(s: string, sub: string, k: int)
    requires OccursAt(s, sub, k)
    ensures Contains(s, sub)
    decreases k
  {
    if k == 0 {
      assert s[..|sub|] == sub;
    } else {
      assert s[1..][k - 1..k - 1 + |sub|] == s[k..k + |sub|];
      OccursImpliesContains(s[1..], sub, k - 1);
    }
  }

  lemma {:induction false} ContainsImpliesOccurs(s: string, sub: string) returns (k: int)
    requires Contains(s, sub)
    ensures OccursAt(s, sub, k)
    decreases |s|
  {
    if StartsWith(s, sub) {
      k := 0;
    } else {
      var j := ContainsImpliesOccurs(s[1..], sub);
      assert s[j + 1..j + 1 + |sub|] == s[1..][j..j + |sub|];
      k := j + 1;
    }
  }

  lemma ContainsIffOccurs(s: string, sub: string)
    ensures Contains(s, sub) <==> exists k :: OccursAt(s, sub, k)
  {
    if Contains(s, sub) {
      var k := ContainsImpliesOccurs(s, sub);
    }
    forall k | OccursAt(s, sub, k) ensures Contains(s, sub) {
      OccursImpliesContains(s, sub, k);
    }
  }

  /** Whitespace removed by JavaScript's `trim` (the ASCII subset). */
  predicate IsSpace(c: char) {
    c == ' ' || c == '\t' || c == '\n' || c == '\r' || c == '\U{000B}' || c == '\U{000C}'
  }

  function TrimStart(s: string): (r: string)
    ensures EndsWith(s, r)
    ensures |r| > 0 ==> !IsSpace(r[0])
    ensures forall i :: 0 <= i < |s| - |r| ==> IsSpace(s[i])
  {
    if |s| > 0 && IsSpace(s[0]) then TrimStart(s[1..]) else s
  }

  function TrimEnd(s: string): (r: string)
    ensures StartsWith(s, r)
    ensures |r| > 0 ==> !IsSpace(r[|r| - 1])
    ensures forall i :: |r| <= i < |s| ==> IsSpace(s[i])
  {
    if |s| > 0 && IsSpace(s[|s| - 1]) then TrimEnd(s[..|s| - 1]) else s
  }

  /** JavaScript's `s.trim()`. */
  function Trim(s: string): string {
    TrimEnd(TrimStart(s))
  }

  lemma TrimUnchanged(s: string)
    requires |s| > 0 ==> !IsSpace(s[0]) && !IsSpace(s[|s| - 1])
    ensures Trim(s) == s
  {
  }

  function LowerChar(c: char): (d: char)
    ensures 'A' <= c <= 'Z' ==> d as int == c as int + 32
    ensures !('A' <= c <= 'Z') ==> d == c
  {
    if 'A' <= c <= 'Z' then (c as int + 32) as char else c
  }

  /** JavaScript's `toLowerCase`, restricted to the ASCII letters. */
  function ToLower(s: string): (r: string)
    ensures |r| == |s|
    ensures forall i :: 0 <= i < |s| ==> r[i] == LowerChar(s[i])
  {
    seq(|s|, i requires 0 <= i < |s| => LowerChar(s[i]))
  }

  /** Index of the first `c` in `s`, or -1. */
  function IndexOfChar(s: string, c: char): (i: int)
    ensures -1 <= i < |s|
    ensures i >= 0 ==> s[i] == c && c !in s[..i]
    ensures i == -1 ==> c !in s
  {
    if |s| == 0 then -1
    else if s[0] == c then 0
    else
      var j := IndexOfChar(s[1..], c);
      if j < 0 then -1 else j + 1
  }

  function DropSpaces(s: string): (r: string)
    ensures EndsWith(s, r)
    ensures |r| > 0 ==> r[0] != ' '
    ensures forall i :: 0 <= i < |s| - |r| ==> s[i] == ' '
  {
    if |s| > 0 && s[0] == ' ' then DropSpaces(s[1..]) else s
  }

  /** JavaScript's `s.split(/ +/)`: the pieces between maximal runs of spaces. */
  function SplitSpaces(s: string): (r: seq<string>)
    ensures |r| >= 1
    ensures forall t :: t in r ==> ' ' !in t
    decreases |s|
  {
    var i := IndexOfChar(s, ' ');
    if i < 0 then [s]
    else [s[..i]] + SplitSpaces(DropSpaces(s[i..]))
  }

  /** JavaScript's `parts.join(sep)`. */
  function Join(parts: seq<string>, sep: string): string {
    if |parts| == 0 then ""
    else if |parts| == 1 then parts[0]
    else parts[0] + sep + Join(parts[1..], sep)
  }

  /** Splitting undoes joining with single spaces when no piece is empty or
      holds a space. */
  lemma {:induction false} SplitJoinRoundTrip(ts: seq<string>)
    requires |ts| >= 1
    requires forall t :: t in ts ==> t != "" && ' ' !in t
    ensures SplitSpaces(Join(ts, " ")) == ts
  {
    if |ts| == 1 {
      assert ts[0] in ts;
      assert IndexOfChar(ts[0], ' ') == -1;
      assert ts == [ts[0]];
    } else {
      var rest := Join(ts[1..], " ");
      assert Join(ts, " ") == ts[0] + (" " + rest);
      assert ts[0] in ts;
      forall t | t in ts[1..] ensures t != "" && ' ' !in t {
        assert t in ts;
      }
      SplitJoinRoundTrip(ts[1..]);
      JoinHeadNoSpace(ts[1..]);
      SplitStep(ts[0], rest);
      assert ts == [ts[0]] + ts[1..];
    }
  }

  /** One split step: a space-free piece, one space, then text that does
      not start with a space. */
  lemma SplitStep(a: string, rest: string)
    requires ' ' !in a
    requires |rest| > 0 && rest[0] != ' '
    ensures SplitSpaces(a + (" " + rest)) == [a] + SplitSpaces(rest)
  {
    var s := a + (" " + rest);
    IndexOfConcat(a, " " + rest);
    SplitUnfold(s, |a|);
    DropOneSpace(rest);
  }

  lemma SplitUnfold(s: string, i: int)
    requires IndexOfChar(s, ' ') == i && i >= 0
    ensures SplitSpaces(s) == [s[..i]] + SplitSpaces(DropSpaces(s[i..]))
  {
  }

  lemma DropOneSpace(rest: string)
    requires |rest| > 0 && rest[0] != ' '
    ensures DropSpaces(" " + rest) == rest
  {
    assert (" " + rest)[1..] == rest;
  }

  lemma {:induction false} IndexOfConcat(a: string, b: string)
    requires ' ' !in a && |b| > 0 && b[0] == ' '
    ensures IndexOfChar(a + b, ' ') == |a|
    decreases |a|
  {
    if |a| > 0 {
      assert (a + b)[0] == a[0] != ' ';
      assert (a + b)[1..] == a[1..] + b;
      assert a == [a[0]] + a[1..];
      IndexOfConcat(a[1..], b);
    } else {
      assert a + b == b;
    }
  }

  lemma JoinHeadNoSpace(ts: seq<string>)
    requires |ts| >= 1
    requires forall t :: t in ts ==> t != "" && ' ' !in t
    ensures |Join(ts, " ")| > 0 && Join(ts, " ")[0] != ' '
  {
    if |ts| > 1 {
      assert Join(ts, " ") == ts[0] + " " + Join(ts[1..], " ");
      assert ts[0] in ts;
    } else {
      assert ts[0] in ts;
    }
  }

  /** The last `/`-separated component of a path (Node's `path.basename`
      without a suffix argument). */
  function Basename(p: string): (b: string)
    ensures EndsWith(p, b)
    ensures '/' !in b
    ensures '/' !in p ==> b == p
  {
    if |p| == 0 || p[|p| - 1] == '/' then ""
    else Basename(p[..|p| - 1]) + [p[|p| - 1]]
  }

  /** Removes `ext` from the end of a file name when it is a proper suffix. */
  function StripSuffix(b: string, ext: string): (r: string)
    ensures EndsWith(b, ext) && b != ext ==> r + ext == b
    ensures !(EndsWith(b, ext) && b != ext) ==> r == b
  {
    if EndsWith(b, ext) && b != ext then b[..|b| - |ext|] else b
  }

  /** Node's `path.basename(p, ext)`. */
  function BasenameWithout(p: string, ext: string): string {
    StripSuffix(Basename(p), ext)
  }

  /** Node's `path.join(dir, name)` when `name` is a plain segment and
      `dir` is normalised; Node would also normalise the result, which is
      not modelled. */
  function JoinPath(dir: string, name: string): string {
    dir + "/" + name
  }

  /** A path segment `path.join` leaves as it is: non-empty, no separator,
      and neither `.` nor `..`. */
  predicate PlainSegment(s: string) {
    s != "" && s != "." && s != ".." && '/' !in s
  }

  /** Node's `path.relative(base, p)` when `p` lies under `base`; any other
      path is returned as given. */
  function Relative(base: string, p: string): (r: string)
    ensures StartsWith(p, base + "/") ==> base + "/" + r == p
  {
    if StartsWith(p, base + "/") then p[|base| + 1..] else p
  }
}
