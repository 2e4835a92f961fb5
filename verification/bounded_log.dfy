/** The two bounded activity lists of the bot. The command loader appends
    and drops one entry from the front (`push` + `shift`); the file activity
    tracker prepends and keeps the first entries (`unshift` + `slice`). Both
    keep at most 100 entries and forget the oldest first. */
module BoundedLog {

  /** The capacity both lists use. */
  const Capacity: nat := 100

  /** The last `n` elements of `s` (all of them when there are fewer). */
  function LastN<T>(s: seq<T>, n: nat): (r: seq<T>)
    ensures |r| == if |s| < n then |s| else n
  {
    if |s| <= n then s else s[|s| - n..]
  }

  /** Oldest-first append: push `e`, then shift once if over capacity. */
  function Append<T>(log: seq<T>, e: T, cap: nat): (r: seq<T>)
    requires |log| <= cap
    ensures |r| <= cap
    ensures cap > 0 ==> |r| > 0 && r[|r| - 1] == e
    ensures r == LastN(log + [e], cap)
  {
    var l := log + [e];
    if |l| > cap then l[1..] else l
  }

  /** Appending a batch keeps exactly the newest `cap` of all entries seen. */
  function AppendAll<T>(log: seq<T>, es: seq<T>, cap: nat): (r: seq<T>)
    requires |log| <= cap
    ensures |r| <= cap
    decreases |es|
  {
    if |es| == 0 then log else AppendAll(Append(log, es[0], cap), es[1..], cap)
  }

  lemma {:induction false} AppendAllKeepsNewest<T>(log: seq<T>, es: seq<T>, cap: nat)
    requires |log| <= cap
    ensures AppendAll(log, es, cap) == LastN(log + es, cap)
    decreases |es|
  {
    if |es| > 0 {
      var l1 := Append(log, es[0], cap);
      AppendAllKeepsNewest(l1, es[1..], cap);
      assert es == [es[0]] + es[1..];
      LastNOfLastN(log + [es[0]], es[1..], cap);
      assert (log + [es[0]]) + es[1..] == log + es;
    }
  }

  lemma LastNOfLastN<T>(a: seq<T>, b: seq<T>, n: nat)
    ensures LastN(LastN(a, n) + b, n) == LastN(a + b, n)
  {
    if |a| > n {
      var a' := a[|a| - n..];
      assert a + b == a[..|a| - n] + (a' + b);
    }
  }

  /** Newest-first insert: unshift `e`, then keep the first `cap` entries. */
  function Prepend<T>(log: seq<T>, e: T, cap: nat): (r: seq<T>)
    ensures |r| <= cap || |r| == |log| + 1
    ensures |log| <= cap ==> |r| <= cap
    ensures cap > 0 ==> |r| > 0 && r[0] == e
    ensures r == ([e] + log)[..if |log| + 1 > cap then cap else |log| + 1]
  {
    var l := [e] + log;
    if |l| > cap then l[..cap] else l
  }

  function Reverse<T>(s: seq<T>): (r: seq<T>)
    ensures |r| == |s|
  {
    if |s| == 0 then [] else Reverse(s[1..]) + [s[0]]
  }

  /** Prepending a batch one at a time. */
  function PrependAll<T>(log: seq<T>, es: seq<T>, cap: nat): seq<T>
    decreases |es|
  {
    if |es| == 0 then log else PrependAll(Prepend(log, es[0], cap), es[1..], cap)
  }

  /** The newest-first list is the first `cap` of all entries, newest first. */
  lemma {:induction false} PrependAllKeepsNewest<T>(log: seq<T>, es: seq<T>, cap: nat)
    requires |log| <= cap
    ensures PrependAll(log, es, cap) == FirstN(Reverse(es) + log, cap)
    decreases |es|
  {
    if |es| > 0 {
      var l1 := Prepend(log, es[0], cap);
      PrependAllKeepsNewest(l1, es[1..], cap);
      assert Reverse(es) == Reverse(es[1..]) + [es[0]];
      FirstNOfFirstN(Reverse(es[1..]), [es[0]] + log, cap);
      assert Reverse(es[1..]) + ([es[0]] + log) == Reverse(es) + log;
    }
  }

  function FirstN<T>(s: seq<T>, n: nat): (r: seq<T>)
    ensures |r| == if |s| < n then |s| else n
  {
    if |s| <= n then s else s[..n]
  }

  lemma FirstNOfFirstN<T>(a: seq<T>, b: seq<T>, n: nat)
    ensures FirstN(a + FirstN(b, n), n) == FirstN(a + b, n)
  {
    if |b| > n {
      assert a + b == (a + b[..n]) + b[n..];
    }
  }
}
