/** The keyed collections of the bot (discord.js `Collection`, JavaScript
    `Map`): a finite map that also remembers insertion order, because
    `values()` is iterated in that order. Overwriting a key keeps its
    position; deleting and re-adding moves it to the end. */
module Collection {
  import opened Options

  ghost predicate UniqueKeys<K, V>(c: seq<(K, V)>) {
    forall i, j :: 0 <= i < j < |c| ==> c[i].0 != c[j].0
  }

  type Coll<K, V> = c: seq<(K, V)> | UniqueKeys(c) witness []

  function Empty<K(!new), V>(): (r: Coll<K, V>)
    ensures forall k :: Get(r, k) == None
  {
    []
  }

  /** Position of `k`, or -1 when absent. */
  function IndexOf<K(==), V>(c: seq<(K, V)>, k: K): (i: int)
    ensures -1 <= i < |c|
    ensures i >= 0 ==> c[i].0 == k && forall j :: 0 <= j < i ==> c[j].0 != k
    ensures i == -1 ==> forall j :: 0 <= j < |c| ==> c[j].0 != k
  {
    if |c| == 0 then -1
    else if c[0].0 == k then 0
    else
      var j := IndexOf(c[1..], k);
      if j < 0 then -1 else j + 1
  }

  /** In a collection, the entry at position `j` is what `Get` finds. */
  lemma GetAt<K, V>(c: Coll<K, V>, j: int)
    requires 0 <= j < |c|
    ensures Get(c, c[j].0) == Some(c[j].1)
  {
  }

  /** `Map.prototype.get`. */
  function Get<K(==), V>(c: seq<(K, V)>, k: K): (r: Option<V>)
    ensures r.Some? <==> exists j :: 0 <= j < |c| && c[j].0 == k
  {
    var i := IndexOf(c, k);
    if i < 0 then None else Some(c[i].1)
  }

  /** `Map.prototype.has`. */
  predicate Has<K(==), V>(c: seq<(K, V)>, k: K) {
    IndexOf(c, k) >= 0
  }

  function Keys<K, V>(c: seq<(K, V)>): (r: seq<K>)
    ensures |r| == |c|
    ensures forall i :: 0 <= i < |c| ==> r[i] == c[i].0
  {
    seq(|c|, i requires 0 <= i < |c| => c[i].0)
  }

  /** `Map.prototype.values()`, in insertion order. */
  function Values<K, V>(c: seq<(K, V)>): (r: seq<V>)
    ensures |r| == |c|
    ensures forall i :: 0 <= i < |c| ==> r[i] == c[i].1
  {
    seq(|c|, i requires 0 <= i < |c| => c[i].1)
  }

  /** `Map.prototype.set`: overwrite in place, or append a new key. */
  function Set<K(==,!new), V>(c: Coll<K, V>, k: K, v: V): (r: Coll<K, V>)
    ensures Get(r, k) == Some(v)
    ensures forall k' :: k' != k ==> Get(r, k') == Get(c, k')
    ensures Has(c, k) ==> Keys(r) == Keys(c)
    ensures !Has(c, k) ==> Keys(r) == Keys(c) + [k]
  {
    var i := IndexOf(c, k);
    if i >= 0 then
      var r := c[i := (k, v)];
      assert forall j :: 0 <= j < |r| ==> r[j].0 == c[j].0;
      assert Keys(r) == Keys(c);
      SetOthers(c, r, k);
      GetAt(r, i);
      r
    else
      var r := c + [(k, v)];
      assert Keys(r) == Keys(c) + [k];
      SetOthers(c, r, k);
      GetAt(r, |c|);
      r
  }

  /** Entries other than those under `k` are shared by `c` and `r`. */
  lemma SetOthers<K, V>(c: Coll<K, V>, r: Coll<K, V>, k: K)
    requires forall j :: 0 <= j < |c| && c[j].0 != k ==> c[j] in r
    requires forall j :: 0 <= j < |r| && r[j].0 != k ==> r[j] in c
    ensures forall k' :: k' != k ==> Get(r, k') == Get(c, k')
  {
    forall k' | k' != k ensures Get(r, k') == Get(c, k') {
      if Get(c, k').Some? {
        var i := IndexOf(c, k');
        var j :| 0 <= j < |r| && r[j] == c[i];
        GetAt(r, j);
      }
      if Get(r, k').Some? {
        var i := IndexOf(r, k');
        var j :| 0 <= j < |c| && c[j] == r[i];
        GetAt(c, j);
      }
    }
  }

  /** `Map.prototype.delete`: remove the key if present, keeping the order of
      the others. */
  function Delete<K(==,!new), V>(c: Coll<K, V>, k: K): (r: Coll<K, V>)
    ensures Get(r, k) == None
    ensures forall k' :: k' != k ==> Get(r, k') == Get(c, k')
    ensures !Has(c, k) ==> r == c
    ensures Has(c, k) ==> |r| == |c| - 1
  {
    var i := IndexOf(c, k);
    if i < 0 then c
    else
      RemoveAt(c, i);
      var r: Coll<K, V> := c[..i] + c[i + 1..];
      SetOthers(c, r, k);
      r
  }

  /** Dropping position `i` keeps the keys unique and every other entry. */
  lemma RemoveAt<K, V>(c: Coll<K, V>, i: int)
    requires 0 <= i < |c|
    ensures var r := c[..i] + c[i + 1..];
            && |r| == |c| - 1
            && UniqueKeys(r)
            && (forall j :: 0 <= j < |c| && j != i ==> c[j] in r)
            && (forall j :: 0 <= j < |r| ==> r[j] in c && r[j].0 != c[i].0)
  {
    var r := c[..i] + c[i + 1..];
    assert forall j :: 0 <= j < |r| ==> r[j] == if j < i then c[j] else c[j + 1];
    forall j | 0 <= j < |c| && j != i ensures c[j] in r {
      if j < i { assert r[j] == c[j]; } else { assert r[j - 1] == c[j]; }
    }
  }
}
