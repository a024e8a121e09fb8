/** Collection queries the document store performs: filtering, first-match lookup,
    maximum id, and removal of one record. Everything keeps store order. */
module Sequences {
  import opened Responses

  /** The elements of s that keep accepts, in store order (a `find` with a filter). */
  function Filter<T(!new)>(s: seq<T>, keep: T -> bool): (r: seq<T>)
    ensures |r| <= |s|
    ensures forall x :: x in r <==> x in s && keep(x)
    ensures forall x :: multiset(r)[x] == if keep(x) then multiset(s)[x] else 0
  {
    if |s| == 0 then []
    else
      assert s == [s[0]] + s[1..];
      var rest := Filter(s[1..], keep);
      if keep(s[0]) then [s[0]] + rest else rest
  }

  /** Two filters that agree on every element of s select the same sequence. */
  lemma {:induction false} FilterAgrees<T(!new)>(s: seq<T>, p: T -> bool, q: T -> bool)
    requires forall x :: x in s ==> p(x) == q(x)
    ensures Filter(s, p) == Filter(s, q)
  {
    if |s| > 0 {
      assert forall x :: x in s[1..] ==> x in s;
      FilterAgrees(s[1..], p, q);
    }
  }

  /** The first element of s satisfying p (a `findOne`). */
  function FindFirst<T(!new)>(s: seq<T>, p: T -> bool): (r: Option<T>)
    ensures r.None? <==> forall x :: x in s ==> !p(x)
    ensures r.Some? ==> r.value in s && p(r.value)
  {
    if |s| == 0 then None
    else if p(s[0]) then Some(s[0])
    else
      assert forall x :: x in s ==> x == s[0] || x in s[1..];
      FindFirst(s[1..], p)
  }

  /** FindFirst returns the element at the earliest position that satisfies p. */
  lemma {:induction false} FindFirstIsEarliest<T(!new)>(s: seq<T>, p: T -> bool, i: nat)
    requires i < |s| && p(s[i])
    requires forall j :: 0 <= j < i ==> !p(s[j])
    ensures FindFirst(s, p) == Some(s[i])
  {
    if i > 0 {
      FindFirstIsEarliest(s[1..], p, i - 1);
    }
  }

  /** The id of every record in s, position by position. */
  function Keys<T>(s: seq<T>, key: T -> int): (ks: seq<int>)
    ensures |ks| == |s|
    ensures forall i :: 0 <= i < |s| ==> ks[i] == key(s[i])
  {
    seq(|s|, i requires 0 <= i < |s| => key(s[i]))
  }

  lemma KeysAppend<T>(s: seq<T>, x: T, key: T -> int)
    ensures Keys(s + [x], key) == Keys(s, key) + [key(x)]
  {
  }

  predicate UniqueIds(ids: seq<int>) {
    forall i, j :: 0 <= i < j < |ids| ==> ids[i] != ids[j]
  }

  /** The position of the first occurrence of id in ids. */
  function FirstIndex(ids: seq<int>, id: int): (r: Option<nat>)
    ensures r.None? <==> id !in ids
    ensures r.Some? ==> r.value < |ids| && ids[r.value] == id
    ensures r.Some? ==> forall j :: 0 <= j < r.value ==> ids[j] != id
  {
    if |ids| == 0 then None
    else if ids[0] == id then Some(0)
    else
      match FirstIndex(ids[1..], id)
      case None => None
      case Some(k) => Some(k + 1)
  }

  /** The largest id (the record `findOne().sort({ id: -1 })` returns). */
  function MaxId(ids: seq<int>): (m: int)
    requires |ids| > 0
    ensures m in ids
    ensures forall i :: 0 <= i < |ids| ==> ids[i] <= m
  {
    if |ids| == 1 then ids[0]
    else
      var rest := MaxId(ids[1..]);
      if ids[0] >= rest then ids[0] else rest
  }

  /** The id given to a new record: the largest existing id plus one, or 1 when there is none. */
  function NextId(ids: seq<int>): (r: int)
    ensures forall i :: 0 <= i < |ids| ==> ids[i] < r
    ensures |ids| == 0 ==> r == 1
    ensures |ids| > 0 ==> r - 1 in ids
  {
    if |ids| == 0 then 1 else MaxId(ids) + 1
  }

  /** Appending the next id keeps ids unique. */
  lemma NextIdKeepsUnique(ids: seq<int>)
    requires UniqueIds(ids)
    ensures UniqueIds(ids + [NextId(ids)])
  {
  }

  /** Records created one after another from an empty collection get 1, 2, ..., n. */
  lemma NextIdAfterSequential(ids: seq<int>)
    requires forall i :: 0 <= i < |ids| ==> ids[i] == i + 1
    ensures NextId(ids) == |ids| + 1
  {
    if |ids| > 0 {
      var r := NextId(ids);
      assert ids[|ids| - 1] < r;
      var k :| 0 <= k < |ids| && ids[k] == r - 1;
    }
  }

  /** s without its element at position i. */
  function RemoveAt<T>(s: seq<T>, i: nat): (r: seq<T>)
    requires i < |s|
    ensures |r| == |s| - 1
    ensures forall k :: 0 <= k < i ==> r[k] == s[k]
    ensures forall k :: i <= k < |r| ==> r[k] == s[k + 1]
    ensures multiset(r) == multiset(s) - multiset{s[i]}
  {
    assert s == s[..i] + [s[i]] + s[i + 1..];
    s[..i] + s[i + 1..]
  }

  /** s without the first record whose id is id (a `findOneAndDelete`); s itself when none has it. */
  function RemoveFirst<T(!new)>(s: seq<T>, key: T -> int, id: int): (r: seq<T>)
    ensures id !in Keys(s, key) ==> r == s
    ensures id in Keys(s, key) ==> |r| == |s| - 1
    ensures UniqueIds(Keys(s, key)) ==> UniqueIds(Keys(r, key)) && id !in Keys(r, key)
    ensures UniqueIds(Keys(s, key)) ==> forall x :: x in r <==> x in s && key(x) != id
  {
    match FirstIndex(Keys(s, key), id)
    case None => s
    case Some(i) =>
      var r := RemoveAt(s, i);
      if UniqueIds(Keys(s, key)) then
        RemoveAtKeepsUnique(s, key, i);
        RemoveAtMembers(s, key, i);
        r
      else r
  }

  /** Removing one record from unique ids keeps them unique and drops the removed id. */
  lemma RemoveAtKeepsUnique<T>(s: seq<T>, key: T -> int, i: nat)
    requires i < |s| && UniqueIds(Keys(s, key))
    ensures UniqueIds(Keys(RemoveAt(s, i), key))
    ensures key(s[i]) !in Keys(RemoveAt(s, i), key)
  {
    var r := RemoveAt(s, i);
    // position k of r holds the element at position k or k + 1 of s
    forall a, b | 0 <= a < b < |r| ensures key(r[a]) != key(r[b]) {
      var a' := if a < i then a else a + 1;
      var b' := if b < i then b else b + 1;
      assert r[a] == s[a'] && r[b] == s[b'];
    }
    forall k | 0 <= k < |r| ensures key(r[k]) != key(s[i]) {
      var k' := if k < i then k else k + 1;
      assert r[k] == s[k'];
    }
  }

  /** With unique ids, the records left are exactly those with another id. */
  lemma RemoveAtMembers<T(!new)>(s: seq<T>, key: T -> int, i: nat)
    requires i < |s| && UniqueIds(Keys(s, key))
    ensures forall x :: x in RemoveAt(s, i) <==> x in s && key(x) != key(s[i])
  {
    var r := RemoveAt(s, i);
    forall x ensures x in r <==> x in s && key(x) != key(s[i]) {
      if x in r {
        var k :| 0 <= k < |r| && r[k] == x;
        var k' := if k < i then k else k + 1;
        assert r[k] == s[k'];
      }
      if x in s && key(x) != key(s[i]) {
        var k' :| 0 <= k' < |s| && s[k'] == x;
        assert k' != i;
        var k := if k' < i then k' else k' - 1;
        assert r[k] == x;
      }
    }
  }
}
