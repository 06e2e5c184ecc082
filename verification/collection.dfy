/** The array operations the resolvers are made of, over an immutable
    sequence and a key accessor: `findIndex` and `find` by key equality,
    `filter` by a foreign key, `push` and `splice`. */
module Collection {
  import opened Wrappers

  /** Some element of `s` has key `k`. */
  ghost predicate HasKey<T, K>(s: seq<T>, key: T -> K, k: K) {
    exists i :: 0 <= i < |s| && key(s[i]) == k
  }

  /** No two positions of `s` hold the same key. */
  ghost predicate UniqueKeys<T, K>(s: seq<T>, key: T -> K) {
    forall i, j :: 0 <= i < j < |s| ==> key(s[i]) != key(s[j])
  }

  /** `s'` is `s` with position `i` (and nothing else) holding `x`. */
  ghost predicate ReplacedAt<T>(s: seq<T>, s': seq<T>, i: int, x: T) {
    && 0 <= i < |s|
    && |s'| == |s|
    && s'[i] == x
    && forall j :: 0 <= j < |s| && j != i ==> s'[j] == s[j]
  }

  /** `s'` is `s` without position `i`, the rest in their original order. */
  ghost predicate RemovedAt<T>(s: seq<T>, s': seq<T>, i: int) {
    && 0 <= i < |s|
    && |s'| == |s| - 1
    && (forall j :: 0 <= j < i ==> s'[j] == s[j])
    && (forall j :: i <= j < |s'| ==> s'[j] == s[j + 1])
  }

  /** `r` is obtained from `s` by dropping some elements, keeping the
      relative order of the rest. */
  ghost predicate IsSubsequence<T>(r: seq<T>, s: seq<T>)
    decreases |s|
  {
    if |r| == 0 then true
    else if |s| == 0 then false
    else (r[0] == s[0] && IsSubsequence(r[1..], s[1..])) || IsSubsequence(r, s[1..])
  }

  /** `Array.prototype.findIndex(x => key(x) === k)`: the first position
      whose key is `k`, or -1 when there is none. */
  function FindIndex<T, K(==)>(s: seq<T>, key: T -> K, k: K): (r: int)
    ensures -1 <= r < |s|
    ensures r == -1 <==> !HasKey(s, key, k)
    ensures 0 <= r ==> key(s[r]) == k && forall j :: 0 <= j < r ==> key(s[j]) != k
    decreases |s|
  {
    if |s| == 0 then -1
    else if key(s[0]) == k then 0
    else
      var j := FindIndex(s[1..], key, k);
      if j == -1 then -1 else j + 1
  }

  /** `Array.prototype.find(x => key(x) === k)`: the first element whose key
      is `k`, or `undefined` (`None`). */
  function Find<T, K(==)>(s: seq<T>, key: T -> K, k: K): (r: Option<T>)
    ensures r.None? <==> !HasKey(s, key, k)
    ensures r.Some? ==> r.value in s && key(r.value) == k
    decreases |s|
  {
    if |s| == 0 then None
    else if key(s[0]) == k then Some(s[0])
    else Find(s[1..], key, k)
  }

  /** `Array.prototype.filter(x => fk(x) === k)`: only matching elements,
      in the order of `s`. That it keeps every match, as often as `s` holds
      it, is `SelectContents`. */
  function Select<T(!new), K(==)>(s: seq<T>, fk: T -> K, k: K): (r: seq<T>)
    ensures |r| <= |s|
    ensures forall j :: 0 <= j < |r| ==> fk(r[j]) == k
    ensures IsSubsequence(r, s)
    decreases |s|
  {
    if |s| == 0 then []
    else
      var rest := Select(s[1..], fk, k);
      assert s == [s[0]] + s[1..];
      if fk(s[0]) == k then [s[0]] + rest else rest
  }

  /** The filter keeps every matching element as often as `s` holds it,
      and nothing else. */
  lemma {:induction false} SelectContents<T(!new), K>(s: seq<T>, fk: T -> K, k: K)
    ensures forall x :: multiset(Select(s, fk, k))[x] == if fk(x) == k then multiset(s)[x] else 0
    ensures forall x :: x in Select(s, fk, k) <==> x in s && fk(x) == k
    decreases |s|
  {
    if |s| > 0 {
      SelectContents(s[1..], fk, k);
      assert s == [s[0]] + s[1..];
    }
  }

  function Min(a: int, b: int): int { if a <= b then a else b }

  /** `s.splice(start, deleteCount)` for `0 <= start <= s.length`: the
      array it leaves behind. At most `s.length - start` elements go. */
  function Splice<T>(s: seq<T>, start: nat, deleteCount: nat): (r: seq<T>)
    requires start <= |s|
    ensures |r| == |s| - Min(deleteCount, |s| - start)
    ensures forall j :: 0 <= j < start ==> r[j] == s[j]
    ensures forall j :: start <= j < |r| ==> r[j] == s[j + (|s| - |r|)]
  {
    s[..start] + s[start + Min(deleteCount, |s| - start)..]
  }

  // ---- Lemmas ----

  /** `find` returns the element at the position `findIndex` reports. */
  lemma {:induction false} FindAgreesWithFindIndex<T, K>(s: seq<T>, key: T -> K, k: K)
    ensures Find(s, key, k) == (if FindIndex(s, key, k) == -1 then None else Some(s[FindIndex(s, key, k)]))
    decreases |s|
  {
    if |s| > 0 && key(s[0]) != k {
      FindAgreesWithFindIndex(s[1..], key, k);
    }
  }

  /** With unique keys, the position holding a key is the one `findIndex`
      finds for it. */
  lemma FindIndexOfUniqueKey<T, K>(s: seq<T>, key: T -> K, i: int)
    requires UniqueKeys(s, key)
    requires 0 <= i < |s|
    ensures FindIndex(s, key, key(s[i])) == i
  {
    assert HasKey(s, key, key(s[i]));
  }

  /** With unique keys, looking a key up finds the one element holding it. */
  lemma FindUniqueKey<T, K>(s: seq<T>, key: T -> K, i: int)
    requires UniqueKeys(s, key)
    requires 0 <= i < |s|
    ensures Find(s, key, key(s[i])) == Some(s[i])
  {
    FindIndexOfUniqueKey(s, key, i);
    FindAgreesWithFindIndex(s, key, key(s[i]));
  }

  /** After a `push` of an element whose key is new, looking that key up
      finds the pushed element. */
  lemma FindAfterPush<T, K>(s: seq<T>, key: T -> K, x: T)
    ensures !HasKey(s, key, key(x)) ==> Find(s + [x], key, key(x)) == Some(x)
  {
    var s' := s + [x];
    if !HasKey(s, key, key(x)) {
      forall j | 0 <= j < |s|
        ensures key(s'[j]) != key(x)
      {
        assert s'[j] == s[j];
      }
      assert key(s'[|s|]) == key(x);
      FindAgreesWithFindIndex(s', key, key(x));
    }
  }

  /** `push` of an element whose key is new keeps the keys unique, and the
      new element is what a lookup of its key then finds. */
  lemma PushFreshKey<T, K>(s: seq<T>, key: T -> K, x: T)
    requires UniqueKeys(s, key)
    requires !HasKey(s, key, key(x))
    ensures UniqueKeys(s + [x], key)
    ensures Find(s + [x], key, key(x)) == Some(x)
  {
    var s' := s + [x];
    forall i, j | 0 <= i < j < |s'|
      ensures key(s'[i]) != key(s'[j])
    {
      if j == |s| {
        assert s'[i] == s[i];
      }
    }
    FindAfterPush(s, key, x);
  }

  /** Replacing one element by one with the same key keeps the keys unique. */
  lemma ReplaceSameKey<T, K>(s: seq<T>, s': seq<T>, key: T -> K, i: int, x: T)
    requires UniqueKeys(s, key)
    requires ReplacedAt(s, s', i, x)
    requires key(x) == key(s[i])
    ensures UniqueKeys(s', key)
  {
    forall a, b | 0 <= a < b < |s'|
      ensures key(s'[a]) != key(s'[b])
    {
      assert key(s'[a]) == key(s[a]) && key(s'[b]) == key(s[b]);
    }
  }

  /** Removing one position keeps the keys unique, and with unique keys the
      removed key is gone. */
  lemma RemoveKeepsUnique<T, K>(s: seq<T>, s': seq<T>, key: T -> K, i: int)
    requires UniqueKeys(s, key)
    requires RemovedAt(s, s', i)
    ensures UniqueKeys(s', key)
    ensures !HasKey(s', key, key(s[i]))
  {
    forall a, b | 0 <= a < b < |s'|
      ensures key(s'[a]) != key(s'[b])
    {
      var a' := if a < i then a else a + 1;
      var b' := if b < i then b else b + 1;
      assert s'[a] == s[a'] && s'[b] == s[b'];
    }
    forall j | 0 <= j < |s'|
      ensures key(s'[j]) != key(s[i])
    {
      var j' := if j < i then j else j + 1;
      assert s'[j] == s[j'];
    }
  }

  /** `splice(i, 1)` at a valid position removes exactly that position. */
  lemma SpliceOne<T>(s: seq<T>, i: nat)
    requires i < |s|
    ensures RemovedAt(s, Splice(s, i, 1), i)
    ensures multiset(Splice(s, i, 1)) + multiset{s[i]} == multiset(s)
  {
    var r := Splice(s, i, 1);
    assert r == s[..i] + s[i + 1..];
    assert s == s[..i] + [s[i]] + s[i + 1..];
  }

  /** `splice(0, s.length)` empties the array. */
  lemma SpliceAll<T>(s: seq<T>)
    ensures Splice(s, 0, |s|) == []
  {
  }

  /** Filtering after a `push` is filtering before it, plus the pushed
      element when it matches. */
  lemma {:induction false} SelectPush<T(!new), K>(s: seq<T>, fk: T -> K, k: K, x: T)
    ensures Select(s + [x], fk, k) == Select(s, fk, k) + (if fk(x) == k then [x] else [])
    decreases |s|
  {
    if |s| == 0 {
      assert s + [x] == [x];
    } else {
      assert (s + [x])[1..] == s[1..] + [x];
      SelectPush(s[1..], fk, k, x);
    }
  }

  /** A subsequence of `s` made only of matching elements is no longer than
      the filter of `s`. */
  lemma {:induction false} MatchingSubsequenceBound<T(!new), K>(r: seq<T>, s: seq<T>, fk: T -> K, k: K)
    requires IsSubsequence(r, s)
    requires forall j :: 0 <= j < |r| ==> fk(r[j]) == k
    ensures |r| <= |Select(s, fk, k)|
    decreases |s|
  {
    if |r| == 0 {
    } else if r[0] == s[0] && IsSubsequence(r[1..], s[1..]) {
      MatchingSubsequenceBound(r[1..], s[1..], fk, k);
    } else {
      MatchingSubsequenceBound(r, s[1..], fk, k);
    }
  }

  /** The filter is the ONLY subsequence of `s` that consists of matching
      elements and is as long as the number of matches: the scans return
      exactly the matching elements, in collection order. */
  lemma {:induction false} SelectIsTheMatchingSubsequence<T(!new), K>(r: seq<T>, s: seq<T>, fk: T -> K, k: K)
    requires IsSubsequence(r, s)
    requires forall j :: 0 <= j < |r| ==> fk(r[j]) == k
    requires |r| == |Select(s, fk, k)|
    ensures r == Select(s, fk, k)
    decreases |s|
  {
    if |r| == 0 {
    } else if r[0] == s[0] && IsSubsequence(r[1..], s[1..]) {
      assert fk(r[0]) == k;
      SelectIsTheMatchingSubsequence(r[1..], s[1..], fk, k);
    } else {
      MatchingSubsequenceBound(r, s[1..], fk, k);
      SelectIsTheMatchingSubsequence(r, s[1..], fk, k);
    }
  }
}
