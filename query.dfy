/**
 * The pieces of a document-store query the routes use: selecting the
 * documents that match a filter, sorting on a numeric key in descending
 * order (`sort({ createdAt: -1 })`), and the skip/limit window.
 */
module Query {
  import opened Wrappers

  /** `r` is `s` with some elements left out and the rest kept in their order. */
  predicate IsSubsequence<T(==)>(r: seq<T>, s: seq<T>)
    decreases |s|
  {
    r == [] || (s != [] && ((r[0] == s[0] && IsSubsequence(r[1..], s[1..])) || IsSubsequence(r, s[1..])))
  }

  /** The documents of `s` that satisfy `p`, in store order (`find(query)` / `countDocuments(query)`). */
  function Filter<T(!new)>(s: seq<T>, p: T -> bool): (r: seq<T>)
    ensures |r| <= |s|
    ensures IsSubsequence(r, s)
    ensures forall i :: 0 <= i < |r| ==> p(r[i])
    ensures forall x :: x in r <==> x in s && p(x)
    ensures forall x :: multiset(r)[x] == if p(x) then multiset(s)[x] else 0
  {
    if s == [] then []
    else
      assert s == [s[0]] + s[1..];
      assert multiset(s) == multiset{s[0]} + multiset(s[1..]);
      if p(s[0]) then [s[0]] + Filter(s[1..], p) else Filter(s[1..], p)
  }

  /** `findOne(query)`: the first document in store order that satisfies `p`, if any. */
  function FindFirst<T(!new)>(s: seq<T>, p: T -> bool): (r: Option<T>)
    ensures r.Some? ==> r.value in s && p(r.value)
    ensures r.None? <==> forall x :: x in s ==> !p(x)
    ensures r.None? <==> Filter(s, p) == []
    ensures r.Some? ==> r.value == Filter(s, p)[0]
  {
    if s == [] then None
    else if p(s[0]) then Some(s[0])
    else FindFirst(s[1..], p)
  }

  /** `findById(k)` or `findOne({ field: k })`: a document whose `key` is `k`, if any. */
  function FindByKey<T(!new), K(==)>(s: seq<T>, key: T -> K, k: K): (r: Option<T>)
    ensures r.Some? ==> r.value in s && key(r.value) == k
    ensures r.None? <==> forall x :: x in s ==> key(x) != k
  {
    FindFirst(s, (x: T) => key(x) == k)
  }

  /** A stronger filter selects no more documents than a weaker one. */
  lemma {:induction false} FilterCountMonotone<T(!new)>(s: seq<T>, p: T -> bool, q: T -> bool)
    requires forall x :: q(x) ==> p(x)
    ensures |Filter(s, q)| <= |Filter(s, p)|
  {
    if s != [] {
      FilterCountMonotone(s[1..], p, q);
    }
  }

  /** When `p` holds exactly where one of two exclusive filters `q`, `q'` holds, its count is the sum of theirs. */
  lemma {:induction false} FilterCountSplit<T(!new)>(s: seq<T>, p: T -> bool, q: T -> bool, q': T -> bool)
    requires forall x :: p(x) <==> q(x) || q'(x)
    requires forall x :: !(q(x) && q'(x))
    ensures |Filter(s, p)| == |Filter(s, q)| + |Filter(s, q')|
  {
    if s != [] {
      FilterCountSplit(s[1..], p, q, q');
    }
  }

  /** Keys do not increase along `s`: the order `sort({ key: -1 })` produces. */
  predicate NonIncreasing<T>(s: seq<T>, key: T -> int) {
    forall i, j :: 0 <= i < j < |s| ==> key(s[i]) >= key(s[j])
  }

  /** Inserts `x` into a key-descending sequence, before the first element whose key is not greater. */
  function InsertByKey<T>(x: T, s: seq<T>, key: T -> int): (r: seq<T>)
    requires NonIncreasing(s, key)
    ensures |r| == |s| + 1
    ensures multiset(r) == multiset(s) + multiset{x}
    ensures NonIncreasing(r, key)
    ensures r[0] == x || (s != [] && r[0] == s[0])
  {
    if s == [] then [x]
    else if key(x) >= key(s[0]) then
      ConsKeepsNonIncreasing(x, s, key);
      [x] + s
    else
      TailNonIncreasing(s, key);
      var rest := InsertByKey(x, s[1..], key);
      InsertBehindHead(x, s, rest, key);
      [s[0]] + rest
  }

  /** Dropping the head keeps the order. */
  lemma TailNonIncreasing<T>(s: seq<T>, key: T -> int)
    requires s != [] && NonIncreasing(s, key)
    ensures NonIncreasing(s[1..], key)
  {
    var tail := s[1..];
    forall i, j | 0 <= i < j < |tail| ensures key(tail[i]) >= key(tail[j]) {
      assert tail[i] == s[i + 1] && tail[j] == s[j + 1];
    }
  }

  /** The step of `InsertByKey` that keeps the head in front of the insertion into the tail. */
  lemma InsertBehindHead<T>(x: T, s: seq<T>, rest: seq<T>, key: T -> int)
    requires s != [] && NonIncreasing(s, key) && key(x) < key(s[0])
    requires |rest| == |s| && NonIncreasing(rest, key)
    requires multiset(rest) == multiset(s[1..]) + multiset{x}
    requires rest[0] == x || (|s| > 1 && rest[0] == s[1])
    ensures |[s[0]] + rest| == |s| + 1
    ensures multiset([s[0]] + rest) == multiset(s) + multiset{x}
    ensures NonIncreasing([s[0]] + rest, key)
  {
    assert key(s[0]) >= key(rest[0]) by {
      if rest[0] != x {
        assert key(s[0]) >= key(s[1]);
      }
    }
    ConsKeepsNonIncreasing(s[0], rest, key);
    assert s == [s[0]] + s[1..];
    assert multiset(s) == multiset{s[0]} + multiset(s[1..]);
  }

  /** Putting an element with a key no smaller than the head's in front keeps the order. */
  lemma ConsKeepsNonIncreasing<T>(x: T, s: seq<T>, key: T -> int)
    requires NonIncreasing(s, key) && (s != [] ==> key(x) >= key(s[0]))
    ensures NonIncreasing([x] + s, key)
  {
    var r := [x] + s;
    forall i, j | 0 <= i < j < |r| ensures key(r[i]) >= key(r[j]) {
      if i == 0 && j > 1 {
        assert key(s[0]) >= key(s[j - 1]);
      }
    }
  }

  /** `s` sorted by `key`, largest first (an insertion sort). */
  function SortByKeyDesc<T>(s: seq<T>, key: T -> int): (r: seq<T>)
    ensures |r| == |s|
    ensures multiset(r) == multiset(s)
    ensures NonIncreasing(r, key)
  {
    if s == [] then []
    else
      assert s == [s[0]] + s[1..];
      InsertByKey(s[0], SortByKeyDesc(s[1..], key), key)
  }

  /** Sorting keeps exactly the documents it was given. */
  lemma SortSameMembers<T>(s: seq<T>, key: T -> int)
    ensures forall x :: x in SortByKeyDesc(s, key) <==> x in s
  {
    var r := SortByKeyDesc(s, key);
    forall x ensures x in r <==> x in s {
      assert x in r <==> multiset(r)[x] > 0;
      assert x in s <==> multiset(s)[x] > 0;
    }
  }

  /** `skip(skip).limit(limit)`: at most `limit` documents from position `skip` on; a limit of 0 is no limit. */
  function Window<T>(s: seq<T>, skip: nat, limit: nat): (r: seq<T>)
    ensures |r| == if skip >= |s| then 0
                   else if limit == 0 || skip + limit > |s| then |s| - skip
                   else limit
    ensures forall i :: 0 <= i < |r| ==> r[i] == s[skip + i]
  {
    if skip >= |s| then []
    else if limit == 0 || skip + limit > |s| then s[skip..]
    else s[skip..skip + limit]
  }

  /** A window holds only elements of the sequence it is taken from. */
  lemma WindowMembers<T>(s: seq<T>, skip: nat, limit: nat)
    ensures forall x :: x in Window(s, skip, limit) ==> x in s
  {
    var r := Window(s, skip, limit);
    forall x | x in r ensures x in s {
      var i :| 0 <= i < |r| && r[i] == x;
      assert s[skip + i] == x;
    }
  }

  /** A window of a key-descending sequence is key-descending. */
  lemma WindowNonIncreasing<T>(s: seq<T>, skip: nat, limit: nat, key: T -> int)
    requires NonIncreasing(s, key)
    ensures NonIncreasing(Window(s, skip, limit), key)
  {
    var r := Window(s, skip, limit);
    forall i, j | 0 <= i < j < |r| ensures key(r[i]) >= key(r[j]) {
      assert r[i] == s[skip + i] && r[j] == s[skip + j];
    }
  }

  /** Two consecutive pages of size `limit` are the page of size `2 * limit`: pages neither overlap nor leave gaps. */
  lemma ConsecutivePagesTile<T>(s: seq<T>, skip: nat, limit: nat)
    requires limit > 0
    ensures Window(s, skip, limit) + Window(s, skip + limit, limit) == Window(s, skip, 2 * limit)
  {
    var a := Window(s, skip, limit);
    var b := Window(s, skip + limit, limit);
    var c := Window(s, skip, 2 * limit);
    assert |a + b| == |c|;
    forall i | 0 <= i < |c| ensures (a + b)[i] == c[i] {
      if i >= |a| {
        assert |a| == limit;
        assert b[i - limit] == s[skip + i];
      }
    }
  }
}
