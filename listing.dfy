/** The listing order of the two collections: MongoDB's
    `find({}).sort(key, -1).to_list(cap)`, newest first and at most `cap`
    records. MongoDB leaves the order of equal keys unspecified; the model
    fixes one (an insertion sort), and every property below holds for any
    order of equal keys. */
module Listing {
  import opened Text

  /** Keys never increase from left to right. */
  predicate SortedDesc<T>(s: seq<T>, key: T -> string) {
    forall i, j :: 0 <= i < j < |s| ==> LexLe(key(s[j]), key(s[i]))
  }

  /** `x` placed before the first element whose key is not above its own. */
  function Insert<T>(x: T, s: seq<T>, key: T -> string): (r: seq<T>)
    requires SortedDesc(s, key)
    ensures multiset(r) == multiset(s) + multiset{x}
    ensures SortedDesc(r, key)
  {
    if s == [] then [x]
    else if LexLe(key(s[0]), key(x)) then
      InsertFront(x, s, key);
      [x] + s
    else
      var rest := Insert(x, s[1..], key);
      LexLeTotal(key(s[0]), key(x));
      assert s == [s[0]] + s[1..];
      InsertBehind(s[0], rest, x, s[1..], key);
      [s[0]] + rest
  }

  lemma {:induction false} InsertFront<T>(x: T, s: seq<T>, key: T -> string)
    requires s != [] && SortedDesc(s, key) && LexLe(key(s[0]), key(x))
    ensures SortedDesc([x] + s, key)
  {
    forall j | 1 <= j < |s| + 1
      ensures LexLe(key(([x] + s)[j]), key(x))
    {
      if j > 1 {
        LexLeTransitive(key(s[j - 1]), key(s[0]), key(x));
      }
    }
  }

  lemma {:induction false} InsertBehind<T>(y: T, rest: seq<T>, x: T, tail: seq<T>, key: T -> string)
    requires SortedDesc(rest, key) && SortedDesc([y] + tail, key)
    requires LexLe(key(x), key(y))
    requires multiset(rest) == multiset(tail) + multiset{x}
    ensures SortedDesc([y] + rest, key)
  {
    forall j | 0 <= j < |rest|
      ensures LexLe(key(rest[j]), key(y))
    {
      assert rest[j] in multiset(rest);
      if rest[j] in multiset(tail) {
        var k :| 0 <= k < |tail| && tail[k] == rest[j];
        assert ([y] + tail)[k + 1] == tail[k] && ([y] + tail)[0] == y;
        assert LexLe(key(([y] + tail)[k + 1]), key(([y] + tail)[0]));
      } else {
        assert rest[j] == x;
      }
    }
  }

  /** The collection sorted newest first. */
  function SortDesc<T>(s: seq<T>, key: T -> string): (r: seq<T>)
    ensures multiset(r) == multiset(s)
    ensures SortedDesc(r, key)
  {
    if s == [] then []
    else
      assert s == [s[0]] + s[1..];
      Insert(s[0], SortDesc(s[1..], key), key)
  }

  /** What a listing endpoint returns: the first `cap` records of the
      collection sorted by `key` descending. */
  function TopByKey<T>(s: seq<T>, key: T -> string, cap: nat): seq<T> {
    var sorted := SortDesc(s, key);
    if |sorted| <= cap then sorted else sorted[..cap]
  }

  /** A prefix of a descending sequence is descending, and everything
      after it is no newer than anything in it. */
  lemma {:induction false} SortedPrefix<T>(sorted: seq<T>, n: nat, key: T -> string)
    requires SortedDesc(sorted, key) && n <= |sorted|
    ensures SortedDesc(sorted[..n], key)
    ensures multiset(sorted[..n]) <= multiset(sorted)
    ensures forall x, y :: x in multiset(sorted) - multiset(sorted[..n]) && y in sorted[..n] ==> LexLe(key(x), key(y))
  {
    var r := sorted[..n];
    assert sorted == r + sorted[n..];
    assert multiset(sorted) == multiset(r) + multiset(sorted[n..]);
    forall x, y | x in multiset(sorted) - multiset(r) && y in r
      ensures LexLe(key(x), key(y))
    {
      assert x in sorted[n..];
      var a :| n <= a < |sorted| && sorted[a] == x;
      var b :| 0 <= b < n && r[b] == y;
      assert sorted[b] == y;
    }
  }

  /** A listing has min(cap, |s|) records, drawn from the collection, in
      descending key order, and every record left out is no newer than any
      record returned. */
  lemma {:induction false} TopByKeySpec<T>(s: seq<T>, key: T -> string, cap: nat)
    ensures var r := TopByKey(s, key, cap);
      && |r| == (if |s| <= cap then |s| else cap)
      && SortedDesc(r, key)
      && multiset(r) <= multiset(s)
      && forall x, y :: x in multiset(s) - multiset(r) && y in r ==> LexLe(key(x), key(y))
  {
    var sorted := SortDesc(s, key);
    assert |sorted| == |multiset(sorted)| == |s|;
    var n := if |s| <= cap then |s| else cap;
    assert TopByKey(s, key, cap) == sorted[..n];
    SortedPrefix(sorted, n, key);
  }
}
