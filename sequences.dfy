/** Sequence operations that stand in for the relational store's query
    engine (`where`, `orderBy`, `take`, unique keys) and for the array
    methods the clients use (`filter`, `map`, `find`, `reverse`). */
module Sequences {
  import opened Common

  /** `Array.prototype.filter` / a `where` clause: keeps, in order, the elements satisfying `p`. */
  function Filter<T(!new)>(s: seq<T>, p: T -> bool): (r: seq<T>)
    ensures |r| <= |s|
    ensures forall x :: x in r <==> x in s && p(x)
    ensures forall i :: 0 <= i < |r| ==> p(r[i])
  {
    if s == [] then [] else (if p(s[0]) then [s[0]] else []) + Filter(s[1..], p)
  }

  lemma {:induction false} FilterAppend<T(!new)>(s: seq<T>, x: T, p: T -> bool)
    ensures Filter(s + [x], p) == Filter(s, p) + (if p(x) then [x] else [])
  {
    if s == [] {
      assert s + [x] == [x];
    } else {
      assert (s + [x])[1..] == s[1..] + [x];
      FilterAppend(s[1..], x, p);
    }
  }

  lemma ConcatAssoc<T>(a: seq<T>, b: seq<T>, c: seq<T>)
    ensures a + (b + c) == (a + b) + c
  {}

  /** Filtering distributes over concatenation: what is kept keeps its relative order. */
  lemma {:induction false} FilterConcat<T(!new)>(a: seq<T>, b: seq<T>, p: T -> bool)
    ensures Filter(a + b, p) == Filter(a, p) + Filter(b, p)
    decreases |a|
  {
    if a == [] {
      assert a + b == b;
    } else {
      assert (a + b)[1..] == a[1..] + b;
      FilterConcat(a[1..], b, p);
    }
  }

  /** Filtering with a predicate that holds nowhere leaves nothing. */
  lemma {:induction false} FilterNone<T(!new)>(s: seq<T>, p: T -> bool)
    requires forall x :: x in s ==> !p(x)
    ensures Filter(s, p) == []
  {
    if s != [] {
      FilterNone(s[1..], p);
    }
  }

  /** Filtering with a predicate that holds everywhere changes nothing. */
  lemma {:induction false} FilterAll<T(!new)>(s: seq<T>, p: T -> bool)
    requires forall x :: x in s ==> p(x)
    ensures Filter(s, p) == s
  {
    if s != [] {
      FilterAll(s[1..], p);
    }
  }

  /** The number of elements kept plus the number dropped is the length. */
  lemma {:induction false} FilterSplit<T(!new)>(s: seq<T>, p: T -> bool)
    ensures |Filter(s, p)| + |Filter(s, x => !p(x))| == |s|
  {
    if s != [] {
      FilterSplit(s[1..], p);
    }
  }

  /** Every key occurs at most once: a primary key or a unique column. */
  predicate KeysDistinct<T(!new), K(==)>(s: seq<T>, key: T -> K) {
    forall i, j :: 0 <= i < j < |s| ==> key(s[i]) != key(s[j])
  }

  predicate HasKey<T(!new), K(==)>(s: seq<T>, key: T -> K, k: K) {
    exists i :: 0 <= i < |s| && key(s[i]) == k
  }

  /** `findUnique` / `Array.prototype.find`: the first element whose key is `k`. */
  function Find<T(!new), K(==)>(s: seq<T>, key: T -> K, k: K): (r: Option<T>)
    ensures r.Some? <==> HasKey(s, key, k)
    ensures r.Some? ==> r.value in s && key(r.value) == k
  {
    if s == [] then None
    else if key(s[0]) == k then Some(s[0])
    else
      var r := Find(s[1..], key, k);
      assert HasKey(s, key, k) ==> HasKey(s[1..], key, k) by {
        if HasKey(s, key, k) {
          var i :| 0 <= i < |s| && key(s[i]) == k;
          assert i > 0 && key(s[1..][i - 1]) == k;
        }
      }
      assert r.Some? ==> HasKey(s, key, k) by {
        if r.Some? {
          var i :| 0 <= i < |s[1..]| && key(s[1..][i]) == k;
          assert key(s[i + 1]) == k;
        }
      }
      r
  }

  /** With distinct keys, the element `Find` returns is the only one with that key. */
  lemma FindUnique<T(!new), K>(s: seq<T>, key: T -> K, k: K, x: T)
    requires KeysDistinct(s, key)
    requires x in s && key(x) == k
    ensures Find(s, key, k) == Some(x)
  {
    var r := Find(s, key, k);
    assert HasKey(s, key, k) by {
      var i :| 0 <= i < |s| && s[i] == x;
    }
    var i :| 0 <= i < |s| && s[i] == r.value;
    var j :| 0 <= j < |s| && s[j] == x;
    assert i == j;
  }

  /** `Array.prototype.map` with a conditional: the elements `sel` picks are replaced by `f` of them. */
  function MapWhere<T(!new)>(s: seq<T>, sel: T -> bool, f: T -> T): (r: seq<T>)
    ensures |r| == |s|
    ensures forall i :: 0 <= i < |s| ==> r[i] == if sel(s[i]) then f(s[i]) else s[i]
  {
    seq(|s|, i requires 0 <= i < |s| => if sel(s[i]) then f(s[i]) else s[i])
  }

  /** Updating rows without touching their key keeps the keys distinct. */
  lemma MapWhereKeepsKeys<T(!new), K>(s: seq<T>, sel: T -> bool, f: T -> T, key: T -> K)
    requires KeysDistinct(s, key)
    requires forall x :: sel(x) ==> key(f(x)) == key(x)
    ensures KeysDistinct(MapWhere(s, sel, f), key)
  {
    var r := MapWhere(s, sel, f);
    forall i, j | 0 <= i < j < |r|
      ensures key(r[i]) != key(r[j])
    {
      assert key(r[i]) == key(s[i]) && key(r[j]) == key(s[j]);
    }
  }

  /** Replacing the one selected row by a row whose key no other row has keeps
      the keys distinct. */
  lemma MapWhereNewKey<T(!new), K>(s: seq<T>, sel: T -> bool, f: T -> T, key: T -> K)
    requires KeysDistinct(s, key)
    requires forall i, j :: 0 <= i < j < |s| ==> !(sel(s[i]) && sel(s[j]))
    requires forall x, y :: x in s && y in s && sel(x) && !sel(y) ==> key(f(x)) != key(y)
    ensures KeysDistinct(MapWhere(s, sel, f), key)
  {
    var r := MapWhere(s, sel, f);
    forall i, j | 0 <= i < j < |r|
      ensures key(r[i]) != key(r[j])
    {
      if sel(s[i]) {
        assert key(f(s[i])) != key(s[j]);
      } else if sel(s[j]) {
        assert key(f(s[j])) != key(s[i]);
      }
    }
  }

  /** A sub-sequence obtained by filtering keeps the keys distinct. */
  lemma {:induction false} FilterKeepsKeys<T(!new), K>(s: seq<T>, p: T -> bool, key: T -> K)
    requires KeysDistinct(s, key)
    ensures KeysDistinct(Filter(s, p), key)
  {
    if s != [] {
      FilterKeepsKeys(s[1..], p, key);
      var t := Filter(s[1..], p);
      if p(s[0]) {
        var r := [s[0]] + t;
        forall i, j | 0 <= i < j < |r|
          ensures key(r[i]) != key(r[j])
        {
          if i == 0 {
            assert r[j] in s[1..];
            var k :| 0 <= k < |s[1..]| && s[1..][k] == r[j];
            assert s[k + 1] == r[j];
          } else {
            assert r[i] == t[i - 1] && r[j] == t[j - 1];
          }
        }
      }
    }
  }

  /** Appending a row whose key is new keeps the keys distinct. */
  lemma AppendKeepsKeys<T(!new), K>(s: seq<T>, x: T, key: T -> K)
    requires KeysDistinct(s, key)
    requires !HasKey(s, key, key(x))
    ensures KeysDistinct(s + [x], key)
  {
    var r := s + [x];
    forall i, j | 0 <= i < j < |r|
      ensures key(r[i]) != key(r[j])
    {
      if j == |s| {
        assert r[i] == s[i];
      } else {
        assert r[i] == s[i] && r[j] == s[j];
      }
    }
  }

  /** Appending a row keeps every key there was and adds the row's own. */
  lemma AppendHasKey<T(!new), K>(s: seq<T>, x: T, key: T -> K)
    ensures forall k :: HasKey(s + [x], key, k) <==> HasKey(s, key, k) || k == key(x)
  {
    var r := s + [x];
    forall k | HasKey(s, key, k)
      ensures HasKey(r, key, k)
    {
      var i :| 0 <= i < |s| && key(s[i]) == k;
      assert r[i] == s[i];
    }
    assert r[|s|] == x;
    forall k | HasKey(r, key, k)
      ensures HasKey(s, key, k) || k == key(x)
    {
      var i :| 0 <= i < |r| && key(r[i]) == k;
      if i < |s| {
        assert r[i] == s[i];
      }
    }
  }

  /** Updating rows without touching their key keeps the same set of keys. */
  lemma MapWhereKeepsHasKey<T(!new), K>(s: seq<T>, sel: T -> bool, f: T -> T, key: T -> K)
    requires forall x :: sel(x) ==> key(f(x)) == key(x)
    ensures forall k :: HasKey(MapWhere(s, sel, f), key, k) <==> HasKey(s, key, k)
  {
    var r := MapWhere(s, sel, f);
    forall k
      ensures HasKey(r, key, k) <==> HasKey(s, key, k)
    {
      if HasKey(s, key, k) {
        var i :| 0 <= i < |s| && key(s[i]) == k;
        assert key(r[i]) == key(s[i]);
      }
      if HasKey(r, key, k) {
        var i :| 0 <= i < |r| && key(r[i]) == k;
        assert key(r[i]) == key(s[i]);
      }
    }
  }

  /** `delete` by primary key: the rows whose key is not `k`, in order. */
  function WithoutKey<T(!new), K(==)>(s: seq<T>, key: T -> K, k: K): seq<T> {
    Filter(s, x => key(x) != k)
  }

  /** Deleting by a key that occurs once removes exactly one row. */
  lemma {:induction false} WithoutKeySpec<T(!new), K>(s: seq<T>, key: T -> K, k: K)
    requires KeysDistinct(s, key)
    requires HasKey(s, key, k)
    ensures |WithoutKey(s, key, k)| == |s| - 1
    ensures forall x :: x in WithoutKey(s, key, k) <==> x in s && key(x) != k
    ensures KeysDistinct(WithoutKey(s, key, k), key)
  {
    FilterKeepsKeys(s, x => key(x) != k, key);
    var i :| 0 <= i < |s| && key(s[i]) == k;
    if i == 0 {
      var rest := s[1..];
      forall x | x in rest
        ensures key(x) != k
      {
        var j :| 0 <= j < |rest| && rest[j] == x;
        assert s[j + 1] == x;
      }
      FilterAll(rest, x => key(x) != k);
    } else {
      assert KeysDistinct(s[1..], key) by {
        forall a, b | 0 <= a < b < |s[1..]|
          ensures key(s[1..][a]) != key(s[1..][b])
        {
          assert s[1..][a] == s[a + 1] && s[1..][b] == s[b + 1];
        }
      }
      assert key(s[0]) != k by {
        assert key(s[0]) != key(s[i]);
      }
      assert key(s[1..][i - 1]) == k;
      WithoutKeySpec(s[1..], key, k);
    }
  }

  /** `orderBy: { key: 'desc' }`: every element is at least as large as the ones after it. */
  predicate SortedDesc<T(!new)>(s: seq<T>, key: T -> int) {
    forall i, j :: 0 <= i < j < |s| ==> key(s[i]) >= key(s[j])
  }

  predicate SortedAsc<T(!new)>(s: seq<T>, key: T -> int) {
    forall i, j :: 0 <= i < j < |s| ==> key(s[i]) <= key(s[j])
  }

  /** Inserts `x` into a descending sequence, after every element with a larger key. */
  function InsertDesc<T(!new)>(x: T, s: seq<T>, key: T -> int): (r: seq<T>)
    requires SortedDesc(s, key)
    ensures |r| == |s| + 1
    ensures forall i :: 0 <= i < |r| ==> key(r[i]) <= if s == [] || key(x) >= key(s[0]) then key(x) else key(s[0])
    ensures SortedDesc(r, key)
  {
    if s == [] then [x]
    else if key(x) >= key(s[0]) then [x] + s
    else [s[0]] + InsertDesc(x, s[1..], key)
  }

  lemma {:induction false} InsertDescPermutes<T(!new)>(x: T, s: seq<T>, key: T -> int)
    requires SortedDesc(s, key)
    ensures multiset(InsertDesc(x, s, key)) == multiset(s) + multiset{x}
  {
    if s != [] && key(x) < key(s[0]) {
      InsertDescPermutes(x, s[1..], key);
      assert s == [s[0]] + s[1..];
    }
  }

  /** The order the store returns for `orderBy: 'desc'`; ties keep table order. */
  function SortDesc<T(!new)>(s: seq<T>, key: T -> int): (r: seq<T>)
    ensures |r| == |s|
    ensures SortedDesc(r, key)
  {
    if s == [] then [] else InsertDesc(s[0], SortDesc(s[1..], key), key)
  }

  /** Sorting only reorders: the result is a permutation of the input. */
  lemma {:induction false} SortPermutes<T(!new)>(s: seq<T>, key: T -> int)
    ensures multiset(SortDesc(s, key)) == multiset(s)
  {
    if s != [] {
      SortPermutes(s[1..], key);
      InsertDescPermutes(s[0], SortDesc(s[1..], key), key);
      assert s == [s[0]] + s[1..];
    }
  }

  /** `take: n`. */
  function Take<T(!new)>(s: seq<T>, n: nat): (r: seq<T>)
    ensures |r| == Min(n, |s|)
    ensures r == s[..|r|]
  {
    if n < |s| then s[..n] else s
  }

  /** `Array.prototype.reverse`. */
  function Reverse<T(!new)>(s: seq<T>): (r: seq<T>)
    ensures |r| == |s|
    ensures forall i :: 0 <= i < |s| ==> r[i] == s[|s| - 1 - i]
  {
    if s == [] then [] else Reverse(s[1..]) + [s[0]]
  }

  /** `Array.prototype.reverse`, which works in place. */
  method ReverseInPlace<T(!new)>(a: array<T>)
    modifies a
    ensures a[..] == Reverse(old(a[..]))
  {
    var n, i := a.Length, 0;
    while i < n / 2
      invariant 0 <= i <= n / 2
      invariant forall k :: 0 <= k < i ==> a[k] == old(a[n - 1 - k]) && a[n - 1 - k] == old(a[k])
      invariant forall k :: i <= k < n - i ==> a[k] == old(a[k])
    {
      a[i], a[n - 1 - i] := a[n - 1 - i], a[i];
      i := i + 1;
    }
  }

  /** `reverse()` on a freshly fetched array holding `s`: the array is
      reversed in place and its contents are what is sent. */
  method ReverseFetched<T(!new)>(s: seq<T>) returns (r: seq<T>)
    ensures r == Reverse(s)
  {
    var a := new T[|s|](k requires 0 <= k < |s| => s[k]);
    assert a[..] == s;
    ReverseInPlace(a);
    r := a[..];
  }

  lemma ReverseSorted<T(!new)>(s: seq<T>, key: T -> int)
    requires SortedDesc(s, key)
    ensures SortedAsc(Reverse(s), key)
  {
  }

  lemma ReverseMembers<T(!new)>(s: seq<T>)
    ensures forall x :: x in Reverse(s) <==> x in s
  {
    var r := Reverse(s);
    forall x | x in s
      ensures x in r
    {
      var i :| 0 <= i < |s| && s[i] == x;
      assert r[|s| - 1 - i] == x;
    }
  }

  /** Reversing keeps every element with its multiplicity. */
  lemma {:induction false} ReversePermutes<T(!new)>(s: seq<T>)
    ensures multiset(Reverse(s)) == multiset(s)
  {
    if s != [] {
      ReversePermutes(s[1..]);
      assert s == [s[0]] + s[1..];
    }
  }

  /** `orderBy: { key: 'asc' }`; the order of ties is left to the store. */
  function SortAsc<T(!new)>(s: seq<T>, key: T -> int): (r: seq<T>)
    ensures |r| == |s|
    ensures SortedAsc(r, key)
    ensures forall x :: x in r <==> x in s
    ensures multiset(r) == multiset(s)
  {
    var t := SortDesc(s, key);
    ReverseSorted(t, key);
    ReverseMembers(t);
    SortMembers(s, key);
    SortPermutes(s, key);
    ReversePermutes(t);
    Reverse(t)
  }

  /** A page of the `n` newest elements, newest first. */
  function Newest<T(!new)>(s: seq<T>, key: T -> int, n: nat): seq<T> {
    Take(SortDesc(s, key), n)
  }

  /** What `take: n` with `orderBy: 'desc'` promises: at most `n` elements, all
      from the input, newest first, as many as there are up to `n`, and every
      element left out no newer than every element returned. */
  lemma NewestSpec<T(!new)>(s: seq<T>, key: T -> int, n: nat)
    ensures |Newest(s, key, n)| == Min(n, |s|)
    ensures forall x :: x in Newest(s, key, n) ==> x in s
    ensures SortedDesc(Newest(s, key, n), key)
    ensures forall x, y :: x in s && x !in Newest(s, key, n) && y in Newest(s, key, n) ==> key(x) <= key(y)
  {
    var t := SortDesc(s, key);
    var r := Newest(s, key, n);
    SortPermutes(s, key);
    forall x | x in r
      ensures x in s
    {
      assert x in multiset(t);
    }
    forall x, y | x in s && x !in r && y in r
      ensures key(x) <= key(y)
    {
      assert x in multiset(t);
      var i :| 0 <= i < |t| && t[i] == x;
      var j :| 0 <= j < |r| && r[j] == y;
      assert t[j] == y;
    }
  }

  /** `where` + `orderBy: 'desc'` + `take: n`: at most `n` elements, each from
      the input and satisfying `p`, newest first, and no element satisfying `p`
      left out that is newer than one returned. */
  lemma NewestWhere<T(!new)>(s: seq<T>, p: T -> bool, key: T -> int, n: nat)
    ensures |Newest(Filter(s, p), key, n)| <= n
    ensures SortedDesc(Newest(Filter(s, p), key, n), key)
    ensures forall x :: x in Newest(Filter(s, p), key, n) ==> x in s && p(x)
    ensures forall x, y :: x in s && p(x) && x !in Newest(Filter(s, p), key, n) && y in Newest(Filter(s, p), key, n) ==>
      key(x) <= key(y)
  {
    NewestSpec(Filter(s, p), key, n);
  }

  /** The same page, oldest first. */
  lemma NewestWhereReversed<T(!new)>(s: seq<T>, p: T -> bool, key: T -> int, n: nat)
    ensures |Reverse(Newest(Filter(s, p), key, n))| <= n
    ensures SortedAsc(Reverse(Newest(Filter(s, p), key, n)), key)
    ensures forall x :: x in Reverse(Newest(Filter(s, p), key, n)) ==> x in s && p(x)
    ensures forall x, y ::
      (x in s && p(x) && x !in Reverse(Newest(Filter(s, p), key, n)) && y in Reverse(Newest(Filter(s, p), key, n))) ==>
      key(x) <= key(y)
  {
    var r := Newest(Filter(s, p), key, n);
    NewestWhere(s, p, key, n);
    ReverseSorted(r, key);
    ReverseMembers(r);
  }

  /** Membership in a multiset-equal sequence. */
  lemma SortMembers<T(!new)>(s: seq<T>, key: T -> int)
    ensures forall x :: x in SortDesc(s, key) <==> x in s
  {
    var t := SortDesc(s, key);
    SortPermutes(s, key);
    assert forall x :: x in t <==> x in multiset(t);
    assert forall x :: x in s <==> x in multiset(s);
  }

  /** An element with a strictly larger key than every other element comes first. */
  lemma LargestFirst<T(!new)>(s: seq<T>, key: T -> int, x: T)
    requires x in s
    requires forall y :: y in s && y != x ==> key(y) < key(x)
    ensures SortDesc(s, key) != [] && SortDesc(s, key)[0] == x
  {
    var t := SortDesc(s, key);
    SortMembers(s, key);
    assert x in t;
    var i :| 0 <= i < |t| && t[i] == x;
    assert key(t[0]) >= key(t[i]);
  }
}
