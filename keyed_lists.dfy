/** Per-key message lists of the client stores: a `Record<string, T[]>`
    replaced on every action with a spread over the previous value
    (frontend/src/store/messageStore.ts, frontend/src/store/dmStore.ts). */
module KeyedLists {
  import opened Common
  import opened Sequences

  /** The record. A key may also hold `undefined`, which `None` stands for. */
  type Lists<T> = map<string, Option<seq<T>>>

  /** `state.messages[k] || []`. */
  function ListOf<T>(m: Lists<T>, k: string): seq<T> {
    if k in m && m[k].Some? then m[k].value else []
  }

  /** Every key other than `k` is present in both records or in neither, with the same value. */
  ghost predicate Elsewhere<T>(m: Lists<T>, r: Lists<T>, k: string) {
    forall j :: j != k ==> (j in r <==> j in m) && (j in r ==> r[j] == m[j])
  }

  /** `{ ...m, [k]: xs }`. */
  function Put<T>(m: Lists<T>, k: string, xs: seq<T>): (r: Lists<T>)
    ensures k in r && r[k] == Some(xs)
    ensures Elsewhere(m, r, k)
  {
    m[k := Some(xs)]
  }

  /** `{ ...m, [k]: [...(m[k] || []), x] }`. */
  function Append<T>(m: Lists<T>, k: string, x: T): (r: Lists<T>)
    ensures k in r && r[k].Some? && |r[k].value| == |ListOf(m, k)| + 1
    ensures r[k].value[..|ListOf(m, k)|] == ListOf(m, k) && r[k].value[|ListOf(m, k)|] == x
    ensures Elsewhere(m, r, k)
  {
    m[k := Some(ListOf(m, k) + [x])]
  }

  /** `{ ...m, [k]: m[k]?.map(x => sel(x) ? f(x) : x) }`. */
  function Patch<T(!new)>(m: Lists<T>, k: string, sel: T -> bool, f: T -> T): (r: Lists<T>)
    ensures k in r && Elsewhere(m, r, k)
    ensures (k !in m || m[k].None?) ==> r[k] == None
    ensures k in m && m[k].Some? ==>
      r[k].Some? && |r[k].value| == |m[k].value| &&
      forall i :: 0 <= i < |m[k].value| ==> r[k].value[i] == if sel(m[k].value[i]) then f(m[k].value[i]) else m[k].value[i]
  {
    m[k := if k in m && m[k].Some? then Some(MapWhere(m[k].value, sel, f)) else None]
  }

  /** `{ ...m, [k]: m[k]?.filter(keep) }`. */
  function Prune<T(!new)>(m: Lists<T>, k: string, keep: T -> bool): (r: Lists<T>)
    ensures k in r && Elsewhere(m, r, k)
    ensures (k !in m || m[k].None?) ==> r[k] == None
    ensures k in m && m[k].Some? ==>
      r[k].Some? && |r[k].value| <= |m[k].value| && forall x :: x in r[k].value <==> x in m[k].value && keep(x)
  {
    m[k := if k in m && m[k].Some? then Some(Filter(m[k].value, keep)) else None]
  }

  /** What `Prune` keeps of a concatenation is what it keeps of each part, in order. */
  lemma PruneKeepsOrder<T(!new)>(m: Lists<T>, k: string, keep: T -> bool, a: seq<T>, b: seq<T>)
    requires k in m && m[k] == Some(a + b)
    ensures Prune(m, k, keep)[k] == Some(Filter(a, keep) + Filter(b, keep))
  {
    FilterConcat(a, b, keep);
  }

  /** Appending an element that `keep` rejects and then pruning with `keep`
      restores the list; when the key held a list, the whole record is restored. */
  lemma AppendThenPrune<T(!new)>(m: Lists<T>, k: string, x: T, keep: T -> bool)
    requires forall y :: y in ListOf(m, k) ==> keep(y)
    requires !keep(x)
    ensures Prune(Append(m, k, x), k, keep)[k] == Some(ListOf(m, k))
    ensures k in m && m[k].Some? ==> Prune(Append(m, k, x), k, keep) == m
  {
    var xs := ListOf(m, k);
    FilterAppend(xs, x, keep);
    FilterAll(xs, keep);
    var a := Append(m, k, x);
    assert a[k] == Some(xs + [x]);
    var r := Prune(a, k, keep);
    assert r[k] == Some(Filter(xs + [x], keep));
    assert Filter(xs + [x], keep) == Filter(xs, keep) + [] == xs;
    if k in m && m[k].Some? {
      assert r.Keys == m.Keys;
      assert forall j :: j in r ==> r[j] == m[j];
    }
  }
}
