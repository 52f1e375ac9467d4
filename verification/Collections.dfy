/** Lists keyed by policy ID, and duplicate-free lists compared as sets. */
module Collections {

  datatype Option<+T> = None | Some(value: T)

  /** One element of a bundle's object list: a policy ID and what the bundle holds for it. */
  datatype Entry<+V> = Entry(id: string, value: V)

  // ----- Lists seen as sets -----

  ghost predicate Distinct<T>(s: seq<T>) {
    forall i, j :: 0 <= i < j < |s| ==> s[i] != s[j]
  }

  function Elements<T(==)>(s: seq<T>): set<T> {
    set x | x in s
  }

  lemma {:induction false} DistinctCardinality<T>(s: seq<T>)
    requires Distinct(s)
    ensures |Elements(s)| == |s|
  {
    if s == [] {
      assert Elements(s) == {};
    } else {
      var front, last := s[..|s| - 1], s[|s| - 1];
      DistinctCardinality(front);
      assert Elements(s) == Elements(front) + {last};
    }
  }

  lemma DistinctConcat<T>(a: seq<T>, b: seq<T>)
    requires Distinct(a) && Distinct(b) && Elements(a) !! Elements(b)
    ensures Distinct(a + b) && Elements(a + b) == Elements(a) + Elements(b)
  {
    assert forall k :: 0 <= k < |a| ==> a[k] in Elements(a);
    assert forall k :: 0 <= k < |b| ==> b[k] in Elements(b);
  }

  lemma SubsetOfSameSize<T>(a: set<T>, b: set<T>)
    requires a <= b && |a| == |b|
    ensures a == b
  {
    assert |b - a| == |b| - |a|;
  }

  /** The pigeonhole behind both change tests: for duplicate-free lists of equal length, one-way containment is
      equality of the sets. */
  lemma Pigeonhole<T>(a: seq<T>, b: seq<T>)
    requires Distinct(a) && Distinct(b) && |a| == |b|
    ensures (forall x :: x in a ==> x in b) <==> Elements(a) == Elements(b)
  {
    DistinctCardinality(a);
    DistinctCardinality(b);
    if forall x :: x in a ==> x in b {
      SubsetOfSameSize(Elements(a), Elements(b));
    } else {
      var x :| x in a && x !in b;
      assert x in Elements(a) && x !in Elements(b);
    }
  }

  method ContainsString(slice: seq<string>, s: string) returns (found: bool)
    ensures found <==> s in slice
  {
    for i := 0 to |slice|
      invariant s !in slice[..i]
    {
      if slice[i] == s {
        return true;
      }
    }
    return false;
  }

  method CreateSetFromSlice(slice: seq<string>) returns (result: set<string>)
    ensures result == Elements(slice)
  {
    result := {};
    for i := 0 to |slice|
      invariant result == Elements(slice[..i])
    {
      result := result + {slice[i]};
    }
    assert slice[..|slice|] == slice;
  }

  // ----- Lists keyed by policy ID -----

  /** Position of the first entry for the given ID. */
  function IndexOf<V>(es: seq<Entry<V>>, id: string): (r: Option<nat>)
    ensures r.Some? ==> r.value < |es| && es[r.value].id == id && forall j :: 0 <= j < r.value ==> es[j].id != id
    ensures r.None? ==> forall j :: 0 <= j < |es| ==> es[j].id != id
  {
    if es == [] then None
    else if es[0].id == id then Some(0)
    else match IndexOf(es[1..], id)
      case None => None
      case Some(k) => Some(k + 1)
  }

  method GetObjectIndexByUID<V>(es: seq<Entry<V>>, id: string) returns (index: Option<nat>)
    ensures index == IndexOf(es, id)
  {
    for i := 0 to |es|
      invariant forall j :: 0 <= j < i ==> es[j].id != id
    {
      if es[i].id == id {
        return Some(i);
      }
    }
    return None;
  }

  function Find<V>(es: seq<Entry<V>>, id: string): Option<V> {
    match IndexOf(es, id)
    case None => None
    case Some(i) => Some(es[i].value)
  }

  /** Overwrite the entry for the ID in its place, or append one. */
  function Put<V>(es: seq<Entry<V>>, id: string, v: V): seq<Entry<V>> {
    match IndexOf(es, id)
    case None => es + [Entry(id, v)]
    case Some(i) => es[i := Entry(id, v)]
  }

  /** Splice the entry for the ID out of the list, keeping the order of the others. */
  function Remove<V>(es: seq<Entry<V>>, id: string): seq<Entry<V>> {
    match IndexOf(es, id)
    case None => es
    case Some(i) => es[..i] + es[i + 1..]
  }

  function Ids<V>(es: seq<Entry<V>>): seq<string> {
    seq(|es|, i requires 0 <= i < |es| => es[i].id)
  }

  ghost predicate UniqueIds<V>(es: seq<Entry<V>>) {
    forall i, j :: 0 <= i < j < |es| ==> es[i].id != es[j].id
  }

  lemma FindPut<V>(es: seq<Entry<V>>, id: string, v: V, other: string)
    ensures Find(Put(es, id, v), other) == if other == id then Some(v) else Find(es, other)
  {
    var ps := Put(es, id, v);
    if other == id {
      assert ps[match IndexOf(es, id) case None => |es| case Some(i) => i].id == id;
    } else {
      assert forall k :: 0 <= k < |es| ==> ps[k].id == es[k].id;
      if IndexOf(es, other).Some? {
        assert ps[IndexOf(es, other).value] == es[IndexOf(es, other).value];
      }
    }
  }

  lemma PutUnique<V>(es: seq<Entry<V>>, id: string, v: V)
    requires UniqueIds(es)
    ensures UniqueIds(Put(es, id, v))
  {}

  lemma RemoveUnique<V>(es: seq<Entry<V>>, id: string)
    requires UniqueIds(es)
    ensures UniqueIds(Remove(es, id))
  {}

  lemma FindUnique<V>(es: seq<Entry<V>>, k: nat)
    requires UniqueIds(es) && k < |es|
    ensures IndexOf(es, es[k].id) == Some(k)
  {}

  lemma FindRemove<V>(es: seq<Entry<V>>, id: string, other: string)
    requires UniqueIds(es)
    ensures Find(Remove(es, id), other) == if other == id then None else Find(es, other)
  {
    RemoveUnique(es, id);
    if IndexOf(es, id).Some? {
      var i, rs := IndexOf(es, id).value, Remove(es, id);
      assert forall k :: 0 <= k < |rs| ==> rs[k] == es[if k < i then k else k + 1];
      if other != id && IndexOf(es, other).Some? {
        var j := IndexOf(es, other).value;
        assert rs[if j < i then j else j - 1] == es[j];
        FindUnique(rs, if j < i then j else j - 1);
      }
    }
  }
}
