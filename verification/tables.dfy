/** Ordered key/value tables. The client builds three kinds of them: object
    literals used as lookup tables (`DEFECT_STATUSES[code]`), query
    parameter lists (`URLSearchParams`) and JSON request bodies. In every
    case the order of the entries is the order the source writes them. */
module Tables {
  import opened Js

  type Table<T> = seq<(string, T)>

  /** The keys of a table, in order. */
  function Keys<T>(t: Table<T>): (ks: seq<string>)
    ensures |ks| == |t|
    ensures forall i :: 0 <= i < |t| ==> ks[i] == t[i].0
  {
    if t == [] then [] else [t[0].0] + Keys(t[1..])
  }

  predicate DistinctKeys<T>(t: Table<T>) {
    forall i, j :: 0 <= i < j < |t| ==> t[i].0 != t[j].0
  }

  /** The value of the first entry with the given key, if there is one
      (`params.get(key)`; for an object literal, whose keys are distinct,
      `obj[key]`). */
  function Lookup<T>(t: Table<T>, key: string): (r: Option<T>)
    ensures r.Some? <==> key in Keys(t)
    ensures r.Some? ==> (key, r.value) in t
    ensures DistinctKeys(t) ==> forall i :: 0 <= i < |t| && t[i].0 == key ==> r == Some(t[i].1)
  {
    if t == [] then None
    else if t[0].0 == key then Some(t[0].1)
    else Lookup(t[1..], key)
  }

  /** `obj[key] || fallback` for a table whose entries are objects (always
      truthy): the entry when the key is present, else the fallback. */
  function LookupOr<T>(t: Table<T>, key: string, fallback: T): (r: T)
    ensures key in Keys(t) ==> Lookup(t, key) == Some(r)
    ensures key !in Keys(t) ==> r == fallback
  {
    match Lookup(t, key)
    case Some(v) => v
    case None => fallback
  }

  lemma LookupAbsent<T>(t: Table<T>, key: string)
    requires key !in Keys(t)
    ensures Lookup(t, key) == None
  {
  }

  lemma KeysAppend<T>(a: Table<T>, b: Table<T>)
    ensures Keys(a + b) == Keys(a) + Keys(b)
  {
  }

  /** Looking up in a concatenation finds the first part's entry if it has
      one, and the second part's otherwise. */
  lemma {:induction false} LookupAppend<T>(a: Table<T>, b: Table<T>, key: string)
    ensures Lookup(a + b, key) == if key in Keys(a) then Lookup(a, key) else Lookup(b, key)
  {
    if a == [] {
      assert a + b == b;
    } else {
      assert (a + b)[1..] == a[1..] + b;
      LookupAppend(a[1..], b, key);
      assert Keys(a) == [a[0].0] + Keys(a[1..]);
    }
  }
}
