/** Python dictionaries as the program uses them: insertion-ordered lists of
    key/value pairs. Keys and values are text: every value the program
    stores is a string or is rendered with `str` when serialised. Order matters because `json.dumps` and `urlencode`
    serialise a dict in insertion order, and that text is what gets signed.
    Assigning `d[k] = v` (or merging `d | {k: v}`) replaces the value of an
    existing key where it stands and appends a new key at the end. */
module Dict {
  import opened Wrappers

  type Dict = seq<(string, string)>

  /** The keys in insertion order. */
  function Keys(d: Dict): (ks: seq<string>)
    ensures |ks| == |d|
  {
    if d == [] then [] else [d[0].0] + Keys(d[1..])
  }

  /** No key occurs twice, as in every Python dict. */
  predicate UniqueKeys(d: Dict) {
    forall i, j :: 0 <= i < j < |d| ==> d[i].0 != d[j].0
  }

  /** `d.get(k)`: the value stored under `k`, None when `k` is absent. */
  function Get(d: Dict, k: string): (r: Option<string>)
    ensures r.None? <==> k !in Keys(d)
  {
    if d == [] then None else if d[0].0 == k then Some(d[0].1) else Get(d[1..], k)
  }

  /** `d[k] = v`, also `d | {k: v}`: the new dict. */
  function Put(d: Dict, k: string, v: string): (r: Dict)
    ensures (k, v) in r
    ensures |r| == if k in Keys(d) then |d| else |d| + 1
  {
    if d == [] then [(k, v)]
    else if d[0].0 == k then [(k, v)] + d[1..]
    else [d[0]] + Put(d[1..], k, v)
  }

  /** After `d[k] = v`, looking `k` up gives `v`. */
  lemma {:induction false} PutGetSame(d: Dict, k: string, v: string)
    ensures Get(Put(d, k, v), k) == Some(v)
  {
    if d != [] && d[0].0 != k {
      PutGetSame(d[1..], k, v);
    }
  }

  /** `d[k] = v` leaves every other key's value as it was. */
  lemma {:induction false} PutGetOther(d: Dict, k: string, v: string, other: string)
    requires other != k
    ensures Get(Put(d, k, v), other) == Get(d, other)
  {
    if d != [] && d[0].0 != k {
      PutGetOther(d[1..], k, v, other);
    }
  }

  /** An existing key keeps its place; a new key is appended. */
  lemma {:induction false} PutKeys(d: Dict, k: string, v: string)
    ensures k in Keys(d) ==> Keys(Put(d, k, v)) == Keys(d)
    ensures k !in Keys(d) ==> Keys(Put(d, k, v)) == Keys(d) + [k]
  {
    if d != [] && d[0].0 != k {
      PutKeys(d[1..], k, v);
      assert Keys(d) == [d[0].0] + Keys(d[1..]);
    }
  }

  lemma {:induction false} KeysAt(d: Dict, i: nat)
    requires i < |d|
    ensures Keys(d)[i] == d[i].0
  {
    if i > 0 {
      KeysAt(d[1..], i - 1);
    }
  }

  lemma KeysIndex(d: Dict)
    ensures forall i :: 0 <= i < |d| ==> Keys(d)[i] == d[i].0
  {
    forall i | 0 <= i < |d| ensures Keys(d)[i] == d[i].0 {
      KeysAt(d, i);
    }
  }

  lemma TailKeepsUniqueKeys(d: Dict)
    requires d != [] && UniqueKeys(d)
    ensures UniqueKeys(d[1..])
  {
    var tail := d[1..];
    forall i, j | 0 <= i < j < |tail| ensures tail[i].0 != tail[j].0 {
      assert tail[i] == d[i + 1] && tail[j] == d[j + 1];
    }
  }

  /** In a dict with unique keys, each entry is what its key looks up. */
  lemma {:induction false} GetEntry(d: Dict, i: nat)
    requires UniqueKeys(d) && i < |d|
    ensures Get(d, d[i].0) == Some(d[i].1)
  {
    if i > 0 {
      TailKeepsUniqueKeys(d);
      GetEntry(d[1..], i - 1);
    }
  }

  /** `d[k] = v` keeps the keys of a dict unique. */
  lemma {:induction false} PutKeepsUniqueKeys(d: Dict, k: string, v: string)
    requires UniqueKeys(d)
    ensures UniqueKeys(Put(d, k, v))
  {
    if d != [] && d[0].0 != k {
      var tail := d[1..];
      TailKeepsUniqueKeys(d);
      PutKeepsUniqueKeys(tail, k, v);
      PutKeys(tail, k, v);
      var p := Put(tail, k, v);
      forall j | 0 <= j < |p| ensures p[j].0 != d[0].0 {
        KeysAt(p, j);
        if k in Keys(tail) {
          KeysAt(tail, j);
          assert tail[j] == d[j + 1];
        } else if j < |tail| {
          KeysAt(tail, j);
          assert Keys(p)[j] == Keys(tail)[j];
          assert tail[j] == d[j + 1];
        } else {
          assert Keys(p)[j] == k;
        }
      }
      assert Put(d, k, v) == [d[0]] + p;
    }
  }

  /** What `d[k] = v` does, in one statement: `k` now maps to `v`, every
      other key keeps its value, and keys stay unique. */
  lemma PutSpec(d: Dict, k: string, v: string)
    ensures Get(Put(d, k, v), k) == Some(v)
    ensures forall other :: other != k ==> Get(Put(d, k, v), other) == Get(d, other)
    ensures UniqueKeys(d) ==> UniqueKeys(Put(d, k, v))
  {
    PutGetSame(d, k, v);
    forall other | other != k
      ensures Get(Put(d, k, v), other) == Get(d, other)
    {
      PutGetOther(d, k, v, other);
    }
    if UniqueKeys(d) {
      PutKeepsUniqueKeys(d, k, v);
    }
  }

  /** Storing the value a key already has changes nothing. */
  lemma {:induction false} PutPresent(d: Dict, k: string, v: string)
    requires Get(d, k) == Some(v)
    ensures Put(d, k, v) == d
  {
    if d[0].0 != k {
      PutPresent(d[1..], k, v);
    }
  }

  /** Assigning the same value twice is the same as assigning it once. */
  lemma PutIdempotent(d: Dict, k: string, v: string)
    ensures Put(Put(d, k, v), k, v) == Put(d, k, v)
  {
    PutGetSame(d, k, v);
    PutPresent(Put(d, k, v), k, v);
  }
}
