/** Insertion-ordered dictionaries with string keys, as Python's `dict` and a JSON object read
    back by `json.load`: a sequence of entries whose keys are pairwise distinct.
    The order matters to the application because it is the order in which the
    emotion buttons are laid out. */
module Dicts {

  datatype Entry<V> = Entry(key: string, value: V)

  predicate UniqueKeys<V>(d: seq<Entry<V>>) {
    forall i, j :: 0 <= i < j < |d| ==> d[i].key != d[j].key
  }

  type Dict<V> = d: seq<Entry<V>> | UniqueKeys(d) witness []

  /** The keys in insertion order (`list(d)`). */
  function Keys<V>(d: seq<Entry<V>>): (ks: seq<string>)
    ensures |ks| == |d| && forall i :: 0 <= i < |d| ==> ks[i] == d[i].key
  {
    seq(|d|, i requires 0 <= i < |d| => d[i].key)
  }

  /** `k in d` */
  predicate Has<V>(d: seq<Entry<V>>, k: string) {
    exists i :: 0 <= i < |d| && d[i].key == k
  }

  /** The position of `k` in the insertion order. */
  function IndexOf<V>(d: Dict<V>, k: string): (i: nat)
    requires Has(d, k)
    ensures i < |d| && d[i].key == k
  {
    var i :| 0 <= i < |d| && d[i].key == k; i
  }

  /** `d[k]` */
  function Get<V>(d: Dict<V>, k: string): V
    requires Has(d, k)
  {
    d[IndexOf(d, k)].value
  }

  /** The value stored with the key at position `i` is the one `Get` returns for it. */
  lemma GetAt<V>(d: Dict<V>, i: nat)
    requires i < |d|
    ensures Has(d, d[i].key) && Get(d, d[i].key) == d[i].value
  {
  }

  /** `d[k] = v`: an existing key keeps its position, a new key goes last. */
  function Put<V>(d: Dict<V>, k: string, v: V): (r: Dict<V>)
    ensures Has(d, k) ==> Keys(r) == Keys(d)
    ensures !Has(d, k) ==> r == d + [Entry(k, v)]
    ensures Has(d, k) ==> |r| == |d| && forall i :: 0 <= i < |d| && i != IndexOf(d, k) ==> r[i] == d[i]
    ensures Has(r, k) && Get(r, k) == v
    ensures forall k' :: k' != k ==> (Has(r, k') <==> Has(d, k'))
    ensures forall k' :: k' != k && Has(d, k') ==> Get(r, k') == Get(d, k')
  {
    if Has(d, k) then
      var i := IndexOf(d, k);
      var r := d[i := Entry(k, v)];
      assert UniqueKeys(r) by {
        forall a, b | 0 <= a < b < |r| ensures r[a].key != r[b].key {
          assert r[a].key == d[a].key && r[b].key == d[b].key;
        }
      }
      forall k' | k' != k && Has(d, k') ensures Has(r, k') && Get(r, k') == Get(d, k') {
        GetAt(d, IndexOf(d, k'));
        GetAt(r, IndexOf(d, k'));
      }
      GetAt(r, i);
      r
    else
      var r := d + [Entry(k, v)];
      forall k' | k' != k && Has(d, k') ensures Has(r, k') && Get(r, k') == Get(d, k') {
        GetAt(d, IndexOf(d, k'));
        GetAt(r, IndexOf(d, k'));
      }
      GetAt(r, |d|);
      r
  }

  /** `del d[k]`, which Python only allows for a present key: the entry for `k`
      is dropped and every other entry keeps its value and its relative order. */
  function Remove<V>(d: Dict<V>, k: string): (r: Dict<V>)
    requires Has(d, k)
    ensures !Has(r, k) && |r| == |d| - 1
    ensures r == d[..IndexOf(d, k)] + d[IndexOf(d, k) + 1..]
    ensures Keys(d) == Keys(r)[..IndexOf(d, k)] + [k] + Keys(r)[IndexOf(d, k)..]
    ensures forall k' :: k' != k ==> (Has(r, k') <==> Has(d, k'))
    ensures forall k' :: k' != k && Has(d, k') ==> Get(r, k') == Get(d, k')
  {
    var i := IndexOf(d, k);
    var r := d[..i] + d[i + 1..];
    assert forall a :: 0 <= a < |r| ==> r[a] == d[if a < i then a else a + 1];
    assert UniqueKeys(r);
    forall k' | k' != k && Has(d, k') ensures Has(r, k') && Get(r, k') == Get(d, k') {
      var j := IndexOf(d, k');
      var a := if j < i then j else j - 1;
      assert r[a] == d[j];
      GetAt(d, j);
      GetAt(r, a);
    }
    assert Keys(d) == Keys(r)[..i] + [k] + Keys(r)[i..];
    r
  }

  /** The keys of `e`, in `e`'s order, that `d` does not already have. */
  function NewKeys<V>(d: seq<Entry<V>>, e: seq<Entry<V>>): seq<string>
  {
    if e == [] then []
    else
      var x := e[|e| - 1];
      NewKeys(d, e[..|e| - 1]) + (if Has(d, x.key) then [] else [x.key])
  }

  /** Dropping the last entry keeps every other key with its value. */
  lemma DropLast<V>(e: Dict<V>)
    requires e != []
    ensures UniqueKeys(e[..|e| - 1])
    ensures !Has(e[..|e| - 1], e[|e| - 1].key)
    ensures forall k :: Has(e, k) <==> k == e[|e| - 1].key || Has(e[..|e| - 1], k)
    ensures forall k :: Has(e[..|e| - 1], k) ==> Get(e[..|e| - 1], k) == Get(e, k)
    ensures Get(e, e[|e| - 1].key) == e[|e| - 1].value
  {
    var e' := e[..|e| - 1];
    forall k | Has(e', k) ensures Get(e', k) == Get(e, k) {
      GetAt(e', IndexOf(e', k));
      GetAt(e, IndexOf(e', k));
    }
    forall k | Has(e, k) ensures k == e[|e| - 1].key || Has(e', k) {
      var j := IndexOf(e, k);
      if j < |e| - 1 { assert e'[j] == e[j]; }
    }
    GetAt(e, |e| - 1);
  }

  /** `d.update(e)` on a copy of `d`: every entry of `e`, in order, stored into `d`. */
  function Update<V>(d: Dict<V>, e: Dict<V>): (r: Dict<V>)
    ensures Keys(r) == Keys(d) + NewKeys(d, e)
    ensures forall k :: Has(r, k) <==> Has(d, k) || Has(e, k)
    ensures forall k :: Has(e, k) ==> Get(r, k) == Get(e, k)
    ensures forall k :: Has(d, k) && !Has(e, k) ==> Get(r, k) == Get(d, k)
    decreases |e|
  {
    if e == [] then d
    else
      var x := e[|e| - 1];
      DropLast(e);
      var u := Update(d, e[..|e| - 1]);
      Put(u, x.key, x.value)
  }

  /** When `e` shares no key with `d`, updating appends all of `e` in its own order. */
  lemma {:induction false} NewKeysDisjoint<V>(d: seq<Entry<V>>, e: seq<Entry<V>>)
    requires forall i :: 0 <= i < |e| ==> !Has(d, e[i].key)
    ensures NewKeys(d, e) == Keys(e)
    decreases |e|
  {
    if e != [] {
      NewKeysDisjoint(d, e[..|e| - 1]);
      assert Keys(e) == Keys(e[..|e| - 1]) + [e[|e| - 1].key];
    }
  }

  /** Appending a new key and then deleting it gives back the original dictionary. */
  lemma RemoveAfterPut<V>(d: Dict<V>, k: string, v: V)
    requires !Has(d, k)
    ensures Remove(Put(d, k, v), k) == d
  {
    var p := Put(d, k, v);
    assert p == d + [Entry(k, v)];
    assert IndexOf(p, k) == |d|;
  }
}
