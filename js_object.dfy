/**
 * A JavaScript object with string keys, as an association list of its own
 * keys in insertion order. Keys of an object are distinct; assigning to a
 * key that is already there overwrites its value in place, otherwise the key
 * is appended. The one exception is `__proto__`: on an object made by `{}`,
 * assigning it runs the inherited setter (it replaces the prototype, or does
 * nothing for a string value) and adds no key of its own, so
 * `JSON.stringify` never writes it.
 */
module JsObject {
  import opened Wrappers

  type Entries<V> = seq<(string, V)>

  /** `Object.keys(o)`, in iteration order. */
  function Keys<V>(es: Entries<V>): (ks: seq<string>)
    ensures |ks| == |es|
    ensures forall i :: 0 <= i < |es| ==> ks[i] == es[i].0
  {
    if es == [] then [] else [es[0].0] + Keys(es[1..])
  }

  /** The key whose assignment goes to the inherited `__proto__` setter. */
  const ProtoKey: string := "__proto__"

  /** No pair of `ps` is assigned under `__proto__`. */
  predicate NoProtoKey<V>(ps: Entries<V>)
  {
    forall i :: 0 <= i < |ps| ==> ps[i].0 != ProtoKey
  }

  predicate DistinctKeys<V>(es: Entries<V>)
  {
    forall i, j :: 0 <= i < j < |es| ==> es[i].0 != es[j].0
  }

  /** `o[k]`, `None` when `k` is not a key of `o`. */
  function Lookup<V>(es: Entries<V>, k: string): (r: Option<V>)
    ensures r.Some? <==> k in Keys(es)
  {
    if es == [] then None
    else if es[0].0 == k then Some(es[0].1)
    else
      assert Keys(es) == [es[0].0] + Keys(es[1..]);
      Lookup(es[1..], k)
  }

  /** `o[k] = v`: overwrite in place when `k` is a key, append otherwise; `__proto__` adds no key. */
  function Assign<V>(es: Entries<V>, k: string, v: V): (r: Entries<V>)
    ensures k == ProtoKey ==> r == es
    ensures k in Keys(es) ==> Keys(r) == Keys(es)
    ensures k !in Keys(es) && k != ProtoKey ==> r == es + [(k, v)]
  {
    if k == ProtoKey then es
    else if es == [] then [(k, v)]
    else if es[0].0 == k then [(k, v)] + es[1..]
    else
      assert Keys(es) == [es[0].0] + Keys(es[1..]);
      [es[0]] + Assign(es[1..], k, v)
  }

  /** After `o[k] = v`, the own key `k` holds `v` (unless `k` is `__proto__`) and every other key reads as before. */
  lemma {:induction false} AssignLookup<V>(es: Entries<V>, k: string, v: V, k': string)
    ensures Lookup(Assign(es, k, v), k') == if k' == k && k != ProtoKey then Some(v) else Lookup(es, k')
  {
    if k != ProtoKey && es != [] && es[0].0 != k {
      AssignLookup(es[1..], k, v, k');
      assert Assign(es, k, v)[1..] == Assign(es[1..], k, v);
    }
  }

  /** Assignment keeps the keys of an object distinct. */
  lemma AssignDistinct<V>(es: Entries<V>, k: string, v: V)
    requires DistinctKeys(es)
    ensures DistinctKeys(Assign(es, k, v))
  {
    var r := Assign(es, k, v);
    if k in Keys(es) {
      assert forall i :: 0 <= i < |r| ==> r[i].0 == Keys(r)[i] == Keys(es)[i];
    }
  }

  /** The object built by assigning every pair of `ps` in order, starting from `{}`. */
  function AssignAll<V>(ps: Entries<V>): Entries<V>
  {
    if ps == [] then []
    else Assign(AssignAll(ps[..|ps| - 1]), ps[|ps| - 1].0, ps[|ps| - 1].1)
  }

  /** The built object has distinct keys, and they are exactly the keys of `ps` other than `__proto__`. */
  lemma {:induction false} AssignAllKeys<V>(ps: Entries<V>)
    ensures DistinctKeys(AssignAll(ps))
    ensures forall k :: k in Keys(AssignAll(ps)) <==> k in Keys(ps) && k != ProtoKey
  {
    if ps != [] {
      var init, last := ps[..|ps| - 1], ps[|ps| - 1];
      AssignAllKeys(init);
      var built := AssignAll(init);
      AssignDistinct(built, last.0, last.1);
      assert Keys(ps) == Keys(init) + [last.0];
      if last.0 !in Keys(built) && last.0 != ProtoKey {
        assert Keys(built + [last]) == Keys(built) + [last.0];
      }
    }
  }

  /** Reference definition: the value of the last pair of `ps` with key `k`. */
  function LastValue<V>(ps: Entries<V>, k: string): Option<V>
  {
    if ps == [] then None
    else if ps[|ps| - 1].0 == k then Some(ps[|ps| - 1].1)
    else LastValue(ps[..|ps| - 1], k)
  }

  /** Later assignments win: looking up a key of the built object gives the last value assigned to it. */
  lemma {:induction false} AssignAllLookup<V>(ps: Entries<V>, k: string)
    ensures Lookup(AssignAll(ps), k) == if k == ProtoKey then None else LastValue(ps, k)
  {
    if ps != [] {
      var init, last := ps[..|ps| - 1], ps[|ps| - 1];
      AssignAllLookup(init, k);
      AssignLookup(AssignAll(init), last.0, last.1, k);
    }
  }

  /** When no key repeats and none is `__proto__`, building the object keeps every pair, in order. */
  lemma {:induction false} AssignAllDistinct<V>(ps: Entries<V>)
    requires DistinctKeys(ps) && NoProtoKey(ps)
    ensures AssignAll(ps) == ps
  {
    if ps != [] {
      var init, last := ps[..|ps| - 1], ps[|ps| - 1];
      assert init + [last] == ps;
      assert DistinctKeys(init) && NoProtoKey(init);
      AssignAllDistinct(init);
      assert last.0 != ProtoKey;
      assert last.0 !in Keys(init) by {
        assert forall i :: 0 <= i < |init| ==> Keys(init)[i] == ps[i].0 != last.0;
      }
      assert AssignAll(ps) == Assign(init, last.0, last.1);
    }
  }
}
