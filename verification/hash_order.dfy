/**
 * Iteration over a `HashMap`. The order in which `keySet()` and
 * `values()` hand out their elements is fixed by hashing and capacity,
 * which the model does not reproduce: an iteration is any sequence that
 * lists every key exactly once, and results that depend on it are compared
 * as multisets.
 */
module HashOrder {

  /** `order` lists each key of `keys` exactly once, and nothing else. */
  predicate Enumerates<K>(order: seq<K>, keys: set<K>) {
    multiset(order) == multiset(keys)
  }

  lemma EnumeratesMembers<K>(order: seq<K>, keys: set<K>)
    requires Enumerates(order, keys)
    ensures forall k :: k in order <==> k in keys
    ensures |order| == |keys|
  {
    forall k
      ensures k in order <==> k in keys
    {
      assert k in order <==> k in multiset(order);
      assert k in keys <==> k in multiset(keys);
    }
    assert |order| == |multiset(order)| == |multiset(keys)| == |keys|;
  }

  /** Two iterations of the same key set list the same keys, each once, in some order. */
  lemma EnumerationsArePermutations<K>(o1: seq<K>, o2: seq<K>, keys: set<K>)
    requires Enumerates(o1, keys) && Enumerates(o2, keys)
    ensures multiset(o1) == multiset(o2)
    ensures |o1| == |o2|
  {
    assert |o1| == |multiset(o1)| == |multiset(o2)| == |o2|;
  }

  /**
   * `new ArrayList<>(m.keySet())`: an iteration of the key set, in an
   * order the model leaves open.
   */
  method Enumerate<K>(keys: set<K>) returns (order: seq<K>)
    ensures Enumerates(order, keys)
  {
    order := [];
    var rest := keys;
    while rest != {}
      invariant rest <= keys
      invariant multiset(order) + multiset(rest) == multiset(keys)
      decreases |rest|
    {
      var k :| k in rest;
      assert multiset(rest) == multiset(rest - {k}) + multiset{k} by {
        assert rest == (rest - {k}) + {k};
      }
      order := order + [k];
      rest := rest - {k};
    }
  }

  /** The values of `m` visited in the key order `order`. */
  function Values<K, V>(m: map<K, V>, order: seq<K>): (r: seq<V>)
    requires forall k :: k in order ==> k in m
    ensures |r| == |order|
    ensures forall i :: 0 <= i < |order| ==> r[i] == m[order[i]]
  {
    seq(|order|, i requires 0 <= i < |order| => m[order[i]])
  }

  lemma ValuesAppend<K, V>(m: map<K, V>, a: seq<K>, b: seq<K>)
    requires forall k :: k in a + b ==> k in m
    ensures Values(m, a + b) == Values(m, a) + Values(m, b)
  {
  }

  /**
   * The values seen along an iteration of the whole key set: every value
   * of the map, as often as keys map to it.
   */
  lemma ValuesMembers<K, V>(m: map<K, V>, order: seq<K>)
    requires Enumerates(order, m.Keys)
    ensures forall k :: k in order ==> k in m
    ensures forall v :: v in Values(m, order) <==> v in m.Values
    ensures |Values(m, order)| == |m|
  {
    EnumeratesMembers(order, m.Keys);
    forall v | v in m.Values
      ensures v in Values(m, order)
    {
      var k :| k in m && m[k] == v;
      var i :| 0 <= i < |order| && order[i] == k;
      assert Values(m, order)[i] == v;
    }
  }

  /** Taking the element at `j` out of a sequence takes one copy of it out of its multiset. */
  lemma RemoveAt<K>(o: seq<K>, j: int)
    requires 0 <= j < |o|
    ensures multiset(o[..j] + o[j + 1..]) + multiset{o[j]} == multiset(o)
  {
    assert o == o[..j] + [o[j]] + o[j + 1..];
  }

  /** The same for the values seen along `o`. */
  lemma ValuesRemoveAt<K, V>(m: map<K, V>, o: seq<K>, j: int)
    requires forall k :: k in o ==> k in m
    requires 0 <= j < |o|
    ensures multiset(Values(m, o[..j] + o[j + 1..])) + multiset{m[o[j]]} == multiset(Values(m, o))
  {
    var vs := Values(m, o);
    assert Values(m, o[..j] + o[j + 1..]) == vs[..j] + vs[j + 1..];
    RemoveAt(vs, j);
  }

  lemma Cancel<T>(a: multiset<T>, b: multiset<T>, x: T)
    requires a + multiset{x} == b + multiset{x}
    ensures a == b
  {
    assert a == a + multiset{x} - multiset{x};
    assert b == b + multiset{x} - multiset{x};
  }

  lemma PermutationMembers<K>(o1: seq<K>, o2: seq<K>)
    requires multiset(o1) == multiset(o2)
    ensures forall k :: k in o2 ==> k in o1
  {
    forall k | k in o2
      ensures k in o1
    {
      assert k in multiset(o2);
    }
  }

  lemma ValuesRemoveFirst<K, V>(m: map<K, V>, o: seq<K>)
    requires forall k :: k in o ==> k in m
    requires |o| > 0
    ensures multiset(Values(m, o)) == multiset(Values(m, o[1..])) + multiset{m[o[0]]}
  {
    assert Values(m, o) == [m[o[0]]] + Values(m, o[1..]);
  }

  /** Taking the same key out of two key sequences whose values agree as multisets keeps them agreeing. */
  lemma ValuesPermutationStep<K, V>(m: map<K, V>, o1: seq<K>, o2: seq<K>, j: int)
    requires forall k :: k in o1 ==> k in m
    requires forall k :: k in o2 ==> k in m
    requires |o1| > 0 && 0 <= j < |o2| && o2[j] == o1[0]
    requires multiset(Values(m, o1[1..])) == multiset(Values(m, o2[..j] + o2[j + 1..]))
    ensures multiset(Values(m, o1)) == multiset(Values(m, o2))
  {
    ValuesRemoveAt(m, o2, j);
    ValuesRemoveFirst(m, o1);
  }

  /** Permuting the keys permutes the values: the multiset of values does not depend on the iteration. */
  lemma {:induction false} ValuesPermutation<K, V>(m: map<K, V>, o1: seq<K>, o2: seq<K>)
    requires forall k :: k in o1 ==> k in m
    requires multiset(o1) == multiset(o2)
    ensures forall k :: k in o2 ==> k in m
    ensures multiset(Values(m, o1)) == multiset(Values(m, o2))
    decreases |o1|
  {
    PermutationMembers(o1, o2);
    if |o1| == 0 {
      assert |o2| == |multiset(o2)| == 0;
    } else {
      var x := o1[0];
      assert x in multiset(o2);
      var j :| 0 <= j < |o2| && o2[j] == x;
      var rest := o2[..j] + o2[j + 1..];
      RemoveAt(o2, j);
      RemoveAt(o1, 0);
      assert o1[..0] + o1[1..] == o1[1..];
      Cancel(multiset(rest), multiset(o1[1..]), x);
      ValuesPermutation(m, o1[1..], rest);
      ValuesPermutationStep(m, o1, o2, j);
    }
  }

  /**
   * `new ArrayList<>(m.values())`: the map's values along an iteration of
   * its keys.
   */
  method ValuesOf<K, V(==)>(m: map<K, V>) returns (vs: seq<V>)
    ensures |vs| == |m|
    ensures forall v :: v in vs <==> v in m.Values
  {
    var order := Enumerate(m.Keys);
    ValuesMembers(m, order);
    vs := Values(m, order);
  }
}
