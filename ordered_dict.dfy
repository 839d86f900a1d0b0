/** Python dicts as the catalog index uses them: insertion-ordered, and
    built by a comprehension `{k: v for ...}` in which a later pair with an
    existing key replaces the value but keeps the key's first position. */
module OrderedDict {

  /** A dict: its keys in insertion order, and the key-to-value mapping. */
  datatype Dict<K, V> = Dict(keys: seq<K>, m: map<K, V>)

  /** Each key is listed once, and the listed keys are the mapped ones. */
  ghost predicate Valid<K, V>(d: Dict<K, V>)
  {
    && (forall i, j :: 0 <= i < j < |d.keys| ==> d.keys[i] != d.keys[j])
    && (forall k :: k in d.m ==> k in d.keys)
    && (forall i :: 0 <= i < |d.keys| ==> d.keys[i] in d.m)
  }

  function Empty<K(==), V>(): Dict<K, V>
  {
    Dict([], map[])
  }

  /** `d[k] = v`: a new key goes to the end; an existing key keeps its place. */
  function Insert<K(==), V>(d: Dict<K, V>, k: K, v: V): (r: Dict<K, V>)
    requires Valid(d)
    ensures Valid(r)
  {
    if k in d.m then Dict(d.keys, d.m[k := v]) else Dict(d.keys + [k], d.m[k := v])
  }

  /** `{ks[i]: vs[i] for i in range(len(ks))}` */
  function Comprehension<K(==), V>(ks: seq<K>, vs: seq<V>): (d: Dict<K, V>)
    requires |ks| == |vs|
    ensures Valid(d)
  {
    if ks == [] then Empty()
    else Insert(Comprehension(ks[..|ks| - 1], vs[..|vs| - 1]), ks[|ks| - 1], vs[|vs| - 1])
  }

  /** The position of the first occurrence of `k` in `ks`. */
  function FirstIndex<K(==)>(ks: seq<K>, k: K): (i: nat)
    requires k in ks
    ensures i < |ks| && ks[i] == k
    ensures forall j :: 0 <= j < i ==> ks[j] != k
  {
    if ks[0] == k then 0 else 1 + FirstIndex(ks[1..], k)
  }

  /** The position of the last occurrence of `k` in `ks`. */
  function LastIndex<K(==)>(ks: seq<K>, k: K): (i: nat)
    requires k in ks
    ensures i < |ks| && ks[i] == k
    ensures forall j :: i < j < |ks| ==> ks[j] != k
  {
    if ks[|ks| - 1] == k then |ks| - 1 else LastIndex(ks[..|ks| - 1], k)
  }

  /** The comprehension's keys are exactly the keys it was given. */
  lemma {:induction false} ComprehensionKeys<K, V>(ks: seq<K>, vs: seq<V>)
    requires |ks| == |vs|
    ensures forall k :: k in Comprehension(ks, vs).m <==> k in ks
  {
    if ks != [] {
      var n := |ks| - 1;
      ComprehensionKeys(ks[..n], vs[..n]);
      assert ks == ks[..n] + [ks[n]];
    }
  }

  /** Later duplicates win: a key maps to the value paired with its last
      occurrence. */
  lemma {:induction false} ComprehensionLastWins<K, V>(ks: seq<K>, vs: seq<V>, k: K)
    requires |ks| == |vs| && k in ks
    ensures k in Comprehension(ks, vs).m
    ensures Comprehension(ks, vs).m[k] == vs[LastIndex(ks, k)]
  {
    var n := |ks| - 1;
    if ks[n] != k {
      assert ks == ks[..n] + [ks[n]];
      ComprehensionLastWins(ks[..n], vs[..n], k);
    }
  }

  /** Every value of the comprehension is one of the values it was given. */
  lemma {:induction false} ComprehensionValue<K, V>(ks: seq<K>, vs: seq<V>, k: K)
    requires |ks| == |vs| && k in Comprehension(ks, vs).m
    ensures Comprehension(ks, vs).m[k] in vs
  {
    ComprehensionKeys(ks, vs);
    ComprehensionLastWins(ks, vs, k);
  }

  /** Every key the comprehension lists is one of the keys it was given. */
  lemma ComprehensionListed<K, V>(ks: seq<K>, vs: seq<V>)
    requires |ks| == |vs|
    ensures forall p :: 0 <= p < |Comprehension(ks, vs).keys| ==> Comprehension(ks, vs).keys[p] in ks
  {
    ComprehensionKeys(ks, vs);
  }

  /** Iteration order is the order of first occurrence: a key comes before
      another in the dict exactly when it was first given earlier. */
  lemma {:induction false} ComprehensionOrder<K, V>(ks: seq<K>, vs: seq<V>)
    requires |ks| == |vs|
    ensures forall p :: 0 <= p < |Comprehension(ks, vs).keys| ==> Comprehension(ks, vs).keys[p] in ks
    ensures forall p, q :: 0 <= p < q < |Comprehension(ks, vs).keys| ==>
      FirstIndex(ks, Comprehension(ks, vs).keys[p]) < FirstIndex(ks, Comprehension(ks, vs).keys[q])
  {
    ComprehensionListed(ks, vs);
    if ks != [] {
      var n := |ks| - 1;
      var prefix := ks[..n];
      var e := Comprehension(prefix, vs[..n]);
      ComprehensionOrder(prefix, vs[..n]);
      ComprehensionKeys(prefix, vs[..n]);
      assert ks == prefix + [ks[n]];
      forall p | 0 <= p < |e.keys|
        ensures FirstIndex(ks, e.keys[p]) == FirstIndex(prefix, e.keys[p])
      {
        FirstPrefix(prefix, ks[n], e.keys[p]);
      }
      if ks[n] in prefix {
        assert Comprehension(ks, vs).keys == e.keys;
      } else {
        assert Comprehension(ks, vs).keys == e.keys + [ks[n]];
        assert FirstIndex(ks, ks[n]) == n;
      }
    }
  }

  lemma {:induction false} FirstPrefix<K>(ks: seq<K>, last: K, k: K)
    requires k in ks
    ensures FirstIndex(ks + [last], k) == FirstIndex(ks, k)
  {
    if ks[0] != k {
      assert (ks + [last])[1..] == ks[1..] + [last];
      FirstPrefix(ks[1..], last, k);
    }
  }
}
