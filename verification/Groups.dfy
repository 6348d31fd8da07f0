/**
 Sums in a commutative group, and the loops of crypto/src/lib.rs that add up and subtract
 public keys. Keys and signatures are elements of any commutative groups; a signature is a
 homomorphic image of the key for each message.
 */
module Groups {
  datatype Group<!G(!new)> = Group(zero: G, add: (G, G) -> G, sub: (G, G) -> G) {
    ghost predicate Lawful() {
      && (forall a, b :: add(a, b) == add(b, a))
      && (forall a, b, c :: add(add(a, b), c) == add(a, add(b, c)))
      && (forall a :: add(a, zero) == a)
      && (forall a, b :: sub(add(a, b), b) == a)
    }
  }

  lemma Swap<G(!new)>(g: Group<G>, a: G, b: G, c: G)
    requires g.Lawful()
    ensures g.add(g.add(a, b), c) == g.add(g.add(a, c), b)
  {
    assert g.add(g.add(a, b), c) == g.add(a, g.add(b, c));
    assert g.add(b, c) == g.add(c, b);
    assert g.add(a, g.add(c, b)) == g.add(g.add(a, c), b);
  }

  // The sum of the values of m at positions below n.
  function Total<G(!new)>(g: Group<G>, n: nat, m: map<nat, G>): G {
    if n == 0 then g.zero
    else if n - 1 in m then g.add(Total(g, n - 1, m), m[n - 1])
    else Total(g, n - 1, m)
  }

  lemma {:induction false} TotalOfSame<G(!new)>(g: Group<G>, n: nat, m: map<nat, G>, m': map<nat, G>)
    requires forall i :: 0 <= i < n ==> (i in m <==> i in m') && (i in m ==> m[i] == m'[i])
    ensures Total(g, n, m) == Total(g, n, m')
  {
    if n > 0 {
      TotalOfSame(g, n - 1, m, m');
    }
  }

  // A sum does not depend on the order in which its terms were added.
  lemma {:induction false} TotalInsert<G(!new)>(g: Group<G>, n: nat, m: map<nat, G>, id: nat, x: G)
    requires g.Lawful() && id < n && id !in m
    ensures Total(g, n, m[id := x]) == g.add(Total(g, n, m), x)
  {
    var m' := m[id := x];
    if id == n - 1 {
      TotalOfSame(g, n - 1, m, m');
    } else {
      TotalInsert(g, n - 1, m, id, x);
      if n - 1 in m {
        Swap(g, Total(g, n - 1, m), x, m[n - 1]);
      }
    }
  }

  lemma {:induction false} TotalOfNone<G(!new)>(g: Group<G>, n: nat, m: map<nat, G>)
    requires forall i :: 0 <= i < n ==> i !in m
    ensures Total(g, n, m) == g.zero
  {
    if n > 0 {
      TotalOfNone(g, n - 1, m);
    }
  }

  // ---------------------------------------------------------------- the loops over keys

  // The keys at the given positions.
  function At<G>(keys: seq<G>, ids: set<nat>): map<nat, G>
    requires forall i :: i in ids ==> i < |keys|
  {
    map i | i in ids :: keys[i]
  }

  function Below(n: nat): (s: set<nat>)
    ensures forall i :: i in s <==> 0 <= i < n
  {
    if n == 0 then {} else Below(n - 1) + {n - 1}
  }

  function Elements(ids: seq<nat>): set<nat> {
    set k | 0 <= k < |ids| :: ids[k]
  }

  predicate Distinct(ids: seq<nat>) {
    forall a, b :: 0 <= a < b < |ids| ==> ids[a] != ids[b]
  }

  lemma AddKey<G(!new)>(g: Group<G>, keys: seq<G>, ids: set<nat>, id: nat)
    requires g.Lawful() && (forall i :: i in ids ==> i < |keys|) && id < |keys| && id !in ids
    ensures Total(g, |keys|, At(keys, ids + {id})) == g.add(Total(g, |keys|, At(keys, ids)), keys[id])
  {
    assert At(keys, ids + {id}) == At(keys, ids)[id := keys[id]];
    TotalInsert(g, |keys|, At(keys, ids), id, keys[id]);
  }

  lemma AddFirst<G(!new)>(g: Group<G>, keys: seq<G>, id: nat)
    requires g.Lawful() && id < |keys|
    ensures Total(g, |keys|, At(keys, {id})) == keys[id]
  {
    AddKey(g, keys, {}, id);
    TotalOfNone(g, |keys|, At(keys, {}));
    assert {} + {id} == {id};
    assert g.add(g.zero, keys[id]) == g.add(keys[id], g.zero);
  }

  /** combine_keys, crypto/src/lib.rs:444-455: the sum of all keys. */
  method CombineKeys<G(!new)>(g: Group<G>, keys: seq<G>) returns (sum: G)
    requires g.Lawful() && |keys| > 0
    ensures sum == Total(g, |keys|, At(keys, Below(|keys|)))
  {
    sum := keys[0];
    AddFirst(g, keys, 0);
    assert Below(1) == {0};
    for i := 1 to |keys|
      invariant sum == Total(g, |keys|, At(keys, Below(i)))
    {
      AddKey(g, keys, Below(i), i);
      sum := g.add(sum, keys[i]);
    }
  }

  lemma PrefixElements(ids: seq<nat>, k: nat)
    requires Distinct(ids) && k < |ids|
    ensures Elements(ids[..k + 1]) == Elements(ids[..k]) + {ids[k]} && ids[k] !in Elements(ids[..k])
  {
    assert ids[..k + 1] == ids[..k] + [ids[k]];
  }

  // The sum of the keys at the given positions, with repetition.
  function Sum<G(!new)>(g: Group<G>, keys: seq<G>, ids: seq<nat>): G
    requires forall k :: 0 <= k < |ids| ==> ids[k] < |keys|
  {
    if ids == [] then g.zero else g.add(Sum(g, keys, ids[..|ids| - 1]), keys[ids[|ids| - 1]])
  }

  lemma {:induction false} SumOfDistinct<G(!new)>(g: Group<G>, keys: seq<G>, ids: seq<nat>)
    requires g.Lawful() && Distinct(ids) && forall k :: 0 <= k < |ids| ==> ids[k] < |keys|
    ensures Sum(g, keys, ids) == Total(g, |keys|, At(keys, Elements(ids)))
  {
    if ids == [] {
      TotalOfNone(g, |keys|, At(keys, Elements(ids)));
    } else {
      var rest := ids[..|ids| - 1];
      SumOfDistinct(g, keys, rest);
      PrefixElements(ids, |ids| - 1);
      assert ids[..|ids|] == ids;
      AddKey(g, keys, Elements(rest), ids[|ids| - 1]);
    }
  }

  lemma SumStep<G(!new)>(g: Group<G>, keys: seq<G>, ids: seq<nat>, i: nat)
    requires g.Lawful() && i < |ids| && forall k :: 0 <= k < |ids| ==> ids[k] < |keys|
    ensures Sum(g, keys, ids[..i + 1]) == g.add(Sum(g, keys, ids[..i]), keys[ids[i]])
    ensures i == 0 ==> Sum(g, keys, ids[..1]) == keys[ids[0]]
  {
    assert ids[..i + 1][..i] == ids[..i];
    assert g.add(g.zero, keys[ids[i]]) == g.add(keys[ids[i]], g.zero);
  }

  /** combine_key_from_ids, crypto/src/lib.rs:457-473: for distinct positions, the sum of the keys there. */
  method CombineKeyFromIds<G(!new)>(g: Group<G>, ids: seq<nat>, keys: seq<G>) returns (sum: G)
    requires g.Lawful() && |ids| > 0 && forall k :: 0 <= k < |ids| ==> ids[k] < |keys|
    ensures sum == Sum(g, keys, ids)
    ensures Distinct(ids) ==> sum == Total(g, |keys|, At(keys, Elements(ids)))
  {
    sum := keys[ids[0]];
    SumStep(g, keys, ids, 0);
    for i := 1 to |ids|
      invariant sum == Sum(g, keys, ids[..i])
    {
      SumStep(g, keys, ids, i);
      sum := g.add(sum, keys[ids[i]]);
    }
    assert ids[..|ids|] == ids;
    if Distinct(ids) {
      SumOfDistinct(g, keys, ids);
    }
  }

  /** remove_pubkeys, crypto/src/lib.rs:431-441: subtracting some of the summands leaves the sum of the others. */
  method RemovePubkeys<G(!new)>(g: Group<G>, agg: G, ids: seq<nat>, keys: seq<G>, ghost summed: set<nat>) returns (rest: G)
    requires g.Lawful() && Distinct(ids) && Elements(ids) <= summed
    requires forall i :: i in summed ==> i < |keys|
    requires agg == Total(g, |keys|, At(keys, summed))
    ensures rest == Total(g, |keys|, At(keys, summed - Elements(ids)))
  {
    rest := agg;
    assert summed - Elements(ids[..0]) == summed;
    for k := 0 to |ids|
      invariant rest == Total(g, |keys|, At(keys, summed - Elements(ids[..k])))
    {
      PrefixElements(ids, k);
      var left := summed - Elements(ids[..k + 1]);
      assert left + {ids[k]} == summed - Elements(ids[..k]) by { assert ids[k] in Elements(ids); }
      AddKey(g, keys, left, ids[k]);
      rest := g.sub(rest, keys[ids[k]]);
    }
    assert ids[..|ids|] == ids;
  }
}
