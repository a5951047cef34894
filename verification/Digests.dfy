/**
 Counts and XOR digests of sets of log keys. What one entry adds to a digest
 (the hash of its key and length) is a parameter, `ItemOf`.
 */
module Digests {
  import opened LogKeys

  const DIGEST_BYTES := 32

  type Digest = d: seq<bv8> | |d| == DIGEST_BYTES witness seq(DIGEST_BYTES, _ => 0)
  type ItemOf = (Nibbles, nat) -> Digest

  const ZERO: Digest := seq(DIGEST_BYTES, _ => 0)

  /** A sub-range as a `ranges` message describes it. */
  datatype Part = Part(count: nat, digest: Digest)

  const EMPTY_PART := Part(0, ZERO)

  /** The keys one member holds, in order, with their logs' lengths. */
  datatype Held = Held(sorted: seq<Nibbles>, lengths: map<Nibbles, nat>)

  function Xor(a: Digest, b: Digest): Digest {
    seq(DIGEST_BYTES, i requires 0 <= i < DIGEST_BYTES => a[i] ^ b[i])
  }

  lemma XorLaws(a: Digest, b: Digest, c: Digest)
    ensures Xor(a, b) == Xor(b, a)
    ensures Xor(Xor(a, b), c) == Xor(a, Xor(b, c))
    ensures Xor(a, ZERO) == a && Xor(ZERO, a) == a
    ensures Xor(a, a) == ZERO
  {
    assert forall i | 0 <= i < DIGEST_BYTES :: (a[i] ^ b[i]) ^ c[i] == a[i] ^ (b[i] ^ c[i]);
    assert Xor(Xor(a, b), c) == Xor(a, Xor(b, c));
  }

  // The loop of `xor`, writing into its first argument.
  method XorInto(into: array<bv8>, b: Digest)
    requires into.Length == DIGEST_BYTES
    modifies into
    ensures into[..] == Xor(old(into[..]), b)
  {
    for i := 0 to DIGEST_BYTES
      invariant forall k :: 0 <= k < i ==> into[k] == old(into[k]) ^ b[k]
      invariant forall k :: i <= k < DIGEST_BYTES ==> into[k] == old(into[k])
    {
      into[i] := into[i] ^ b[i];
    }
  }

  /** The XOR of the items of `keys`, each with its length in `lengths`. */
  function DigestOf(item: ItemOf, keys: seq<Nibbles>, lengths: map<Nibbles, nat>): Digest
    requires forall k :: k in keys ==> k in lengths
  {
    if keys == [] then ZERO
    else
      var last := keys[|keys| - 1];
      Xor(DigestOf(item, keys[..|keys| - 1], lengths), item(last, lengths[last]))
  }

  /** The keys of `keys` with this prefix, in their order. */
  function Filter(keys: seq<Nibbles>, prefix: Nibbles): (r: seq<Nibbles>)
    ensures forall k :: k in r ==> k in keys && Within(k, prefix)
    ensures |r| <= |keys|
  {
    if keys == [] then []
    else
      var last := keys[|keys| - 1];
      Filter(keys[..|keys| - 1], prefix) + if Within(last, prefix) then [last] else []
  }

  /** What a range of these keys adds up to: how many, and the XOR of their items. */
  function PartOf(item: ItemOf, keys: seq<Nibbles>, lengths: map<Nibbles, nat>, prefix: Nibbles): Part
    requires forall k :: k in keys ==> k in lengths
  {
    var inside := Filter(keys, prefix);
    Part(|inside|, DigestOf(item, inside, lengths))
  }

  ghost predicate Sorted(keys: seq<Nibbles>) {
    forall i, j :: 0 <= i < j < |keys| ==> Less(keys[i], keys[j])
  }

  /** A well-formed holding: keys of 32 bytes in strictly increasing order, all with a length. */
  ghost predicate Consistent(h: Held) {
    && Sorted(h.sorted)
    && (forall k :: k in h.sorted <==> k in h.lengths)
    && (forall k :: k in h.lengths ==> IsKey(k))
  }

  lemma {:induction false} DigestOfConcat(item: ItemOf, a: seq<Nibbles>, b: seq<Nibbles>, lengths: map<Nibbles, nat>)
    requires forall k :: k in a + b ==> k in lengths
    ensures DigestOf(item, a + b, lengths) == Xor(DigestOf(item, a, lengths), DigestOf(item, b, lengths))
  {
    assert forall k :: k in a ==> k in a + b;
    assert forall k :: k in b ==> k in a + b;
    if b == [] {
      assert a + b == a;
      XorLaws(DigestOf(item, a, lengths), ZERO, ZERO);
    } else {
      var init := b[..|b| - 1];
      assert (a + b)[..|a + b| - 1] == a + init;
      DigestOfConcat(item, a, init, lengths);
      XorLaws(DigestOf(item, a, lengths), DigestOf(item, init, lengths), item(b[|b| - 1], lengths[b[|b| - 1]]));
    }
  }

  lemma {:induction false} FilterConcat(a: seq<Nibbles>, b: seq<Nibbles>, prefix: Nibbles)
    ensures Filter(a + b, prefix) == Filter(a, prefix) + Filter(b, prefix)
  {
    if b == [] {
      assert a + b == a;
    } else {
      assert (a + b)[..|a + b| - 1] == a + b[..|b| - 1];
      FilterConcat(a, b[..|b| - 1], prefix);
    }
  }

  lemma {:induction false} FilterKeepsAll(keys: seq<Nibbles>, prefix: Nibbles, key: Nibbles)
    requires key in keys && Within(key, prefix)
    ensures key in Filter(keys, prefix)
  {
    if key != keys[|keys| - 1] {
      assert keys == keys[..|keys| - 1] + [keys[|keys| - 1]];
      FilterKeepsAll(keys[..|keys| - 1], prefix, key);
    }
  }

  lemma {:induction false} FilterAllOrNone(keys: seq<Nibbles>, prefix: Nibbles)
    ensures (forall k :: k in keys ==> Within(k, prefix)) ==> Filter(keys, prefix) == keys
    ensures (forall k :: k in keys ==> !Within(k, prefix)) ==> Filter(keys, prefix) == []
  {
    if keys != [] {
      FilterAllOrNone(keys[..|keys| - 1], prefix);
      assert keys == keys[..|keys| - 1] + [keys[|keys| - 1]];
    }
  }

  lemma {:induction false} FilterOfFilter(keys: seq<Nibbles>, outer: Nibbles, inner: Nibbles)
    requires outer <= inner
    ensures Filter(Filter(keys, outer), inner) == Filter(keys, inner)
  {
    if keys != [] {
      var init, last := keys[..|keys| - 1], keys[|keys| - 1];
      FilterOfFilter(init, outer, inner);
      if Within(last, outer) {
        FilterConcat(Filter(init, outer), [last], inner);
        assert Filter([last], inner) == Filter([], inner) + (if Within(last, inner) then [last] else []);
      } else {
        assert Filter(keys, outer) == Filter(init, outer);
        assert Filter(keys, inner) == Filter(init, inner);
      }
    }
  }

  lemma SliceSteps<T>(xs: seq<T>, n: nat, s: nat, e: nat)
    requires s <= e <= n <= |xs|
    ensures xs[..n][s..e] == xs[s..e]
    ensures e < |xs| ==> xs[s..e + 1] == xs[s..e] + [xs[e]]
  {
  }

  lemma TakeStep<T>(xs: seq<T>, n: nat)
    requires n < |xs|
    ensures xs[..n + 1] == xs[..n] + [xs[n]]
  {
  }

  lemma FilterStep(keys: seq<Nibbles>, prefix: Nibbles)
    ensures
      Filter(keys, prefix) ==
      if keys == [] then [] else Filter(keys[..|keys| - 1], prefix) + if Within(keys[|keys| - 1], prefix) then
        [keys[|keys| - 1]] else []
  {
  }

  /** Slicing between the ends of a run of keys with the prefix is filtering by it. */
  lemma {:induction false} SliceIsFilter(keys: seq<Nibbles>, prefix: Nibbles, s: nat, e: nat)
    requires s <= e <= |keys|
    requires forall i :: 0 <= i < |keys| ==> (Within(keys[i], prefix) <==> s <= i < e)
    ensures keys[s..e] == Filter(keys, prefix)
  {
    hide Within, Filter;
    if keys == [] {
      FilterStep(keys, prefix);
    } else {
      var n := |keys| - 1;
      FilterStep(keys, prefix);
      var s', e' := if s <= n then s else n, if e <= n then e else n;
      SliceIsFilter(keys[..n], prefix, s', e');
      SliceSteps(keys, n, s', e');
    }
  }

  /** Only the lengths of the keys themselves matter. */
  lemma {:induction false} DigestOfCongruent(item: ItemOf, keys: seq<Nibbles>, l1: map<Nibbles, nat>,
          l2: map<Nibbles, nat>)
    requires forall k :: k in keys ==> k in l1 && k in l2 && l1[k] == l2[k]
    ensures DigestOf(item, keys, l1) == DigestOf(item, keys, l2)
  {
    if keys != [] {
      DigestOfCongruent(item, keys[..|keys| - 1], l1, l2);
    }
  }

  /** Two strictly increasing lists of the same keys are the same list. */
  lemma {:induction false} SortedIsUnique(a: seq<Nibbles>, b: seq<Nibbles>)
    requires Sorted(a) && Sorted(b)
    requires forall k :: k in a <==> k in b
    ensures a == b
  {
    assert (a != [] ==> a[0] in b) && (b != [] ==> b[0] in a);
    if a != [] && b != [] {
      var x, y := a[|a| - 1], b[|b| - 1];
      assert x in b && y in a;
      if x != y {
        var i :| 0 <= i < |b| && b[i] == x;
        var j :| 0 <= j < |a| && a[j] == y;
        assert Less(x, y) && Less(y, x);
        LessAsymmetric(x, y);
      }
      var a', b' := a[..|a| - 1], b[..|b| - 1];
      LastIsFresh(a);
      LastIsFresh(b);
      forall k ensures k in a' <==> k in b' {
        assert k in a <==> k in a' || k == x;
        assert k in b <==> k in b' || k == x;
      }
      SortedIsUnique(a', b');
      assert a == a[..|a| - 1] + [x] && b == b[..|b| - 1] + [y];
    }
  }

  lemma LastIsFresh(a: seq<Nibbles>)
    requires Sorted(a) && a != []
    ensures a[|a| - 1] !in a[..|a| - 1]
    ensures forall k :: k in a <==> k in a[..|a| - 1] || k == a[|a| - 1]
  {
    if a[|a| - 1] in a[..|a| - 1] {
      var i :| 0 <= i < |a| - 1 && a[i] == a[|a| - 1];
      LessIrreflexive(a[i]);
    }
    assert a == a[..|a| - 1] + [a[|a| - 1]];
  }

  /**
   The digest is that of the set held, not of how it came to be held: two
   consistent holdings with the same keys and lengths agree on everything.
   */
  lemma HeldIsCanonical(item: ItemOf, a: Held, b: Held)
    requires Consistent(a) && Consistent(b) && a.lengths == b.lengths
    ensures a == b
    ensures DigestOf(item, a.sorted, a.lengths) == DigestOf(item, b.sorted, b.lengths)
  {
    SortedIsUnique(a.sorted, b.sorted);
  }

  lemma {:induction false} FilterKeepsOrder(keys: seq<Nibbles>, prefix: Nibbles)
    requires Sorted(keys)
    ensures Sorted(Filter(keys, prefix))
  {
    if keys != [] {
      var init, last := keys[..|keys| - 1], keys[|keys| - 1];
      FilterKeepsOrder(init, prefix);
      forall k | k in Filter(init, prefix) ensures Less(k, last) {
        var i :| 0 <= i < |init| && keys[i] == k;
      }
    }
  }
}
