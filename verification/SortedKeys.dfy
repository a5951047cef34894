/**
 The keys a member holds (class Keys of lib/ranges.js): an array kept sorted by
 binary search, a table of lengths and items, and a digest kept up to date by
 XOR, all changed in place.
 */
module SortedKeys {
  import opened LogKeys
  import opened Digests

  const PARTS := 16

  datatype Entry = Entry(length: nat, item: Digest)

  function LengthsIn(entries: map<Nibbles, Entry>): (lengths: map<Nibbles, nat>)
    ensures lengths.Keys == entries.Keys
  {
    map k | k in entries :: entries[k].length
  }

  /**
   The sorted list, the table and the digest say the same thing: the list is
   strictly increasing and holds the table's keys, every item is its entry's,
   and the digest is the XOR of them all.
   */
  ghost predicate Agree(item: ItemOf, sorted: seq<Nibbles>, entries: map<Nibbles, Entry>, digest: seq<bv8>) {
    && Consistent(Held(sorted, LengthsIn(entries)))
    && (forall k :: k in entries ==> entries[k].item == item(k, entries[k].length))
    && digest == DigestOf(item, sorted, LengthsIn(entries))
  }

  /** What `parts` answers: the count and digest of each of the 16 sub-ranges. */
  function PartsOf(item: ItemOf, h: Held, prefix: Nibbles): (parts: seq<Part>)
    requires forall k :: k in h.sorted ==> k in h.lengths
    ensures |parts| == PARTS
  {
    seq(PARTS, i requires 0 <= i < PARTS => PartOf(item, h.sorted, h.lengths, Child(prefix, i)))
  }

  lemma DigestSplit(item: ItemOf, a: seq<Nibbles>, key: Nibbles, b: seq<Nibbles>, lengths: map<Nibbles, nat>)
    requires forall k :: k in a + [key] + b ==> k in lengths
    ensures forall k :: k in a + b ==> k in a + [key] + b
    ensures DigestOf(item, a + [key] + b, lengths) == Xor(DigestOf(item, a + b, lengths), item(key, lengths[key]))
    ensures Xor(DigestOf(item, a + [key] + b, lengths), item(key, lengths[key])) == DigestOf(item, a + b, lengths)
  {
    assert key in a + [key] + b;
    forall k | k in a + b ensures k in a + [key] + b {
      assert k in a || k in b;
    }
    DigestOfConcat(item, a + [key], b, lengths);
    DigestOfConcat(item, a, [key], lengths);
    DigestOfConcat(item, a, b, lengths);
    var da, db, it := DigestOf(item, a, lengths), DigestOf(item, b, lengths), item(key, lengths[key]);
    assert DigestOf(item, [key], lengths) == it by {
      assert [key][..0] == [];
      XorLaws(it, ZERO, ZERO);
    }
    XorLaws(da, it, db);
    XorLaws(it, db, it);
    XorLaws(da, db, it);
    XorLaws(Xor(da, db), it, it);
  }

  lemma InsertKeepsOrder(keys: seq<Nibbles>, i: nat, key: Nibbles)
    requires Sorted(keys) && i <= |keys| && key !in keys
    requires forall j :: 0 <= j < i ==> Less(keys[j], key)
    requires forall j :: i <= j < |keys| ==> !Less(keys[j], key)
    ensures Sorted(keys[..i] + [key] + keys[i..])
  {
    forall j | i <= j < |keys| ensures Less(key, keys[j]) {
      LessTotal(key, keys[j]);
    }
  }

  lemma PositionOf(keys: seq<Nibbles>, i: nat, key: Nibbles)
    requires Sorted(keys) && i <= |keys| && key in keys
    requires forall j :: 0 <= j < i ==> Less(keys[j], key)
    requires forall j :: i <= j < |keys| ==> !Less(keys[j], key)
    ensures i < |keys| && keys[i] == key
    ensures keys == keys[..i] + [key] + keys[i + 1..]
    ensures key !in keys[..i] + keys[i + 1..]
    ensures Sorted(keys[..i] + keys[i + 1..])
  {
    var j :| 0 <= j < |keys| && keys[j] == key;
    LessIrreflexive(key);
  }

  /** One more key of the range adds to the child its next nibble names, and to no other. */
  lemma PartOfSnoc(item: ItemOf, init: seq<Nibbles>, key: Nibbles, lengths: map<Nibbles, nat>, prefix: Nibbles,
          m: Nibble)
    requires IsKey(key) && Within(key, prefix) && |prefix| < KEY_NIBBLES
    requires key in lengths && forall k :: k in init ==> k in lengths
    ensures
      var before := PartOf(item, init, lengths, Child(prefix, m));
      PartOf(item, init + [key], lengths, Child(prefix, m)) ==
      if key[|prefix|] == m then Part(before.count + 1, Xor(before.digest, item(key, lengths[key]))) else before
  {
    ChildOfKey(key, prefix, m);
    assert (init + [key])[..|init|] == init;
    var f := Filter(init, Child(prefix, m));
    assert (f + [key])[..|f|] == f;
    assert Filter(init + [key], Child(prefix, m)) == if key[|prefix|] == m then f + [key] else f;
  }

  lemma BoundsAreOrdered(prefix: Nibbles, x: Nibbles)
    requires |prefix| <= KEY_NIBBLES && Less(x, Bound(prefix, 0))
    ensures Less(x, Bound(prefix, 15))
  {
    var n := KEY_NIBBLES - |prefix|;
    FillIsExtreme(seq(n, _ => 15));
    CommonPrefixCancels(prefix, seq(n, _ => 15), seq(n, _ => 0));
    LessTotal(Bound(prefix, 0), Bound(prefix, 15));
    if Bound(prefix, 0) != Bound(prefix, 15) {
      LessTransitive(x, Bound(prefix, 0), Bound(prefix, 15));
    }
  }

  /** Where the binary search says a key goes, or is. */
  ghost predicate Position(keys: seq<Nibbles>, i: nat, key: Nibbles) {
    && i <= |keys|
    && (forall j :: 0 <= j < i ==> Less(keys[j], key))
    && (forall j :: i <= j < |keys| ==> !Less(keys[j], key))
  }

  lemma InsertEntry(item: ItemOf, h: Held, i: nat, key: Nibbles, length: nat)
    requires Consistent(h) && Position(h.sorted, i, key)
    requires IsKey(key) && key !in h.lengths
    ensures
      var h' := Held(h.sorted[..i] + [key] + h.sorted[i..], h.lengths[key := length]);
      && Consistent(h')
      && DigestOf(item, h'.sorted, h'.lengths) == Xor(DigestOf(item, h.sorted, h.lengths), item(key, length))
  {
    var a, b, lengths := h.sorted[..i], h.sorted[i..], h.lengths[key := length];
    assert h.sorted == a + b;
    assert key !in h.sorted;
    InsertKeepsOrder(h.sorted, i, key);
    forall k ensures k in a + [key] + b <==> k in lengths {
      assert k in a + [key] + b <==> k in h.sorted || k == key;
    }
    DigestSplit(item, a, key, b, lengths);
    DigestOfCongruent(item, a + b, h.lengths, lengths);
  }

  lemma RemoveEntry(item: ItemOf, h: Held, i: nat, key: Nibbles)
    requires Consistent(h) && Position(h.sorted, i, key) && key in h.lengths
    ensures i < |h.sorted| && h.sorted[i] == key
    ensures
      var h' := Held(h.sorted[..i] + h.sorted[i + 1..], h.lengths - {key});
      && Consistent(h')
      && DigestOf(item, h'.sorted, h'.lengths) == Xor(DigestOf(item, h.sorted, h.lengths), item(key, h.lengths[key]))
  {
    assert key in h.sorted;
    PositionOf(h.sorted, i, key);
    var a, b, lengths := h.sorted[..i], h.sorted[i + 1..], h.lengths - {key};
    forall k ensures k in a + b <==> k in lengths {
      assert k in h.sorted <==> k in a + b || k == key;
    }
    DigestSplit(item, a, key, b, h.lengths);
    DigestOfCongruent(item, a + b, h.lengths, lengths);
  }

  lemma ChangeEntry(item: ItemOf, h: Held, key: Nibbles, length: nat)
    requires Consistent(h) && key in h.lengths
    ensures
      var h' := Held(h.sorted, h.lengths[key := length]);
      && Consistent(h')
      && DigestOf(item, h'.sorted, h'.lengths)
         == Xor(Xor(DigestOf(item, h.sorted, h.lengths), item(key, h.lengths[key])), item(key, length))
  {
    hide IsKey, Less, DigestOf;
    var a, b := SplitAt(h, key);
    var lengths := h.lengths[key := length];
    DigestSplit(item, a, key, b, h.lengths);
    DigestSplit(item, a, key, b, lengths);
    DigestOfCongruent(item, a + b, h.lengths, lengths);
  }

  /** A key held stands between keys that are not it. */
  lemma SplitAt(h: Held, key: Nibbles) returns (a: seq<Nibbles>, b: seq<Nibbles>)
    requires Consistent(h) && key in h.lengths
    ensures h.sorted == a + [key] + b && key !in a && key !in b
  {
    assert key in h.sorted;
    var i :| 0 <= i < |h.sorted| && h.sorted[i] == key;
    a, b := h.sorted[..i], h.sorted[i + 1..];
    LessIrreflexive(key);
  }

  lemma AgreeAfterInsert(item: ItemOf, sorted: seq<Nibbles>, entries: map<Nibbles, Entry>, digest: Digest, i: nat,
          key: Nibbles, length: nat)
    requires Agree(item, sorted, entries, digest) && Position(sorted, i, key)
    requires IsKey(key) && key !in entries
    ensures Agree(item, sorted[..i] + [key] + sorted[i..], entries[key := Entry(length, item(key, length))],
                  Xor(digest, item(key, length)))
  {
    InsertEntry(item, Held(sorted, LengthsIn(entries)), i, key, length);
    LengthsUpdated(entries, key, Entry(length, item(key, length)));
  }

  lemma AgreeAfterChange(item: ItemOf, sorted: seq<Nibbles>, entries: map<Nibbles, Entry>, digest: Digest,
          key: Nibbles, length: nat)
    requires Agree(item, sorted, entries, digest) && key in entries
    ensures Agree(item, sorted, entries[key := Entry(length, item(key, length))],
                  Xor(Xor(digest, entries[key].item), item(key, length)))
  {
    ChangeEntry(item, Held(sorted, LengthsIn(entries)), key, length);
    LengthsUpdated(entries, key, Entry(length, item(key, length)));
  }

  lemma AgreeAfterRemove(item: ItemOf, sorted: seq<Nibbles>, entries: map<Nibbles, Entry>, digest: Digest, i: nat,
          key: Nibbles)
    requires Agree(item, sorted, entries, digest) && Position(sorted, i, key) && key in entries
    ensures i < |sorted| && sorted[i] == key
    ensures Agree(item, sorted[..i] + sorted[i + 1..], entries - {key}, Xor(digest, entries[key].item))
    ensures LengthsIn(entries - {key}) == LengthsIn(entries) - {key}
  {
    RemoveEntry(item, Held(sorted, LengthsIn(entries)), i, key);
    assert LengthsIn(entries - {key}) == LengthsIn(entries) - {key};
  }

  lemma LengthsUpdated(entries: map<Nibbles, Entry>, key: Nibbles, e: Entry)
    ensures LengthsIn(entries[key := e]) == LengthsIn(entries)[key := e.length]
  {
  }

  ghost predicate PartsOfList(item: ItemOf, keys: seq<Nibbles>, lengths: map<Nibbles, nat>, prefix: Nibbles,
          parts: seq<Part>)
    requires forall k :: k in keys ==> k in lengths
  {
    |parts| == PARTS && forall n: Nibble :: parts[n] == PartOf(item, keys, lengths, Child(prefix, n))
  }

  lemma PartsStep(item: ItemOf, init: seq<Nibbles>, key: Nibbles, lengths: map<Nibbles, nat>, prefix: Nibbles,
          parts: seq<Part>)
    requires IsKey(key) && Within(key, prefix) && |prefix| < KEY_NIBBLES
    requires key in lengths && forall k :: k in init ==> k in lengths
    requires PartsOfList(item, init, lengths, prefix, parts)
    ensures
      var n := key[|prefix|];
      PartsOfList(item, init + [key], lengths, prefix,
                  parts[n := Part(parts[n].count + 1, Xor(parts[n].digest, item(key, lengths[key])))])
  {
    forall m: Nibble {
      PartOfSnoc(item, init, key, lengths, prefix, m);
    }
  }

  lemma PartsOfRun(item: ItemOf, h: Held, prefix: Nibbles, parts: seq<Part>)
    requires forall k :: k in h.sorted ==> k in h.lengths
    requires PartsOfList(item, Filter(h.sorted, prefix), h.lengths, prefix, parts)
    ensures parts == PartsOf(item, h, prefix)
  {
    forall n: Nibble ensures parts[n] == PartsOf(item, h, prefix)[n] {
      FilterOfFilter(h.sorted, prefix, Child(prefix, n));
    }
  }

  // The loop of `parts` over the keys of its range.
  method Tally(item: ItemOf, run: seq<Nibbles>, entries: map<Nibbles, Entry>, prefix: Nibbles) returns (out: seq<Part>)
    requires |prefix| < KEY_NIBBLES
    requires forall k :: k in run ==> IsKey(k) && Within(k, prefix) && k in entries
    requires forall k :: k in run ==> entries[k].item == item(k, entries[k].length)
    ensures PartsOfList(item, run, LengthsIn(entries), prefix, out)
  {
    out := seq(PARTS, _ => EMPTY_PART);
    ghost var seen: seq<Nibbles> := [];
    for i := 0 to |run|
      invariant seen == run[..i]
      invariant PartsOfList(item, seen, LengthsIn(entries), prefix, out)
    {
      var key := run[i];
      PartsStep(item, seen, key, LengthsIn(entries), prefix, out);
      var n := key[|prefix|];
      out := out[n := Part(out[n].count + 1, Xor(out[n].digest, entries[key].item))];
      TakeStep(run, i);
      seen := seen + [key];
    }
    assert seen == run;
  }

  class Keys {
    const item: ItemOf
    const digest: array<bv8>
    var sorted: seq<Nibbles>
    var entries: map<Nibbles, Entry>

    function Lengths(): (lengths: map<Nibbles, nat>)
      reads this
    {
      LengthsIn(entries)
    }

    function View(): Held
      reads this
    {
      Held(sorted, Lengths())
    }

    ghost predicate Valid()
      reads this, digest
    {
      && digest.Length == DIGEST_BYTES
      && Agree(item, sorted, entries, digest[..])
    }

    constructor (item: ItemOf)
      ensures Valid() && fresh(digest)
      ensures this.item == item && View() == Held([], map[])
    {
      this.item := item;
      digest := new bv8[DIGEST_BYTES](_ => 0);
      sorted := [];
      entries := map[];
      new;
      assert digest[..] == ZERO;
      assert Lengths() == map[];
    }

    // The binary search for a `Position`.
    method At(key: Nibbles) returns (lo: nat)
      requires Sorted(sorted)
      ensures Position(sorted, lo, key)
    {
      lo := 0;
      var hi := |sorted|;
      while lo < hi
        invariant lo <= hi <= |sorted|
        invariant forall j :: 0 <= j < lo ==> Less(sorted[j], key)
        invariant forall j :: hi <= j < |sorted| ==> !Less(sorted[j], key)
      {
        var mid := (lo + hi) / 2;
        if Less(sorted[mid], key) {
          forall j | 0 <= j < mid ensures Less(sorted[j], key) {
            LessTransitive(sorted[j], sorted[mid], key);
          }
          lo := mid + 1;
        } else {
          forall j | mid < j < |sorted| ensures !Less(sorted[j], key) {
            if Less(sorted[j], key) {
              LessTransitive(sorted[mid], sorted[j], key);
            }
          }
          hi := mid;
        }
      }
    }

    method Has(key: Nibbles) returns (yes: bool)
      requires Valid()
      ensures yes <==> key in Lengths()
    {
      var i := At(key);
      yes := i < |sorted| && sorted[i] == key;
      if key in sorted {
        PositionOf(sorted, i, key);
      }
      assert key in sorted <==> key in View().lengths;
    }

    // Total, so that lengths compare without asking first.
    function LengthOf(key: Nibbles): (n: int)
      reads this
      ensures n == -1 <==> key !in Lengths()
      ensures key in Lengths() ==> n == Lengths()[key]
    {
      if key in entries then entries[key].length else -1
    }

    // A map update, and what it takes to keep `Agree`.
    method Set(key: Nibbles, length: nat)
      requires Valid() && IsKey(key)
      modifies this, digest
      ensures Valid()
      ensures Lengths() == old(Lengths())[key := length]
    {
      if key in entries && entries[key].length == length {
        return;
      }
      LengthsUpdated(entries, key, Entry(length, item(key, length)));
      if key in entries {
        AgreeAfterChange(item, sorted, entries, digest[..], key, length);
        XorInto(digest, entries[key].item);
      } else {
        var i := At(key);
        AgreeAfterInsert(item, sorted, entries, digest[..], i, key, length);
        sorted := sorted[..i] + [key] + sorted[i..];
      }
      var it := item(key, length);
      entries := entries[key := Entry(length, it)];
      XorInto(digest, it);
    }

    method Delete(key: Nibbles)
      requires Valid()
      modifies this, digest
      ensures Valid()
      ensures Lengths() == old(Lengths()) - {key}
    {
      if key !in entries {
        return;
      }
      var i := At(key);
      AgreeAfterRemove(item, sorted, entries, digest[..], i, key);
      XorInto(digest, entries[key].item);
      entries := entries - {key};
      sorted := sorted[..i] + sorted[i + 1..];
    }

    // Two searches, by the bounds that bracket the prefix.
    method Range(prefix: Nibbles) returns (start: nat, end: nat)
      requires Valid() && |prefix| <= KEY_NIBBLES
      ensures start <= end <= |sorted|
      ensures forall i :: 0 <= i < |sorted| ==> (Within(sorted[i], prefix) <==> start <= i < end)
    {
      if |prefix| == 0 {
        return 0, |sorted|;
      }
      var low, high := Bound(prefix, 0), Bound(prefix, 15);
      start := At(low);
      end := At(high);
      if end < |sorted| && sorted[end] == high {
        end := end + 1;
      }
      forall i | 0 <= i < |sorted| ensures Within(sorted[i], prefix) <==> start <= i < end {
        assert sorted[i] in sorted;
        assert sorted[i] in View().lengths;
        BoundsBracketThePrefix(sorted[i], prefix);
        LessTotal(sorted[i], high);
        if Less(sorted[i], high) { LessAsymmetric(sorted[i], high); }
        LessIrreflexive(high);
      }
      if end < start {
        BoundsAreOrdered(prefix, sorted[end]);
      }
    }

    method Inside(prefix: Nibbles) returns (keys: seq<Nibbles>)
      requires Valid() && |prefix| <= KEY_NIBBLES
      ensures keys == Filter(sorted, prefix)
    {
      var s, e := Range(prefix);
      SliceIsFilter(sorted, prefix, s, e);
      keys := sorted[s..e];
    }

    method Count(prefix: Nibbles) returns (n: nat)
      requires Valid() && |prefix| <= KEY_NIBBLES
      ensures n == |Filter(sorted, prefix)|
    {
      var s, e := Range(prefix);
      SliceIsFilter(sorted, prefix, s, e);
      n := e - s;
    }

    // `Tally` over `Inside`.
    method Parts(prefix: Nibbles) returns (out: seq<Part>)
      requires Valid() && |prefix| < KEY_NIBBLES
      ensures out == PartsOf(item, View(), prefix)
    {
      var s, e := Range(prefix);
      SliceIsFilter(sorted, prefix, s, e);
      out := Tally(item, sorted[s..e], entries, prefix);
      PartsOfRun(item, View(), prefix, out);
    }
  }
}
