/**
 Log keys as the range exchange sees them: 32 bytes, read four bits at a time.
 A key is a sequence of 64 nibbles and a range is a prefix of nibbles, so a
 prefix of `bits` bits in the source is a sequence of `bits / 4` nibbles here.
 Comparing byte strings compares nibble sequences lexicographically.
 */
module LogKeys {

  const KEY_NIBBLES := 64
  // MAX_BITS = 252: such a range still has sub-ranges.
  const MAX_NIBBLES := 63

  type Nibble = n: int | 0 <= n < 16
  type Nibbles = seq<Nibble>

  predicate IsKey(key: Nibbles) {
    |key| == KEY_NIBBLES
  }

  /** The order of b4a.compare: lexicographic, a proper prefix being smaller. */
  predicate Less(a: Nibbles, b: Nibbles) {
    |b| > 0 && (|a| == 0 || a[0] < b[0] || (a[0] == b[0] && Less(a[1..], b[1..])))
  }

  predicate Within(key: Nibbles, prefix: Nibbles) {
    prefix <= key
  }

  /** A whole key: the prefix, then `fill` to the end (`BoundsBracketThePrefix`). */
  function Bound(prefix: Nibbles, fill: Nibble): (key: Nibbles)
    requires |prefix| <= KEY_NIBBLES
  {
    prefix + seq(KEY_NIBBLES - |prefix|, _ => fill)
  }

  /** One of the sixteen parts of a range. */
  function Child(prefix: Nibbles, i: Nibble): Nibbles {
    prefix + [i]
  }

  // The loop of `within`: nibble by nibble, stopping at the first difference.
  method CheckWithin(key: Nibbles, prefix: Nibbles) returns (yes: bool)
    requires |prefix| <= |key|
    ensures yes <==> Within(key, prefix)
  {
    for b := 0 to |prefix|
      invariant key[..b] == prefix[..b]
    {
      if key[b] != prefix[b] {
        return false;
      }
    }
    return true;
  }

  lemma {:induction false} LessIrreflexive(a: Nibbles)
    ensures !Less(a, a)
  {
    if |a| > 0 {
      LessIrreflexive(a[1..]);
    }
  }

  lemma {:induction false} LessTransitive(a: Nibbles, b: Nibbles, c: Nibbles)
    requires Less(a, b) && Less(b, c)
    ensures Less(a, c)
  {
    if |a| > 0 && a[0] == b[0] == c[0] {
      LessTransitive(a[1..], b[1..], c[1..]);
    }
  }

  lemma {:induction false} LessTotal(a: Nibbles, b: Nibbles)
    ensures a == b || Less(a, b) || Less(b, a)
  {
    if |a| > 0 && |b| > 0 && a[0] == b[0] {
      LessTotal(a[1..], b[1..]);
      assert a == [a[0]] + a[1..] && b == [b[0]] + b[1..];
    }
  }

  lemma {:induction false} LessAsymmetric(a: Nibbles, b: Nibbles)
    requires Less(a, b)
    ensures !Less(b, a) && a != b
  {
    LessIrreflexive(a);
    if Less(b, a) {
      LessTransitive(a, b, a);
    }
  }

  lemma {:induction false} FillIsExtreme(rest: Nibbles)
    ensures !Less(rest, seq(|rest|, _ => 0))
    ensures !Less(seq(|rest|, _ => 15), rest)
  {
    if |rest| > 0 {
      FillIsExtreme(rest[1..]);
      assert seq(|rest|, _ => 0)[1..] == seq(|rest[1..]|, _ => 0);
      assert seq(|rest|, _ => 15)[1..] == seq(|rest[1..]|, _ => 15);
    }
  }

  lemma {:induction false} CommonPrefixCancels(p: Nibbles, a: Nibbles, b: Nibbles)
    ensures Less(p + a, p + b) <==> Less(a, b)
  {
    if |p| == 0 {
      assert p + a == a && p + b == b;
    } else {
      CommonPrefixCancels(p[1..], a, b);
      assert (p + a)[1..] == p[1..] + a && (p + b)[1..] == p[1..] + b;
    }
  }

  /** Where two keys first differ decides their order, whatever follows. */
  lemma {:induction false} OutsidePrefix(key: Nibbles, prefix: Nibbles, lo: Nibbles, hi: Nibbles)
    requires |prefix| <= |key| && !Within(key, prefix)
    ensures Less(key, prefix + lo) || Less(prefix + hi, key)
  {
    if |prefix| > 0 && key[0] == prefix[0] {
      OutsidePrefix(key[1..], prefix[1..], lo, hi);
      assert (prefix + lo)[1..] == prefix[1..] + lo && (prefix + hi)[1..] == prefix[1..] + hi;
    }
  }

  /** A key has a prefix exactly when it lies between the prefix's two bounds. */
  lemma BoundsBracketThePrefix(key: Nibbles, prefix: Nibbles)
    requires IsKey(key) && |prefix| <= KEY_NIBBLES
    ensures Within(key, prefix) <==> !Less(key, Bound(prefix, 0)) && !Less(Bound(prefix, 15), key)
  {
    var n := KEY_NIBBLES - |prefix|;
    if Within(key, prefix) {
      var rest := key[|prefix|..];
      assert key == prefix + rest;
      FillIsExtreme(rest);
      CommonPrefixCancels(prefix, rest, seq(n, _ => 0));
      CommonPrefixCancels(prefix, seq(n, _ => 15), rest);
    } else {
      OutsidePrefix(key, prefix, seq(n, _ => 0), seq(n, _ => 15));
    }
  }

  /** The children of a range split it: a key is in exactly the child its next nibble names. */
  lemma ChildOfKey(key: Nibbles, prefix: Nibbles, i: Nibble)
    requires IsKey(key) && |prefix| < KEY_NIBBLES
    ensures Within(key, Child(prefix, i)) <==> Within(key, prefix) && key[|prefix|] == i
  {
    if Within(key, prefix) && key[|prefix|] == i {
      assert key[..|prefix| + 1] == prefix + [i];
    }
    if Within(key, Child(prefix, i)) {
      assert key[..|prefix|] == Child(prefix, i)[..|prefix|] == prefix;
    }
  }
}
