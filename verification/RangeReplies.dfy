/**
 What the answers of one honest peer to another are worth: they are honest in
 turn, every one awaited brings exactly one `done`, and what a peer lacks stays
 on its way to it.
 */
module RangeReplies {
  import opened LogKeys
  import opened Digests
  import opened SortedKeys
  import opened RangeSession

  ghost predicate Sane(h: Held) {
    Consistent(h) && forall k :: k in h.lengths ==> h.lengths[k] <= MAX_SAFE
  }

  /** Equal counts and digests of a range mean equal contents: no XOR collision between these two. */
  ghost predicate NoCollision(item: ItemOf, a: Held, b: Held)
    requires Consistent(a) && Consistent(b)
  {
    forall p: Nibbles :: PartOf(item, a.sorted, a.lengths, p) == PartOf(item, b.sorted, b.lengths, p) ==>
      SameWithin(a, b, p)
  }

  ghost predicate SameWithin(a: Held, b: Held, p: Nibbles) {
    forall k: Nibbles :: Within(k, p) ==> HeldLength(a, k) == HeldLength(b, k)
  }

  /** `x` lacks key `k` of `y`, or holds its log shorter. */
  predicate Lacks(x: Held, y: Held, k: Nibbles) {
    k in y.lengths && y.lengths[k] > HeldLength(x, k)
  }

  /** A message one honest peer sends another. */
  ghost predicate Honest(item: ItemOf, from: Held, to: Held, m: Message)
    requires Consistent(from) && Consistent(to)
  {
    match m
    case Ranges(p, parts) =>
      // nested at most 248 bits deep, and only where the sender holds more than FEW
      && |p| + 1 <= MAX_NIBBLES
      && parts == PartsOf(item, from, p)
      && (p != [] ==> |Filter(from.sorted, p)| > FEW)
    case KeyList(p, kind, keys, lengths) =>
      && ValidPrefix(p)
      && |keys| <= CHUNK
      && lengths == LengthsOf(from, keys)
      && (forall k :: k in keys ==> k in from.lengths && Within(k, p))
      && kind <= KIND_DONE
      && (kind == KIND_KEYS ==> keys == Filter(from.sorted, p) && |keys| <= FEW)
      && (kind == KIND_ASK ==> keys == [] && |Filter(to.sorted, p)| <= FEW)
      && (kind == KIND_DONE ==> keys == [])
  }

  ghost predicate AllHonest(item: ItemOf, from: Held, to: Held, ms: seq<Message>)
    requires Consistent(from) && Consistent(to)
  {
    forall m :: m in ms ==> Honest(item, from, to, m)
  }

  /** What a session remembers of a peer's ranges is what the peer holds there. */
  ghost predicate AwaitedRight(item: ItemOf, peer: Held, awaited: map<Nibbles, Part>)
    requires Consistent(peer)
  {
    forall t :: t in awaited ==> awaited[t] == PartOf(item, peer.sorted, peer.lengths, t)
  }

  /** Delivering `m` brings `k` closer to whoever lacks it. */
  predicate Covers(m: Message, k: Nibbles) {
    (Answered(m) && Within(k, m.prefix)) || (m.KeyList? && m.kind == KIND_LACKED && k in m.keys)
  }

  function CountAnswered(ms: seq<Message>): nat {
    if ms == [] then 0 else CountAnswered(ms[..|ms| - 1]) + if Answered(ms[|ms| - 1]) then 1 else 0
  }

  function CountDone(ms: seq<Message>): nat {
    if ms == [] then 0 else CountDone(ms[..|ms| - 1]) + if IsDone(ms[|ms| - 1]) then 1 else 0
  }

  lemma {:induction false} CountsOfConcat(a: seq<Message>, b: seq<Message>)
    ensures CountAnswered(a + b) == CountAnswered(a) + CountAnswered(b)
    ensures CountDone(a + b) == CountDone(a) + CountDone(b)
  {
    if b == [] {
      assert a + b == a;
    } else {
      assert (a + b)[..|a + b| - 1] == a + b[..|b| - 1];
      CountsOfConcat(a, b[..|b| - 1]);
    }
  }

  lemma {:induction false} NoneCounted(ms: seq<Message>)
    ensures CountAnswered(ms) == 0 <==> forall m :: m in ms ==> !Answered(m)
    ensures CountDone(ms) == 0 <==> forall m :: m in ms ==> !IsDone(m)
  {
    if ms != [] {
      NoneCounted(ms[..|ms| - 1]);
      assert ms == ms[..|ms| - 1] + [ms[|ms| - 1]];
    }
  }

  // --- long prefixes are shared by few keys ---

  lemma {:induction false} LastNibblesIncrease(keys: seq<Nibbles>, p: Nibbles)
    requires Sorted(keys) && |p| == MAX_NIBBLES
    requires forall k :: k in keys ==> IsKey(k) && Within(k, p)
    ensures keys != [] ==> IsKey(keys[|keys| - 1]) && keys[|keys| - 1][MAX_NIBBLES] >= |keys| - 1
  {
    var n := |keys| - 1;
    if n >= 0 {
      assert keys[n] in keys;
    }
    if n > 0 {
      var a, b := keys[n - 1], keys[n];
      LastNibblesIncrease(keys[..n], p);
      assert a in keys && b in keys;
      assert a == p + [a[MAX_NIBBLES]] && b == p + [b[MAX_NIBBLES]];
      CommonPrefixCancels(p, [a[MAX_NIBBLES]], [b[MAX_NIBBLES]]);
    }
  }

  /** At most 16 keys share 252 bits, so a range of more than FEW keys is at most 248 bits deep. */
  lemma ManyKeysMeanShortPrefix(h: Held, p: Nibbles)
    requires Consistent(h) && |p| <= MAX_NIBBLES && |Filter(h.sorted, p)| > FEW
    ensures |p| + 1 <= MAX_NIBBLES
  {
    if |p| == MAX_NIBBLES {
      FilterKeepsOrder(h.sorted, p);
      LastNibblesIncrease(Filter(h.sorted, p), p);
    }
  }

  // --- answers to ranges ---

  lemma RangesHonest(item: ItemOf, me: Held, peer: Held, p: Nibbles)
    requires Consistent(me) && Consistent(peer) && |p| <= MAX_NIBBLES && |Filter(me.sorted, p)| > FEW
    ensures Honest(item, me, peer, Ranges(p, PartsOf(item, me, p)))
  {
    ManyKeysMeanShortPrefix(me, p);
  }

  lemma InsideHonest(item: ItemOf, me: Held, peer: Held, p: Nibbles, kind: nat)
    requires Consistent(me) && Consistent(peer) && |p| <= MAX_NIBBLES && |Filter(me.sorted, p)| <= FEW
    requires kind == KIND_KEYS || kind == KIND_LACKED
    ensures Honest(item, me, peer, KeysMessage(me, p, kind, Filter(me.sorted, p)))
  {
  }

  lemma AppendHonest(item: ItemOf, me: Held, peer: Held, a: seq<Message>, b: seq<Message>)
    requires Consistent(me) && Consistent(peer)
    requires AllHonest(item, me, peer, a) && CountDone(a) == 0
    requires forall m :: m in b ==> Honest(item, me, peer, m) && !IsDone(m)
    ensures AllHonest(item, me, peer, a + b) && CountDone(a + b) == 0
  {
    NoneCounted(b);
    CountsOfConcat(a, b);
  }

  lemma PartAnswerHonest(item: ItemOf, me: Held, peer: Held, take: bool, awaited: map<Nibbles, Part>, child: Nibbles,
          theirs: Part)
    requires Sane(me) && Sane(peer) && AwaitedRight(item, peer, awaited)
    requires 0 < |child| <= MAX_NIBBLES && theirs == PartOf(item, peer.sorted, peer.lengths, child)
    ensures
      var r := AnswerPart(item, me, take, awaited, child, theirs);
      && |r.out| <= 1
      && (forall m :: m in r.out ==> Honest(item, me, peer, m) && !IsDone(m) && m.prefix == child)
      && AwaitedRight(item, peer, r.awaited)
  {
    hide PartsOf, DigestOf, Sorted, IsKey;
    if |Filter(me.sorted, child)| > FEW {
      RangesHonest(item, me, peer, child);
    } else {
      InsideHonest(item, me, peer, child, KIND_KEYS);
      InsideHonest(item, me, peer, child, KIND_LACKED);
    }
    assert LengthsOf(me, []) == [];
  }

  lemma {:induction false} PartsAnswerHonest(item: ItemOf, me: Held, peer: Held, take: bool,
          awaited: map<Nibbles, Part>, p: Nibbles, parts: seq<Part>, n: nat)
    requires Sane(me) && Sane(peer) && AwaitedRight(item, peer, awaited)
    requires |p| + 1 <= MAX_NIBBLES && n <= PARTS && parts == PartsOf(item, peer, p)
    ensures
      var r := AnswerParts(item, me, take, awaited, p, parts, n);
      AllHonest(item, me, peer, r.out) && CountDone(r.out) == 0 && AwaitedRight(item, peer, r.awaited)
  {
    hide AnswerPart, Honest, PartOf;
    if n > 0 {
      PartsAnswerHonest(item, me, peer, take, awaited, p, parts, n - 1);
      var before := AnswerParts(item, me, take, awaited, p, parts, n - 1);
      var child := Child(p, n - 1);
      var more := AnswerPart(item, me, take, before.awaited, child, parts[n - 1]);
      PartAnswerHonest(item, me, peer, take, before.awaited, child, parts[n - 1]);
      AppendHonest(item, me, peer, before.out, more.out);
    }
  }

  lemma PartAnswerCovers(item: ItemOf, me: Held, take: bool, awaited: map<Nibbles, Part>, child: Nibbles,
          theirs: Part, k: Nibbles)
    requires Consistent(me) && IsKey(k) && Within(k, child)
    requires take || k in me.lengths
    ensures
      var out := AnswerPart(item, me, take, awaited, child, theirs).out;
      |out| == 1 && Covers(out[0], k) && (take ==> Answered(out[0]))
  {
    if k in me.lengths {
      assert k in me.sorted;
      FilterKeepsAll(me.sorted, child, k);
    }
  }

  lemma {:induction false} PartsAnswerCovers(item: ItemOf, me: Held, take: bool, awaited: map<Nibbles, Part>,
          p: Nibbles, parts: seq<Part>, n: nat, k: Nibbles)
    returns (i: nat)
    requires Consistent(me) && |p| < KEY_NIBBLES && n <= |parts| == PARTS
    requires IsKey(k) && Within(k, p) && k[|p|] < n
    requires parts[k[|p|]] != PartOf(item, me.sorted, me.lengths, Child(p, k[|p|]))
    requires take || k in me.lengths
    ensures
      var out := AnswerParts(item, me, take, awaited, p, parts, n).out;
      i < |out| && Covers(out[i], k) && (take ==> Answered(out[i]))
  {
    hide PartOf, Covers;
    var before := AnswerParts(item, me, take, awaited, p, parts, n - 1);
    if k[|p|] == n - 1 {
      var child := Child(p, n - 1);
      ChildOfKey(k, p, n - 1);
      PartAnswerCovers(item, me, take, before.awaited, child, parts[n - 1], k);
      i := |before.out|;
    } else {
      i := PartsAnswerCovers(item, me, take, awaited, p, parts, n - 1, k);
    }
  }

  // --- answers to keys ---

  lemma {:induction false} ListDigestIsDigest(item: ItemOf, h: Held, keys: seq<Nibbles>, n: nat)
    requires n <= |keys|
    requires forall k :: k in keys ==> k in h.lengths
    ensures forall i :: 0 <= i < |keys| ==> LengthsOf(h, keys)[i] == h.lengths[keys[i]]
    ensures ListDigest(item, keys, LengthsOf(h, keys), n) == DigestOf(item, keys[..n], h.lengths)
  {
    if n > 0 {
      ListDigestIsDigest(item, h, keys, n - 1);
      assert keys[..n][..n - 1] == keys[..n - 1];
    }
  }

  lemma {:induction false} LearnFromExact(h: Held, keys: seq<Nibbles>, lengths: seq<int>, n: nat)
    requires n <= |keys| == |lengths|
    requires forall i :: 0 <= i < |lengths| ==> lengths[i] >= 0
    ensures forall i :: 0 <= i < n && lengths[i] > HeldLength(h, keys[i]) ==>
        Learnt(keys[i], lengths[i]) in LearnFrom(h, keys, lengths, n)
    ensures forall l :: l in LearnFrom(h, keys, lengths, n) ==>
              exists i :: 0 <= i < n && l == Learnt(keys[i], lengths[i]) && lengths[i] > HeldLength(h, keys[i])
  {
    if n > 0 {
      LearnFromExact(h, keys, lengths, n - 1);
    }
  }

  lemma {:induction false} TableIsLengths(h: Held, keys: seq<Nibbles>, n: nat, k: Nibbles)
    requires n <= |keys|
    ensures k in TableOf(keys, LengthsOf(h, keys), n) <==> k in keys[..n]
    ensures k in keys[..n] ==> TableOf(keys, LengthsOf(h, keys), n)[k] == HeldLength(h, k)
  {
    if n > 0 {
      TableIsLengths(h, keys, n - 1, k);
      TakeStep(keys, n - 1);
    }
  }

  lemma {:induction false} LackedByExact(h: Held, theirs: map<Nibbles, int>, keys: seq<Nibbles>, n: nat)
    requires n <= |keys|
    ensures forall k :: k in LackedBy(h, theirs, keys, n) <==>
        k in keys[..n] && !(k in theirs && theirs[k] >= HeldLength(h, k))
    ensures |LackedBy(h, theirs, keys, n)| <= n
  {
    if n > 0 {
      LackedByExact(h, theirs, keys, n - 1);
      TakeStep(keys, n - 1);
    }
  }

  lemma {:induction false} ChunksHonest(item: ItemOf, me: Held, peer: Held, p: Nibbles, keys: seq<Nibbles>, i: nat)
    requires Consistent(me) && Consistent(peer) && ValidPrefix(p) && i <= |keys|
    requires forall k :: k in keys ==> k in me.lengths && Within(k, p)
    ensures
      var out := Chunks(me, p, keys, i);
      && AllHonest(item, me, peer, out)
      && CountDone(out) == 0
      && |out| <= |keys| - i
      && (forall m :: m in out ==> m.KeyList? && m.kind == KIND_LACKED)
    decreases |keys| - i
  {
    if i < |keys| {
      var end := if i + CHUNK <= |keys| then i + CHUNK else |keys|;
      ChunksHonest(item, me, peer, p, keys, end);
      var m := KeysMessage(me, p, KIND_LACKED, keys[i..end]);
      assert Honest(item, me, peer, m);
      CountsOfConcat([m], Chunks(me, p, keys, end));
      assert CountDone([m]) == 0;
    }
  }

  lemma {:induction false} ChunksCover(me: Held, p: Nibbles, keys: seq<Nibbles>, i: nat, at: nat) returns (c: nat)
    requires i <= at < |keys|
    ensures c < |Chunks(me, p, keys, i)| && Covers(Chunks(me, p, keys, i)[c], keys[at])
    decreases |keys| - i
  {
    var end := if i + CHUNK <= |keys| then i + CHUNK else |keys|;
    if at < end {
      c := 0;
      assert keys[i..end][at - i] == keys[at];
    } else {
      c := ChunksCover(me, p, keys, end, at);
      c := c + 1;
    }
  }

  /** The peer's table as this side rebuilds it from an honest kind 0. */
  lemma LackOfKeys(me: Held, peer: Held, p: Nibbles, keys: seq<Nibbles>, k: Nibbles)
    requires Consistent(me) && Consistent(peer)
    requires keys == Filter(peer.sorted, p)
    requires k in Filter(me.sorted, p) && Lacks(peer, me, k)
    ensures
      var inside := Filter(me.sorted, p);
      k in LackedBy(me, TableOf(keys, LengthsOf(peer, keys), |keys|), inside, |inside|)
  {
    var inside := Filter(me.sorted, p);
    assert inside[..|inside|] == inside && keys[..|keys|] == keys;
    TableIsLengths(peer, keys, |keys|, k);
    LackedByExact(me, TableOf(keys, LengthsOf(peer, keys), |keys|), inside, |inside|);
  }

  /** An honest kind 0 is never ignored: it matches what was awaited, or is short. */
  lemma HonestKeysAccepted(item: ItemOf, me: Held, peer: Held, awaited: map<Nibbles, Part>, m: Message)
    requires Sane(me) && Sane(peer) && AwaitedRight(item, peer, awaited)
    requires m.KeyList? && Honest(item, peer, me, m)
    ensures WellFormedKeys(m)
    ensures m.kind == KIND_KEYS && m.prefix in awaited ==>
              awaited[m.prefix] == Part(|m.keys|, ListDigest(item, m.keys, m.lengths, |m.keys|))
  {
    ListDigestIsDigest(item, peer, m.keys, |m.keys|);
    assert m.keys[..|m.keys|] == m.keys;
  }

  /** Any honest message, once delivered: what comes of it. */
  ghost predicate GoodAnswer(item: ItemOf, me: Held, peer: Held, m: Message, out: seq<Message>,
          awaited: map<Nibbles, Part>)
    requires Consistent(me) && Consistent(peer)
  {
    && AllHonest(item, me, peer, out)
    && AwaitedRight(item, peer, awaited)
    && CountDone(out) == (if Answered(m) then 1 else 0)
    && (out != [] ==> IsDone(out[|out| - 1]))
  }

  lemma RangesAnswerGood(item: ItemOf, me: Held, peer: Held, take: bool, awaited: map<Nibbles, Part>, m: Message)
    requires Sane(me) && Sane(peer) && AwaitedRight(item, peer, awaited)
    requires m.Ranges? && Honest(item, peer, me, m)
    ensures var r := AnswerRanges(item, me, take, awaited, m); GoodAnswer(item, me, peer, m, r.out, r.awaited)
  {
    PartsAnswerHonest(item, me, peer, take, awaited, m.prefix, m.parts, PARTS);
    var all := AnswerParts(item, me, take, awaited, m.prefix, m.parts, PARTS);
    DoneIsHonest(item, me, peer, m.prefix);
    CountsOfConcat(all.out, [Done(m.prefix)]);
  }

  lemma DoneIsHonest(item: ItemOf, me: Held, peer: Held, p: Nibbles)
    requires Consistent(me) && Consistent(peer) && ValidPrefix(p)
    ensures Honest(item, me, peer, Done(p))
    ensures CountDone([Done(p)]) == 1 && CountAnswered([Done(p)]) == 0
  {
    assert LengthsOf(me, []) == [];
    assert [Done(p)][..0] == [];
  }

  lemma AskAnswerGood(item: ItemOf, me: Held, peer: Held, take: bool, awaited: map<Nibbles, Part>, m: Message)
    requires Sane(me) && Sane(peer) && AwaitedRight(item, peer, awaited)
    requires m.KeyList? && m.kind == KIND_ASK && Honest(item, peer, me, m)
    ensures
      var inside := Filter(me.sorted, m.prefix);
      var out := [KeysMessage(me, m.prefix, if take then KIND_KEYS else KIND_LACKED, inside), Done(m.prefix)];
      && AnswerKeys(item, me, take, awaited, m) == KeysAnswer(out, [], false, false, awaited)
      && GoodAnswer(item, me, peer, m, out, awaited)
  {
    var inside := Filter(me.sorted, m.prefix);
    var reply := KeysMessage(me, m.prefix, if take then KIND_KEYS else KIND_LACKED, inside);
    DoneIsHonest(item, me, peer, m.prefix);
    CountsOfConcat([reply], [Done(m.prefix)]);
    NoneCounted([reply]);
    assert [reply] + [Done(m.prefix)] == [reply, Done(m.prefix)];
  }

  lemma LackAnswerGood(item: ItemOf, me: Held, peer: Held, p: Nibbles, keys: seq<Nibbles>, lengths: seq<int>)
    requires Sane(me) && Sane(peer) && ValidPrefix(p) && |keys| == |lengths|
    ensures
      var inside := Filter(me.sorted, p);
      var out := Chunks(me, p, LackedBy(me, TableOf(keys, lengths, |keys|), inside, |inside|), 0) + [Done(p)];
      AllHonest(item, me, peer, out) && CountDone(out) == 1 && IsDone(out[|out| - 1]) && CountAnswered(out) == 0
  {
    var inside, theirs := Filter(me.sorted, p), TableOf(keys, lengths, |keys|);
    var lack := LackedBy(me, theirs, inside, |inside|);
    LackedByExact(me, theirs, inside, |inside|);
    assert inside[..|inside|] == inside;
    ChunksHonest(item, me, peer, p, lack, 0);
    DoneIsHonest(item, me, peer, p);
    NoneCounted(Chunks(me, p, lack, 0));
    CountsOfConcat(Chunks(me, p, lack, 0), [Done(p)]);
  }

  lemma KeysAnswerGood(item: ItemOf, me: Held, peer: Held, take: bool, awaited: map<Nibbles, Part>, m: Message)
    requires Sane(me) && Sane(peer) && AwaitedRight(item, peer, awaited)
    requires m.KeyList? && Honest(item, peer, me, m)
    ensures
      var r := AnswerKeys(item, me, take, awaited, m);
      && GoodAnswer(item, me, peer, m, r.out, r.awaited)
      && !r.ignored
      && (r.done <==> IsDone(m))
      && (forall l :: l in r.learn ==> Lacks(me, peer, l.key) && l.length == peer.lengths[l.key])
  {
    HonestKeysAccepted(item, me, peer, awaited, m);
    DoneIsHonest(item, me, peer, m.prefix);
    LearnFromExact(me, m.keys, m.lengths, |m.keys|);
    if m.kind == KIND_ASK {
      AskAnswerGood(item, me, peer, take, awaited, m);
    } else if m.kind == KIND_KEYS {
      LackAnswerGood(item, me, peer, m.prefix, m.keys, m.lengths);
    }
  }

  // --- what is lacked stays on its way ---

  lemma LackedRangeDiffers(item: ItemOf, a: Held, b: Held, p: Nibbles, k: Nibbles)
    requires Consistent(a) && Consistent(b) && NoCollision(item, a, b)
    requires Lacks(a, b, k) && Within(k, p)
    ensures PartOf(item, a.sorted, a.lengths, p) != PartOf(item, b.sorted, b.lengths, p)
  {
    hide PartOf;
    assert !SameWithin(a, b, p);
  }

  /** This side answers a range in which it or its peer lacks `k`: `k` goes on, before the `done`. */
  lemma RangesAnswerCovers(item: ItemOf, me: Held, peer: Held, take: bool, awaited: map<Nibbles, Part>, m: Message,
          k: Nibbles)
    returns (i: nat)
    requires Sane(me) && Sane(peer) && NoCollision(item, me, peer) && NoCollision(item, peer, me)
    requires m.Ranges? && Honest(item, peer, me, m) && Within(k, m.prefix)
    requires Lacks(peer, me, k) || (take && Lacks(me, peer, k))
    ensures
      var out := AnswerRanges(item, me, take, awaited, m).out;
      i < |out| - 1 && Covers(out[i], k) && (take ==> Answered(out[i]))
  {
    hide Covers;
    var n := k[|m.prefix|];
    ChildOfKey(k, m.prefix, n);
    if Lacks(peer, me, k) {
      LackedRangeDiffers(item, peer, me, Child(m.prefix, n), k);
    } else {
      LackedRangeDiffers(item, me, peer, Child(m.prefix, n), k);
    }
    i := PartsAnswerCovers(item, me, take, awaited, m.prefix, m.parts, PARTS, k);
  }

  /** Answering a message its peer waits on, this side sends on what the peer lacks, before the `done`. */
  lemma AnswerServesPeer(item: ItemOf, me: Held, peer: Held, take: bool, awaited: map<Nibbles, Part>, m: Message,
          k: Nibbles)
    returns (i: nat)
    requires Sane(me) && Sane(peer) && AwaitedRight(item, peer, awaited)
    requires m.KeyList? && Honest(item, peer, me, m) && Answered(m) && Within(k, m.prefix)
    requires Lacks(peer, me, k)
    ensures
      var out := AnswerKeys(item, me, take, awaited, m).out;
      i < |out| - 1 && Covers(out[i], k)
  {
    HonestKeysAccepted(item, me, peer, awaited, m);
    var inside := Filter(me.sorted, m.prefix);
    assert k in me.sorted;
    FilterKeepsAll(me.sorted, m.prefix, k);
    if m.kind == KIND_ASK {
      i := 0;
    } else {
      LackOfKeys(me, peer, m.prefix, m.keys, k);
      var lack := LackedBy(me, TableOf(m.keys, m.lengths, |m.keys|), inside, |inside|);
      var at :| 0 <= at < |lack| && lack[at] == k;
      i := ChunksCover(me, m.prefix, lack, 0, at);
    }
  }

  /** A keys message that covers what this side lacks teaches it, or makes this side ask on. */
  lemma AnswerServesMe(item: ItemOf, me: Held, peer: Held, awaited: map<Nibbles, Part>, m: Message, k: Nibbles)
    requires Sane(me) && Sane(peer) && AwaitedRight(item, peer, awaited)
    requires m.KeyList? && Honest(item, peer, me, m) && Covers(m, k)
    requires Lacks(me, peer, k)
    ensures
      var r := AnswerKeys(item, me, true, awaited, m);
      || Learnt(k, peer.lengths[k]) in r.learn
      || (|r.out| > 0 && Answered(r.out[0]) && Within(k, r.out[0].prefix))
  {
    HonestKeysAccepted(item, me, peer, awaited, m);
    if m.kind != KIND_ASK {
      if m.kind == KIND_KEYS {
        assert k in peer.sorted;
        FilterKeepsAll(peer.sorted, m.prefix, k);
      }
      var i :| 0 <= i < |m.keys| && m.keys[i] == k;
      LearnFromExact(me, m.keys, m.lengths, |m.keys|);
      assert m.lengths[i] == peer.lengths[k];
    }
  }
}
