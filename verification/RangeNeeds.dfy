/**
 Nothing is exchanged but what the two differ in, and nothing is taken that was
 not asked for in the range and amount given: what keeps an exchange small, and
 what a peer that lies can do to it.
 */
module RangeNeeds {
  import opened LogKeys
  import opened Digests
  import opened SortedKeys
  import opened RangeSession
  import opened RangeReplies
  import opened RangeExchange

  // --- equal contents ---

  /** The converse of `NoCollision`: the same contents of a range give the same count and digest. */
  lemma SameContentsSamePart(item: ItemOf, a: Held, b: Held, p: Nibbles)
    requires Consistent(a) && Consistent(b) && SameWithin(a, b, p)
    ensures Filter(a.sorted, p) == Filter(b.sorted, p)
    ensures PartOf(item, a.sorted, a.lengths, p) == PartOf(item, b.sorted, b.lengths, p)
  {
    FilterKeepsOrder(a.sorted, p);
    FilterKeepsOrder(b.sorted, p);
    forall k ensures k in Filter(a.sorted, p) <==> k in Filter(b.sorted, p) {
      InBoth(a, b, p, k);
      InBoth(b, a, p, k);
    }
    SortedIsUnique(Filter(a.sorted, p), Filter(b.sorted, p));
    DigestOfCongruent(item, Filter(a.sorted, p), a.lengths, b.lengths);
  }

  lemma InBoth(a: Held, b: Held, p: Nibbles, k: Nibbles)
    requires Consistent(a) && Consistent(b) && SameWithin(a, b, p)
    ensures k in Filter(a.sorted, p) ==> k in Filter(b.sorted, p) && a.lengths[k] == b.lengths[k]
  {
    if k in Filter(a.sorted, p) {
      assert HeldLength(a, k) == HeldLength(b, k);
      FilterKeepsAll(b.sorted, p, k);
    }
  }

  lemma SameBelow(a: Held, b: Held, p: Nibbles, child: Nibbles)
    requires SameWithin(a, b, p) && p <= child
    ensures SameWithin(a, b, child) && SameWithin(b, a, child)
  {
    forall k: Nibbles | Within(k, child) ensures HeldLength(a, k) == HeldLength(b, k) {
      assert Within(k, p);
    }
  }

  /**
   A range in which both hold the same is answered with a `done` and nothing else,
   and nothing is remembered of it.
   */
  lemma SameIsDone(item: ItemOf, me: Held, peer: Held, take: bool, awaited: map<Nibbles, Part>, p: Nibbles)
    requires Consistent(me) && Consistent(peer) && SameWithin(me, peer, p) && |p| + 1 <= MAX_NIBBLES
    ensures AnswerRanges(item, me, take, awaited, Ranges(p, PartsOf(item, peer, p))) == Answer([Done(p)], awaited)
  {
    hide PartOf;
    SamePartsNothing(item, me, peer, take, awaited, p, PARTS);
    assert [] + [Done(p)] == [Done(p)];
  }

  lemma {:induction false} SamePartsNothing(item: ItemOf, me: Held, peer: Held, take: bool,
          awaited: map<Nibbles, Part>, p: Nibbles, n: nat)
    requires Consistent(me) && Consistent(peer) && SameWithin(me, peer, p) && n <= PARTS
    ensures AnswerParts(item, me, take, awaited, p, PartsOf(item, peer, p), n) == Answer([], awaited)
  {
    hide PartOf;
    if n > 0 {
      SamePartsNothing(item, me, peer, take, awaited, p, n - 1);
      SameBelow(me, peer, p, Child(p, n - 1));
      SameContentsSamePart(item, me, peer, Child(p, n - 1));
    }
  }

  // --- what travels ---

  /**
   A message that has to be: its range differs. Where the sender asks for keys,
   ranges go deeper only where both hold many, and only keys the receiver lacks
   are offered; where it does not, it never asks.
   */
  ghost predicate Needed(from: Held, to: Held, take: bool, m: Message) {
    IsRoot(m) || IsDone(m) ||
    (!SameWithin(from, to, m.prefix) &&
     match m
     case Ranges(p, _) => take ==> |Filter(to.sorted, p)| > FEW
     case KeyList(p, kind, keys, _) =>
       && (kind == KIND_KEYS || kind == KIND_ASK ==> take)
       && (kind == KIND_LACKED && take ==> keys != [] && forall k :: k in keys ==> Lacks(to, from, k)))
  }

  ghost predicate AllNeeded(from: Held, to: Held, take: bool, ms: seq<Message>) {
    forall m :: m in ms ==> Needed(from, to, take, m)
  }

  /** Keys offered without being asked for are some. */
  predicate OffersSomething(m: Message) {
    m.KeyList? && m.kind == KIND_LACKED ==> m.keys != []
  }

  /** Ranges are answered with ranges, questions and keys, and no offer of none. */
  lemma OffersAreSome(item: ItemOf, me: Held, peer: Held, take: bool, awaited: map<Nibbles, Part>, p: Nibbles)
    requires Consistent(me) && Consistent(peer) && |p| + 1 <= MAX_NIBBLES
    ensures forall m :: m in AnswerRanges(item, me, take, awaited, Ranges(p, PartsOf(item, peer, p))).out ==>
              OffersSomething(m)
  {
    hide AnswerParts;
    PartsNeeded(item, me, peer, take, awaited, p, PARTS);
  }

  lemma PartNeeded(item: ItemOf, me: Held, peer: Held, take: bool, awaited: map<Nibbles, Part>, child: Nibbles)
    requires Consistent(me) && Consistent(peer) && !SameWithin(me, peer, child)
    ensures
      var theirs := PartOf(item, peer.sorted, peer.lengths, child);
      var out := AnswerPart(item, me, take, awaited, child, theirs).out;
      AllNeeded(me, peer, take, out) && forall m :: m in out ==> OffersSomething(m)
  {
    hide PartsOf, DigestOf, SameWithin, Sorted, IsKey;
  }

  lemma {:induction false} PartsNeeded(item: ItemOf, me: Held, peer: Held, take: bool, awaited: map<Nibbles, Part>,
          p: Nibbles, n: nat)
    requires Consistent(me) && Consistent(peer) && n <= PARTS
    ensures
      var out := AnswerParts(item, me, take, awaited, p, PartsOf(item, peer, p), n).out;
      AllNeeded(me, peer, take, out) && forall m :: m in out ==> OffersSomething(m)
  {
    hide PartOf, AnswerPart, SameWithin, Sorted, IsKey, Needed;
    if n > 0 {
      PartsNeeded(item, me, peer, take, awaited, p, n - 1);
      var child := Child(p, n - 1);
      if SameWithin(me, peer, child) {
        SameContentsSamePart(item, me, peer, child);
      } else {
        var before := AnswerParts(item, me, take, awaited, p, PartsOf(item, peer, p), n - 1);
        PartNeeded(item, me, peer, take, before.awaited, child);
      }
    }
  }

  lemma SameIsSymmetric(a: Held, b: Held, p: Nibbles)
    ensures SameWithin(a, b, p) <==> SameWithin(b, a, p)
  {
  }

  /** What is answered to a keys message that has to be. */
  lemma KeysAnswerNeeded(item: ItemOf, me: Held, peer: Held, take: bool, peerTakes: bool, awaited: map<Nibbles, Part>,
          m: Message)
    requires Sane(me) && Sane(peer) && AwaitedRight(item, peer, awaited)
    requires m.KeyList? && Honest(item, peer, me, m) && Needed(peer, me, peerTakes, m)
    ensures AllNeeded(me, peer, take, AnswerKeys(item, me, take, awaited, m).out)
  {
    HonestKeysAccepted(item, me, peer, awaited, m);
    SameIsSymmetric(me, peer, m.prefix);
    hide SameWithin, PartsOf, ListDigest;
    if m.kind == KIND_ASK {
      AskNeeded(me, peer, take, m.prefix);
    } else if m.kind == KIND_KEYS {
      LackNeeded(me, peer, take, m.prefix);
    }
  }

  lemma AskNeeded(me: Held, peer: Held, take: bool, p: Nibbles)
    requires Consistent(me) && Consistent(peer) && !SameWithin(me, peer, p)
    ensures
      Needed(me, peer, take,
             KeysMessage(me, p, if take then KIND_KEYS else KIND_LACKED, Filter(me.sorted, p)))
  {
  }

  lemma LackNeeded(me: Held, peer: Held, take: bool, p: Nibbles)
    requires Consistent(me) && Consistent(peer) && !SameWithin(me, peer, p)
    ensures
      var keys, inside := Filter(peer.sorted, p), Filter(me.sorted, p);
      var lack := LackedBy(me, TableOf(keys, LengthsOf(peer, keys), |keys|), inside, |inside|);
      AllNeeded(me, peer, take, Chunks(me, p, lack, 0))
  {
    var keys, inside := Filter(peer.sorted, p), Filter(me.sorted, p);
    var theirs := TableOf(keys, LengthsOf(peer, keys), |keys|);
    var lack := LackedBy(me, theirs, inside, |inside|);
    LackedByExact(me, theirs, inside, |inside|);
    assert inside[..|inside|] == inside && keys[..|keys|] == keys;
    forall k | k in lack ensures Lacks(peer, me, k) {
      TableIsLengths(peer, keys, |keys|, k);
      if k in peer.lengths {
        FilterKeepsAll(peer.sorted, p, k);
      }
    }
    ChunksNeeded(me, peer, take, p, lack, 0);
  }

  lemma {:induction false} ChunksNeeded(me: Held, peer: Held, take: bool, p: Nibbles, keys: seq<Nibbles>, i: nat)
    requires i <= |keys| && !SameWithin(me, peer, p)
    requires forall k :: k in keys ==> Lacks(peer, me, k)
    ensures AllNeeded(me, peer, take, Chunks(me, p, keys, i))
    decreases |keys| - i
  {
    hide SameWithin, Lacks;
    if i < |keys| {
      var end := if i + CHUNK <= |keys| then i + CHUNK else |keys|;
      ChunksNeeded(me, peer, take, p, keys, end);
      assert keys[i] in keys[i..end];
      assert Needed(me, peer, take, KeysMessage(me, p, KIND_LACKED, keys[i..end]));
    }
  }

  lemma AnswerNeeded(item: ItemOf, me: Side, peer: Held, peerTakes: bool, m: Message)
    requires Sane(me.held) && Sane(peer) && AwaitedRight(item, peer, me.awaited)
    requires Honest(item, peer, me.held, m) && Needed(peer, me.held, peerTakes, m)
    ensures AllNeeded(me.held, peer, me.take, Receive(item, me, m).1)
  {
    hide Needed, Honest, AnswerKeys, AnswerParts;
    match m
    case Ranges(p, _) =>
      RangesOf(item, peer, me.held, m);
      PartsNeeded(item, me.held, peer, me.take, me.awaited, p, PARTS);
      DoneNeeded(me.held, peer, me.take, p);
    case KeyList(_, _, _, _) =>
      KeysAnswerNeeded(item, me.held, peer, me.take, peerTakes, me.awaited, m);
  }

  lemma RangesOf(item: ItemOf, peer: Held, me: Held, m: Message)
    requires Consistent(peer) && Consistent(me) && m.Ranges? && Honest(item, peer, me, m)
    ensures m.parts == PartsOf(item, peer, m.prefix)
  {
  }

  lemma DoneNeeded(from: Held, to: Held, take: bool, p: Nibbles)
    ensures Needed(from, to, take, Done(p))
  {
  }

  // --- in every run ---

  ghost predicate Lean(n: Net) {
    AllNeeded(n.x.held, n.y.held, n.x.take, n.xy) && AllNeeded(n.y.held, n.x.held, n.y.take, n.yx)
  }

  lemma DeliveryKeepsLean(n: Net)
    requires Inv(n) && Lean(n) && n.xy != []
    ensures Lean(DeliverToY(n))
  {
    hide Inv, Receive, Needed, Honest, AwaitedRight, Sane, GoodAnswer;
    var m := n.xy[0];
    assert m in n.xy && n.xy == [m] + n.xy[1..];
    HeadIsHonest(n);
    ReceiveTruthful(n.item, n.y, n.x.held, m);
    AnswerNeeded(n.item, n.y, n.x.held, n.x.take, m);
  }

  lemma NextKeepsLean(n: Net, n': Net)
    requires Inv(n) && Lean(n) && Next(n, n')
    ensures Lean(n')
  {
    assert Inv(Flip(n));
    hide Inv, Receive;
    if n.xy != [] && n' == DeliverToY(n) {
      DeliveryKeepsLean(n);
    } else if n.yx != [] && n' == Flip(DeliverToY(Flip(n))) {
      DeliveryKeepsLean(Flip(n));
    }
  }

  lemma {:induction false} RunKeepsLean(run: seq<Net>)
    requires IsRun(run) && Init(run[0])
    ensures Lean(run[|run| - 1])
  {
    hide Next;
    var last := |run| - 1;
    if last > 0 {
      assert IsRun(run[..last]);
      RunKeepsLean(run[..last]);
      RunKeepsInv(run[..last]);
      assert Next(run[last - 1], run[last]);
      NextKeepsLean(run[last - 1], run[last]);
    }
  }

  /** In every reachable state every message under way has to be there. */
  lemma OnlyNeededMessagesTravel(n: Net)
    requires Reachable(n)
    ensures Lean(n)
  {
    hide Init, Lean;
    var run :| IsRun(run) && Init(run[0]) && run[|run| - 1] == n;
    RunKeepsLean(run);
  }

  /** Two that hold the same exchange starts and `done`s only, and learn nothing. */
  lemma SameHoldingsExchangeNothing(n: Net)
    requires Reachable(n) && SameWithin(n.x.held, n.y.held, [])
    ensures forall m :: m in n.xy || m in n.yx ==> IsRoot(m) || IsDone(m)
    ensures n.x.learnt == [] && n.y.learnt == []
  {
    OnlyNeededMessagesTravel(n);
    ReachableInv(n);
    SameIsSymmetric(n.x.held, n.y.held, []);
    hide Inv, Reachable, SameWithin;
    forall m | m in n.xy || m in n.yx ensures IsRoot(m) || IsDone(m) {
      SameBelow(n.x.held, n.y.held, [], m.prefix);
    }
    NothingLearnt(n);
    NothingLearnt(Flip(n));
  }

  lemma NothingLearnt(n: Net)
    requires Inv(n) && SameWithin(n.x.held, n.y.held, [])
    ensures n.x.learnt == []
  {
    if n.x.learnt != [] {
      var l := n.x.learnt[0];
      assert l in n.x.learnt && Lacks(n.x.held, n.y.held, l.key);
      assert Within(l.key, []);
    }
  }

  // --- a peer that need not be honest ---

  /** What asking remembers: of each range asked for the count and digest given, and of no other. */
  lemma {:induction false} AskingRemembers(item: ItemOf, h: Held, take: bool, awaited: map<Nibbles, Part>, p: Nibbles,
          parts: seq<Part>, n: nat, t: Nibbles)
    requires Consistent(h) && n <= |parts| == PARTS
    ensures
      var r := AnswerParts(item, h, take, awaited, p, parts, n);
      var asked := KeyList(t, KIND_ASK, [], []) in r.out;
      && (asked ==> |t| == |p| + 1 && p <= t && t[|p|] < n)
      && (t in r.awaited <==> t in awaited || asked)
      && (t in r.awaited ==> r.awaited[t] == if asked then parts[t[|p|]] else awaited[t])
  {
    hide PartOf, PartsOf, Filter, LengthsOf;
    if n > 0 {
      AskingRemembers(item, h, take, awaited, p, parts, n - 1, t);
      var before := AnswerParts(item, h, take, awaited, p, parts, n - 1);
      var child := Child(p, n - 1);
      if parts[n - 1] != PartOf(item, h.sorted, h.lengths, child) {
        var more := AnswerPart(item, h, take, before.awaited, child, parts[n - 1]);
        assert KeyList(t, KIND_ASK, [], []) in before.out + more.out <==>
               KeyList(t, KIND_ASK, [], []) in before.out || KeyList(t, KIND_ASK, [], []) in more.out;
      }
    }
  }

  /**
   Keys for a range asked for are taken, whatever else is held by then, if and only
   if they are as many and of the digest the peer gave; and but once.
   */
  lemma AskedIsChecked(item: ItemOf, h: Held, take: bool, awaited: map<Nibbles, Part>, m: Message, t: Nibbles,
          later: Held, reply: Message)
    requires Consistent(h) && Consistent(later) && m.Ranges?
    requires KeyList(t, KIND_ASK, [], []) in AnswerRanges(item, h, take, awaited, m).out
    requires reply.KeyList? && reply.kind == KIND_KEYS && reply.prefix == t
    requires |reply.keys| <= CHUNK && WellFormedKeys(reply)
    ensures m.prefix < t && |m.parts| == PARTS
    ensures
      var r := AnswerKeys(item, later, take, AnswerRanges(item, h, take, awaited, m).awaited, reply);
      var given := Part(|reply.keys|, ListDigest(item, reply.keys, reply.lengths, |reply.keys|));
      && (r.ignored <==> m.parts[t[|m.prefix|]] != given)
      && t !in r.awaited
  {
    AskingRemembers(item, h, take, awaited, m.prefix, m.parts, PARTS, t);
  }

  /**
   Whatever a peer sends: what is learnt of it lies in the range named, is lacked
   here, and is at most CHUNK keys, FEW in keys of a whole range nobody asked for;
   what is ignored teaches nothing and asks nothing.
   */
  lemma LearntWithinBounds(item: ItemOf, h: Held, take: bool, awaited: map<Nibbles, Part>, m: Message)
    requires Consistent(h) && m.KeyList?
    ensures
      var r := AnswerKeys(item, h, take, awaited, m);
      && |r.learn| <= CHUNK && (m.kind == KIND_KEYS && m.prefix !in awaited ==> |r.learn| <= FEW)
      && (forall l :: l in r.learn ==>
           IsKey(l.key) && Within(l.key, m.prefix) && l.key in m.keys && HeldLength(h, l.key) < l.length <= MAX_SAFE)
      && (r.ignored ==> r.learn == [] && (r.out == [] || r.out == [Done(m.prefix)]))
      && (forall t :: t in awaited && (t != m.prefix || m.kind != KIND_KEYS) ==>
           t in r.awaited && r.awaited[t] == awaited[t])
      && r.awaited.Keys <= awaited.Keys
  {
    hide PartsOf, ListDigest, Chunks, LackedBy, Filter;
    if WellFormedKeys(m) {
      LearnFromExact(h, m.keys, m.lengths, |m.keys|);
      LearnsNoMore(h, m.keys, m.lengths, |m.keys|);
    }
  }

  /** What is ignored, and what ends an exchange: no other message does either. */
  lemma IgnoredExactly(item: ItemOf, h: Held, take: bool, awaited: map<Nibbles, Part>, m: Message)
    requires Consistent(h) && m.KeyList?
    ensures
      var r, readable := AnswerKeys(item, h, take, awaited, m), ValidPrefix(m.prefix) && |m.keys| <= CHUNK;
      && (r.done <==> readable && m.kind == KIND_DONE)
      && (r.ignored <==>
           !readable ||
           (m.kind != KIND_DONE &&
            (!WellFormedKeys(m) || m.kind > KIND_DONE ||
             (m.kind == KIND_KEYS &&
              if m.prefix in awaited
              then awaited[m.prefix] != Part(|m.keys|, ListDigest(item, m.keys, m.lengths, |m.keys|))
              else |m.keys| > FEW))))
      && (!r.ignored && Answered(m) ==> r.out != [] && r.out[|r.out| - 1] == Done(m.prefix))
  {
    hide Filter, PartsOf, ListDigest, LearnFrom, LackedBy;
  }

  /** Whatever came: no message sent names more than CHUNK keys, and one that names a whole range no more than FEW. */
  lemma MessagesAreShort(item: ItemOf, h: Held, take: bool, awaited: map<Nibbles, Part>, m: Message)
    requires Consistent(h)
    ensures m.Ranges? ==> forall n :: n in AnswerRanges(item, h, take, awaited, m).out ==> Brief(n)
    ensures m.KeyList? ==> forall n :: n in AnswerKeys(item, h, take, awaited, m).out ==> Brief(n)
    ensures m.KeyList? && m.kind == KIND_ASK ==> forall n ::
        n in AnswerKeys(item, h, take, awaited, m).out && n.KeyList? ==>
              |n.keys| <= FEW
  {
    hide PartsOf, ListDigest, LackedBy, TableOf, PartOf, Filter;
    match m
    case Ranges(p, parts) =>
      if |parts| == PARTS {
        BriefParts(item, h, take, awaited, p, parts, PARTS);
      }
    case KeyList(p, _, keys, lengths) =>
      if |keys| == |lengths| {
        var inside := Filter(h.sorted, p);
        BriefChunks(h, p, LackedBy(h, TableOf(keys, lengths, |keys|), inside, |inside|), 0);
      }
  }

  predicate Brief(m: Message) {
    m.KeyList? ==> |m.keys| <= CHUNK && (m.kind == KIND_KEYS ==> |m.keys| <= FEW)
  }

  lemma {:induction false} BriefParts(item: ItemOf, h: Held, take: bool, awaited: map<Nibbles, Part>, p: Nibbles,
          parts: seq<Part>, n: nat)
    requires Consistent(h) && n <= |parts| == PARTS
    ensures forall m :: m in AnswerParts(item, h, take, awaited, p, parts, n).out ==> Brief(m)
  {
    hide PartsOf, PartOf, Filter;
    if n > 0 {
      BriefParts(item, h, take, awaited, p, parts, n - 1);
    }
  }

  lemma {:induction false} BriefChunks(h: Held, p: Nibbles, keys: seq<Nibbles>, i: nat)
    requires i <= |keys|
    ensures forall m :: m in Chunks(h, p, keys, i) ==> Brief(m)
    decreases |keys| - i
  {
    if i < |keys| {
      BriefChunks(h, p, keys, if i + CHUNK <= |keys| then i + CHUNK else |keys|);
    }
  }

  /** Ranges of any peer get their `done` in the end, unless they are too deep or not sixteen: those get nothing. */
  lemma RangesAlwaysDone(item: ItemOf, h: Held, take: bool, awaited: map<Nibbles, Part>, m: Message)
    requires Consistent(h) && m.Ranges?
    ensures
      var r := AnswerRanges(item, h, take, awaited, m);
      if |m.prefix| < MAX_NIBBLES && |m.parts| == PARTS then r.out != [] && r.out[|r.out| - 1] == Done(m.prefix)
      else r == Answer([], awaited)
  {
    hide AnswerParts;
  }

  lemma {:induction false} LearnsNoMore(h: Held, keys: seq<Nibbles>, lengths: seq<int>, n: nat)
    requires n <= |keys| == |lengths|
    requires forall i :: 0 <= i < |lengths| ==> lengths[i] >= 0
    ensures |LearnFrom(h, keys, lengths, n)| <= n
  {
    if n > 0 {
      LearnsNoMore(h, keys, lengths, n - 1);
    }
  }

  // --- the messages of one answer ---

  /** The keys of these messages, one after another. */
  function KeysOf(ms: seq<Message>): seq<Nibbles> {
    if ms == [] then [] else (if ms[0].KeyList? then ms[0].keys else []) + KeysOf(ms[1..])
  }

  /** The chunks hold all the keys lacked, in their order, as few messages as CHUNK allows. */
  lemma {:induction false} ChunksAreAll(h: Held, p: Nibbles, keys: seq<Nibbles>, i: nat)
    requires i <= |keys|
    ensures KeysOf(Chunks(h, p, keys, i)) == keys[i..]
    ensures (|Chunks(h, p, keys, i)| - 1) * CHUNK < |keys| - i || i == |keys|
    ensures |keys| - i <= |Chunks(h, p, keys, i)| * CHUNK
    decreases |keys| - i
  {
    if i < |keys| {
      var end := if i + CHUNK <= |keys| then i + CHUNK else |keys|;
      ChunksAreAll(h, p, keys, end);
      assert keys[i..end] + keys[end..] == keys[i..];
      assert Chunks(h, p, keys, i)[1..] == Chunks(h, p, keys, end);
    }
  }

  /**
   Whatever a peer sends, the count of unanswered messages stays at 0 or above, and a
   `done` nobody waits for does nothing.
   */
  lemma CountNeverNegative(item: ItemOf, me: Side, m: Message)
    requires Consistent(me.held) && me.waiting >= 0
    ensures
      var (me', out) := Receive(item, me, m);
      me'.waiting >= 0 && (IsDone(m) && me.waiting == 0 ==> me' == me && out == [])
  {
    hide AnswerParts, PartsOf, Chunks, WellFormedKeys, LearnFrom, LackedBy, ListDigest;
    assert me.learnt + [] == me.learnt;
  }
}
