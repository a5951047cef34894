/**
 How far an exchange can go: every delivery uses up a measure, so a started
 exchange ends, and each range travels at most once per start.
 */
module RangeBounds {
  import opened LogKeys
  import opened Digests
  import opened SortedKeys
  import opened RangeSession
  import opened RangeReplies
  import opened RangeExchange

  // --- every delivery uses something up ---

  /** What a ranges message `depth` nibbles above the deepest may still cause, with `size` keys held. */
  function RangesWeight(size: nat, depth: nat): nat {
    if depth == 0 then 1 else 2 + PARTS * (RangesWeight(size, depth - 1) + size + 5)
  }

  function Weight(size: nat, m: Message): nat {
    match m
    case Ranges(p, _) => RangesWeight(size, if |p| < MAX_NIBBLES then MAX_NIBBLES - |p| else 0)
    case KeyList(_, kind, _, _) => if kind == KIND_KEYS then size + 3 else if kind == KIND_ASK then size + 5 else 1
  }

  function TotalWeight(size: nat, q: seq<Message>): nat {
    if q == [] then 0 else TotalWeight(size, q[..|q| - 1]) + Weight(size, q[|q| - 1])
  }

  lemma {:induction false} TotalWeightConcat(size: nat, a: seq<Message>, b: seq<Message>)
    ensures TotalWeight(size, a + b) == TotalWeight(size, a) + TotalWeight(size, b)
  {
    if b == [] {
      assert a + b == a;
    } else {
      assert (a + b)[..|a + b| - 1] == a + b[..|b| - 1];
      TotalWeightConcat(size, a, b[..|b| - 1]);
    }
  }

  lemma {:induction false} LightMessages(size: nat, q: seq<Message>)
    requires forall m :: m in q ==> m.KeyList? && !Answered(m)
    ensures TotalWeight(size, q) == |q|
  {
    if q != [] {
      assert q[|q| - 1] in q;
      LightMessages(size, q[..|q| - 1]);
    }
  }

  lemma OneMessage(size: nat, m: Message)
    ensures TotalWeight(size, [m]) == Weight(size, m)
  {
    assert [m][..0] == [];
  }

  /** What answering one sub-range of a range `n` nibbles deep may cause. */
  function PartWeight(size: nat, n: nat): nat
    requires n < MAX_NIBBLES
  {
    RangesWeight(size, MAX_NIBBLES - n - 1) + size + 5
  }

  lemma OnePartWeight(size: nat, item: ItemOf, h: Held, take: bool, awaited: map<Nibbles, Part>, p: Nibbles,
          i: Nibble, theirs: Part)
    requires Consistent(h) && |p| < MAX_NIBBLES
    ensures TotalWeight(size, AnswerPart(item, h, take, awaited, Child(p, i), theirs).out) <= PartWeight(size, |p|)
  {
    hide PartsOf, RangesWeight, DigestOf;
    var out := AnswerPart(item, h, take, awaited, Child(p, i), theirs).out;
    if out != [] {
      OneMessage(size, out[0]);
      assert out == [out[0]];
    }
  }

  lemma {:induction false} PartsWeight(size: nat, item: ItemOf, h: Held, take: bool, awaited: map<Nibbles, Part>,
          p: Nibbles, parts: seq<Part>, n: nat)
    requires Consistent(h) && |p| < MAX_NIBBLES && n <= |parts| == PARTS
    ensures TotalWeight(size, AnswerParts(item, h, take, awaited, p, parts, n).out) <= n * PartWeight(size, |p|)
  {
    hide PartOf, PartsOf, AnswerPart, PartWeight;
    if n > 0 {
      PartsWeight(size, item, h, take, awaited, p, parts, n - 1);
      var before := AnswerParts(item, h, take, awaited, p, parts, n - 1);
      var more := AnswerPart(item, h, take, before.awaited, Child(p, n - 1), parts[n - 1]);
      OnePartWeight(size, item, h, take, before.awaited, p, n - 1, parts[n - 1]);
      TotalWeightConcat(size, before.out, more.out);
      var w := PartWeight(size, |p|);
      assert n * w == (n - 1) * w + w;
    }
  }

  lemma RangesAnswerWeight(size: nat, item: ItemOf, h: Held, take: bool, awaited: map<Nibbles, Part>, m: Message)
    requires Consistent(h) && m.Ranges? && |m.prefix| + 1 <= MAX_NIBBLES && |m.parts| == PARTS
    ensures TotalWeight(size, AnswerRanges(item, h, take, awaited, m).out) < Weight(size, m)
  {
    hide AnswerParts;
    PartsWeight(size, item, h, take, awaited, m.prefix, m.parts, PARTS);
    TotalWeightConcat(size, AnswerParts(item, h, take, awaited, m.prefix, m.parts, PARTS).out, [Done(m.prefix)]);
    OneMessage(size, Done(m.prefix));
  }

  lemma AnswerIsLighter(size: nat, item: ItemOf, me: Side, peer: Held, m: Message)
    requires Sane(me.held) && Sane(peer) && AwaitedRight(item, peer, me.awaited) && Honest(item, peer, me.held, m)
    requires |me.held.sorted| <= size
    ensures TotalWeight(size, Receive(item, me, m).1) < Weight(size, m)
  {
    hide AnswerRanges, AnswerKeys, Weight, TotalWeight;
    match m
    case Ranges(_, _) => RangesAnswerWeight(size, item, me.held, me.take, me.awaited, m);
    case KeyList(_, _, _, _) => KeysAnswerWeight(size, item, me, peer, m);
  }

  lemma KeysAnswerWeight(size: nat, item: ItemOf, me: Side, peer: Held, m: Message)
    requires Sane(me.held) && Sane(peer) && AwaitedRight(item, peer, me.awaited)
    requires m.KeyList? && Honest(item, peer, me.held, m)
    requires |me.held.sorted| <= size
    ensures TotalWeight(size, AnswerKeys(item, me.held, me.take, me.awaited, m).out) < Weight(size, m)
  {
    var h := me.held;
    var out := AnswerKeys(item, h, me.take, me.awaited, m).out;
    HonestKeysAccepted(item, h, peer, me.awaited, m);
    OneMessage(size, Done(m.prefix));
    if m.kind == KIND_ASK {
      OneMessage(size, out[0]);
      assert out == [out[0]] + [Done(m.prefix)];
      TotalWeightConcat(size, [out[0]], [Done(m.prefix)]);
    } else if m.kind == KIND_KEYS {
      var inside := Filter(h.sorted, m.prefix);
      var lack := LackedBy(h, TableOf(m.keys, m.lengths, |m.keys|), inside, |inside|);
      LackedByExact(h, TableOf(m.keys, m.lengths, |m.keys|), inside, |inside|);
      assert inside[..|inside|] == inside;
      ChunksHonest(item, h, peer, m.prefix, lack, 0);
      LightMessages(size, Chunks(h, m.prefix, lack, 0));
      TotalWeightConcat(size, Chunks(h, m.prefix, lack, 0), [Done(m.prefix)]);
    }
  }

  function Size(n: Net): nat {
    |n.x.held.sorted| + |n.y.held.sorted|
  }

  /** What the messages under way may still cause. */
  function Measure(n: Net): nat {
    TotalWeight(Size(n), n.xy) + TotalWeight(Size(n), n.yx)
  }

  lemma DeliveryToYLightens(n: Net)
    requires Inv(n) && n.xy != []
    ensures Measure(DeliverToY(n)) < Measure(n)
  {
    hide Inv, Receive, Weight, Honest, AwaitedRight, TotalWeight, GoodAnswer;
    var m := n.xy[0];
    HeadIsHonest(n);
    var out := Receive(n.item, n.y, m).1;
    assert n.xy == [m] + n.xy[1..];
    ReceiveTruthful(n.item, n.y, n.x.held, m);
    AnswerIsLighter(Size(n), n.item, n.y, n.x.held, m);
    TotalWeightConcat(Size(n), [m], n.xy[1..]);
    OneMessage(Size(n), m);
    TotalWeightConcat(Size(n), n.yx, out);
  }

  lemma DeliveryLightens(n: Net, n': Net)
    requires Inv(n) && Deliver(n, n')
    ensures Measure(n') < Measure(n)
  {
    hide Inv, Receive;
    if n.xy != [] && n' == DeliverToY(n) {
      DeliveryToYLightens(n);
    } else {
      FlipInv(n);
      DeliveryToYLightens(Flip(n));
      assert Size(Flip(n)) == Size(n) && Size(Flip(n')) == Size(n');
    }
  }

  lemma FlipInv(n: Net)
    requires Inv(n)
    ensures Inv(Flip(n)) && Flip(Flip(n)) == n
  {
  }

  ghost predicate IsDeliveryRun(run: seq<Net>) {
    run != [] && forall i :: 0 <= i < |run| - 1 ==> Deliver(run[i], run[i + 1])
  }

  /**
   Once nobody starts any more, the exchange ends: no run of deliveries is
   longer than the measure of the state it begins in. As a delivery is possible
   while any message is under way, it ends in silence.
   */
  lemma {:induction false} DeliveriesEnd(run: seq<Net>)
    requires IsDeliveryRun(run) && Inv(run[0])
    ensures |run| - 1 <= Measure(run[0])
    ensures Inv(run[|run| - 1])
  {
    hide Inv, Deliver, Measure;
    if |run| > 1 {
      assert Deliver(run[0], run[1]);
      DeliveryLightens(run[0], run[1]);
      assert Next(run[0], run[1]);
      NextKeepsInv(run[0], run[1]);
      var rest := run[1..];
      forall i | 0 <= i < |rest| - 1 ensures Deliver(rest[i], rest[i + 1]) {
        assert Deliver(run[i + 1], run[i + 2]);
      }
      DeliveriesEnd(rest);
    }
  }

  /** A run of deliveries that cannot go on has settled both sides. */
  lemma StuckMeansSettled(n: Net)
    requires Reachable(n) && n.starts > 0
    requires !exists n' :: Deliver(n, n')
    ensures n.x.waiting == 0 && n.y.waiting == 0
    ensures n.x.take ==> LearntExactly(n)
    ensures n.y.take ==> LearntExactly(Flip(n))
  {
    ReachableInv(n);
    if n.xy != [] {
      assert Deliver(n, DeliverToY(n));
    }
    if n.yx != [] {
      assert Deliver(n, Flip(DeliverToY(Flip(n))));
    }
    SilenceMeansSettled(n);
  }

  // --- each range travels at most once per start ---

  /** Ranges messages of `q` for `p` itself or a range around it. */
  function Around(q: seq<Message>, p: Nibbles): nat {
    if q == [] then 0
    else
      var m := q[|q| - 1];
      Around(q[..|q| - 1], p) + if m.Ranges? && m.prefix <= p then 1 else 0
  }

  /** Ranges messages of `q` for `p` itself. */
  function Exactly(q: seq<Message>, p: Nibbles): nat {
    if q == [] then 0
    else
      var m := q[|q| - 1];
      Exactly(q[..|q| - 1], p) + if m.Ranges? && m.prefix == p then 1 else 0
  }

  function Times(ps: seq<Nibbles>, p: Nibbles): nat {
    if ps == [] then 0 else Times(ps[..|ps| - 1], p) + if ps[|ps| - 1] == p then 1 else 0
  }

  lemma {:induction false} AroundConcat(a: seq<Message>, b: seq<Message>, p: Nibbles)
    ensures Around(a + b, p) == Around(a, p) + Around(b, p)
  {
    if b == [] {
      assert a + b == a;
    } else {
      assert (a + b)[..|a + b| - 1] == a + b[..|b| - 1];
      AroundConcat(a, b[..|b| - 1], p);
    }
  }

  lemma {:induction false} ExactlyIsAround(q: seq<Message>, p: Nibbles)
    ensures Exactly(q, p) <= Around(q, p)
  {
    if q != [] {
      ExactlyIsAround(q[..|q| - 1], p);
    }
  }

  lemma {:induction false} NoRangesAround(q: seq<Message>, p: Nibbles)
    requires forall m :: m in q ==> m.KeyList?
    ensures Around(q, p) == 0
  {
    if q != [] {
      assert q[|q| - 1] in q;
      NoRangesAround(q[..|q| - 1], p);
    }
  }

  lemma OneAround(m: Message, p: Nibbles)
    ensures Around([m], p) == if m.Ranges? && m.prefix <= p then 1 else 0
  {
    assert [m][..0] == [];
  }

  /** A range is answered by ranges of its children only, each once: at most one leads on to `p`. */
  lemma {:induction false} PartsAround(item: ItemOf, h: Held, take: bool, awaited: map<Nibbles, Part>, q: Nibbles,
          parts: seq<Part>, n: nat, p: Nibbles)
    requires Consistent(h) && n <= |parts| == PARTS
    ensures Around(AnswerParts(item, h, take, awaited, q, parts, n).out, p) <= if q < p && p[|q|] < n then 1 else 0
  {
    hide PartOf, PartsOf, Filter, LengthsOf, AnswerPart, Child, Around;
    if n == 0 {
      NoRangesAround([], p);
    } else {
      PartsAround(item, h, take, awaited, q, parts, n - 1, p);
      var before := AnswerParts(item, h, take, awaited, q, parts, n - 1);
      var more := AnswerPart(item, h, take, before.awaited, Child(q, n - 1), parts[n - 1]);
      AroundConcat(before.out, more.out, p);
      PartAround(item, h, take, before.awaited, Child(q, n - 1), parts[n - 1], p);
      ChildAround(q, n - 1, p);
    }
  }

  lemma PartAround(item: ItemOf, h: Held, take: bool, awaited: map<Nibbles, Part>, child: Nibbles, theirs: Part,
          p: Nibbles)
    requires Consistent(h)
    ensures Around(AnswerPart(item, h, take, awaited, child, theirs).out, p) <= if child <= p then 1 else 0
  {
    hide PartOf, PartsOf, Filter, LengthsOf, Around;
    var out := AnswerPart(item, h, take, awaited, child, theirs).out;
    if out == [] {
      NoRangesAround(out, p);
    } else {
      OneAround(out[0], p);
      assert out == [out[0]] && out[0].prefix == child;
    }
  }

  lemma ChildAround(q: Nibbles, i: Nibble, p: Nibbles)
    ensures Child(q, i) <= p <==> q < p && p[|q|] == i
  {
    if q < p && p[|q|] == i {
      assert p[..|q| + 1] == q + [i];
    }
  }

  lemma AnswerAround(item: ItemOf, me: Side, peer: Held, m: Message, p: Nibbles)
    requires Sane(me.held) && Sane(peer) && AwaitedRight(item, peer, me.awaited) && Honest(item, peer, me.held, m)
    ensures Around(Receive(item, me, m).1, p) <= if m.Ranges? && m.prefix < p then 1 else 0
  {
    match m
    case Ranges(q, parts) =>
      PartsAround(item, me.held, me.take, me.awaited, q, parts, PARTS, p);
      AroundConcat(AnswerParts(item, me.held, me.take, me.awaited, q, parts, PARTS).out, [Done(q)], p);
      OneAround(Done(q), p);
    case KeyList(_, _, _, _) =>
      HonestKeysAccepted(item, me.held, peer, me.awaited, m);
      var out := Receive(item, me, m).1;
      if m.kind == KIND_KEYS {
        var inside := Filter(me.held.sorted, m.prefix);
        var lack := LackedBy(me.held, TableOf(m.keys, m.lengths, |m.keys|), inside, |inside|);
        LackedByExact(me.held, TableOf(m.keys, m.lengths, |m.keys|), inside, |inside|);
        assert inside[..|inside|] == inside;
        ChunksHonest(item, me.held, peer, m.prefix, lack, 0);
      }
      NoRangesAround(out, p);
  }

  ghost predicate OncePerStart(n: Net) {
    forall p: Nibbles :: Around(n.xy, p) + Around(n.yx, p) + Times(n.delivered, p) <= n.starts
  }

  lemma StartKeepsOnce(n: Net)
    requires Sound(n) && OncePerStart(n)
    ensures OncePerStart(StartX(n))
  {
    var start := Start(n.item, n.x.held);
    var n' := StartX(n);
    forall p: Nibbles ensures Around(n'.xy, p) + Around(n'.yx, p) + Times(n'.delivered, p) <= n'.starts {
      AroundConcat(n.xy, [start], p);
      OneAround(start, p);
    }
  }

  lemma DeliveryKeepsOnce(n: Net)
    requires Inv(n) && n.xy != [] && OncePerStart(n)
    ensures OncePerStart(DeliverToY(n))
  {
    var m := n.xy[0];
    assert m in n.xy && n.xy == [m] + n.xy[1..];
    var n' := DeliverToY(n);
    hide Inv, Receive;
    forall p: Nibbles ensures Around(n'.xy, p) + Around(n'.yx, p) + Times(n'.delivered, p) <= n'.starts {
      DeliveryKeepsOnceAt(n, p);
    }
  }

  lemma DeliveryKeepsOnceAt(n: Net, p: Nibbles)
    requires Inv(n) && n.xy != []
    ensures var n' := DeliverToY(n);
            Around(n'.xy, p) + Around(n'.yx, p) + Times(n'.delivered, p)
            <= Around(n.xy, p) + Around(n.yx, p) + Times(n.delivered, p)
  {
    var m := n.xy[0];
    assert m in n.xy && n.xy == [m] + n.xy[1..];
    AnswerAround(n.item, n.y, n.x.held, m, p);
    hide Inv, Receive;
    AroundConcat([m], n.xy[1..], p);
    OneAround(m, p);
    AroundConcat(n.yx, Receive(n.item, n.y, m).1, p);
    if m.Ranges? {
      assert (n.delivered + [m.prefix])[..|n.delivered|] == n.delivered;
    } else {
      assert n.delivered + [] == n.delivered;
    }
  }

  lemma NextKeepsOnce(n: Net, n': Net)
    requires Inv(n) && OncePerStart(n) && Next(n, n')
    ensures OncePerStart(n')
  {
    FlipInv(n);
    hide Inv, Receive;
    assert OncePerStart(Flip(n));
    if n' == StartX(n) {
      StartKeepsOnce(n);
    } else if n' == Flip(StartX(Flip(n))) {
      StartKeepsOnce(Flip(n));
    } else if n.xy != [] && n' == DeliverToY(n) {
      DeliveryKeepsOnce(n);
    } else {
      DeliveryKeepsOnce(Flip(n));
    }
  }

  lemma {:induction false} RunKeepsOnce(run: seq<Net>)
    requires IsRun(run) && Init(run[0])
    ensures OncePerStart(run[|run| - 1])
  {
    hide Next;
    var last := |run| - 1;
    if last > 0 {
      assert IsRun(run[..last]);
      RunKeepsOnce(run[..last]);
      RunKeepsInv(run[..last]);
      assert Next(run[last - 1], run[last]);
      NextKeepsOnce(run[last - 1], run[last]);
    }
  }

  /** How many ranges messages for `p` were ever sent: those delivered and those under way. */
  function Sent(n: Net, p: Nibbles): nat {
    Times(n.delivered, p) + Exactly(n.xy, p) + Exactly(n.yx, p)
  }

  /** In a run with one start each range is sent at most once; with more, at most once per start. */
  lemma EachRangeSentOncePerStart(n: Net, p: Nibbles)
    requires Reachable(n)
    ensures Sent(n, p) <= n.starts
  {
    hide Init;
    var run :| IsRun(run) && Init(run[0]) && run[|run| - 1] == n;
    RunKeepsOnce(run);
    ExactlyIsAround(n.xy, p);
    ExactlyIsAround(n.yx, p);
  }
}
