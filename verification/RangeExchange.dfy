/**
 Two members exchanging ranges over a channel: FIFO queues of messages in both
 directions, either side starting an exchange at any time, and each side's count
 of the messages it waits to see answered (#send, #onKeys of lib/directory.js).
 Both key sets stay fixed, as the exchange itself changes none.
 */
module RangeExchange {
  import opened LogKeys
  import opened Digests
  import opened SortedKeys
  import opened RangeSession
  import opened RangeReplies

  /**
   One member's side of the channel. `learnt` is everything handed to the
   directory to consider. Two history variables: `engaged`, it started an
   exchange or answered its peer's start; `settled`, its count came back to 0.
   */
  datatype Side = Side(held: Held, take: bool, awaited: map<Nibbles, Part>, waiting: int,
                       learnt: seq<Learnt>, engaged: bool, settled: bool)

  /** `delivered`: the ranges already delivered; `starts`: how many exchanges were started. */
  datatype Net = Net(item: ItemOf, x: Side, y: Side, xy: seq<Message>, yx: seq<Message>,
                     delivered: seq<Nibbles>, starts: nat)

  /** What a side does with one message: its new state, and what it sends back. */
  function Receive(item: ItemOf, s: Side, m: Message): (Side, seq<Message>)
    requires forall k :: k in s.held.sorted ==> k in s.held.lengths
  {
    match m
    case Ranges(prefix, _) =>
      var r := AnswerRanges(item, s.held, s.take, s.awaited, m);
      (s.(awaited := r.awaited, waiting := s.waiting + CountAnswered(r.out), engaged := s.engaged || prefix == []),
        r.out)
    case KeyList(_, _, _, _) =>
      var r := AnswerKeys(item, s.held, s.take, s.awaited, m);
      var sent := s.(awaited := r.awaited, learnt := s.learnt + r.learn, waiting := s.waiting + CountAnswered(r.out));
      if !r.done || sent.waiting <= 0 then (sent, r.out)
      else (sent.(waiting := sent.waiting - 1, settled := sent.settled || sent.waiting - 1 == 0), r.out)
  }

  function Flip(n: Net): Net {
    Net(n.item, n.y, n.x, n.yx, n.xy, n.delivered, n.starts)
  }

  ghost predicate Sound(n: Net) {
    && Sane(n.x.held) && Sane(n.y.held)
    && NoCollision(n.item, n.x.held, n.y.held) && NoCollision(n.item, n.y.held, n.x.held)
  }

  function StartX(n: Net): Net
    requires forall k :: k in n.x.held.sorted ==> k in n.x.held.lengths
  {
    n.(x := n.x.(waiting := n.x.waiting + 1, engaged := true), xy := n.xy + [Start(n.item, n.x.held)],
      starts := n.starts + 1)
  }

  function DeliverToY(n: Net): Net
    requires n.xy != []
    requires forall k :: k in n.y.held.sorted ==> k in n.y.held.lengths
  {
    var m := n.xy[0];
    var (y', out) := Receive(n.item, n.y, m);
    n.(y := y', xy := n.xy[1..], yx := n.yx + out, delivered := n.delivered + if m.Ranges? then [m.prefix] else [])
  }

  ghost predicate Deliver(n: Net, n': Net) {
    Sound(n) &&
    (|| (n.xy != [] && n' == DeliverToY(n))
     || (n.yx != [] && n' == Flip(DeliverToY(Flip(n)))))
  }

  ghost predicate Starts(n: Net, n': Net) {
    Sound(n) && (n' == StartX(n) || n' == Flip(StartX(Flip(n))))
  }

  ghost predicate Next(n: Net, n': Net) {
    Starts(n, n') || Deliver(n, n')
  }

  ghost predicate Fresh(s: Side) {
    s.awaited == map[] && s.waiting == 0 && s.learnt == [] && !s.engaged && !s.settled
  }

  ghost predicate Init(n: Net) {
    Sound(n) && Fresh(n.x) && Fresh(n.y) && n.xy == [] && n.yx == [] && n.delivered == [] && n.starts == 0
  }

  // --- what every step keeps ---

  /** Everything under way is honest, and what is remembered of the peer is right. */
  ghost predicate Truthful(n: Net) {
    Sound(n) && AllHonest(n.item, n.x.held, n.y.held, n.xy) && AwaitedRight(n.item, n.y.held, n.x.awaited)
  }

  /** The count is exact: one for each message of ours not yet answered, one for each `done` on its way to us. */
  ghost predicate Counted(n: Net) {
    n.x.waiting == CountAnswered(n.xy) + CountDone(n.yx)
  }

  predicate IsRoot(m: Message) {
    m.Ranges? && m.prefix == []
  }

  /** A side that did nothing yet has only its peer's starts coming. */
  ghost predicate Quiet(n: Net) {
    && (!n.x.engaged ==> n.xy == [] && n.x.learnt == [] && !n.x.settled && forall m :: m in n.yx ==> IsRoot(m))
    && (n.x.engaged && !n.y.engaged ==> n.xy != [])
  }

  /** Only what the peer holds, and this side lacks or holds shorter, is learnt. */
  ghost predicate LearnsOnlyLacked(n: Net) {
    forall l :: l in n.x.learnt ==> Lacks(n.x.held, n.y.held, l.key) && l.length == n.y.held.lengths[l.key]
  }

  ghost predicate Has(n: Net, k: Nibbles) {
    k in n.y.held.lengths && Learnt(k, n.y.held.lengths[k]) in n.x.learnt
  }

  ghost predicate CoveredOut(q: seq<Message>, k: Nibbles) {
    exists i :: 0 <= i < |q| && Answered(q[i]) && Within(k, q[i].prefix)
  }

  /** Covered by a message coming in with a `done` behind it. */
  ghost predicate CoveredIn(q: seq<Message>, k: Nibbles) {
    exists i, j :: 0 <= i < j < |q| && Covers(q[i], k) && IsDone(q[j])
  }

  /** All an engaged side lacks is learnt or on its way to it. */
  ghost predicate OnItsWay(n: Net) {
    n.x.take && n.x.engaged ==>
      forall k :: Lacks(n.x.held, n.y.held, k) ==> Has(n, k) || CoveredOut(n.xy, k) || CoveredIn(n.yx, k)
  }

  ghost predicate LearntAll(n: Net) {
    forall k :: Lacks(n.x.held, n.y.held, k) ==> Has(n, k)
  }

  ghost predicate SettledMeansDone(n: Net) {
    n.x.settled ==> n.x.engaged && (n.x.take ==> LearntAll(n))
  }

  ghost predicate Half(n: Net) {
    Truthful(n) && Counted(n) && Quiet(n) && LearnsOnlyLacked(n) && OnItsWay(n) && SettledMeansDone(n)
  }

  ghost predicate Inv(n: Net) {
    Half(n) && Half(Flip(n)) && (n.starts > 0 ==> n.x.engaged || n.y.engaged)
  }

  // --- one message received ---

  lemma ReceiveTruthful(item: ItemOf, me: Side, peer: Held, m: Message)
    requires Sane(me.held) && Sane(peer) && AwaitedRight(item, peer, me.awaited) && Honest(item, peer, me.held, m)
    ensures
      var (me', out) := Receive(item, me, m);
      && GoodAnswer(item, me.held, peer, m, out, me'.awaited)
      && me'.held == me.held && me'.take == me.take && me'.engaged == (me.engaged || IsRoot(m))
      && me.learnt <= me'.learnt
      && (forall l :: l in me'.learnt ==>
        l in me.learnt ||
        (Lacks(me.held, peer, l.key) && l.length == peer.lengths[l.key]))
  {
    hide AnswerRanges, AnswerKeys, Honest, Lacks, GoodAnswer, AwaitedRight;
    match m
    case Ranges(_, _) => RangesAnswerGood(item, me.held, peer, me.take, me.awaited, m);
    case KeyList(_, _, _, _) => KeysAnswerGood(item, me.held, peer, me.take, me.awaited, m);
  }

  lemma ReceiveCounts(item: ItemOf, me: Side, peer: Held, m: Message)
    requires Sane(me.held) && Sane(peer) && AwaitedRight(item, peer, me.awaited) && Honest(item, peer, me.held, m)
    requires IsDone(m) ==> me.waiting > 0
    ensures
      var (me', out) := Receive(item, me, m);
      && me'.waiting == me.waiting + CountAnswered(out) - (if IsDone(m) then 1 else 0)
      && (IsDone(m) ==> out == [] && me'.learnt == me.learnt)
      && me'.settled == (me.settled || (IsDone(m) && me'.waiting == 0))
  {
    if m.KeyList? && !IsDone(m) {
      KeysAnswerGood(item, me.held, peer, me.take, me.awaited, m);
    }
  }

  lemma ReceiveServesPeer(item: ItemOf, me: Side, peer: Held, m: Message, k: Nibbles) returns (i: nat)
    requires Sane(me.held) && Sane(peer) && NoCollision(item, me.held, peer) && NoCollision(item, peer, me.held)
    requires AwaitedRight(item, peer, me.awaited) && Honest(item, peer, me.held, m)
    requires Answered(m) && Within(k, m.prefix) && Lacks(peer, me.held, k)
    ensures var out := Receive(item, me, m).1; i < |out| - 1 && Covers(out[i], k) && IsDone(out[|out| - 1])
  {
    ReceiveTruthful(item, me, peer, m);
    hide AnswerRanges, AnswerKeys, Honest, Lacks, Covers, AwaitedRight, NoCollision;
    match m
    case Ranges(_, _) => i := RangesAnswerCovers(item, me.held, peer, me.take, me.awaited, m, k);
    case KeyList(_, _, _, _) => i := AnswerServesPeer(item, me.held, peer, me.take, me.awaited, m, k);
  }

  lemma ReceiveServesMe(item: ItemOf, me: Side, peer: Held, m: Message, k: Nibbles)
    requires Sane(me.held) && Sane(peer) && NoCollision(item, me.held, peer) && NoCollision(item, peer, me.held)
    requires AwaitedRight(item, peer, me.awaited) && Honest(item, peer, me.held, m)
    requires me.take && Covers(m, k) && Lacks(me.held, peer, k)
    ensures var (me', out) := Receive(item, me, m); Learnt(k, peer.lengths[k]) in me'.learnt || CoveredOut(out, k)
  {
    hide AnswerRanges, AnswerKeys, Honest, AwaitedRight, NoCollision;
    match m
    case Ranges(_, _) =>
      var i := RangesAnswerCovers(item, me.held, peer, me.take, me.awaited, m, k);
      assert Covers(AnswerRanges(item, me.held, me.take, me.awaited, m).out[i], k);
    case KeyList(_, _, _, _) => AnswerServesMe(item, me.held, peer, me.awaited, m, k);
  }

  // --- one step ---

  lemma HeadAnswered(q: seq<Message>)
    requires q != []
    ensures CountAnswered(q) == CountAnswered(q[1..]) + if Answered(q[0]) then 1 else 0
    ensures CountDone(q) == CountDone(q[1..]) + if IsDone(q[0]) then 1 else 0
  {
    assert q == [q[0]] + q[1..];
    CountsOfConcat([q[0]], q[1..]);
    assert [q[0]][..0] == [];
  }

  lemma QueuesOnlyMove(q: seq<Message>, more: seq<Message>, k: Nibbles)
    ensures CoveredOut(q, k) ==> CoveredOut(q + more, k)
    ensures CoveredOut(more, k) ==> CoveredOut(q + more, k)
    ensures CoveredIn(q, k) ==> CoveredIn(q + more, k)
  {
    if CoveredOut(q, k) {
      var i :| 0 <= i < |q| && Answered(q[i]) && Within(k, q[i].prefix);
      assert (q + more)[i] == q[i];
    }
    if CoveredOut(more, k) {
      var i :| 0 <= i < |more| && Answered(more[i]) && Within(k, more[i].prefix);
      assert (q + more)[|q| + i] == more[i];
    }
    if CoveredIn(q, k) {
      var i, j :| 0 <= i < j < |q| && Covers(q[i], k) && IsDone(q[j]);
      assert (q + more)[i] == q[i] && (q + more)[j] == q[j];
    }
  }

  lemma HeadOrTail(q: seq<Message>, k: Nibbles)
    requires q != []
    ensures CoveredOut(q, k) ==> (Answered(q[0]) && Within(k, q[0].prefix)) || CoveredOut(q[1..], k)
    ensures CoveredIn(q, k) ==> Covers(q[0], k) || CoveredIn(q[1..], k)
  {
    if CoveredOut(q, k) {
      var i :| 0 <= i < |q| && Answered(q[i]) && Within(k, q[i].prefix);
      assert i > 0 ==> q[1..][i - 1] == q[i];
    }
    if CoveredIn(q, k) {
      var i, j :| 0 <= i < j < |q| && Covers(q[i], k) && IsDone(q[j]);
      assert i > 0 ==> q[1..][i - 1] == q[i] && q[1..][j - 1] == q[j];
    }
  }

  /** With an exact count at 0, nothing that could teach this side is under way: it knows it all. */
  lemma CountAtZeroMeansLearntAll(n: Net)
    requires Counted(n) && OnItsWay(n) && n.x.waiting == 0 && n.x.engaged && n.x.take
    ensures LearntAll(n)
  {
    NoneCounted(n.xy);
    NoneCounted(n.yx);
    assert forall i :: 0 <= i < |n.xy| ==> n.xy[i] in n.xy && !Answered(n.xy[i]);
    assert forall j :: 0 <= j < |n.yx| ==> n.yx[j] in n.yx && !IsDone(n.yx[j]);
  }

  lemma StartKeepsInv(n: Net)
    requires Inv(n)
    ensures Inv(StartX(n))
  {
    hide Lacks, CoveredIn, CoveredOut, Has, Sane, NoCollision, AllHonest, AwaitedRight;
    StartIsTruthful(n);
    StartIsCounted(n);
    StartLearnsNothing(n);
    StartServesBoth(n);
  }

  lemma StartIsCounted(n: Net)
    requires Sound(n) && Counted(n) && Counted(Flip(n))
    ensures Counted(StartX(n)) && Counted(Flip(StartX(n)))
  {
    hide NoCollision, DigestOf, PartOf, Filter;
    var start := Start(n.item, n.x.held);
    CountsOfConcat(n.xy, [start]);
    assert [start][..0] == [];
  }

  lemma StartLearnsNothing(n: Net)
    requires Sound(n)
    ensures forall k :: Has(n, k) <==> Has(StartX(n), k)
    ensures forall k :: Has(Flip(n), k) <==> Has(Flip(StartX(n)), k)
  {
    hide Has, NoCollision;
    var n' := StartX(n);
    forall k ensures Has(Flip(n), k) <==> Has(Flip(n'), k) {
      SameLearning(Flip(n), Flip(n'), k);
    }
    forall k ensures Has(n, k) <==> Has(n', k) {
      SameLearning(n, n', k);
    }
  }

  lemma StartServesBoth(n: Net)
    requires Sound(n) && OnItsWay(n) && OnItsWay(Flip(n))
    ensures OnItsWay(StartX(n)) && OnItsWay(Flip(StartX(n)))
  {
    hide Lacks, CoveredIn, CoveredOut, Has, NoCollision;
    var n' := StartX(n);
    StartLearnsNothing(n);
    forall k ensures CoveredOut(n'.xy, k) && (CoveredIn(n.xy, k) ==> CoveredIn(n'.xy, k)) {
      StartCoversAll(n, k);
    }
  }

  lemma SameLearning(n: Net, n': Net, k: Nibbles)
    requires n.x.learnt == n'.x.learnt && n.y.held == n'.y.held
    ensures Has(n, k) <==> Has(n', k)
  {
  }

  lemma StartCoversAll(n: Net, k: Nibbles)
    requires Sound(n)
    ensures CoveredOut(StartX(n).xy, k)
    ensures CoveredIn(n.xy, k) ==> CoveredIn(StartX(n).xy, k)
  {
    var start := Start(n.item, n.x.held);
    QueuesOnlyMove(n.xy, [start], k);
    assert [start][0] == start && Within(k, start.prefix);
  }

  lemma StartIsTruthful(n: Net)
    requires Truthful(n) && Truthful(Flip(n))
    ensures Truthful(StartX(n)) && Truthful(Flip(StartX(n)))
  {
  }

  lemma CoveredByAnswer(q: seq<Message>, out: seq<Message>, i: nat, k: Nibbles)
    requires i < |out| - 1 && Covers(out[i], k) && IsDone(out[|out| - 1])
    ensures CoveredIn(q + out, k)
  {
    hide Covers, IsDone;
    var all := q + out;
    assert all[|q| + i] == out[i] && all[|q| + |out| - 1] == out[|out| - 1];
  }

  /** The first message under way is as the sender's keys say. */
  lemma HeadIsHonest(n: Net)
    requires Inv(n) && n.xy != []
    ensures Sane(n.y.held) && Sane(n.x.held) && AwaitedRight(n.item, n.x.held, n.y.awaited)
    ensures Honest(n.item, n.x.held, n.y.held, n.xy[0])
  {
    hide Sane, Honest, AwaitedRight, Counted, Quiet, OnItsWay, LearnsOnlyLacked, SettledMeansDone;
    assert n.xy[0] in n.xy;
  }

  lemma SenderServed(n: Net, k: Nibbles)
    requires Inv(n) && n.x.take && n.x.engaged && Lacks(n.x.held, n.y.held, k)
    ensures Has(n, k) || CoveredOut(n.xy, k) || CoveredIn(n.yx, k)
    ensures NoCollision(n.item, n.x.held, n.y.held) && NoCollision(n.item, n.y.held, n.x.held)
  {
    hide Has, CoveredOut, CoveredIn, Lacks, NoCollision, Honest, Sane, AwaitedRight;
  }

  /** What the sender lacks stays on its way when one of its messages is delivered. */
  lemma SenderStillServed(n: Net, k: Nibbles)
    requires Inv(n) && n.xy != [] && n.x.take && n.x.engaged && Lacks(n.x.held, n.y.held, k)
    ensures var n' := DeliverToY(n); Has(n, k) || CoveredOut(n'.xy, k) || CoveredIn(n'.yx, k)
  {
    hide Receive, Honest, Covers, Lacks, NoCollision, CoveredIn, CoveredOut, Inv, AwaitedRight;
    HeadIsHonest(n);
    SenderServed(n, k);
    var m := n.xy[0];
    var out := Receive(n.item, n.y, m).1;
    HeadOrTail(n.xy, k);
    QueuesOnlyMove(n.yx, out, k);
    if Answered(m) && Within(k, m.prefix) {
      var i := ReceiveServesPeer(n.item, n.y, n.x.held, m, k);
      CoveredByAnswer(n.yx, out, i, k);
    }
  }

  /** What the receiver lacks is learnt from the message, or asked for, or still comes. */
  lemma ReceiverStillServed(n: Net, k: Nibbles)
    requires Inv(n) && n.xy != [] && n.y.take && Lacks(n.y.held, n.x.held, k)
    requires n.y.engaged || IsRoot(n.xy[0])
    ensures var f' := Flip(DeliverToY(n)); Has(f', k) || CoveredOut(f'.xy, k) || CoveredIn(f'.yx, k)
  {
    var m := n.xy[0];
    var out := Receive(n.item, n.y, m).1;
    assert m in n.xy;
    HeadOrTail(n.xy, k);
    QueuesOnlyMove(n.yx, out, k);
    if Covers(m, k) {
      ReceiveServesMe(n.item, n.y, n.x.held, m, k);
    } else {
      ReceiveTruthful(n.item, n.y, n.x.held, m);
      assert OnItsWay(Flip(n)) && n.y.engaged;
    }
  }

  /** The sender's half of a delivery. */
  lemma DeliverySender(n: Net)
    requires Inv(n) && n.xy != []
    ensures Half(DeliverToY(n))
  {
    hide Receive, Honest, Lacks, NoCollision, CoveredIn, CoveredOut;
    var n', m := DeliverToY(n), n.xy[0];
    ReceiveTruthful(n.item, n.y, n.x.held, m);
    HeadAnswered(n.xy);
    CountsOfConcat(n.yx, Receive(n.item, n.y, m).1);
    if n.x.take && n.x.engaged {
      forall k | Lacks(n.x.held, n.y.held, k) ensures Has(n', k) || CoveredOut(n'.xy, k) || CoveredIn(n'.yx, k) {
        SenderStillServed(n, k);
        assert Has(n, k) ==> Has(n', k);
      }
    }
  }

  /** The receiver's half of a delivery. */
  lemma DeliveryReceiver(n: Net)
    requires Inv(n) && n.xy != []
    ensures Half(Flip(DeliverToY(n)))
  {
    hide Receive, Honest, Lacks, NoCollision, CoveredIn, CoveredOut;
    var n', m := DeliverToY(n), n.xy[0];
    var f, f' := Flip(n), Flip(n');
    var out := Receive(n.item, n.y, m).1;
    ReceiveTruthful(n.item, n.y, n.x.held, m);
    HeadAnswered(n.xy);
    ReceiveCounts(n.item, n.y, n.x.held, m);
    CountsOfConcat(n.yx, out);
    forall k | Has(f, k) ensures Has(f', k) {
    }
    if n.y.take && f'.x.engaged {
      forall k | Lacks(n.y.held, n.x.held, k) ensures Has(f', k) || CoveredOut(f'.xy, k) || CoveredIn(f'.yx, k) {
        ReceiverStillServed(n, k);
      }
    }
    if f'.x.settled && !n.y.settled && n.y.take {
      CountAtZeroMeansLearntAll(f');
    }
  }

  lemma DeliverKeepsInv(n: Net)
    requires Inv(n) && n.xy != []
    ensures Inv(DeliverToY(n))
  {
    DeliverySender(n);
    DeliveryReceiver(n);
    ReceiveTruthful(n.item, n.y, n.x.held, n.xy[0]);
  }

  lemma NextKeepsInv(n: Net, n': Net)
    requires Inv(n) && Next(n, n')
    ensures Inv(n')
  {
    assert Inv(Flip(n)) && Flip(Flip(n)) == n;
    if n' == StartX(n) {
      StartKeepsInv(n);
    } else if n' == Flip(StartX(Flip(n))) {
      StartKeepsInv(Flip(n));
    } else if n.xy != [] && n' == DeliverToY(n) {
      DeliverKeepsInv(n);
    } else {
      DeliverKeepsInv(Flip(n));
    }
  }

  // --- whole runs ---

  ghost predicate IsRun(run: seq<Net>) {
    run != [] && forall i :: 0 <= i < |run| - 1 ==> Next(run[i], run[i + 1])
  }

  /** A state some run leads to from two fresh sides and an empty channel. */
  ghost predicate Reachable(n: Net) {
    exists run: seq<Net> :: IsRun(run) && Init(run[0]) && run[|run| - 1] == n
  }

  lemma InitInv(n: Net)
    requires Init(n)
    ensures Inv(n)
  {
  }

  lemma {:induction false} RunKeepsInv(run: seq<Net>)
    requires IsRun(run) && Init(run[0])
    ensures Inv(run[|run| - 1])
  {
    hide Inv, Next, Init;
    var last := |run| - 1;
    if last == 0 {
      InitInv(run[0]);
    } else {
      assert IsRun(run[..last]);
      RunKeepsInv(run[..last]);
      assert Next(run[last - 1], run[last]);
      NextKeepsInv(run[last - 1], run[last]);
    }
  }

  lemma ReachableInv(n: Net)
    requires Reachable(n)
    ensures Inv(n)
  {
    hide Inv, Init;
    var run :| IsRun(run) && Init(run[0]) && run[|run| - 1] == n;
    RunKeepsInv(run);
  }

  /** What a side that lacks nothing any more was taught: exactly what it lacked, at the peer's lengths. */
  ghost predicate LearntExactly(n: Net) {
    forall l: Learnt :: l in n.x.learnt <==> Lacks(n.x.held, n.y.held, l.key) && l.length == n.y.held.lengths[l.key]
  }

  /**
   In every reachable state, a side that asks for keys and whose count of
   unanswered messages is 0, having taken part, has learnt exactly the keys and
   lengths its peer holds and it lacks or holds shorter, whatever still travels
   and whatever its peer does not take.
   */
  lemma NothingAwaitedMeansLearntExactly(n: Net)
    requires Reachable(n)
    requires n.x.waiting == 0 && n.x.engaged && n.x.take
    ensures LearntExactly(n)
  {
    ReachableInv(n);
    CountAtZeroMeansLearntAll(n);
  }

  /** And once a `done` brought the count back to 0 it stays so: the directory may call itself known. */
  lemma SettledMeansLearntExactly(n: Net)
    requires Reachable(n)
    requires n.x.settled && n.x.take
    ensures LearntExactly(n)
  {
    ReachableInv(n);
  }

  /** The count says what it should: one for each own message still unanswered, one for each `done` on its way. */
  lemma CountIsExact(n: Net)
    requires Reachable(n)
    ensures n.x.waiting == CountAnswered(n.xy) + CountDone(n.yx)
    ensures n.y.waiting == CountAnswered(n.yx) + CountDone(n.xy)
    ensures !n.x.engaged ==> n.x.waiting == 0
  {
    ReachableInv(n);
    NoneCounted(n.yx);
    assert [] == n.xy || n.x.engaged;
  }

  /** Nobody ever learns anything but what it lacked, and every message sent is one the receiver accepts. */
  lemma OnlyHonestMessagesTravel(n: Net)
    requires Reachable(n)
    ensures Consistent(n.x.held) && Consistent(n.y.held)
    ensures AllHonest(n.item, n.x.held, n.y.held, n.xy) && AllHonest(n.item, n.y.held, n.x.held, n.yx)
    ensures forall l :: l in n.x.learnt ==> Lacks(n.x.held, n.y.held, l.key)
    ensures forall m :: m in n.xy ==>
        ValidPrefix(m.prefix) &&
        (m.Ranges? ==> 4 * |m.prefix| <= 248 && |m.parts| == PARTS)
    ensures forall m :: m in n.xy && m.Ranges? && m.prefix != [] ==> |Filter(n.x.held.sorted, m.prefix)| > FEW
  {
    ReachableInv(n);
  }

  /**
   When the channel falls silent after a start, both sides took part, wait for
   nothing, and know all they asked for.
   */
  lemma SilenceMeansSettled(n: Net)
    requires Reachable(n)
    requires n.starts > 0 && n.xy == [] && n.yx == []
    ensures n.x.engaged && n.y.engaged && n.x.waiting == 0 && n.y.waiting == 0
    ensures n.x.take ==> LearntExactly(n)
    ensures n.y.take ==> LearntExactly(Flip(n))
  {
    ReachableInv(n);
    assert Half(Flip(n));
    if n.x.take {
      CountAtZeroMeansLearntAll(n);
    }
    if n.y.take {
      CountAtZeroMeansLearntAll(Flip(n));
    }
  }
}
