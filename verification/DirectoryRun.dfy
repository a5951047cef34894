/**
 Two members' channels joined by two FIFO queues: whatever comes when, a member
 that says it knows the directory has learnt exactly what it lacked of its peer.
 */
module DirectoryRun {
  import opened LogKeys
  import opened Digests
  import opened SortedKeys
  import opened RangeSession
  import opened RangeReplies
  import opened RangeExchange
  import opened Directory
  import opened Options

  // --- what a step does to one that knows ---

  /** A count that comes back to 0 does so by a `done`. */
  lemma BackToZeroSettles(item: ItemOf, s: Side, m: Message)
    requires forall k :: k in s.held.sorted ==> k in s.held.lengths
    requires s.waiting > 0 && Receive(item, s, m).0.waiting == 0
    ensures Receive(item, s, m).0.settled && Receive(item, s, m).0.learnt == s.learnt
  {
    hide AnswerRanges, AnswerKeys;
    if m.KeyList? {
      DoneBringsNothing(item, s.held, s.take, s.awaited, m);
    }
  }

  lemma SettledKnows(n: Net)
    requires Inv(n) && n.x.settled && n.x.take
    ensures LearntExactly(n)
  {
    hide Truthful, Counted, Quiet, OnItsWay;
  }

  /** What is learnt exactly stays so when a message is delivered. */
  lemma DeliveryKeepsLearnt(n: Net)
    requires Inv(n) && n.xy != []
    ensures Inv(DeliverToY(n))
    ensures LearntExactly(n) ==> LearntExactly(DeliverToY(n))
    ensures LearntExactly(Flip(n)) ==> LearntExactly(Flip(DeliverToY(n)))
  {
    hide Receive, Lacks, Truthful, Quiet, OnItsWay, SettledMeansDone, Honest, AwaitedRight, GoodAnswer;
    DeliverKeepsInv(n);
    HeadIsHonest(n);
    ReceiveTruthful(n.item, n.y, n.x.held, n.xy[0]);
  }

  lemma {:induction false} FilterByNothing(keys: seq<Nibbles>)
    ensures Filter(keys, []) == keys
  {
    FilterAllOrNone(keys, []);
  }

  /** With the same count and digest nothing is lacked, so exactly that is learnt. */
  lemma SameSummaryKnows(n: Net)
    requires Inv(n)
    requires |n.x.held.sorted| == |n.y.held.sorted|
    requires DigestOf(n.item, n.x.held.sorted, n.x.held.lengths) == DigestOf(n.item, n.y.held.sorted, n.y.held.lengths)
    ensures LearntExactly(n)
  {
    hide Counted, Quiet, OnItsWay, SettledMeansDone, AllHonest, AwaitedRight, DigestOf, Lacks, NoCollision;
    SameDigestLacksNothing(n.item, n.x.held, n.y.held);
  }

  lemma SameDigestLacksNothing(item: ItemOf, a: Held, b: Held)
    requires Consistent(a) && Consistent(b) && NoCollision(item, a, b)
    requires |a.sorted| == |b.sorted| && DigestOf(item, a.sorted, a.lengths) == DigestOf(item, b.sorted, b.lengths)
    ensures forall k :: !Lacks(a, b, k)
  {
    hide DigestOf, Filter, Sorted;
    FilterByNothing(a.sorted);
    FilterByNothing(b.sorted);
    assert PartOf(item, a.sorted, a.lengths, []) == PartOf(item, b.sorted, b.lengths, []);
    assert SameWithin(a, b, []);
    forall k
      ensures !Lacks(a, b, k)
    {
      assert Within(k, []);
    }
  }

  lemma StartKeepsLearnt(n: Net)
    requires Inv(n)
    ensures Inv(StartX(n))
    ensures LearntExactly(n) ==> LearntExactly(StartX(n))
    ensures LearntExactly(Flip(n)) ==> LearntExactly(Flip(StartX(n)))
  {
    hide Lacks, Truthful, Counted, Quiet, OnItsWay, SettledMeansDone;
    StartKeepsInv(n);
  }

  lemma FreshKnowsNothingWrong(n: Net)
    requires Init(n)
    ensures Inv(n) && Inv(Flip(n))
  {
    InitInv(n);
  }

  lemma CanReceive(n: Net)
    requires Inv(n)
    ensures Inv(Flip(n)) && n.x.waiting >= 0 && n.y.waiting >= 0
    ensures forall k :: k in n.x.held.sorted ==> k in n.x.held.lengths
    ensures forall k :: k in n.y.held.sorted ==> k in n.y.held.lengths
  {
    hide Quiet, OnItsWay, SettledMeansDone, AllHonest, AwaitedRight, NoCollision, LearnsOnlyLacked;
  }

  lemma HeldHasLengths(keys: Keys)
    requires keys.Valid()
    ensures forall k :: k in keys.View().sorted ==> k in keys.View().lengths
  {
  }

  // A message handed to a channel: the step of its side, and what it then knows.
  method Hand(c: Channel, m: Message, take: bool, consider: Nibbles -> bool) returns (out: seq<Message>)
    requires c.Valid() && c.Waiting() >= 0
    modifies c, c.session`awaited
    ensures c.Valid()
    ensures (c.AsSide(take), out) == Receive(c.session.keys.item, old(c.AsSide(take)), m)
    ensures old(c.known) ==> c.known
    ensures c.known && !old(c.known) ==> c.AsSide(take).settled
  {
    hide Receive, AnswerRanges, AnswerKeys, Filter, Agree, Consistent;
    ghost var before := c.AsSide(take);
    HeldHasLengths(c.session.keys);
    var sent := |c.outbox|;
    match m {
      case Ranges(_, _) => c.OnRanges(m, take);
      case KeyList(_, _, _, _) =>
        c.OnKeys(m, take, consider);
        if before.waiting > 0 && c.Waiting() == 0 {
          BackToZeroSettles(c.session.keys.item, before, m);
        }
    }
    out := c.outbox[sent..];
  }

  // The far end's summary handed to a channel: the step of its side, if any.
  method Tell(c: Channel, m: Summary, byActivity: bool, ghost take: bool) returns (out: seq<Message>)
    requires c.Valid()
    modifies c
    ensures c.Valid()
    ensures out == [] || out == [Start(c.session.keys.item, old(c.AsSide(take)).held)]
    ensures
      c.AsSide(take) ==
      if out == [] then old(c.AsSide(take))
      else old(c.AsSide(take)).(waiting := old(c.AsSide(take)).waiting + 1, engaged := true)
    ensures c.known == (old(c.known) || (!byActivity && old(c.Same(m))))
  {
    hide Filter, PartsOf, Consistent, Agree;
    var sent := |c.outbox|;
    c.OnSummary(m, byActivity);
    out := c.outbox[sent..];
  }

  // The keys messages of an exchange, one after another, until it or they end.
  // It ends knowing the directory exactly if no log of all that were handed over
  // was dropped.
  method HandAll(c: Channel, ms: seq<Message>, take: bool, consider: Nibbles -> bool) returns (n: nat)
    requires c.Valid() && c.Waiting() > 0 && !c.Dropped()
    requires forall m :: m in ms ==> m.KeyList?
    modifies c, c.session`awaited
    ensures c.Valid() && n <= |ms| && c.Waiting() >= 0 && (n < |ms| ==> c.Waiting() == 0)
    ensures old(c.considered) <= c.considered && c.theirs == old(c.theirs)
    ensures
      var dropped := c.Drops(c.considered[|old(c.considered)|..], consider);
      if c.Waiting() == 0 && !dropped then
        c.known && c.settledOn == old(c.exchange).value.theirs
      else
        c.known == old(c.known) && c.settledOn == old(c.settledOn) && c.settledMine == old(c.settledMine)
  {
    hide AnswerKeys, AnswerRanges, Filter, Agree, Consistent, Receive;
    n := 0;
    ghost var from := |c.considered|;
    while n < |ms| && c.Waiting() > 0
      invariant c.Valid() && n <= |ms| && c.Waiting() >= 0
      invariant old(c.considered) <= c.considered && c.theirs == old(c.theirs)
      invariant c.Waiting() > 0 ==> c.exchange.value.theirs == old(c.exchange).value.theirs
      invariant c.Waiting() > 0 ==> c.Dropped() == c.Drops(c.considered[from..], consider)
      invariant
        if c.Waiting() == 0 && !c.Drops(c.considered[from..], consider) then
          c.known && c.settledOn == old(c.exchange).value.theirs
        else
          c.known == old(c.known) && c.settledOn == old(c.settledOn) && c.settledMine == old(c.settledMine)
    {
      ghost var side, was := c.AsSide(take), c.considered;
      HeldHasLengths(c.session.keys);
      c.OnKeys(ms[n], take, consider);
      if c.Waiting() == 0 {
        BackToZeroSettles(c.session.keys.item, side, ms[n]);
      }
      assert c.considered[from..] == was[from..] + c.considered[|was|..];
      n := n + 1;
    }
  }

  // A log dropped is asked for again: after such an exchange the peer's next
  // summary starts another, if it still differs.
  method AskAgain(c: Channel, ms: seq<Message>, m: Summary, take: bool, consider: Nibbles -> bool)
    requires c.Valid() && c.Waiting() > 0 && !c.Dropped() && (c.isInitiator || !c.known)
    requires c.settledOn != Some(m.digest) && !c.Same(m)
    requires forall m :: m in ms ==> m.KeyList?
    modifies c, c.session`awaited
    ensures c.Valid() && old(c.considered) <= c.considered
    ensures c.Drops(c.considered[|old(c.considered)|..], consider) ==>
              c.Waiting() > 0 && c.known == old(c.known) && c.settledOn == old(c.settledOn)
  {
    hide Filter, PartsOf, Consistent, Agree;
    var _ := HandAll(c, ms, take, consider);
    c.OnSummary(m, false);
  }

  lemma SideOf(c: Channel, take: bool)
    ensures c.AsSide(take).waiting == c.Waiting() && c.AsSide(take).take == take
    ensures c.AsSide(take).held == c.session.keys.View()
  {
  }

  class Wire {
    var near: Channel
    var far: Channel
    var takeNear: bool
    var takeFar: bool
    var toFar: seq<Message> // under way
    var toNear: seq<Message>
    ghost var delivered: seq<Nibbles>
    ghost var starts: nat

    /** The two channels and what is under way, as a state of the exchange. */
    ghost function State(): Net
      reads this, near, near.session, near.session.keys, far, far.session, far.session.keys
    {
      Net(near.session.keys.item, near.AsSide(takeNear), far.AsSide(takeFar), toFar, toNear, delivered, starts)
    }

    /**
     The exchange is in order, and whoever asks for keys and knows the directory has
     learnt exactly what it lacked.
     */
    ghost predicate Valid()
      reads this, near, near.session, near.session.keys, near.session.keys.digest
      reads far, far.session, far.session.keys, far.session.keys.digest
    {
      && near.Valid() && far.Valid() && near != far && near.session != far.session
      && near.session.keys.item == far.session.keys.item
      && Inv(State())
      && (near.known && takeNear ==> LearntExactly(State()))
      && (far.known && takeFar ==> LearntExactly(Flip(State())))
    }

    constructor (near: Channel, far: Channel, takeNear: bool, takeFar: bool)
      requires near.Valid() && far.Valid() && near != far && near.session != far.session
      requires near.session.keys.item == far.session.keys.item && !near.known && !far.known
      requires Init(Net(near.session.keys.item, near.AsSide(takeNear), far.AsSide(takeFar), [], [], [], 0))
      ensures Valid() && this.near == near && this.far == far && this.takeNear == takeNear && this.takeFar == takeFar
      ensures toFar == toNear == []
    {
      this.near, this.far, this.takeNear, this.takeFar := near, far, takeNear, takeFar;
      toFar, toNear, delivered, starts := [], [], [], 0;
      new;
      FreshKnowsNothingWrong(State());
    }

    // The same wire seen from its other end.
    method Turn()
      requires Valid()
      modifies this
      ensures Valid() && State() == Flip(old(State()))
      ensures near == old(far) && far == old(near) && takeNear == old(takeFar) && takeFar == old(takeNear)
    {
      hide Inv, LearntExactly, Agree, Channel.Valid, Channel.AsSide;
      CanReceive(State());
      ghost var before := State();
      near, far := far, near;
      takeNear, takeFar := takeFar, takeNear;
      toFar, toNear := toNear, toFar;
      assert State() == Flip(before) && Flip(State()) == before;
    }

    // The near end's first message under way reaches the far end.
    method Deliver(consider: Nibbles -> bool)
      requires Valid() && toFar != []
      modifies this, far, far.session`awaited
      ensures Valid()
      ensures near == old(near) && far == old(far) && takeNear == old(takeNear) && takeFar == old(takeFar)
      ensures State() == DeliverToY(old(State()))
      ensures near.known == old(near.known) && (old(far.known) ==> far.known)
    {
      hide Inv, LearntExactly, Receive, Agree, Consistent, Channel.Valid, Channel.AsSide;
      ghost var before := State();
      CanReceive(before);
      SideOf(far, takeFar);
      SideOf(near, takeNear);
      DeliveryKeepsLearnt(before);
      var m := toFar[0];
      var out := Hand(far, m, takeFar, consider);
      SideOf(far, takeFar);
      toFar, toNear := toFar[1..], toNear + out;
      delivered := delivered + if m.Ranges? then [m.prefix] else [];
      assert State() == DeliverToY(before);
      CanReceive(State());
      if far.known && !old(far.known) && takeFar {
        SettledKnows(Flip(State()));
      }
    }

    // The far end's summary, of the keys it holds, reaches the near end.
    method Summarise(byActivity: bool)
      requires Valid()
      modifies this, near
      ensures Valid()
      ensures near == old(near) && far == old(far) && takeNear == old(takeNear) && takeFar == old(takeFar)
      ensures State() == old(State()) || State() == StartX(old(State()))
      ensures far.known == old(far.known) && (old(near.known) ==> near.known)
    {
      hide Inv, LearntExactly, Receive, Agree, Consistent, Start, Channel.AsSide;
      ghost var before := State();
      CanReceive(before);
      SideOf(far, takeFar);
      SideOf(near, takeNear);
      StartKeepsLearnt(before);
      var m := Summary(|far.session.keys.sorted|, far.session.keys.digest[..]);
      if near.Same(m) {
        DigestsOf(near.session.keys, far.session.keys);
        SameSummaryKnows(before);
      }
      var out := Tell(near, m, byActivity, takeNear);
      toFar := toFar + out;
      if out != [] {
        starts := starts + 1;
        assert State() == StartX(before);
      } else {
        assert toFar == before.xy;
        assert State() == before;
      }
    }
  }

  /** The digest a member keeps is that of the keys it holds. */
  lemma DigestsOf(a: Keys, b: Keys)
    requires a.Valid() && b.Valid()
    ensures a.digest[..] == DigestOf(a.item, a.View().sorted, a.View().lengths)
    ensures b.digest[..] == DigestOf(b.item, b.View().sorted, b.View().lengths)
  {
  }
}
