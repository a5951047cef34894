/**
 The directory's bookkeeping of one channel (#onSummary, #send, #onKeys and
 #exchange of lib/directory.js): which messages wait for an answer, and when a
 member may say it knows the directory. Each method is one step of a side of
 `RangeExchange`.
 */
module Directory {
  import opened LogKeys
  import opened Digests
  import opened SortedKeys
  import opened RangeSession
  import opened RangeReplies
  import opened RangeExchange
  import opened Options

  /** An exchange under way: what considering each new log came to (false: dropped), the messages
      not answered yet, and the digest it is to end with. */
  datatype Exchange = Exchange(checks: seq<bool>, waiting: int, theirs: Option<Digest>)

  datatype Summary = Summary(count: nat, digest: Digest)

  lemma DoneBringsNothing(item: ItemOf, h: Held, take: bool, awaited: map<Nibbles, Part>, m: Message)
    requires m.KeyList? && forall k :: k in h.sorted ==> k in h.lengths
    ensures
      var r := AnswerKeys(item, h, take, awaited, m);
      r.done ==> r.out == [] && r.learn == [] && r.awaited == awaited && CountAnswered(r.out) == 0
  {
  }

  class Channel {
    const session: Session
    const isInitiator: bool
    var exchange: Option<Exchange>
    var theirs: Option<Digest> // in the last summary received
    var settledOn: Option<Digest> // `theirs` when an exchange last ended, or when both digests were equal
    var settledMine: Option<Digest> // that of `session.keys` at that point
    var known: bool
    var outbox: seq<Message> // sent, in order
    var considered: seq<Learnt> // handed to the directory so far
    ghost var engaged: bool
    ghost var settled: bool

    ghost predicate Valid()
      reads this, session, session.keys, session.keys.digest
    {
      session.Valid()
    }

    function Waiting(): int
      reads this
    {
      match exchange
      case None => 0
      case Some(x) => x.waiting
    }

    /** The digest the exchange under way ends with, or the next one would. */
    function EndsWith(): Option<Digest>
      reads this
    {
      if Waiting() > 0 then exchange.value.theirs else theirs
    }

    /** A log handed over in the exchange under way was dropped. */
    predicate Dropped()
      reads this
    {
      exchange.Some? && false in exchange.value.checks
    }

    /** One of these will be: it is not held, and considering it comes to nothing. */
    ghost predicate Drops(learn: seq<Learnt>, consider: Nibbles -> bool)
      reads session, session.keys
    {
      exists l :: l in learn && l.key !in session.keys.Lengths() && !consider(l.key)
    }

    /** This channel as a side of the exchange. */
    ghost function AsSide(take: bool): Side
      reads this, session, session.keys
    {
      Side(session.keys.View(), take, session.awaited, Waiting(), considered, engaged, settled)
    }

    constructor (session: Session, isInitiator: bool)
      requires session.Valid()
      ensures Valid() && this.session == session && this.isInitiator == isInitiator
      ensures session.awaited == map[] ==> forall take :: Fresh(AsSide(take))
      ensures outbox == [] && !known && settledOn == None
    {
      this.session, this.isInitiator := session, isInitiator;
      exchange, theirs, settledOn, settledMine := None, None, None, None;
      known, outbox, considered, engaged, settled := false, [], [], false, false;
    }

    // It keeps the count, and names the last summary while the count is 0.
    method CurrentExchange() returns (x: Exchange)
      modifies this`exchange
      ensures exchange == Some(x)
      ensures x.waiting == old(Waiting())
      ensures Dropped() == old(Dropped())
      ensures x.theirs == if old(exchange).Some? && old(exchange).value.waiting > 0 then old(exchange).value.theirs
          else theirs
    {
      match exchange {
        case None => x := Exchange([], 0, theirs);
        case Some(old_) => x := if old_.waiting <= 0 then old_.(theirs := theirs) else old_;
      }
      exchange := Some(x);
    }

    // The count grows by `CountAnswered`, which is what `Receive` adds.
    method Send(out: seq<Message>)
      modifies this`exchange, this`outbox
      ensures outbox == old(outbox) + out
      ensures exchange.Some? && exchange.value.waiting == old(Waiting()) + CountAnswered(out)
      ensures Dropped() == old(Dropped())
      ensures exchange.value.theirs == if old(exchange).Some? && old(exchange).value.waiting > 0 then
          old(exchange).value.theirs else theirs
    {
      var x := CurrentExchange();
      ghost var before := x;
      for i := 0 to |out|
        invariant outbox == old(outbox) + out[..i]
        invariant x == before.(waiting := before.waiting + CountAnswered(out[..i]))
      {
        assert out[..i + 1][..i] == out[..i];
        if Answered(out[i]) {
          x := x.(waiting := x.waiting + 1);
        }
        outbox := outbox + [out[i]];
      }
      assert out[..|out|] == out;
      exchange := Some(x);
    }

    /** Settled with this summary already, or holding exactly what it says. */
    ghost predicate NothingNew(m: Summary)
      requires Valid()
      reads this, session, session.keys, session.keys.digest
    {
      settledOn == Some(m.digest) && settledMine == Some(OwnDigest())
    }

    function OwnDigest(): Digest
      requires Valid()
      reads this, session, session.keys, session.keys.digest
    {
      session.keys.digest[..]
    }

    ghost predicate Same(m: Summary)
      requires Valid()
      reads this, session, session.keys, session.keys.digest
    {
      m == Summary(|session.keys.sorted|, OwnDigest())
    }

    // Either both hold the same, or a start is counted and sent under the four
    // conditions of `starts`, or nothing happens.
    method OnSummary(m: Summary, byActivity: bool)
      requires Valid()
      modifies this
      ensures Valid()
      ensures theirs == Some(m.digest)
      ensures
        var starts := !byActivity && !old(Same(m)) && !old(NothingNew(m)) && (isInitiator || !old(known)) &&
          old(Waiting()) <= 0;
        && outbox == old(outbox) + (if starts then [Start(session.keys.item, session.keys.View())] else [])
        && Waiting() == old(Waiting()) + (if starts then 1 else 0)
        && engaged == (old(engaged) || starts)
      ensures known == (old(known) || (!byActivity && old(Same(m))))
      ensures !byActivity && old(Same(m)) ==> NothingNew(m)
      ensures !(!byActivity && old(Same(m))) ==> settledOn == old(settledOn) && settledMine == old(settledMine)
      ensures considered == old(considered) && settled == old(settled) && Dropped() == old(Dropped())
      ensures EndsWith() == if old(Waiting()) > 0 then old(EndsWith()) else theirs
    {
      theirs := Some(m.digest);
      if byActivity {
        return; // only `theirs` changes
      }
      if m.count == |session.keys.sorted| && m.digest == session.keys.digest[..] {
        settledOn, settledMine, known := theirs, theirs, true;
        return;
      }
      if settledOn == theirs && settledMine == Some(session.keys.digest[..]) {
        return; // `NothingNew`
      }
      if isInitiator || !known {
        if !(exchange.Some? && exchange.value.waiting > 0) {
          var start := session.Begin();
          Send([start]);
          engaged := true;
        }
      }
    }

    // The step `Receive` on a ranges message; it settles nothing.
    method OnRanges(m: Message, take: bool)
      requires Valid() && m.Ranges?
      modifies this, session`awaited
      ensures Valid()
      ensures
        var (side, out) := Receive(session.keys.item, old(AsSide(take)), m);
        AsSide(take) == side && outbox == old(outbox) + out
      ensures known == old(known) && settledOn == old(settledOn) && settledMine == old(settledMine)
      ensures theirs == old(theirs) && Dropped() == old(Dropped())
      ensures Waiting() > 0 ==> EndsWith() == old(EndsWith())
    {
      hide AnswerRanges, AnswerKeys, Filter, Consistent;
      var out := session.OnRanges(m, take);
      Send(out);
      engaged := engaged || m.prefix == [];
    }

    // `consider` stands for how considering a log not held yet ends; a log held
    // already is handed on too, and never counts as dropped.
    method Consider(learn: seq<Learnt>, consider: Nibbles -> bool) returns (checks: seq<bool>)
      requires Valid()
      modifies this`considered
      ensures considered == old(considered) + learn
      ensures false in checks <==> Drops(learn, consider)
    {
      checks := [];
      for i := 0 to |learn|
        invariant considered == old(considered) + learn[..i]
        invariant false in checks <==> exists j ::
            0 <= j < i && learn[j].key !in session.keys.Lengths() &&
            !consider(learn[j].key)
      {
        if session.keys.LengthOf(learn[i].key) == -1 {
          checks := checks + [consider(learn[i].key)];
        }
        considered := considered + [learn[i]];
      }
      assert learn[..|learn|] == learn;
      assert (exists l :: l in learn && l.key !in session.keys.Lengths() && !consider(l.key)) <==>
             exists j :: 0 <= j < |learn| && learn[j].key !in session.keys.Lengths() && !consider(learn[j].key);
    }

    // What a `done` does to the count, and the count coming to 0 to the rest.
    method Finish(done: bool)
      requires Valid() && exchange.Some? && exchange.value.waiting >= 0
      modifies this`exchange, this`settledOn, this`settledMine, this`known, this`settled
      ensures Waiting() == old(Waiting()) - if done && old(Waiting()) > 0 then 1 else 0
      ensures settled == (old(settled) || (done && old(Waiting()) == 1))
      ensures
        if done && old(Waiting()) == 1 && !old(Dropped()) then
          && known
          && settledOn == old(exchange).value.theirs
          && settledMine == Some(DigestOf(session.keys.item, session.keys.sorted, session.keys.Lengths()))
        else
          known == old(known) && settledOn == old(settledOn) && settledMine == old(settledMine)
      ensures exchange.Some? <==> Waiting() > 0
      ensures exchange.Some? ==> Dropped() == old(Dropped()) && exchange.value.theirs == old(exchange).value.theirs
    {
      var x := exchange.value;
      if !done || x.waiting <= 0 { // the count does not change
        if x.waiting <= 0 {
          exchange := None;
        }
        return;
      }
      x := x.(waiting := x.waiting - 1);
      if x.waiting > 0 {
        exchange := Some(x);
        return;
      }
      exchange := None;
      settled := true;
      if false in x.checks {
        return; // the count is 0, and nothing is said of the directory
      }
      settledMine := Some(session.keys.digest[..]);
      settledOn := x.theirs;
      known := true;
    }

    // `OnKeys` after the session gave its answer.
    method Process(out: seq<Message>, learn: seq<Learnt>, done: bool, consider: Nibbles -> bool)
      requires Valid() && Waiting() >= 0 && (done ==> out == [] && learn == [])
      modifies this
      ensures considered == old(considered) + learn && outbox == old(outbox) + out && engaged == old(engaged)
      ensures Waiting() == old(Waiting()) + CountAnswered(out) - if done && old(Waiting()) > 0 then 1 else 0
      ensures settled == (old(settled) || (done && old(Waiting()) == 1))
      ensures
        if done && old(Waiting()) == 1 && !old(Dropped()) then
          && known
          && settledOn == old(exchange).value.theirs
          && settledMine == Some(DigestOf(session.keys.item, session.keys.sorted, session.keys.Lengths()))
        else
          known == old(known) && settledOn == old(settledOn) && settledMine == old(settledMine)
      ensures exchange.Some? <==> Waiting() > 0
      ensures exchange.Some? ==> (Dropped() <==> old(Dropped()) || old(Drops(learn, consider)))
      ensures Waiting() > 0 ==> EndsWith() == old(EndsWith())
      ensures theirs == old(theirs)
    {
      var x := CurrentExchange();
      var checks := Consider(learn, consider);
      exchange := Some(x.(checks := x.checks + checks));
      Send(out);
      Finish(done);
    }

    // The step `Receive` on a keys message. It settles the exchange by taking the
    // count to 0, when no log was dropped.
    method OnKeys(m: Message, take: bool, consider: Nibbles -> bool)
      requires Valid() && m.KeyList? && Waiting() >= 0
      modifies this, session`awaited
      ensures Valid()
      ensures
        var (side, out) := Receive(session.keys.item, old(AsSide(take)), m);
        AsSide(take) == side && outbox == old(outbox) + out
      // an exchange remains while answers are awaited, and remembers whether a log was dropped
      ensures exchange.Some? <==> Waiting() > 0
      ensures
        var learn := AnswerKeys(session.keys.item, session.keys.View(), take, old(session.awaited), m).learn;
        && considered == old(considered) + learn
        && (exchange.Some? ==> (Dropped() <==> old(Dropped()) || old(Drops(learn, consider))))
      ensures Waiting() > 0 ==> EndsWith() == old(EndsWith())
      ensures theirs == old(theirs)
      // settled by the `done` that brings the count to 0, if none was, and by nothing else
      ensures
        if old(Waiting()) > 0 && Waiting() == 0 && !old(Dropped()) then
          && known
          && settledOn == old(exchange).value.theirs
          && settledMine == Some(DigestOf(session.keys.item, session.keys.sorted, session.keys.Lengths()))
        else
          known == old(known) && settledOn == old(settledOn) && settledMine == old(settledMine)
    {
      DoneBringsNothing(session.keys.item, session.keys.View(), take, session.awaited, m);
      hide AnswerKeys, AnswerRanges, Filter, Consistent, Agree;
      var out, learn, ignored, done := session.OnKeys(m, take);
      Process(out, learn, done, consider);
    }
  }
}
