/**
 The keys of a private space's epochs (lib/space.js #followLinks and #link): a
 link is an older epoch key sealed with a newer one, so a device holding the
 current key opens its way back. Sealing is abstract: a box opens with the key
 it was sealed under, for the commitment it was sealed for, to the key sealed.
 */
module KeyLinks {
  import opened Options

  datatype Secret = Secret(id: nat)
  datatype Commit = Commit(hash: nat)
  datatype Short = Short(bytes: nat)

  datatype Sealed = Garbage | Box(under: Secret, content: Secret, ad: Commit)

  /** The commitment of a key, and the short form (its first 8 bytes) keys are looked up by. */
  datatype Crypto = Crypto(commitOf: Secret -> Commit, short: Commit -> Short)

  function OpenKey(opener: Secret, sealed: Sealed, ad: Commit): Option<Secret> {
    match sealed
    case Garbage => None
    case Box(under, content, ad') => if under == opener && ad' == ad then Some(content) else None
  }

  function SealKey(with_: Secret, key: Secret, ad: Commit): Sealed {
    Box(with_, key, ad)
  }

  /**
   The decisions' view: `commits[e]` is the commitment of epoch `e`'s
   key, the last the current epoch; `others` those of rotations that lost a race.
   */
  datatype Epochs = Epochs(commits: seq<Commit>, others: map<Commit, nat>) {
    predicate Known(epoch: nat, commit: Commit) {
      (epoch < |commits| && commits[epoch] == commit) || (commit in others && others[commit] == epoch)
    }

    ghost predicate Recorded(commit: Commit) {
      exists e: nat :: Known(e, commit)
    }
  }

  /** `to` (a commitment) and its epoch: the key sealed; `from`: the short form of the key that opens it. */
  datatype Link = Link(from: Short, to: Commit, epoch: nat, sealed: Sealed)

  datatype Held = Held(key: Secret, epoch: nat)

  /** A device's keys, by short commitment (#epochKeys and #epochOf). */
  type Ring = map<Short, Held>

  // --- the decision log ---

  /** key/rotate: the next epoch's key, or one that lost the race for an epoch already taken. */
  function Rotate(keys: Epochs, epoch: nat, commit: Commit): Epochs {
    if epoch == |keys.commits| then keys.(commits := keys.commits + [commit])
    else if epoch < |keys.commits| && keys.commits[epoch] != commit && commit !in keys.others then
      keys.(others := keys.others[commit := epoch])
    else keys
  }

  ghost predicate RecordedOnce(c: Crypto, keys: Epochs) {
    && (forall e1: nat, e2: nat, x: Commit :: keys.Known(e1, x) && keys.Known(e2, x) ==> e1 == e2)
    && (forall x: Commit, y: Commit :: keys.Recorded(x) && keys.Recorded(y) && c.short(x) == c.short(y) ==> x == y)
  }

  ghost predicate Grows(keys: Epochs, keys': Epochs) {
    forall e: nat, x: Commit :: keys.Known(e, x) ==> keys'.Known(e, x)
  }

  lemma RotateGrows(keys: Epochs, epoch: nat, commit: Commit)
    ensures Grows(keys, Rotate(keys, epoch, commit))
    ensures forall e: nat, x: Commit :: Rotate(keys, epoch, commit).Known(e, x) ==>
        keys.Known(e, x) || (x == commit && e == epoch)
  {
  }

  /** It is recorded exactly when its epoch is the next, or one there is and it lost no other race before. */
  lemma RotationRecorded(keys: Epochs, epoch: nat, commit: Commit)
    ensures Rotate(keys, epoch, commit).Known(epoch, commit) <==>
            keys.Known(epoch, commit) || epoch == |keys.commits| ||
            (epoch < |keys.commits| && commit !in keys.others)
    ensures |Rotate(keys, epoch, commit).commits| == |keys.commits| + (if epoch == |keys.commits| then 1 else 0)
    ensures epoch < |keys.commits| && keys.Known(epoch, commit) ==> Rotate(keys, epoch, commit) == keys
  {
  }

  /** A commitment never seen before keeps every commitment recorded for one epoch. */
  lemma FreshRotationRecordedOnce(c: Crypto, keys: Epochs, epoch: nat, commit: Commit)
    requires RecordedOnce(c, keys) && !keys.Recorded(commit)
    requires forall x: Commit :: keys.Recorded(x) ==> c.short(x) != c.short(commit)
    ensures RecordedOnce(c, Rotate(keys, epoch, commit))
  {
    RotateGrows(keys, epoch, commit);
    var keys' := Rotate(keys, epoch, commit);
    forall x: Commit | keys'.Recorded(x) ensures keys.Recorded(x) || x == commit {
      var e: nat :| keys'.Known(e, x);
    }
  }

  lemma OneEpoch(c: Crypto, keys: Epochs, x: Commit, e1: nat, e2: nat)
    requires RecordedOnce(c, keys) && keys.Known(e1, x) && keys.Known(e2, x)
    ensures e1 == e2
  {
  }

  lemma OneCommit(c: Crypto, keys: Epochs, x: Commit, y: Commit, e1: nat, e2: nat)
    requires RecordedOnce(c, keys) && keys.Known(e1, x) && keys.Known(e2, y) && c.short(x) == c.short(y)
    ensures x == y && e1 == e2
  {
    assert keys.Recorded(x) && keys.Recorded(y);
  }

  // --- rings and links ---

  ghost predicate Injective(c: Crypto) {
    forall a: Secret, b: Secret :: c.commitOf(a) == c.commitOf(b) ==> a == b
  }

  /** Every key held is one whose commitment was recorded, for the epoch it is kept under. */
  ghost predicate RingOk(c: Crypto, keys: Epochs, ring: Ring) {
    forall s :: s in ring ==>
      c.short(c.commitOf(ring[s].key)) == s &&
      keys.Known(ring[s].epoch, c.commitOf(ring[s].key))
  }

  /** A link as a holder writes it: an older recorded key, sealed under a newer recorded one. */
  ghost predicate HonestLink(c: Crypto, keys: Epochs, l: Link) {
    exists opener: Secret, key: Secret, e: nat ::
      && c.short(c.commitOf(opener)) == l.from && keys.Known(e, c.commitOf(opener))
      && c.commitOf(key) == l.to && keys.Known(l.epoch, l.to)
      && l.epoch < e
      && l.sealed == SealKey(opener, key, l.to)
  }

  /** The key this link opens for this ring, if it counts: from a later epoch, recorded, not held yet. */
  function Opens(c: Crypto, keys: Epochs, ring: Ring, l: Link): Option<Secret> {
    if l.from !in ring || c.short(l.to) in ring || !(ring[l.from].epoch > l.epoch) || !keys.Known(l.epoch, l.to) then
      None
    else
      var key := OpenKey(ring[l.from].key, l.sealed, l.to);
      if key.Some? && c.commitOf(key.value) == l.to then key else None
  }

  /**
   A link opens exactly for who holds the key it was sealed under, of a later epoch,
   and not yet the key sealed, which has to be of the commitment it names, recorded
   for its epoch.
   */
  lemma OpensExactly(c: Crypto, keys: Epochs, ring: Ring, l: Link, key: Secret)
    ensures Opens(c, keys, ring, l) == Some(key) <==>
      && l.from in ring && c.short(l.to) !in ring
      && l.epoch < ring[l.from].epoch && keys.Known(l.epoch, l.to)
      && l.sealed == SealKey(ring[l.from].key, key, l.to) && c.commitOf(key) == l.to
  {
  }

  function Keep(c: Crypto, keys: Epochs, ring: Ring, l: Link): Ring
    requires Opens(c, keys, ring, l).Some?
  {
    ring[c.short(l.to) := Held(Opens(c, keys, ring, l).value, l.epoch)]
  }

  /** `after` comes from `before` by opening links of `links` one after the other, each with a key held by then. */
  ghost predicate Unlocks(c: Crypto, keys: Epochs, links: seq<Link>, before: Ring, after: Ring, order: seq<Link>)
    decreases |order|
  {
    if order == [] then before == after
    else
      var l := order[|order| - 1];
      l in links &&
      exists mid: Ring :: Unlocks(c, keys, links, before, mid, order[..|order| - 1]) &&
        Opens(c, keys, mid, l).Some? && after == Keep(c, keys, mid, l)
  }

  lemma UnlocksNothing(c: Crypto, keys: Epochs, links: seq<Link>, ring: Ring)
    ensures Unlocks(c, keys, links, ring, ring, [])
  {
  }

  lemma UnlocksOneMore(c: Crypto, keys: Epochs, links: seq<Link>, before: Ring, mid: Ring, order: seq<Link>, l: Link)
    requires Unlocks(c, keys, links, before, mid, order) && l in links && Opens(c, keys, mid, l).Some?
    ensures Unlocks(c, keys, links, before, Keep(c, keys, mid, l), order + [l])
  {
    assert (order + [l])[..|order|] == order;
  }

  lemma {:induction false} UnlockedRing(c: Crypto, keys: Epochs, links: seq<Link>, before: Ring, after: Ring,
          order: seq<Link>)
    requires Unlocks(c, keys, links, before, after, order)
    ensures forall s :: s in before ==> s in after && after[s] == before[s]
    ensures RingOk(c, keys, before) ==> RingOk(c, keys, after)
  {
    if order != [] {
      var l := order[|order| - 1];
      var mid: Ring :| Unlocks(c, keys, links, before, mid, order[..|order| - 1]) && Opens(c, keys, mid, l).Some? &&
        after == Keep(c, keys, mid, l);
      UnlockedRing(c, keys, links, before, mid, order[..|order| - 1]);
    }
  }

  function Targets(c: Crypto, links: seq<Link>): set<Short> {
    set i | 0 <= i < |links| :: c.short(links[i].to)
  }

  lemma UnlockedGrows(c: Crypto, keys: Epochs, links: seq<Link>, before: Ring, after: Ring, order: seq<Link>)
    requires Unlocks(c, keys, links, before, after, order)
    ensures order != [] <==> after != before
  {
    if order != [] {
      var l := order[|order| - 1];
      var mid: Ring :| Unlocks(c, keys, links, before, mid, order[..|order| - 1]) && Opens(c, keys, mid, l).Some? &&
        after == Keep(c, keys, mid, l);
      UnlockedRing(c, keys, links, before, mid, order[..|order| - 1]);
      assert c.short(l.to) in after && c.short(l.to) !in before;
    }
  }

  // --- what the current key unlocks ---

  ghost predicate ClosedUnder(c: Crypto, links: seq<Link>, r: set<Short>) {
    forall i :: 0 <= i < |links| && links[i].from in r ==> c.short(links[i].to) in r
  }

  /** The least set of keys with `start` in it and closed under the links. */
  ghost predicate IsReach(c: Crypto, links: seq<Link>, start: Short, reach: set<Short>) {
    && start in reach && ClosedUnder(c, links, reach)
    && (forall r: set<Short> :: start in r && ClosedUnder(c, links, r) ==> reach <= r)
  }

  method Reach(c: Crypto, links: seq<Link>, start: Short) returns (reach: set<Short>)
    ensures IsReach(c, links, start, reach)
  {
    reach := {start};
    var more := true;
    while more
      invariant start in reach
      invariant forall r: set<Short> :: start in r && ClosedUnder(c, links, r) ==> reach <= r
      invariant !more ==> ClosedUnder(c, links, reach)
      decreases Targets(c, links) - reach, more
    {
      more := false;
      ghost var before := reach;
      for i := 0 to |links|
        invariant before <= reach
        invariant forall r: set<Short> :: start in r && ClosedUnder(c, links, r) ==> reach <= r
        invariant !more ==> reach == before && forall j :: 0 <= j < i && links[j].from in reach ==>
            c.short(links[j].to) in reach
        invariant more ==> exists s :: s in Targets(c, links) && s in reach && s !in before
      {
        var to := c.short(links[i].to);
        if links[i].from in reach && to !in reach {
          reach := reach + {to};
          more := true;
          assert to in Targets(c, links);
        }
      }
    }
  }

  function CommitsUpTo(commits: seq<Commit>, n: nat): (m: map<Commit, nat>)
    requires n <= |commits|
    ensures forall x :: x in m ==> m[x] < n && commits[m[x]] == x
    ensures forall e :: 0 <= e < n ==> commits[e] in m
  {
    if n == 0 then map[] else CommitsUpTo(commits, n - 1)[commits[n - 1] := n - 1]
  }

  /** Every commitment recorded, with its epoch. */
  function Merged(keys: Epochs): (m: map<Commit, nat>)
    ensures forall x :: x in m ==> keys.Known(m[x], x)
    ensures forall e: nat, x: Commit :: keys.Known(e, x) ==> x in m
  {
    CommitsUpTo(keys.commits, |keys.commits|) + keys.others
  }

  function Now(keys: Epochs): Commit
    requires keys.commits != []
  {
    keys.commits[|keys.commits| - 1]
  }

  /** A key to be linked: the current one opens no way to it. */
  predicate Missing(c: Crypto, keys: Epochs, ring: Ring, reach: set<Short>, commit: Commit, epoch: nat) {
    c.short(commit) in ring && epoch < |keys.commits| - 1 && c.short(commit) !in reach
  }

  function LinkFor(c: Crypto, keys: Epochs, ring: Ring, commit: Commit, epoch: nat): Link
    requires keys.commits != [] && c.short(Now(keys)) in ring && c.short(commit) in ring
  {
    Link(c.short(Now(keys)), commit, epoch, SealKey(ring[c.short(Now(keys))].key, ring[c.short(commit)].key, commit))
  }

  /** Exactly the links a holder has to write: one from the current key to each key missing, and no other. */
  ghost predicate Writes(c: Crypto, keys: Epochs, ring: Ring, reach: set<Short>, all: map<Commit, nat>,
          written: seq<Link>)
    requires keys.commits != []
  {
    && c.short(Now(keys)) in ring
    && (forall i :: 0 <= i < |written| ==>
          var x := written[i].to;
          x in all && Missing(c, keys, ring, reach, x, all[x]) && written[i] == LinkFor(c, keys, ring, x, all[x]))
    && (forall i, j :: 0 <= i < j < |written| ==> written[i].to != written[j].to)
    && (forall x :: x in all && Missing(c, keys, ring, reach, x, all[x]) ==>
         exists i :: 0 <= i < |written| && written[i].to == x)
  }

  lemma WritesOneMore(c: Crypto, keys: Epochs, ring: Ring, reach: set<Short>, all: map<Commit, nat>,
          written: seq<Link>, x: Commit, epoch: nat)
    requires keys.commits != [] && Writes(c, keys, ring, reach, all, written)
    requires x !in all
    ensures Writes(c, keys, ring, reach, all[x := epoch],
                   written + if Missing(c, keys, ring, reach, x, epoch) then [LinkFor(c, keys, ring, x, epoch)] else [])
  {
    var all' := all[x := epoch];
    var more := if Missing(c, keys, ring, reach, x, epoch) then [LinkFor(c, keys, ring, x, epoch)] else [];
    forall y | y in all' && Missing(c, keys, ring, reach, y, all'[y])
      ensures exists i :: 0 <= i < |written + more| && (written + more)[i].to == y
    {
      if y == x {
        assert (written + more)[|written|].to == x;
      } else {
        var i :| 0 <= i < |written| && written[i].to == y;
        assert (written + more)[i].to == y;
      }
    }
  }

  class KeyRing {
    const crypto: Crypto
    var ring: Ring

    constructor (crypto: Crypto)
      ensures this.crypto == crypto && ring == map[]
    {
      this.crypto := crypto;
      ring := map[];
    }

    // A fixpoint over the links: nothing is left that the ring could open.
    method FollowLinks(keys: Epochs, links: seq<Link>) returns (learnt: bool)
      modifies this
      // what is learnt, is learnt by opening links
      ensures exists order: seq<Link> :: Unlocks(crypto, keys, links, old(ring), ring, order)
      // and nothing more can be opened
      ensures forall l :: l in links ==> Opens(crypto, keys, ring, l).None?
      ensures learnt <==> ring != old(ring)
    {
      hide Unlocks;
      learnt := false;
      var more := true;
      UnlocksNothing(crypto, keys, links, ring);
      ghost var order: seq<Link> := [];
      while more
        invariant Unlocks(crypto, keys, links, old(ring), ring, order)
        invariant !more ==> forall l :: l in links ==> Opens(crypto, keys, ring, l).None?
        invariant learnt <==> order != []
        decreases Targets(crypto, links) - ring.Keys, more
      {
        more := false;
        ghost var start := ring;
        for i := 0 to |links|
          invariant Unlocks(crypto, keys, links, old(ring), ring, order)
          invariant start.Keys <= ring.Keys
          invariant !more ==> ring == start && forall j :: 0 <= j < i ==> Opens(crypto, keys, ring, links[j]).None?
          invariant more ==> exists s :: s in Targets(crypto, links) && s in ring && s !in start
          invariant learnt <==> order != []
        {
          var l := links[i];
          if l.from !in ring || crypto.short(l.to) in ring || !(ring[l.from].epoch > l.epoch) ||
            !keys.Known(l.epoch, l.to) {
            continue;
          }
          var key := OpenKey(ring[l.from].key, l.sealed, l.to);
          if key.None? || crypto.commitOf(key.value) != l.to {
            continue;
          }
          ghost var mid := ring;
          ring := ring[crypto.short(l.to) := Held(key.value, l.epoch)];
          UnlocksOneMore(crypto, keys, links, old(ring), mid, order, l);
          order := order + [l];
          learnt, more := true, true;
          assert crypto.short(l.to) in Targets(crypto, links);
        }
      }
      UnlockedGrows(crypto, keys, links, old(ring), ring, order);
    }

    // What the current key reaches through the links, then a link to each
    // earlier key outside of it.
    method LinkEarlier(keys: Epochs, links: seq<Link>) returns (written: seq<Link>)
      requires keys.commits != []
      ensures crypto.short(Now(keys)) !in ring ==> written == []
      ensures crypto.short(Now(keys)) in ring ==>
                exists reach: set<Short> :: IsReach(crypto, links, crypto.short(Now(keys)), reach)
                                            && Writes(crypto, keys, ring, reach, Merged(keys), written)
    {
      hide Writes, IsReach, Merged;
      written := [];
      var now := crypto.short(Now(keys));
      if now !in ring {
        return;
      }
      var reach := Reach(crypto, links, now);
      written := WriteLinks(crypto, keys, ring, reach, Merged(keys));
    }
  }

  method WriteOne(c: Crypto, keys: Epochs, ring: Ring, reach: set<Short>, ghost seen: map<Commit, nat>,
          written: seq<Link>, commit: Commit, epoch: nat)
    returns (more: seq<Link>)
    requires keys.commits != [] && Writes(c, keys, ring, reach, seen, written) && commit !in seen
    ensures Writes(c, keys, ring, reach, seen[commit := epoch], more)
  {
    WritesOneMore(c, keys, ring, reach, seen, written, commit, epoch);
    more := written + if Missing(c, keys, ring, reach, commit, epoch) then [LinkFor(c, keys, ring, commit, epoch)]
      else [];
  }

  // The second loop of #link, over every commitment recorded.
  method WriteLinks(c: Crypto, keys: Epochs, ring: Ring, reach: set<Short>, all: map<Commit, nat>)
          returns (written: seq<Link>)
    requires keys.commits != [] && c.short(Now(keys)) in ring
    ensures Writes(c, keys, ring, reach, all, written)
  {
    written := [];
    var todo := all.Keys;
    ghost var seen: map<Commit, nat> := map[];
    assert Writes(c, keys, ring, reach, seen, written);
    hide Writes;
    while todo != {}
      invariant Writes(c, keys, ring, reach, seen, written)
      invariant todo <= all.Keys && seen == all - todo
      decreases |todo|
    {
      var commit :| commit in todo;
      written := WriteOne(c, keys, ring, reach, seen, written, commit, all[commit]);
      seen := seen[commit := all[commit]];
      todo := todo - {commit};
      assert seen == all - todo;
    }
    assert all - {} == all;
  }

  // --- one holder links, one device follows ---

  lemma WrittenAt(c: Crypto, view: Epochs, holder: Ring, reach: set<Short>, written: seq<Link>, i: nat)
    requires view.commits != [] && Writes(c, view, holder, reach, Merged(view), written) && i < |written|
    ensures c.short(Now(view)) in holder && c.short(written[i].to) in holder && written[i].epoch < |view.commits| - 1
    ensures view.Known(|view.commits| - 1, Now(view)) && view.Known(written[i].epoch, written[i].to)
    ensures written[i] == LinkFor(c, view, holder, written[i].to, written[i].epoch)
  {
  }

  lemma WrittenIsHonest(c: Crypto, keys: Epochs, view: Epochs, holder: Ring, reach: set<Short>, written: seq<Link>,
          i: nat)
    requires RecordedOnce(c, keys) && Grows(view, keys) && RingOk(c, keys, holder)
    requires view.commits != [] && Writes(c, view, holder, reach, Merged(view), written) && i < |written|
    ensures HonestLink(c, keys, written[i])
  {
    hide RecordedOnce, Writes, Merged;
    WrittenAt(c, view, holder, reach, written, i);
    var l, now := written[i], Now(view);
    var a, b := holder[c.short(now)], holder[c.short(l.to)];
    OneCommit(c, keys, c.commitOf(a.key), now, a.epoch, |view.commits| - 1);
    OneCommit(c, keys, c.commitOf(b.key), l.to, b.epoch, l.epoch);
    assert c.short(c.commitOf(a.key)) == l.from && l.sealed == SealKey(a.key, b.key, l.to);
  }

  /** A ring no honest link can add to is closed under them. */
  lemma HonestLinkFollowed(c: Crypto, keys: Epochs, ring: Ring, l: Link)
    requires Injective(c) && RecordedOnce(c, keys) && RingOk(c, keys, ring)
    requires HonestLink(c, keys, l) && Opens(c, keys, ring, l).None? && l.from in ring
    ensures c.short(l.to) in ring
  {
    var opener: Secret, key: Secret, e: nat :|
      && c.short(c.commitOf(opener)) == l.from && keys.Known(e, c.commitOf(opener))
      && c.commitOf(key) == l.to && keys.Known(l.epoch, l.to)
      && l.epoch < e
      && l.sealed == SealKey(opener, key, l.to);
    var h := ring[l.from];
    OneCommit(c, keys, c.commitOf(opener), c.commitOf(h.key), e, h.epoch);
  }

  /** Two good rings agree on every key both hold. */
  lemma RingsAgree(c: Crypto, keys: Epochs, a: Ring, b: Ring, s: Short)
    requires Injective(c) && RecordedOnce(c, keys) && RingOk(c, keys, a) && RingOk(c, keys, b)
    requires s in a && s in b
    ensures a[s] == b[s]
  {
    OneCommit(c, keys, c.commitOf(a[s].key), c.commitOf(b[s].key), a[s].epoch, b[s].epoch);
  }

  ghost predicate AllHonest(c: Crypto, keys: Epochs, links: seq<Link>) {
    forall i :: 0 <= i < |links| ==> HonestLink(c, keys, links[i])
  }

  /**
   After a holder linked, a device holding the current key, once it can open
   nothing more, holds every earlier-epoch key the holder had, and the same.
   */
  lemma LinkedThenFollowed(c: Crypto, keys: Epochs, links: seq<Link>, holder: Ring, reach: set<Short>,
          written: seq<Link>,
                           device: Ring, s: Short)
    requires Injective(c) && RecordedOnce(c, keys) && keys.commits != []
    requires RingOk(c, keys, holder) && RingOk(c, keys, device) && AllHonest(c, keys, links)
    requires IsReach(c, links, c.short(Now(keys)), reach) && Writes(c, keys, holder, reach, Merged(keys), written)
    requires c.short(Now(keys)) in device
    requires forall l :: l in links + written ==> Opens(c, keys, device, l).None?
    requires s in holder && holder[s].epoch < |keys.commits| - 1
    ensures s in device && device[s] == holder[s]
  {
    hide RecordedOnce, HonestLink, Opens, Merged, Injective;
    DeviceIsClosed(c, keys, links, links + written, device);
    assert reach <= device.Keys;
    if s !in reach {
      var x := c.commitOf(holder[s].key);
      MergedKnows(keys, holder[s].epoch, x);
      OneEpoch(c, keys, x, holder[s].epoch, Merged(keys)[x]);
      assert Missing(c, keys, holder, reach, x, Merged(keys)[x]);
      var i :| 0 <= i < |written| && written[i].to == x;
      assert written[i] in links + written;
      WrittenIsHonest(c, keys, keys, holder, reach, written, i);
      HonestLinkFollowed(c, keys, device, written[i]);
    }
    RingsAgree(c, keys, holder, device, s);
  }

  /** A holder that linked has nothing to link until a key is added: the same again writes no link. */
  lemma LinkedOnceIsEnough(c: Crypto, keys: Epochs, links: seq<Link>, holder: Ring, reach: set<Short>,
          written: seq<Link>, reach': set<Short>, again: seq<Link>)
    requires keys.commits != []
    requires IsReach(c, links, c.short(Now(keys)), reach) && Writes(c, keys, holder, reach, Merged(keys), written)
    requires IsReach(c, links + written, c.short(Now(keys)), reach')
    requires Writes(c, keys, holder, reach', Merged(keys), again)
    ensures again == []
  {
    hide Merged;
    var all := Merged(keys);
    assert again != [] ==> Missing(c, keys, holder, reach', again[0].to, all[again[0].to]);
    forall i | 0 <= i < |links| && links[i].from in reach' ensures c.short(links[i].to) in reach' {
      assert (links + written)[i] == links[i];
    }
    assert ClosedUnder(c, links, reach') && reach <= reach';
    forall i | 0 <= i < |written| ensures c.short(written[i].to) in reach' {
      assert (links + written)[|links| + i] == written[i] && written[i].from == c.short(Now(keys));
    }
    forall x | x in all ensures !Missing(c, keys, holder, reach', x, all[x]) {
      assert Missing(c, keys, holder, reach, x, all[x]) ==> exists i :: 0 <= i < |written| && written[i].to == x;
    }
  }

  lemma MergedKnows(keys: Epochs, e: nat, x: Commit)
    requires keys.Known(e, x)
    ensures x in Merged(keys) && keys.Known(Merged(keys)[x], x)
  {
  }

  lemma DeviceIsClosed(c: Crypto, keys: Epochs, links: seq<Link>, all: seq<Link>, device: Ring)
    requires Injective(c) && RecordedOnce(c, keys) && RingOk(c, keys, device) && AllHonest(c, keys, links)
    requires links <= all && forall l :: l in all ==> Opens(c, keys, device, l).None?
    ensures ClosedUnder(c, links, device.Keys)
  {
    hide RecordedOnce, HonestLink, Opens, Injective, RingOk;
    forall i | 0 <= i < |links| && links[i].from in device.Keys ensures c.short(links[i].to) in device.Keys {
      assert links[i] == all[i] && links[i] in all;
      HonestLinkFollowed(c, keys, device, links[i]);
    }
  }

  // --- whole runs ---

  /** A private space: what is recorded, the links written, each device's keys. */
  datatype Space = Space(c: Crypto, keys: Epochs, links: seq<Link>, rings: seq<Ring>)

  /** More is recorded: a rotation, by whoever may decide. */
  ghost predicate Decides(s: Space, s': Space) {
    RecordedOnce(s.c, s'.keys) && Grows(s.keys, s'.keys) && s' == s.(keys := s'.keys)
  }

  /** A device gets a recorded key: it made it, or a grant opened to it. */
  ghost predicate Gets(s: Space, s': Space, d: nat, key: Secret, epoch: nat) {
    && d < |s.rings| && s.keys.Known(epoch, s.c.commitOf(key))
    && s' == s.(rings := s.rings[d := s.rings[d][s.c.short(s.c.commitOf(key)) := Held(key, epoch)]])
  }

  /** A device links by what it saw recorded, maybe not the latest. */
  ghost predicate Links(s: Space, s': Space, d: nat, view: Epochs, written: seq<Link>) {
    && d < |s.rings| && Grows(view, s.keys) && view.commits != []
    && (exists reach: set<Short> ::
      IsReach(s.c, s.links, s.c.short(Now(view)), reach) &&
      Writes(s.c, view, s.rings[d], reach, Merged(view), written))
    && s' == s.(links := s.links + written)
  }

  /** A device opens what its keys unlock, by what it saw recorded. */
  ghost predicate Follows(s: Space, s': Space, d: nat, view: Epochs, ring: Ring) {
    && d < |s.rings| && Grows(view, s.keys)
    && (exists order: seq<Link> :: Unlocks(s.c, view, s.links, s.rings[d], ring, order))
    && (forall l :: l in s.links ==> Opens(s.c, view, ring, l).None?)
    && s' == s.(rings := s.rings[d := ring])
  }

  ghost predicate Step(s: Space, s': Space) {
    || Decides(s, s')
    || (exists d: nat, key: Secret, epoch: nat :: Gets(s, s', d, key, epoch))
    || (exists d: nat, view: Epochs, written: seq<Link> :: Links(s, s', d, view, written))
    || (exists d: nat, view: Epochs, ring: Ring :: Follows(s, s', d, view, ring))
  }

  ghost predicate SpaceOk(s: Space) {
    && Injective(s.c) && RecordedOnce(s.c, s.keys) && AllHonest(s.c, s.keys, s.links)
    && forall d :: 0 <= d < |s.rings| ==> RingOk(s.c, s.keys, s.rings[d])
  }

  lemma HonestStays(c: Crypto, keys: Epochs, keys': Epochs, l: Link)
    requires HonestLink(c, keys, l) && Grows(keys, keys')
    ensures HonestLink(c, keys', l)
  {
    var opener: Secret, key: Secret, e: nat :|
      && c.short(c.commitOf(opener)) == l.from && keys.Known(e, c.commitOf(opener))
      && c.commitOf(key) == l.to && keys.Known(l.epoch, l.to)
      && l.epoch < e
      && l.sealed == SealKey(opener, key, l.to);
    assert keys'.Known(e, c.commitOf(opener)) && keys'.Known(l.epoch, l.to);
  }

  lemma {:induction false} FollowedRingOk(c: Crypto, keys: Epochs, view: Epochs, links: seq<Link>, before: Ring,
          after: Ring, order: seq<Link>)
    requires Unlocks(c, view, links, before, after, order) && Grows(view, keys) && RingOk(c, keys, before)
    ensures RingOk(c, keys, after)
  {
    if order != [] {
      var l := order[|order| - 1];
      var mid: Ring :| Unlocks(c, view, links, before, mid, order[..|order| - 1]) && Opens(c, view, mid, l).Some? &&
        after == Keep(c, view, mid, l);
      FollowedRingOk(c, keys, view, links, before, mid, order[..|order| - 1]);
    }
  }

  lemma DecideKeepsSpaceOk(s: Space, s': Space)
    requires SpaceOk(s) && Decides(s, s')
    ensures SpaceOk(s')
  {
    hide HonestLink, RecordedOnce;
    forall i | 0 <= i < |s.links| ensures HonestLink(s.c, s'.keys, s'.links[i]) {
      HonestStays(s.c, s.keys, s'.keys, s.links[i]);
    }
  }

  lemma LinkKeepsSpaceOk(s: Space, s': Space, d: nat, view: Epochs, written: seq<Link>)
    requires SpaceOk(s) && Links(s, s', d, view, written)
    ensures SpaceOk(s')
  {
    hide HonestLink, RecordedOnce, RingOk, Writes, IsReach, Merged;
    var reach: set<Short> :| IsReach(s.c, s.links, s.c.short(Now(view)), reach) &&
      Writes(s.c, view, s.rings[d], reach, Merged(view), written);
    forall i | 0 <= i < |written| ensures HonestLink(s.c, s.keys, written[i]) {
      WrittenIsHonest(s.c, s.keys, view, s.rings[d], reach, written, i);
    }
  }

  lemma FollowKeepsSpaceOk(s: Space, s': Space, d: nat, view: Epochs, ring: Ring)
    requires SpaceOk(s) && Follows(s, s', d, view, ring)
    ensures SpaceOk(s')
  {
    hide HonestLink, RecordedOnce, RingOk, Opens, Unlocks;
    var order: seq<Link> :| Unlocks(s.c, view, s.links, s.rings[d], ring, order);
    FollowedRingOk(s.c, s.keys, view, s.links, s.rings[d], ring, order);
  }

  lemma StepKeepsSpaceOk(s: Space, s': Space)
    requires SpaceOk(s) && Step(s, s')
    ensures SpaceOk(s')
  {
    if Decides(s, s') {
      DecideKeepsSpaceOk(s, s');
    } else if d: nat, key: Secret, epoch: nat :| Gets(s, s', d, key, epoch) {
      hide HonestLink, RecordedOnce, Injective;
    } else if d: nat, view: Epochs, written: seq<Link> :| Links(s, s', d, view, written) {
      LinkKeepsSpaceOk(s, s', d, view, written);
    } else {
      hide SpaceOk, Follows;
      var d: nat, view: Epochs, ring: Ring :| Follows(s, s', d, view, ring);
      FollowKeepsSpaceOk(s, s', d, view, ring);
    }
  }

  ghost predicate Begins(s: Space) {
    && Injective(s.c) && s.keys == Epochs([], map[]) && s.links == []
    && forall d :: 0 <= d < |s.rings| ==> s.rings[d] == map[]
  }

  ghost predicate IsRun(run: seq<Space>) {
    run != [] && Begins(run[0]) && forall i :: 0 <= i < |run| - 1 ==> Step(run[i], run[i + 1])
  }

  /** In every run of honest devices, every link written is honest and nobody ever holds a key not recorded. */
  lemma {:induction false} RunKeepsSpaceOk(run: seq<Space>)
    requires IsRun(run)
    ensures SpaceOk(run[|run| - 1])
  {
    hide Step;
    if |run| > 1 {
      assert IsRun(run[..|run| - 1]);
      RunKeepsSpaceOk(run[..|run| - 1]);
      assert Step(run[|run| - 2], run[|run| - 1]);
      StepKeepsSpaceOk(run[|run| - 2], run[|run| - 1]);
    }
  }

  /**
   In any run: when a holder of the current key links, and then a device holding
   just that key follows, the device ends with every earlier-epoch key the holder had.
   */
  lemma HistoryRecovered(run: seq<Space>, linked: Space, followed: Space, h: nat, written: seq<Link>, d: nat,
          ring: Ring, s: Short)
    requires IsRun(run)
    requires var last := run[|run| - 1]; Links(last, linked, h, last.keys, written)
    requires Follows(linked, followed, d, linked.keys, ring)
    requires linked.c.short(Now(linked.keys)) in linked.rings[d]
    requires s in linked.rings[h] && linked.rings[h][s].epoch < |linked.keys.commits| - 1
    ensures s in followed.rings[d] && followed.rings[d][s] == linked.rings[h][s]
  {
    var last := run[|run| - 1];
    RunKeepsSpaceOk(run);
    assert Step(last, linked);
    StepKeepsSpaceOk(last, linked);
    assert Step(linked, followed);
    StepKeepsSpaceOk(linked, followed);
    var reach: set<Short> :| IsReach(last.c, last.links, last.c.short(Now(last.keys)), reach)
                             && Writes(last.c, last.keys, last.rings[h], reach, Merged(last.keys), written);
    var order: seq<Link> :| Unlocks(linked.c, linked.keys, linked.links, linked.rings[d], ring, order);
    UnlockedRing(linked.c, linked.keys, linked.links, linked.rings[d], ring, order);
    LinkedThenFollowed(last.c, last.keys, last.links, last.rings[h], reach, written, ring, s);
  }
}
