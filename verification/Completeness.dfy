/**
 Reading a big space by its activity lists (lib/space.js #remember, #startOf,
 #readFrom, completeFrom), over the logs as the indexer goes through them
 (lib/index/indexer.js #run): what a member that says "complete" has indexed.
 */
module Completeness {
  import opened Blocks
  import opened Activity
  import opened Options
  import WriteLimit

  const BATCH := 256 // blocks per transaction

  /** Blocks `from` to `to` (excluded), which the scan jumps over. */
  datatype Skip = Skip(from: nat, to: nat)

  /**
   What the indexer finds at a block: held (sealed with a key not held here? within
   the write limit, None: judging it fails), known wiped, neither; or the read fails.
   */
  datatype Look = Held(locked: bool, verdict: Option<WriteLimit.Verdict>) | KnownWiped | Absent | ReadFails {
    /** This block ends the run. */
    predicate Fails() {
      ReadFails? || this == Held(false, None)
    }

    predicate Readable() {
      this == Held(false, Some(WriteLimit.Ok))
    }

    predicate Over() {
      this == Held(false, Some(WriteLimit.Over))
    }

    /** A locked record is not judged. */
    predicate Waits() {
      Held? && (locked || verdict == Some(WriteLimit.Wait))
    }
  }

  /** Of the blocks from `start` to `end` (excluded), those the scan reads: it jumps over the others. */
  predicate Scanned(skip: Option<Skip>, start: nat, end: nat, b: nat) {
    start <= b < end && !(skip.Some? && skip.value.from <= b < skip.value.to)
  }

  /** The jump is still to be made, or made. */
  predicate SkipLeft(was: Option<Skip>, skip: Option<Skip>, scanned: nat, end: nat) {
    skip == was || (skip == None && (scanned >= was.value.to || scanned >= end))
  }

  lemma ScannedOn(was: Option<Skip>, skip: Option<Skip>, start: nat, mid: nat, to: nat, end: nat)
    requires start <= mid <= to && SkipLeft(was, skip, mid, end) && (to == mid || to <= end)
    ensures forall b :: Scanned(was, start, to, b) <==> Scanned(was, start, mid, b) || Scanned(skip, mid, to, b)
  {
  }

  /** A hole that arrived, and is not among those `left` for the next batch. */
  predicate Came(arrived: set<nat>, left: set<nat>, holes: set<nat>, b: nat) {
    b in arrived && b !in left && b in holes
  }

  /** A log's blocks by what they are. */
  datatype Kinds = Kinds(batch: set<nat>, holes: set<nat>, gone: set<nat>)

  /** What reading these blocks makes of them. */
  ghost predicate Sorts(look: nat -> Look, read: set<nat>, was: Kinds, now: Kinds) {
    && (forall b :: b in now.batch <==> b in was.batch || (b in read && look(b).Held?))
    && (forall b :: b in now.holes <==> b in was.holes || (b in read && look(b).Absent?))
    && (forall b :: b in now.gone <==> if b in read then look(b).KnownWiped? else b in was.gone)
  }

  /** What is locked leaves the batch as a hole; any other is no hole any more. */
  ghost predicate Unlocks(look: nat -> Look, was: Kinds, now: Kinds)
    requires forall b :: b in was.batch ==> look(b).Held?
  {
    && (forall b :: b in now.batch <==> b in was.batch && !look(b).locked)
    && (forall b :: b in now.holes <==> if b in was.batch then look(b).locked else b in was.holes)
    && now.gone == was.gone
  }

  /** The batch without the records that wait or are over the limit. */
  ghost predicate Judges(look: nat -> Look, was: Kinds, now: Kinds) {
    && (forall b :: b in now.batch <==> b in was.batch && look(b).Readable())
    && (forall b :: b in now.holes <==> b in was.holes || (b in was.batch && look(b).Waits()))
    && (forall b :: b in now.gone <==> b in was.gone || (b in was.batch && look(b).Over()))
  }

  /**
   Each block looked at ends as its look says, and no other changes: `came`, holes
   that arrived and are held, and `read`, those scanned.
   */
  ghost predicate Ends(look: nat -> Look, came: set<nat>, read: set<nat>, was: Kinds, now: Kinds) {
    && (forall b :: b in now.batch <==> (b in came || b in read) && look(b).Readable())
    && (forall b :: b in now.holes <==>
         if (b in came || b in read) && look(b).Held? then look(b).Waits()
         else b in was.holes || (b in read && look(b).Absent?))
    && (forall b :: b in now.gone <==>
         if b in came || b in read then look(b).Over() || (b in read && look(b).KnownWiped?) else b in was.gone)
  }

  lemma StepsEnd(look: nat -> Look, came: set<nat>, read: set<nat>, was: Kinds, k1: Kinds, k2: Kinds, now: Kinds)
    requires forall b :: b in came ==> look(b).Held?
    requires Sorts(look, read, Kinds(came, was.holes, was.gone - came), k1)
    requires forall b :: b in k1.batch ==> look(b).Held?
    requires Unlocks(look, k1, k2) && Judges(look, k2, now)
    ensures Ends(look, came, read, was, now)
  {
  }

  /** What is indexed and what is not after a run in which `came` and `read` were looked at. */
  ghost predicate RunEnds(look: nat -> Look, came: set<nat>, read: set<nat>, rows: set<nat>, was: Kinds,
          rows': set<nat>,
          now: Kinds) {
    && (forall b :: b in rows' <==> b in rows || ((b in came || b in read) && look(b).Readable()))
    && (forall b :: b in now.holes <==>
         if (b in came || b in read) && look(b).Held? then look(b).Waits()
         else b in was.holes || (b in read && look(b).Absent?))
    && (forall b :: b in now.gone <==>
         if b in came || b in read then look(b).Over() || (b in read && look(b).KnownWiped?) else b in was.gone)
  }

  lemma NothingRun(look: nat -> Look, rows: set<nat>, kinds: Kinds)
    ensures RunEnds(look, {}, {}, rows, kinds, rows, kinds)
  {
  }

  lemma OneMoreBatch(look: nat -> Look, came: set<nat>, read: set<nat>, rows: set<nat>, was: Kinds, rows': set<nat>,
          mid: Kinds, came': set<nat>, read': set<nat>, now: Kinds)
    requires RunEnds(look, came, read, rows, was, rows', mid) && Ends(look, came', read', mid, now)
    requires forall b :: b in came || b in came' ==> look(b).Held?
    ensures RunEnds(look, came + came', read + read', rows, was, rows' + now.batch, Kinds({}, now.holes, now.gone))
  {
  }

  /** Every arrived hole that is held is looked at, now or in a later batch. */
  ghost predicate Awaits(look: nat -> Look, arrived: set<nat>, holes: set<nat>, left: set<nat>, holesLeft: set<nat>,
          came: set<nat>, read: set<nat>) {
    && left <= arrived
    && (forall b :: b in came ==> b in arrived && look(b).Held? && (b in holes || b in read))
    && (forall b :: b in arrived && b in holes && look(b).Held? ==>
         b in came || b in read || (b in left && b in holesLeft))
  }

  lemma StillAwaits(look: nat -> Look, arrived: set<nat>, rows: set<nat>, was: Kinds, left: set<nat>, rows': set<nat>,
          mid: Kinds, came: set<nat>, read: set<nat>, left': set<nat>, came': set<nat>, read': set<nat>, now: Kinds)
    requires Awaits(look, arrived, was.holes, left, mid.holes, came, read) && left' <= left
    requires RunEnds(look, came, read, rows, was, rows', mid)
    requires Ends(look, came', read', mid, now)
    requires forall b :: b in came' <==> Came(left, left', mid.holes, b) && look(b).Held?
    ensures Awaits(look, arrived, was.holes, left', now.holes, came + came', read + read')
  {
  }

  /** A block becomes a hole, or done with, only for what is found at it. */
  ghost predicate Within(look: nat -> Look, was: Kinds, now: Kinds) {
    && (forall b :: b in now.holes ==> b in was.holes || look(b).Absent? || look(b).Waits())
    && (forall b :: b in now.gone ==> b in was.gone || look(b).KnownWiped? || look(b).Over())
  }

  lemma SortedWithin(look: nat -> Look, read: set<nat>, was: Kinds, now: Kinds)
    requires Sorts(look, read, was, now)
    requires forall b :: b in was.batch ==> look(b).Held?
    ensures Within(look, was, now)
    ensures forall b :: b in now.batch ==> look(b).Held? && (b in was.batch || b in read)
  {
  }

  lemma WithinOnwards(look: nat -> Look, was: Kinds, mid: Kinds, now: Kinds)
    requires Within(look, was, mid) && Within(look, mid, now)
    ensures Within(look, was, now)
  {
  }

  function Taken(kinds: Kinds, b: nat, found: Look): Kinds {
    match found
    case Held(_, _) => Kinds(kinds.batch + {b}, kinds.holes, kinds.gone - {b})
    case KnownWiped => Kinds(kinds.batch, kinds.holes, kinds.gone + {b})
    case Absent => Kinds(kinds.batch, kinds.holes + {b}, kinds.gone - {b})
    case ReadFails => Kinds(kinds.batch, kinds.holes, kinds.gone - {b})
  }

  lemma SkipStillLeft(was: Option<Skip>, mid: Option<Skip>, skip: Option<Skip>, at: nat, scanned: nat, end: nat)
    requires SkipLeft(was, mid, at, end) && SkipLeft(mid, skip, scanned, end) && at <= scanned
    ensures SkipLeft(was, skip, scanned, end)
  {
  }

  lemma OneScanned(read: set<nat>, was: Option<Skip>, skip: Option<Skip>, start: nat, at: nat, end: nat)
    requires start <= at < end && (skip.Some? ==> at < skip.value.from) && SkipLeft(was, skip, at, end)
    requires forall b :: b in read <==> Scanned(was, start, at, b)
    ensures at !in read && SkipLeft(was, skip, at + 1, end)
    ensures forall b :: b in read + {at} <==> Scanned(was, start, at + 1, b)
  {
    ScannedOn(was, skip, start, at, at + 1, end);
    forall b ensures b in read + {at} <==> Scanned(was, start, at + 1, b) {
      assert Scanned(skip, at, at + 1, b) <==> b == at;
    }
  }

  lemma NothingCame(look: nat -> Look, arrived: set<nat>, holes: set<nat>)
    ensures Awaits(look, arrived, holes, arrived, holes, {}, {})
  {
  }

  lemma NothingScanned(skip: Option<Skip>, at: nat, end: nat)
    ensures SkipLeft(skip, skip, at, end) && forall b :: !Scanned(skip, at, at, b)
  {
  }

  lemma NothingSorted(look: nat -> Look, kinds: Kinds)
    ensures Sorts(look, {}, kinds, kinds)
  {
  }

  lemma OneMoreSorted(look: nat -> Look, read: set<nat>, was: Kinds, now: Kinds, b: nat)
    requires Sorts(look, read, was, now) && b !in read
    ensures Sorts(look, read + {b}, was, Taken(now, b, look(b)))
    ensures |Taken(now, b, look(b)).batch| <= |now.batch| + 1
  {
  }

  /** No block looked at failed to be read. */
  ghost predicate Calm(look: nat -> Look, arrived: set<nat>, left: set<nat>, holes: set<nat>, read: set<nat>) {
    && (forall b :: Came(arrived, left, holes, b) ==> look(b) != ReadFails)
    && (forall b :: b in read ==> look(b) != ReadFails)
  }

  lemma AllCalm(look: nat -> Look, arrived: set<nat>, left: set<nat>, holes: set<nat>, read: set<nat>)
    requires Calm(look, arrived, left, holes, {}) && Calm(look, {}, {}, {}, read)
    ensures Calm(look, arrived, left, holes, read)
  {
  }

  lemma StillWithin(look: nat -> Look, was: Kinds, now: Kinds)
    requires Within(look, was, now)
    ensures Within(look, was, now.(batch := {}))
  {
  }

  lemma SubsetIsNoLarger(a: set<nat>, b: set<nat>)
    requires a <= b
    ensures |a| <= |b|
  {
    if a != {} {
      var x :| x in a;
      SubsetIsNoLarger(a - {x}, b - {x});
    }
  }

  function Min(a: nat, b: nat): nat {
    if a < b then a else b
  }

  class Log {
    const own: bool
    var from: Option<nat> // where reading starts; None: this log is not read
    var scanned: nat // all below it, from there on, was looked at
    var holes: set<nat> // blocks below it not indexed yet
    var arrived: set<nat>
    var skip: Option<Skip>
    var length: nat
    var limit: Option<nat> // a cut
    var uncommitted: bool
    var batch: set<nat> // looked at, being committed
    var rows: set<nat> // indexed
    ghost var gone: set<nat> // wiped, or over the write limit: there is nothing to index
    ghost var lost: set<nat> // looked at by a run that failed, and not since

    constructor (own: bool, from: Option<nat>, length: nat, limit: Option<nat>)
      ensures Valid() && this.own == own && this.from == from && this.length == length && this.limit == limit
      ensures rows == {} && lost == {} && gone == {} && holes == {} && arrived == {} && batch == {} && !uncommitted
      ensures skip == None && scanned == if from.Some? then from.value else 1
    {
      this.own, this.from, this.length, this.limit := own, from, length, limit;
      scanned := if from.Some? then from.value else 1;
      holes, arrived, skip, uncommitted, batch, rows, gone, lost := {}, {}, None, false, {}, {}, {}, {};
    }

    function End(): (end: nat)
      reads this
      ensures end <= length && (limit.Some? ==> end <= limit.value) && (end == length || limit == Some(end))
    {
      if limit.Some? then Min(length, limit.value) else length
    }

    /** Looked at since reading started, or before it started earlier. */
    predicate Looked(b: nat)
      reads this
    {
      (from.Some? && from.value <= b < scanned) || (skip.Some? && skip.value.from <= b < skip.value.to)
    }

    /**
     Every block looked at is indexed, has nothing to index, is a hole, is in a
     batch of which nothing is said yet, or was lost: and that is none of these.
     */
    ghost predicate Valid()
      reads this
    {
      && (forall b: nat {:trigger b in rows} :: Looked(b) ==>
        b in rows || b in gone || b in holes || b in batch || b in lost)
      && (forall b: nat {:trigger b in lost} :: b in lost ==> b !in rows && b !in gone && b !in holes && b !in batch)
      && (batch != {} ==> uncommitted)
      && (from.None? ==> skip.None?)
    }

    // From an empty batch to one that can be committed, in the steps below.
    // Arrived holes are left to the next batch only when this one is full, as is
    // the scan. failed: a step did, and the run ended.
    method LookAt(look: nat -> Look) returns (failed: bool, ghost came: set<nat>, ghost read: set<nat>)
      requires Valid() && from.Some? && batch == {}
      modifies this`scanned, this`skip, this`arrived, this`batch, this`holes, this`gone, this`lost, this`uncommitted
      ensures Valid() && uncommitted == !failed && old(scanned) <= scanned && arrived <= old(arrived)
      ensures forall b :: b in came <==> Came(old(arrived), arrived, old(holes), b) && look(b).Held?
      ensures forall b :: b in read <==> Scanned(old(skip), old(scanned), scanned, b)
      ensures SkipLeft(old(skip), skip, scanned, End()) && (scanned == old(scanned) || scanned <= End())
      ensures !failed ==> Ends(look, came, read, old(Now()), Now()) && lost == old(lost) - read
      ensures !failed ==>
        && (arrived == {} || |old(arrived)| - |arrived| >= BATCH)
        && (scanned >= End() || scanned - old(scanned) + |old(arrived)| - |arrived| >= BATCH)
      ensures |batch| <= BATCH
      ensures !failed ==> Calm(look, old(arrived), arrived, old(holes), read)
      // and of a run that fails: it leaves blocks it looked at nowhere
      ensures failed ==> batch == {} && exists b :: look(b).Fails()
      ensures failed ==> Within(look, old(Now()), Now())
      ensures forall b :: b in lost && b !in old(lost) ==>
          failed && (b in came || b in read) && (look(b).Held? || look(b).ReadFails?)
      ensures failed && old(arrived) == {} ==>
                (old(scanned) < scanned && look(scanned - 1) == ReadFails) ||
                exists b :: look(b).Fails() && look(b).Held?
    {
      hide Ends, Scanned, Came, Sorts, Within, Unlocks, Judges, Calm, SkipLeft;
      ghost var was := Now();
      uncommitted := true;
      failed, came, read := Sift(look);
      if failed {
        StillWithin(look, was, Now());
        Fail();
      }
    }

    // What is gathered, and what of it can be committed.
    method Sift(look: nat -> Look) returns (failed: bool, ghost came: set<nat>, ghost read: set<nat>)
      requires Valid() && from.Some? && batch == {} && uncommitted
      modifies this`scanned, this`skip, this`arrived, this`batch, this`holes, this`gone, this`lost
      ensures Valid() && old(scanned) <= scanned && arrived <= old(arrived)
      ensures forall b :: b in came <==> Came(old(arrived), arrived, old(holes), b) && look(b).Held?
      ensures forall b :: b in read <==> Scanned(old(skip), old(scanned), scanned, b)
      ensures SkipLeft(old(skip), skip, scanned, End()) && (scanned == old(scanned) || scanned <= End())
      ensures if failed then Within(look, old(Now()), Now()) else Ends(look, came, read, old(Now()), Now())
      ensures !failed ==> Calm(look, old(arrived), arrived, old(holes), read) && lost == old(lost) - read
      ensures !failed ==>
        && (arrived == {} || |old(arrived)| - |arrived| >= BATCH)
        && (scanned >= End() || scanned - old(scanned) + |old(arrived)| - |arrived| >= BATCH)
      ensures |batch| <= BATCH && forall b :: b in batch ==> look(b).Held? && (b in came || b in read)
      ensures forall b :: b in lost && b !in old(lost) ==> failed && b in read && look(b).ReadFails?
      ensures failed ==> exists b :: look(b).Fails()
      ensures failed && old(arrived) == {} ==>
                (old(scanned) < scanned && look(scanned - 1) == ReadFails) ||
                exists b :: look(b).Fails() && look(b).Held?
    {
      hide Ends, Scanned, Came, Sorts, Within, Unlocks, Judges, Calm, SkipLeft, Log.Valid;
      ghost var was := Now();
      failed, came, read := Gather(look);
      if !failed {
        ghost var k1, k2 := Now(), was;
        failed, k2 := Settle(look);
        WithinOnwards(look, was, k1, Now());
        if !failed {
          StepsEnd(look, came, read, was, k1, k2, Now());
        }
      }
    }

    // The blocks of a batch: what arrived, then what the scan finds.
    method Gather(look: nat -> Look) returns (failed: bool, ghost came: set<nat>, ghost read: set<nat>)
      requires Valid() && from.Some? && batch == {} && uncommitted
      modifies this`scanned, this`skip, this`arrived, this`batch, this`holes, this`gone, this`lost
      ensures Valid() && old(scanned) <= scanned && arrived <= old(arrived)
      ensures forall b :: b in came <==> Came(old(arrived), arrived, old(holes), b) && look(b).Held?
      ensures forall b :: b in read <==> Scanned(old(skip), old(scanned), scanned, b)
      ensures SkipLeft(old(skip), skip, scanned, End()) && (scanned == old(scanned) || scanned <= End())
      ensures Within(look, old(Now()), Now())
      ensures !failed ==> Sorts(look, read, Kinds(came, old(holes), old(gone) - came), Now())
      ensures !failed ==> lost == old(lost) - read
      ensures !failed ==> Calm(look, old(arrived), arrived, old(holes), read)
      ensures !failed ==>
        && (arrived == {} || |old(arrived)| - |arrived| >= BATCH)
        && (scanned >= End() || scanned - old(scanned) + |old(arrived)| - |arrived| >= BATCH)
      ensures |batch| <= BATCH && forall b :: b in batch ==> look(b).Held? && (b in came || b in read)
      ensures forall b :: b in lost && b !in old(lost) ==> failed && b in read && look(b).ReadFails?
      ensures failed ==> exists b :: look(b).Fails()
      ensures failed && old(arrived) == {} ==> old(scanned) < scanned && look(scanned - 1) == ReadFails
    {
      hide Scanned, Came, Sorts, Within, Calm, SkipLeft;
      ghost var was := Now();
      read := {};
      failed := Arrivals(look);
      came := batch;
      NothingScanned(skip, scanned, End());
      if failed {
        return;
      }
      ghost var k0, left := Now(), arrived;
      failed, read := Scan(look);
      SortedWithin(look, read, k0, Now());
      WithinOnwards(look, was, k0, Now());
      if !failed {
        AllCalm(look, old(arrived), left, old(holes), read);
      }
    }

    // What is locked, then what the write limit says.
    method Settle(look: nat -> Look) returns (failed: bool, ghost mid: Kinds)
      requires Valid() && uncommitted
      requires forall b :: b in batch ==> look(b).Held?
      modifies this`batch, this`holes, this`gone
      ensures Valid() && batch <= old(batch) && |batch| <= |old(batch)|
      ensures Unlocks(look, old(Now()), mid) && (!failed ==> Judges(look, mid, Now()))
      ensures !failed ==> forall b :: b in old(batch) ==> !look(b).Fails()
      ensures Within(look, old(Now()), Now())
      ensures failed ==> exists b :: look(b).Fails() && look(b).Held?
    {
      hide Within, Unlocks, Judges;
      ghost var was := Now();
      Unlock(look);
      mid := Now();
      failed := Judge(look);
      WithinOnwards(look, was, mid, Now());
      SubsetIsNoLarger(batch, was.batch);
    }

    method Arrivals(look: nat -> Look) returns (failed: bool)
      requires Valid() && batch == {} && uncommitted
      modifies this`arrived, this`batch, this`gone
      ensures Valid() && arrived <= old(arrived) && gone == old(gone) - batch
      ensures forall b :: b in batch <==> Came(old(arrived), arrived, old(holes), b) && look(b).Held?
      ensures |batch| <= |old(arrived)| - |arrived|
      ensures Within(look, old(Now()), Now())
      ensures |batch| <= BATCH && (!failed ==> arrived == {} || |batch| == BATCH)
      ensures !failed ==> Calm(look, old(arrived), arrived, old(holes), {})
      ensures failed ==> old(arrived) != {} && exists b :: look(b).Fails()
    {
      var todo := arrived;
      while todo != {} && |batch| < BATCH
        invariant Valid() && uncommitted && todo == arrived <= old(arrived) && gone == old(gone) - batch
        invariant forall b :: b in batch <==> Came(old(arrived), arrived, old(holes), b) && look(b).Held?
        invariant |batch| <= BATCH
        invariant forall b :: Came(old(arrived), arrived, old(holes), b) ==> look(b) != ReadFails
        invariant |batch| <= |old(arrived)| - |arrived|
        decreases todo
      {
        var b :| b in todo;
        todo, arrived := todo - {b}, arrived - {b};
        if b in holes {
          if look(b) == ReadFails {
            assert look(b).Fails();
            return true; // and `b` stays a hole
          }
          if look(b).Held? {
            batch, gone := batch + {b}, gone - {b};
          }
        }
      }
      return false;
    }

    /** A block still to be committed, or committed. */
    predicate Kept(b: nat)
      reads this
    {
      b in rows || b in holes || b in batch
    }

    ghost function Now(): Kinds
      reads this
    {
      Kinds(batch, holes, gone)
    }

    // A block looked at: what it was before no longer counts. `scanned` is past
    // it before the read, so that a read that fails leaves it nowhere.
    method Take(b: nat, look: nat -> Look)
      requires Valid() && uncommitted && from.Some? && scanned == b && (skip.Some? ==> b < skip.value.from)
      modifies this`scanned, this`batch, this`holes, this`gone, this`lost
      ensures Valid() && scanned == b + 1
      ensures Now() == Taken(old(Now()), b, look(b))
      ensures lost == if look(b) == ReadFails && !Kept(b) then old(lost) + {b} else old(lost) - {b}
    {
      scanned, gone := scanned + 1, gone - {b};
      lost := if look(b) == ReadFails && !Kept(b) then lost + {b} else lost - {b};
      match look(b) {
        case Held(_, _) => batch := batch + {b};
        case KnownWiped => gone := gone + {b};
        case Absent => holes := holes + {b};
        case ReadFails =>
      }
    }

    // Over the blocks to skip, or to the log's end.
    method Jump(end: nat)
      requires Valid() && skip.Some? && skip.value.from <= scanned < end
      modifies this`scanned, this`skip
      ensures Valid() && skip == None && old(scanned) <= scanned <= end && SkipLeft(old(skip), skip, scanned, end)
      ensures forall b :: !Scanned(old(skip), old(scanned), scanned, b)
    {
      if scanned < skip.value.to {
        scanned := Min(skip.value.to, end);
      }
      skip := None;
    }

    // `read`: the blocks it looked at.
    method Scan(look: nat -> Look) returns (failed: bool, ghost read: set<nat>)
      requires Valid() && from.Some? && uncommitted && |batch| <= BATCH
      modifies this`scanned, this`skip, this`batch, this`holes, this`gone, this`lost
      ensures Valid() && old(scanned) <= scanned
      ensures forall b :: b in read <==> Scanned(old(skip), old(scanned), scanned, b)
      ensures Sorts(look, read, old(Now()), Now())
      ensures forall b :: b in lost <==>
          if b in read then failed && b == scanned - 1 && !Kept(b) else b in old(lost)
      ensures if failed then old(scanned) < scanned && look(scanned - 1) == ReadFails
              else Calm(look, {}, {}, {}, read)
      ensures |batch| <= BATCH && (!failed ==> scanned >= End() || |batch| == BATCH)
      ensures SkipLeft(old(skip), skip, scanned, End()) && (scanned == old(scanned) || scanned <= End())
      ensures |batch| - |old(batch)| <= scanned - old(scanned)
    {
      hide Sorts, Taken, Scanned, SkipLeft;
      var end := End();
      failed, read := false, {};
      NothingScanned(skip, scanned, end);
      NothingSorted(look, Now());
      while |batch| < BATCH && scanned < end
        invariant Valid() && uncommitted && from.Some? && old(scanned) <= scanned
        invariant SkipLeft(old(skip), skip, scanned, end) && (scanned == old(scanned) || scanned <= end)
        invariant forall b :: b in read <==> Scanned(old(skip), old(scanned), scanned, b)
        invariant Sorts(look, read, old(Now()), Now()) && lost == old(lost) - read
        invariant !failed && forall b :: b in read ==> look(b) != ReadFails
        invariant |batch| - |old(batch)| <= scanned - old(scanned) && |batch| <= BATCH
        decreases end - scanned, if skip.Some? then 1 else 0
      {
        ghost var before, at := skip, scanned;
        if skip.Some? && scanned >= skip.value.from { // the jump, once
          Jump(end);
          ScannedOn(old(skip), before, old(scanned), at, scanned, end);
          SkipStillLeft(old(skip), before, skip, at, scanned, end);
        } else {
          var b := scanned;
          OneScanned(read, old(skip), skip, old(scanned), b, end);
          OneMoreSorted(look, read, old(Now()), Now(), b);
          Take(b, look);
          read := read + {b};
          if look(b) == ReadFails {
            return true, read;
          }
        }
      }
    }

    // A locked record leaves the batch as a hole; any other is no hole any more.
    method Unlock(look: nat -> Look)
      requires Valid() && uncommitted
      requires forall b :: b in batch ==> look(b).Held?
      modifies this`batch, this`holes
      ensures Valid() && batch <= old(batch) && Within(look, old(Now()), Now())
      ensures forall b :: b in old(batch) && b !in batch ==> look(b).Held? && look(b).locked
      ensures Unlocks(look, old(Now()), Now()) && forall b :: b in batch ==> !look(b).locked && b !in holes
    {
      var todo := batch;
      while todo != {}
        invariant Valid() && todo <= batch
        invariant forall b :: b in batch <==> b in old(batch) && (b in todo || !look(b).locked)
        invariant forall b :: b in holes <==> if b in old(batch) && b !in todo then look(b).locked else b in old(holes)
        decreases todo
      {
        var b :| b in todo;
        todo := todo - {b};
        if look(b).locked {
          holes, batch := holes + {b}, batch - {b};
        } else {
          holes := holes - {b};
        }
      }
    }

    // One block against the write limit: it stays in the batch, waits as a
    // hole, or is done with.
    method JudgeOne(b: nat, verdict: WriteLimit.Verdict)
      requires Valid() && uncommitted && b in batch
      modifies this`batch, this`holes, this`gone
      ensures Valid()
      ensures batch == if verdict == WriteLimit.Ok then old(batch) else old(batch) - {b}
      ensures holes ==
        match verdict
        case Ok => old(holes)
        case Wait => old(holes) + {b}
        case Over => old(holes) - {b}
      ensures gone == if verdict == WriteLimit.Over then old(gone) + {b} else old(gone)
    {
      match verdict {
        case Ok =>
        case Wait => holes, batch := holes + {b}, batch - {b};
        case Over => holes, batch, gone := holes - {b}, batch - {b}, gone + {b};
      }
    }

    // The batch without the records that wait or are over the limit; failed: a
    // block could not be judged.
    method Judge(look: nat -> Look) returns (failed: bool)
      requires Valid() && uncommitted
      requires forall b :: b in batch ==> look(b).Held? && !look(b).locked && b !in holes
      modifies this`batch, this`holes, this`gone
      ensures Valid() && batch <= old(batch)
      ensures failed ==> exists b :: look(b).Fails() && look(b).Held?
      ensures !failed ==> Judges(look, old(Now()), Now()) && forall b :: b in old(batch) ==> !look(b).Fails()
      ensures Within(look, old(Now()), Now())
    {
      var todo := batch;
      while todo != {}
        invariant Valid() && todo <= batch <= old(batch)
        invariant forall b :: b in old(batch) && b !in todo ==> !look(b).Fails()
        invariant forall b :: b in batch <==> b in todo || (b in old(batch) && look(b).Readable())
        invariant forall b :: b in holes <==> b in old(holes) || (b in old(batch) && b !in todo && look(b).Waits())
        invariant forall b :: b in gone <==> b in old(gone) || (b in old(batch) && b !in todo && look(b).Over())
        decreases todo
      {
        var b :| b in todo;
        todo := todo - {b};
        if look(b).verdict.None? {
          assert look(b).Fails();
          return true;
        }
        JudgeOne(b, look(b).verdict.value);
      }
      return false;
    }

    // A run over the log: batches until nothing is left to look at. Then every hole
    // that had arrived and every block from where the scan stood is as its look says.
    method Run(look: nat -> Look) returns (failed: bool, ghost came: set<nat>, ghost read: set<nat>)
      requires Valid() && from.Some? && batch == {} && !uncommitted
      modifies this`scanned, this`skip, this`arrived, this`batch, this`holes, this`gone, this`lost, this`uncommitted
      modifies this`rows
      ensures Valid() && !uncommitted && batch == {} && old(scanned) <= scanned
      ensures failed ==> exists b :: look(b).Fails()
      ensures !failed ==> arrived == {} && scanned >= End() && (scanned == old(scanned) || scanned <= End())
      ensures !failed ==> RunEnds(look, came, read, old(rows), old(Now()), rows, Now()) && lost == old(lost) - read
      ensures !failed ==> Awaits(look, old(arrived), old(holes), {}, holes, came, read)
      ensures !failed ==> forall b :: b in read <==> Scanned(old(skip), old(scanned), scanned, b)
    {
      hide Ends, RunEnds, Awaits, Scanned, Came, SkipLeft, Calm, Within, Log.Valid;
      failed, came, read := false, {}, {};
      ghost var was := Now();
      NothingRun(look, rows, was);
      NothingScanned(skip, scanned, End());
      NothingCame(look, arrived, holes);
      while true
        invariant Valid() && !uncommitted && batch == {} && from.Some? && old(scanned) <= scanned && !failed
        invariant RunEnds(look, came, read, old(rows), was, rows, Now()) && lost == old(lost) - read
        invariant Awaits(look, old(arrived), old(holes), arrived, holes, came, read)
        invariant SkipLeft(old(skip), skip, scanned, End()) && (scanned == old(scanned) || scanned <= End())
        invariant forall b :: b in read <==> Scanned(old(skip), old(scanned), scanned, b)
        invariant forall b :: b in came ==> look(b).Held?
        decreases |arrived| + if scanned < End() then End() - scanned else 0
      {
        ghost var c, r, mid, left, at, before := {}, {}, Now(), arrived, scanned, skip;
        failed, c, r := LookAt(look);
        if failed {
          return;
        }
        OneMoreBatch(look, came, read, old(rows), was, rows, mid, c, r, Now());
        StillAwaits(look, old(arrived), old(rows), was, left, rows, mid, came, read, arrived, c, r, Now());
        ScannedOn(old(skip), before, old(scanned), at, scanned, End());
        SkipStillLeft(old(skip), before, skip, at, scanned, End());
        came, read := came + c, read + r;
        Commit();
        if scanned >= End() && arrived == {} {
          return;
        }
      }
    }

    // A block came: if it was looked at already, it may be a hole.
    method Arrived(b: nat)
      requires Valid()
      modifies this`arrived
      ensures Valid()
      ensures arrived == if from.Some? && from.value <= b < scanned then old(arrived) + {b} else old(arrived)
    {
      if from.None? || b < from.value {
        return;
      }
      if b < scanned {
        arrived := arrived + {b};
      }
    }

    // Every hole is looked at once more, whether it was seen to arrive or not.
    method RecheckHoles()
      requires Valid()
      modifies this`arrived
      ensures Valid() && arrived == old(arrived) + old(holes)
    {
      var todo := holes;
      while todo != {}
        invariant Valid() && todo <= holes && arrived == old(arrived) + (holes - todo)
        decreases todo
      {
        var b :| b in todo;
        todo, arrived := todo - {b}, arrived + {b};
      }
    }

    // Once all holes can be read, and all blocks from where the scan stood, a run
    // leaves no hole: what `LogComplete` asks of a log but for where it is read from.
    method FillHoles(look: nat -> Look)
      requires Valid() && from.Some? && batch == {} && !uncommitted
      requires forall b :: b in holes || (scanned <= b < End()) ==>
        look(b).Readable() || look(b).Over() || (look(b).KnownWiped? && b !in holes)
      requires forall b :: !look(b).Fails()
      modifies this
      ensures Valid() && holes == {} && scanned >= End() && !uncommitted
      ensures forall b :: b in old(holes) ==> if look(b).Readable() then b in rows else b in gone
    {
      ghost var was := holes;
      RecheckHoles();
      var failed, came, read := Run(look);
      assert !failed;
      assert forall b :: b in came ==> b in was || b in read;
      assert forall b :: b in read ==> old(scanned) <= b < End();
      assert forall b :: b !in holes;
    }

    // The transaction committed: its rows are in the index.
    method Commit()
      requires Valid() && uncommitted
      modifies this`rows, this`batch, this`uncommitted
      ensures Valid() && !uncommitted && batch == {} && rows == old(rows) + old(batch)
    {
      rows, batch, uncommitted := rows + batch, {}, false;
    }

    // The run fails, at a read, a judgment or its transaction: what it looked at
    // stays looked at, and is not in the index unless it was before.
    method Fail()
      requires Valid() && uncommitted
      modifies this`batch, this`uncommitted, this`lost
      ensures Valid() && !uncommitted && batch == {}
      ensures lost == old(lost) + (old(batch) - rows - gone - holes)
    {
      lost := lost + (batch - rows - gone - holes);
      batch, uncommitted := {}, false;
    }

    // A hole whose record was deleted or taken down is done with.
    method Wipe(b: nat)
      requires Valid()
      modifies this`holes, this`gone
      ensures Valid()
      ensures holes == old(holes) - {b} && gone == if b in old(holes) then old(gone) + {b} else old(gone)
    {
      if b in holes {
        holes, gone := holes - {b}, gone + {b};
      }
    }

    // The scan starts over, as when the write limit is raised.
    method ReadAgain()
      requires Valid() && from.Some?
      modifies this`scanned, this`skip
      ensures Valid() && scanned == from.value && forall b: nat :: !Looked(b)
    {
      scanned, skip := from.value, None;
    }

    // Reads from block `start` on, if not read from there already.
    method ReadFrom(start: nat)
      requires Valid()
      modifies this`from, this`scanned, this`skip
      ensures Valid()
      ensures !own ==> from.Some? && from.value <= start
      ensures own || (old(from).Some? && old(from).value <= start) ==>
          from == old(from) && scanned == old(scanned) && skip == old(skip)
      ensures !own && (old(from).None? || old(from).value > start) ==>
                from == Some(start) && scanned == start
                && skip == if old(from).None? then None else Some(Skip(old(from).value, old(scanned)))
      // looked at twice: what was skipped already and lies outside the blocks skipped now
      ensures forall b: nat :: old(Looked(b)) ==>
                (!Looked(b) <==>
                  !own && old(from).Some? && start < old(from).value &&
                  !(old(from).value <= b < old(scanned)))
    {
      if own || (from.Some? && from.value <= start) {
        return;
      }
      if from.Some? {
        skip := Some(Skip(from.value, scanned)); // `Looked` keeps these
      }
      scanned := start;
      from := Some(start);
    }
  }

  type LogId = nat

  /** Where reading has to start to see a log's periods from `p` on. */
  ghost predicate IsStart(periods: map<nat, nat>, p: nat, start: Option<nat>) {
    match start
    case None => forall q :: q in periods ==> q < p
    case Some(s) =>
      (exists q :: q in periods && q >= p && periods[q] == s) &&
      (forall q :: q in periods && q >= p ==> s <= periods[q])
  }

  class Reading {
    var horizon: Option<nat> // the period read from; None: everything
    var undecided: bool
    const personal: bool
    var members: set<nat> // known by this space's decisions
    var act: map<LogId, map<nat, nat>> // per log, the lowest start of each period's entries
    var logs: map<LogId, Log>
    var refused: set<LogId>
    var reachedFrom: Option<nat> // the period from which lists are whole; None: none yet
    var waiting: set<nat> // the periods of entries not checked to the end

    constructor (horizon: Option<nat>, personal: bool, members: set<nat>)
      ensures this.horizon == horizon && this.personal == personal && this.members == members
      ensures act == map[] && logs == map[] && reachedFrom == None
      ensures !undecided && refused == {} && waiting == {}
    {
      this.horizon, this.personal, this.members := horizon, personal, members;
      undecided, act, logs, refused, reachedFrom, waiting := false, map[], map[], {}, None, {};
    }

    // An entry kept: the lowest start of its period counts.
    method Remember(log: LogId, e: Entry)
      modifies this`act
      ensures act.Keys == old(act).Keys + {log}
      ensures forall h :: h in old(act) && h != log ==> act[h] == old(act)[h]
      ensures
        var before := if log in old(act) then old(act)[log] else map[];
        act[log] == before[e.period := if e.period in before then Min(before[e.period], e.start) else e.start]
    {
      var periods := if log in act then act[log] else map[];
      if e.period !in periods || e.start < periods[e.period] {
        periods := periods[e.period := e.start];
      }
      act := act[log := periods];
    }

    // `Remember`, then `ReadFrom`, for an entry of the horizon's period or later.
    method Kept(log: LogId, e: Entry)
      requires log in logs ==> logs[log].Valid()
      modifies this`act, logs.Values
      ensures horizon.None? || e.period < horizon.value ==> act == old(act)
      ensures horizon.Some? && e.period >= horizon.value ==>
                log in act && e.period in act[log] && act[log][e.period] <= e.start
      ensures horizon.Some? && e.period >= horizon.value && log in logs ==>
                logs[log].Valid() && (logs[log].own || (logs[log].from.Some? && logs[log].from.value <= e.start))
    {
      if horizon.None? || e.period < horizon.value {
        return;
      }
      Remember(log, e);
      if log in logs {
        logs[log].ReadFrom(e.start);
      }
    }

    // The minimum `IsStart` speaks of.
    method StartOf(log: LogId, p: nat) returns (start: Option<nat>)
      ensures IsStart(if log in act then act[log] else map[], p, start)
    {
      start := None;
      if log !in act {
        return;
      }
      var periods := act[log];
      var todo := periods.Keys;
      while todo != {}
        invariant todo <= periods.Keys
        invariant match start
          case None => forall q :: q in periods && q !in todo ==> q < p
          case Some(s) =>
            (exists q :: q in periods && q >= p && periods[q] == s) &&
            (forall q :: q in periods && q !in todo && q >= p ==> s <= periods[q])
        decreases |todo|
      {
        var q :| q in todo;
        todo := todo - {q};
        if q >= p && (start.None? || periods[q] < start.value) {
          start := Some(periods[q]);
        }
      }
    }

    /** Why this log does not stand in the way of "complete" from period `p` on, with its `start` then. */
    ghost predicate LogComplete(h: LogId, start: nat, unheard: LogId -> bool)
      reads this, logs.Values
    {
      if h !in logs then h in refused
      else
        var log := logs[h];
        || log.own
        || (log.from.Some? && log.from.value <= start && !unheard(h) && !log.uncommitted
            && log.scanned >= log.End() && forall b :: b in log.holes ==> b < start)
    }

    /** The lists from period `p` on are whole, and none waits for its check. */
    predicate ListsReach(p: nat)
      reads this
    {
      reachedFrom.Some? && reachedFrom.value <= p && forall q :: q in waiting ==> q < p
    }

    ghost predicate Complete(p: nat, unheard: LogId -> bool)
      reads this, logs.Values
    {
      && (personal || members != {})
      && horizon.Some? && horizon.value <= p && !undecided
      && ListsReach(p)
      && forall h :: h in act ==> (forall q :: q in act[h] ==> q < p) || exists s: nat ::
        IsStart(act[h], p, Some(s)) && LogComplete(h, s, unheard)
    }

    // The answer of a member that reads from a horizon on; no before any
    // decision told it who the members are.
    method CompleteFrom(stamp: nat, unheard: LogId -> bool) returns (yes: bool)
      requires horizon.Some?
      ensures yes <==> Complete(PeriodOf(stamp), unheard)
    {
      if !personal && members == {} {
        return false;
      }
      var p := PeriodOf(stamp);
      if p < horizon.value || undecided {
        return false;
      }
      if !ListsReach(p) {
        return false;
      }
      var todo := act.Keys;
      while todo != {}
        invariant todo <= act.Keys
        invariant forall h :: h in act && h !in todo ==>
          (forall q :: q in act[h] ==> q < p) || exists s: nat ::
            IsStart(act[h], p, Some(s)) && LogComplete(h, s, unheard)
        decreases |todo|
      {
        var h :| h in todo;
        var start := StartOf(h, p);
        var ok := start.None?;
        if start.Some? {
          ok := LogReady(h, start.value, unheard);
        }
        if !ok {
          OneStart(act[h], p, start.value);
          return false;
        }
        todo := todo - {h};
      }
      return true;
    }

    // What completeFrom asks of one log with a start in the periods asked for.
    method LogReady(h: LogId, start: nat, unheard: LogId -> bool) returns (ok: bool)
      ensures ok <==> LogComplete(h, start, unheard)
    {
      if h !in logs {
        return h in refused;
      }
      var log := logs[h];
      if log.own {
        return true;
      }
      if log.from.None? || log.from.value > start || unheard(h) || log.uncommitted || log.scanned < log.End() {
        return false;
      }
      var todo := log.holes;
      while todo != {}
        invariant todo <= log.holes && forall b :: b in log.holes && b !in todo ==> b < start
        decreases |todo|
      {
        var b :| b in todo;
        if b >= start {
          return false;
        }
        todo := todo - {b};
      }
      return true;
    }
  }

  /**
   No is the answer before it is known who writes and what is read, while the lists
   are not whole from then on, and while a log with an entry from then on is behind.
   */
  lemma CompleteNeeds(r: Reading, p: nat, unheard: LogId -> bool)
    requires r.Complete(p, unheard)
    ensures (r.personal || r.members != {}) && !r.undecided && r.horizon.Some? && r.horizon.value <= p
    ensures r.reachedFrom.Some? && r.reachedFrom.value <= p && forall q :: q in r.waiting ==> q < p
    ensures forall h, q :: h in r.act && q in r.act[h] && q >= p ==>
      if h !in r.logs then h in r.refused
      else
        var log := r.logs[h];
        || log.own
        || (log.from.Some? && log.from.value <= r.act[h][q] && log.scanned >= log.End() && !log.uncommitted &&
            !unheard(h) && forall b :: b in log.holes ==> b < r.act[h][q])
  {
  }

  lemma OneStart(periods: map<nat, nat>, p: nat, s: nat)
    requires IsStart(periods, p, Some(s))
    ensures !(forall q :: q in periods ==> q < p)
    ensures forall t: nat :: IsStart(periods, p, Some(t)) ==> t == s
  {
  }

  /**
   The lists kept from period `p` on are whole: each entry a log's blocks give is
   kept, with its start or a lower one.
   */
  ghost predicate ListsWhole(act: map<LogId, map<nat, nat>>, h: LogId, view: View, end: nat, p: nat) {
    && DeriveOf(view, 1, end, 0, -1).next >= end
    && forall e :: e in DeriveOf(view, 1, end, 0, -1).entries && e.period >= p ==>
      h in act && e.period in act[h] && act[h][e.period] <= e.start
  }

  /** Then every readable record of those periods is at or after where reading starts. */
  lemma WholeListsCover(act: map<LogId, map<nat, nat>>, h: LogId, view: View, end: nat, p: nat, block: nat)
    requires ListsWhole(act, h, view, end, p)
    requires 1 <= block < end && view(block).Stamped? && PeriodOf(view(block).stamp) >= p
    ensures h in act && exists q :: q in act[h] && q >= p && act[h][q] <= block
  {
    EntriesCover(view, 1, end, 0, -1, block, p);
  }

  /** A readable record of period `p` or later, below the log's end. */
  ghost predicate Wanted(view: View, end: nat, p: nat, block: nat) {
    1 <= block < end && view(block).Stamped? && PeriodOf(view(block).stamp) >= p
  }

  /**
   A member that says "complete" has indexed such a record of another member's log,
   unless there is nothing of it to index or it was lost.
   */
  lemma CompleteMeansIndexed(r: Reading, stamp: nat, unheard: LogId -> bool, h: LogId, view: View, block: nat)
    requires r.Complete(PeriodOf(stamp), unheard)
    requires h in r.logs && !r.logs[h].own && r.logs[h].Valid()
    requires ListsWhole(r.act, h, view, r.logs[h].End(), PeriodOf(stamp))
    requires Wanted(view, r.logs[h].End(), PeriodOf(stamp), block)
    ensures block in r.logs[h].rows || block in r.logs[h].gone || block in r.logs[h].lost
  {
    var p, log := PeriodOf(stamp), r.logs[h];
    WholeListsCover(r.act, h, view, log.End(), p, block);
    var q :| q in r.act[h] && q >= p && r.act[h][q] <= block;
    var s: nat :| IsStart(r.act[h], p, Some(s)) && r.LogComplete(h, s, unheard);
    assert s <= r.act[h][q] <= block;
    assert log.Looked(block);
    assert block in log.rows || block in log.gone || block in log.holes || block in log.batch || block in log.lost;
  }

  /**
   A member that says "complete" from a stamp on, with whole lists from its
   period on, has indexed all there is to index of that period and later in
   another member's log, if and only if none of it was lost by a run that failed
   and not looked at since.
   */
  lemma CompleteIsRightIffNothingLost(r: Reading, stamp: nat, unheard: LogId -> bool, h: LogId, view: View)
    requires r.Complete(PeriodOf(stamp), unheard)
    requires h in r.logs && !r.logs[h].own && r.logs[h].Valid()
    requires ListsWhole(r.act, h, view, r.logs[h].End(), PeriodOf(stamp))
    ensures
      var p, log := PeriodOf(stamp), r.logs[h];
      (forall b :: Wanted(view, log.End(), p, b) && b !in log.gone ==> b in log.rows) <==>
      (forall b :: Wanted(view, log.End(), p, b) ==> b !in log.lost)
  {
    var p, log := PeriodOf(stamp), r.logs[h];
    forall b | Wanted(view, log.End(), p, b)
      ensures b in log.rows || b in log.gone || b in log.lost
      ensures b in log.lost ==> b !in log.rows && b !in log.gone
    {
      CompleteMeansIndexed(r, stamp, unheard, h, view, b);
    }
  }

  function AllHeard(h: LogId): bool {
    false
  }

  function FirstPeriod(block: nat): Block {
    Stamped(0)
  }

  lemma AllReadable(look: nat -> Look, came: set<nat>, read: set<nat>, now: Kinds)
    requires forall b :: look(b) == Held(false, Some(WriteLimit.Ok))
    ensures !exists b :: look(b).Fails()
    ensures Ends(look, came, read, Kinds({}, {}, {}), now) ==> now == Kinds(came + read, {}, {})
  {
  }

  /** A log of one record, held and readable, looked at. */
  method OneRecordRead() returns (log: Log)
    ensures fresh(log) && log.Valid() && !log.own && log.from == Some(1) && log.End() == 2 && log.scanned >= 2
    ensures log.uncommitted
    ensures log.holes == {} && log.gone == {} && log.rows == {} && 1 in log.batch && log.lost == {}
  {
    hide Calm, Came, SkipLeft, Within, Sorts, Ends;
    log := new Log(false, Some(1), 2, None);
    var look: nat -> Look := _ => Held(false, Some(WriteLimit.Ok));
    var failed, came, read := log.LookAt(look);
    AllReadable(look, came, read, log.Now());
    assert log.Looked(1);
  }

  /** The transaction of its run fails. */
  method FailedRun() returns (log: Log)
    ensures LosesItsRecord(log)
  {
    log := OneRecordRead();
    log.Fail();
  }

  /** The same log, and a run that fails to read its block: it is in no batch. */
  method FailedRead() returns (log: Log)
    ensures LosesItsRecord(log)
  {
    log := new Log(false, Some(1), 2, None);
    var look: nat -> Look := _ => ReadFails;
    var failed, _, _ := log.LookAt(look);
    assert log.Looked(1) && look(1) == ReadFails;
    assert 1 !in log.rows && 1 in log.lost;
  }

  /** Everything is looked at, and the record is neither indexed nor a hole. */
  ghost predicate LosesItsRecord(log: Log)
    reads log
  {
    && log.Valid() && !log.own && log.from == Some(1) && log.End() == 2 && log.scanned >= 2 && !log.uncommitted
    && log.holes == {} && 1 !in log.rows && 1 !in log.gone && 1 in log.lost
  }

  /** A member that reads such a log, with whole lists, says "complete" from the record's period on. */
  method SaysComplete(log: Log) returns (r: Reading)
    requires LosesItsRecord(log)
    ensures LosesItsRecord(log) && r.Complete(0, AllHeard) && 7 in r.logs && r.logs[7] == log
    ensures ListsWhole(r.act, 7, FirstPeriod, log.End(), 0)
  {
    r := new Reading(Some(0), false, {1});
    r.Remember(7, Entry(0, 1));
    r.logs, r.reachedFrom := map[7 := log], Some(0);
    assert IsStart(r.act[7], 0, Some(1 as nat)) && r.LogComplete(7, 1, AllHeard);
    OneRecordDerived();
  }

  // A failed transaction makes the answer wrong.
  method FailedBatchStillSaysComplete() returns (r: Reading, log: Log)
    ensures r.Complete(0, AllHeard) && 7 in r.logs && r.logs[7] == log && log.Valid() && !log.own
    ensures ListsWhole(r.act, 7, FirstPeriod, log.End(), 0)
    ensures 1 < log.End() && 1 !in log.rows && 1 !in log.gone && 1 in log.lost
  {
    log := FailedRun();
    r := SaysComplete(log);
  }

  // And so does a failed read.
  method FailedReadStillSaysComplete() returns (r: Reading, log: Log)
    ensures r.Complete(0, AllHeard) && 7 in r.logs && r.logs[7] == log && log.Valid() && !log.own
    ensures ListsWhole(r.act, 7, FirstPeriod, log.End(), 0)
    ensures 1 < log.End() && 1 !in log.rows && 1 !in log.gone && 1 in log.lost
  {
    log := FailedRead();
    r := SaysComplete(log);
  }

  lemma OneRecordDerived()
    ensures DeriveOf(FirstPeriod, 1, 2, 0, -1) == Derived([Entry(0, 1)], 2, 1, 0)
  {
    assert DeriveOf(FirstPeriod, 1, 1, 0, -1) == Derived([], 1, 0, -1);
  }
}
