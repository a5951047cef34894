/**
 Activity entries (lib/activity.js): where in a log each hour of stamps begins,
 derived from the log's blocks and checked against them.
 */
module Activity {
  import opened Blocks

  const PERIOD_MS := 3_600_000

  datatype Entry = Entry(period: nat, start: nat)

  /**
   Where deriving stands: blocks below `next` seen, of which `last` is the last
   readable one; no period above `period` among them.
   */
  datatype Derived = Derived(entries: seq<Entry>, next: nat, last: int, period: int)

  datatype Check = Ok | False | Wait

  function PeriodOf(stamp: nat): nat {
    stamp / PERIOD_MS
  }

  lemma PeriodsFollowStamps(a: nat, b: nat)
    requires a <= b
    ensures PeriodOf(a) <= PeriodOf(b)
  {
  }

  /** What `derive` gives for the blocks `from` to `end` (excluded), going on from `last` and `period`. */
  function DeriveOf(at: View, from: nat, end: nat, last: int, period: int): (d: Derived)
    requires last >= -1
    ensures d.next >= from && d.last >= -1
    ensures end >= from ==> d.next <= end
    decreases end
  {
    if end <= from then Derived([], from, last, period)
    else
      var d := DeriveOf(at, from, end - 1, last, period);
      if d.next < end - 1 then d // stopped at a block not held
      else match at(end - 1)
        case Missing => d
        case Wiped => d.(next := end)
        case Stamped(stamp) =>
          var p := PeriodOf(stamp);
          if p > d.period then Derived(d.entries + [Entry(p, d.last + 1)], end, end - 1, p)
          else Derived(d.entries, end, end - 1, d.period)
  }

  method Derive(at: View, from: nat, end: nat, last: int, period: int) returns (d: Derived)
    requires -1 <= last < from
    ensures d == DeriveOf(at, from, end, last, period)
  {
    d := Derived([], from, last, period);
    var block := from;
    while block < end
      invariant from <= block && (block <= end || block == from)
      invariant d == DeriveOf(at, from, block, last, period) && d.next == block
      invariant -1 <= d.last < block
    {
      match at(block) {
        case Missing =>
          StoppedStays(at, from, block + 1, end, last, period);
          return;
        case Wiped =>
        case Stamped(stamp) =>
          var p := PeriodOf(stamp);
          if p > d.period {
            d := d.(entries := d.entries + [Entry(p, d.last + 1)], period := p);
          }
          d := d.(last := block);
      }
      block := block + 1;
      d := d.(next := block);
    }
  }

  /** Once stopped at a block not held, the blocks after it add nothing. */
  lemma {:induction false} StoppedStays(at: View, from: nat, mid: nat, end: nat, last: int, period: int)
    requires last >= -1 && from < mid <= end && DeriveOf(at, from, mid, last, period).next < mid
    ensures DeriveOf(at, from, end, last, period) == DeriveOf(at, from, mid, last, period)
    decreases end
  {
    if mid < end {
      StoppedStays(at, from, mid, end - 1, last, period);
    }
  }

  // --- what the entries say ---

  ghost predicate Increasing(entries: seq<Entry>) {
    forall i, j :: 0 <= i < j < |entries| ==>
      entries[i].period < entries[j].period && entries[i].start < entries[j].start
  }

  /** Where a run of deriving stands: after these entries, at this block. */
  ghost predicate Standing(d: Derived, last: int, period: int) {
    && Increasing(d.entries)
    && last <= d.last && period <= d.period
    && (forall e :: e in d.entries ==> period < e.period <= d.period && last < e.start <= d.last)
  }

  /** Entries strictly increase in both period and start, whatever the stamps and wiped blocks. */
  lemma {:induction false} EntriesIncrease(at: View, from: nat, end: nat, last: int, period: int)
    requires -1 <= last < from
    ensures Standing(DeriveOf(at, from, end, last, period), last, period)
    ensures end > from ==> DeriveOf(at, from, end, last, period).last < end
    decreases end
  {
    if end > from {
      EntriesIncrease(at, from, end - 1, last, period);
    }
  }

  /** Some entry of period `p` or later starts at `block` or before. */
  ghost predicate Covered(entries: seq<Entry>, p: nat, block: nat) {
    exists e :: e in entries && e.period >= p && e.start <= block
  }

  lemma CoveredStays(entries: seq<Entry>, more: seq<Entry>, p: nat, block: nat)
    requires Covered(entries, p, block) && entries <= more
    ensures Covered(more, p, block)
  {
    var e :| e in entries && e.period >= p && e.start <= block;
    assert e in more;
  }

  /** The last block looked at is covered: by an entry of its own, or by the last one before. */
  lemma LastIsCovered(at: View, from: nat, block: nat, last: int, period: int, p: nat)
    requires -1 <= last < from <= block == DeriveOf(at, from, block, last, period).next
    requires at(block).Stamped? && PeriodOf(at(block).stamp) >= p > period
    ensures Covered(DeriveOf(at, from, block + 1, last, period).entries, p, block)
  {
    var d, before := DeriveOf(at, from, block + 1, last, period), DeriveOf(at, from, block, last, period);
    EntriesIncrease(at, from, block, last, period);
    if PeriodOf(at(block).stamp) <= before.period {
      LastEntryIsPeriod(at, from, block, last, period);
    }
    assert d.entries[|d.entries| - 1] in d.entries;
  }

  /** One more block only adds entries. */
  lemma OneMoreBlock(at: View, from: nat, end: nat, last: int, period: int)
    requires last >= -1 && from <= end
    ensures
      var d, more := DeriveOf(at, from, end, last, period), DeriveOf(at, from, end + 1, last, period);
      d.entries <= more.entries && d.next <= more.next <= d.next + 1 && (more.next > d.next ==> d.next == end)
  {
    StoppedWhere(at, from, end, last, period);
  }

  /** Every readable block looked at is covered: by what was before, or by an entry of its period or earlier start. */
  lemma {:induction false} EntriesCover(at: View, from: nat, end: nat, last: int, period: int, block: nat, p: nat)
    requires -1 <= last < from <= block < DeriveOf(at, from, end, last, period).next
    requires at(block).Stamped? && PeriodOf(at(block).stamp) >= p > period
    ensures Covered(DeriveOf(at, from, end, last, period).entries, p, block)
    decreases end
  {
    hide Covered;
    var before := DeriveOf(at, from, end - 1, last, period);
    OneMoreBlock(at, from, end - 1, last, period);
    if block < before.next {
      EntriesCover(at, from, end - 1, last, period, block, p);
      CoveredStays(before.entries, DeriveOf(at, from, end, last, period).entries, p, block);
    } else {
      LastIsCovered(at, from, block, last, period, p);
    }
  }

  lemma {:induction false} LastEntryIsPeriod(at: View, from: nat, end: nat, last: int, period: int)
    requires -1 <= last < from
    ensures
      var d := DeriveOf(at, from, end, last, period);
      && (d.period > period ==> d.entries != [] && d.entries[|d.entries| - 1].period == d.period)
      && (d.period == period ==> d.entries == [])
    decreases end
  {
    if end > from {
      LastEntryIsPeriod(at, from, end - 1, last, period);
      EntriesIncrease(at, from, end - 1, last, period);
    }
  }

  /** The lowest start among the entries of period `p` or later, as a reader uses it. */
  ghost predicate IsLowestStart(entries: seq<Entry>, p: nat, start: nat) {
    && (exists e :: e in entries && e.period >= p && e.start == start)
    && (forall e :: e in entries && e.period >= p ==> start <= e.start)
  }

  /**
   For any log, whatever was wiped and whatever the order of its stamps: reading
   from the lowest start of the entries of period `p` or later misses no readable
   record stamped in `p` or later.
   */
  lemma LowestStartMissesNothing(at: View, end: nat, p: nat, start: nat, block: nat)
    requires IsLowestStart(DeriveOf(at, 1, end, 0, -1).entries, p, start)
    requires 1 <= block < DeriveOf(at, 1, end, 0, -1).next
    requires at(block).Stamped? && PeriodOf(at(block).stamp) >= p
    ensures start <= block
  {
    EntriesCover(at, 1, end, 0, -1, block, p);
  }

  /** And with no entry from `p` on, there is no such record. */
  lemma NoEntryNoRecord(at: View, end: nat, p: nat, block: nat)
    requires forall e :: e in DeriveOf(at, 1, end, 0, -1).entries ==> e.period < p
    requires 1 <= block < DeriveOf(at, 1, end, 0, -1).next && at(block).Stamped?
    ensures PeriodOf(at(block).stamp) < p
  {
    if PeriodOf(at(block).stamp) >= p {
      EntriesCover(at, 1, end, 0, -1, block, p);
    }
  }

  // --- deriving in pieces ---

  /** Looked at with more known, the blocks already looked at give the same. */
  lemma {:induction false} KnowingMoreKeeps(at: View, more: View, from: nat, end: nat, last: int, period: int)
    requires last >= -1 && KnowsMore(at, more) && DeriveOf(at, from, end, last, period).next == end >= from
    ensures DeriveOf(more, from, end, last, period) == DeriveOf(at, from, end, last, period)
    decreases end
  {
    if end > from {
      KnowingMoreKeeps(at, more, from, end - 1, last, period);
    }
  }

  lemma {:induction false} GoingOn(at: View, from: nat, mid: nat, end: nat, last: int, period: int)
    requires last >= -1 && from <= mid <= end && DeriveOf(at, from, mid, last, period).next == mid
    ensures
      var d := DeriveOf(at, from, mid, last, period);
      var e := DeriveOf(at, mid, end, d.last, d.period);
      DeriveOf(at, from, end, last, period) == Derived(d.entries + e.entries, e.next, e.last, e.period)
    decreases end
  {
    if mid < end {
      GoingOn(at, from, mid, end - 1, last, period);
    } else {
      var d := DeriveOf(at, from, mid, last, period);
      assert d.entries + [] == d.entries;
    }
  }

  /**
   Derived in pieces, each resumed where the one before stopped, with more blocks
   known by then, a log gives the entries one pass gives that knows all of it.
   */
  lemma ResumedIsOnePass(at: View, more: View, from: nat, mid: nat, end: nat, last: int, period: int)
    requires last >= -1 && from <= mid <= end && KnowsMore(at, more)
    ensures
      var d := DeriveOf(at, from, mid, last, period);
      var e := DeriveOf(more, d.next, end, d.last, d.period);
      DeriveOf(more, from, end, last, period) == Derived(d.entries + e.entries, e.next, e.last, e.period)
  {
    var d := DeriveOf(at, from, mid, last, period);
    StoppedWhere(at, from, mid, last, period);
    KnowingMoreKeeps(at, more, from, d.next, last, period);
    GoingOn(more, from, d.next, end, last, period);
  }

  lemma {:induction false} StoppedWhere(at: View, from: nat, end: nat, last: int, period: int)
    requires last >= -1 && from <= end
    ensures
      var d := DeriveOf(at, from, end, last, period);
      DeriveOf(at, from, d.next, last, period) == d
    decreases end
  {
    if from < end && DeriveOf(at, from, end, last, period).next < end {
      StoppedWhere(at, from, end - 1, last, period);
    }
  }

  // --- checking an entry ---

  /** What can be said of an entry from the blocks at its start and before it, on a log cut at `limit`. */
  function CheckOf(e: Entry, before: Block, here: Block, limit: nat): Check {
    if !(e.start >= 1) || e.start >= limit then False
    else if e.start > 1 && before == Wiped then False
    else if e.start > 1 && before == Missing then Wait
    else if e.start > 1 && PeriodOf(before.stamp) >= e.period then False
    else match here
      case Stamped(stamp) => if PeriodOf(stamp) >= e.period then Ok else False
      case _ => Ok // so `DerivedPass` holds whoever holds what
  }

  /**
   It waits exactly for the block before its start; what passes starts below the cut;
   and what is false stays so, whatever else becomes known.
   */
  lemma ChecksStand(e: Entry, at: View, more: View, limit: nat)
    requires KnowsMore(at, more) && e.start >= 1
    ensures
      var now, later := CheckOf(e, at(e.start - 1), at(e.start), limit),
        CheckOf(e, more(e.start - 1), more(e.start), limit);
      && (now == Wait <==> 1 < e.start < limit && at(e.start - 1) == Missing)
      && (now == Ok ==> e.start < limit)
      && (now == False ==> later == False)
      && (now == Ok && at(e.start) != Missing ==> later == Ok)
  {
  }

  /** Every entry derived from a whole log below its cut passes its check, by any member holding the block before it. */
  lemma {:induction false} DerivedPass(at: View, end: nat, limit: nat, e: Entry)
    requires e in DeriveOf(at, 1, end, 0, -1).entries && e.start < limit
    ensures e.start >= 1
    ensures CheckOf(e, at(e.start - 1), at(e.start), limit) == Ok
    ensures CheckOf(e, at(e.start - 1), Missing, limit) == Ok
    decreases end
  {
    var before := DeriveOf(at, 1, end - 1, 0, -1);
    EntriesIncrease(at, 1, end - 1, 0, -1);
    if e in before.entries {
      DerivedPass(at, end - 1, limit, e);
    } else {
      LastIsReadable(at, end - 1);
    }
  }

  /** The last readable block is of the period reached or earlier, and all after it are wiped. */
  lemma {:induction false} LastIsReadable(at: View, end: nat)
    ensures
      var d := DeriveOf(at, 1, end, 0, -1);
      && 0 <= d.last < d.next
      && (d.last > 0 ==> at(d.last).Stamped? && PeriodOf(at(d.last).stamp) <= d.period)
      && (forall k :: d.last < k < d.next ==> at(k) == Wiped)
    decreases end
  {
    if end > 1 {
      LastIsReadable(at, end - 1);
    }
  }

  /**
   On a log with no wiped block whose stamps never decrease, an entry inside it
   and below its cut passes exactly when its start is the first block stamped in
   its period or later.
   */
  lemma CheckIsExact(at: View, end: nat, limit: nat, e: Entry)
    requires forall i: nat :: 1 <= i < end ==> at(i).Stamped?
    requires Monotone(at)
    requires 1 <= e.start < end && e.start < limit
    ensures CheckOf(e, at(e.start - 1), at(e.start), limit) == Ok <==>
            PeriodOf(at(e.start).stamp) >= e.period && forall b: nat :: 1 <= b < e.start ==>
              PeriodOf(at(b).stamp) < e.period
  {
    forall b: nat | 1 <= b < e.start ensures PeriodOf(at(b).stamp) <= PeriodOf(at(e.start - 1).stamp) {
      PeriodsFollowStamps(at(b).stamp, at(e.start - 1).stamp);
    }
  }

  /**
   With stamps that never decrease, a reader who starts at an entry that passed
   its check misses no readable record of its period or later.
   */
  lemma CheckedEntryMissesNothing(at: View, limit: nat, e: Entry, block: nat)
    requires Monotone(at)
    requires e.start >= 1 && CheckOf(e, at(e.start - 1), at(e.start), limit) == Ok
    requires block >= 1 && at(block).Stamped? && PeriodOf(at(block).stamp) >= e.period
    ensures e.start <= block
  {
  }

  /** An entry that passes for one who does not hold the block at its start. */
  ghost predicate Passes(at: View, limit: nat, e: Entry) {
    e.start >= 1 && CheckOf(e, at(e.start - 1), Missing, limit) == Ok
  }

  ghost predicate MissesNothing(at: View, e: Entry) {
    forall block: nat :: 1 <= block && at(block).Stamped? && PeriodOf(at(block).stamp) >= e.period ==> e.start <= block
  }

  /** The periods never decrease, up to the last block an entry below the cut can follow. */
  ghost predicate PeriodsFollow(at: View, limit: nat) {
    forall i: nat, j: nat :: 1 <= i < j && j + 1 < limit && at(i).Stamped? && at(j).Stamped? ==>
      PeriodOf(at(i).stamp) <= PeriodOf(at(j).stamp)
  }

  /** On any log, the entries that pass all miss nothing if and only if its periods never decrease below the cut. */
  lemma CheckedMissNothingIff(at: View, limit: nat)
    ensures (forall e :: Passes(at, limit, e) ==> MissesNothing(at, e)) <==> PeriodsFollow(at, limit)
  {
    if PeriodsFollow(at, limit) {
      forall e | Passes(at, limit, e)
        ensures MissesNothing(at, e)
      {
        PassingMissesNothing(at, limit, e);
      }
    } else {
      var i: nat, j: nat :| 1 <= i < j && j + 1 < limit && at(i).Stamped? && at(j).Stamped? &&
        PeriodOf(at(i).stamp) > PeriodOf(at(j).stamp);
      var e := Entry(PeriodOf(at(i).stamp), j + 1);
      assert Passes(at, limit, e) && !MissesNothing(at, e);
    }
  }

  /** An entry that passes for one who holds that block too. */
  predicate PassesFor(at: View, limit: nat, e: Entry) {
    e.start >= 1 && CheckOf(e, at(e.start - 1), at(e.start), limit) == Ok
  }

  /** A readable block an entry can start after: the next one, if readable, is of a later period. */
  predicate Rises(at: View, j: nat) {
    at(j).Stamped? && (at(j + 1).Stamped? ==> PeriodOf(at(j + 1).stamp) > PeriodOf(at(j).stamp))
  }

  /** The same, for the blocks the period rises after only. */
  ghost predicate PeriodsFollowAtRises(at: View, limit: nat) {
    forall i: nat, j: nat :: 1 <= i < j && j + 1 < limit && at(i).Stamped? && Rises(at, j) ==>
      PeriodOf(at(i).stamp) <= PeriodOf(at(j).stamp)
  }

  /** The entries that pass for one who holds all there is all miss nothing if and only if that much holds. */
  lemma HeldMissNothingIff(at: View, limit: nat)
    ensures (forall e :: PassesFor(at, limit, e) ==> MissesNothing(at, e)) <==> PeriodsFollowAtRises(at, limit)
  {
    hide PassesFor, MissesNothing;
    if PeriodsFollowAtRises(at, limit) {
      forall e | PassesFor(at, limit, e)
        ensures MissesNothing(at, e)
      {
        HeldMissesNothing(at, limit, e);
      }
    } else {
      var i: nat, j: nat :| 1 <= i < j && j + 1 < limit && at(i).Stamped? && Rises(at, j) &&
        PeriodOf(at(i).stamp) > PeriodOf(at(j).stamp);
      EntryAfterRise(at, limit, i, j);
    }
  }

  /** An entry put after such a block passes, and misses a record before it of a later period. */
  lemma EntryAfterRise(at: View, limit: nat, i: nat, j: nat)
    requires 1 <= i < j && j + 1 < limit && at(i).Stamped? && Rises(at, j)
    requires PeriodOf(at(i).stamp) > PeriodOf(at(j).stamp)
    ensures
      var e := Entry(PeriodOf(at(j).stamp) + 1, j + 1);
      PassesFor(at, limit, e) && !MissesNothing(at, e)
  {
  }

  lemma HeldMissesNothing(at: View, limit: nat, e: Entry)
    requires PeriodsFollowAtRises(at, limit) && PassesFor(at, limit, e)
    ensures MissesNothing(at, e)
  {
    if e.start >= 2 {
      assert Rises(at, e.start - 1);
    }
  }

  lemma PassingMissesNothing(at: View, limit: nat, e: Entry)
    requires PeriodsFollow(at, limit) && Passes(at, limit, e)
    ensures MissesNothing(at, e)
  {
    var before := e.start - 1;
    if before >= 1 {
      assert forall i: nat :: 1 <= i < before && at(i).Stamped? ==> PeriodOf(at(i).stamp) <= PeriodOf(at(before).stamp);
    }
  }

  /**
   On a log whose stamps do decrease it may miss one (so lists have to be whole):
   block 1 is of period 5, block 2 of period 0.
   */
  lemma CheckedEntryMayMissOutOfOrder()
    ensures
      var at: View := i => Stamped(if i == 2 then 0 else 5 * PERIOD_MS);
      CheckOf(Entry(5, 3), at(2), at(3), 10) == Ok && PeriodOf(at(1).stamp) >= 5
  {
    assert PeriodOf(5 * PERIOD_MS) == 5;
  }
}
