/**
 A log's activity entries as blocks are wiped (lib/space.js #wipedEntry): which of
 them still pass their check, and which the repair brings back.
 */
module EntryRepair {
  import opened Blocks
  import opened Activity

  /** The blocks once `block` is wiped as well. */
  function Without(at: View, block: nat): View {
    (i: nat) => if i == block then Wiped else at(i)
  }

  /**
   An entry in its place: after a readable block or the header, every readable
   block before it of an earlier period, and the one at its start of its own.
   */
  ghost predicate Sound(at: View, limit: nat, e: Entry) {
    && 1 <= e.start < limit
    && (e.start > 1 ==> at(e.start - 1).Stamped?)
    && (forall k: nat :: 1 <= k < e.start && at(k).Stamped? ==> PeriodOf(at(k).stamp) < e.period)
    && (at(e.start).Stamped? ==> PeriodOf(at(e.start).stamp) == e.period)
  }

  /** A sound entry passes, the block at its start held or not, and starts no later than any record it is to cover. */
  lemma SoundPasses(at: View, limit: nat, e: Entry)
    requires Sound(at, limit, e)
    ensures PassesFor(at, limit, e) && Passes(at, limit, e) && MissesNothing(at, e)
  {
  }

  /** Derived entries are sound, whatever the order of the stamps. */
  lemma {:induction false} DerivedSound(at: View, end: nat, limit: nat, e: Entry)
    requires e in DeriveOf(at, 1, end, 0, -1).entries && e.start < limit
    ensures Sound(at, limit, e)
    decreases end
  {
    var before := DeriveOf(at, 1, end - 1, 0, -1);
    EntriesIncrease(at, 1, end - 1, 0, -1);
    if e in before.entries {
      DerivedSound(at, end - 1, limit, e);
    } else {
      LastIsReadable(at, end - 1);
      NoneAbove(at, end - 1);
    }
  }

  /** No block looked at is of a later period than the one reached. */
  lemma {:induction false} NoneAbove(at: View, end: nat)
    ensures
      var d := DeriveOf(at, 1, end, 0, -1);
      forall k: nat :: 1 <= k < d.next && at(k).Stamped? ==> PeriodOf(at(k).stamp) <= d.period
    decreases end
  {
    if end > 1 {
      NoneAbove(at, end - 1);
    }
  }

  /**
   Blocks wiped after deriving: an entry still passes for everyone if and only if
   the block before its start is not one of them.
   */
  lemma DerivedPassesIff(at: View, wiped: View, end: nat, limit: nat, e: Entry)
    requires WipesMore(at, wiped)
    requires e in DeriveOf(at, 1, end, 0, -1).entries && e.start < limit
    ensures e.start >= 1
    ensures PassesFor(wiped, limit, e) <==> e.start == 1 || wiped(e.start - 1) != Wiped
  {
    DerivedPass(at, end, limit, e);
  }

  /** The block right after the last one below `block` that this member can read. */
  function MovedDown(at: View, block: nat): (start: nat)
    ensures start <= block && (start <= 1 || at(start - 1).Stamped?)
    ensures forall k: nat :: 1 <= k && start <= k < block ==> !at(k).Stamped?
    ensures block >= 1 ==> start >= 1
  {
    if block <= 1 || at(block - 1).Stamped? then block else MovedDown(at, block - 1)
  }

  /** Moved there, a derived entry passes again and covers all it covered. */
  lemma MovedPasses(at: View, wiped: View, end: nat, limit: nat, e: Entry)
    requires WipesMore(at, wiped)
    requires e in DeriveOf(at, 1, end, 0, -1).entries && e.start < limit
    ensures
      var moved := Entry(e.period, MovedDown(wiped, e.start));
      moved.start <= e.start && PassesFor(wiped, limit, moved) && Passes(wiped, limit, moved) &&
      MissesNothing(wiped, moved)
  {
    DerivedSound(at, end, limit, e);
    var moved := Entry(e.period, MovedDown(wiped, e.start));
    assert Sound(wiped, limit, moved);
    SoundPasses(wiped, limit, moved);
  }

  // --- the repair ---

  /** Only blocks that are not read here stand between `block` and the block moved to, so nothing can be told. */
  predicate CannotTell(mine: View, low: nat, block: nat) {
    MovedDown(mine, block) < block && MovedDown(mine, block) < low
  }

  predicate NoneFrom(mine: View, k: nat, block: nat) {
    forall j: nat :: k <= j < block ==> !mine(j).Stamped?
  }

  /** It cannot be told exactly when nothing is found down to a block that is not read here. */
  lemma CannotTellIff(mine: View, low: nat, block: nat)
    requires block >= 1
    ensures CannotTell(mine, low, block) <==> exists k: nat :: 1 <= k < low && k < block && NoneFrom(mine, k, block)
  {
    var start := MovedDown(mine, block);
    if CannotTell(mine, low, block) {
      assert NoneFrom(mine, start, block);
    }
    forall k: nat | 1 <= k < block && NoneFrom(mine, k, block)
      ensures start <= k
    {
    }
  }

  /** The entries after `block` was wiped, as the member that sees `mine` repairs them. */
  function Repaired(mine: View, low: nat, block: nat, rows: map<nat, nat>): map<nat, nat> {
    if CannotTell(mine, low, block) || !mine(block + 1).Stamped? then rows
    else
      var p := PeriodOf(mine(block + 1).stamp);
      if p in rows && rows[p] == block + 1 then rows[p := MovedDown(mine, block)] else rows
  }

  /** Where deriving goes on from then. */
  function LastAfter(mine: View, low: nat, block: nat, last: int): int {
    if last == block && !CannotTell(mine, low, block) then MovedDown(mine, block) - 1 else last
  }

  /** One log's entries here (a start for each period), and where deriving goes on. */
  class Entries {
    const low: nat // where reading starts, 1 if at the log's beginning
    var rows: map<nat, nat>
    var last: int // the last readable block derived from

    constructor (low: nat, rows: map<nat, nat>, last: int)
      ensures this.low == low && this.rows == rows && this.last == last
    {
      this.low, this.rows, this.last := low, rows, last;
    }

    method WipedEntry(mine: View, block: nat)
      modifies this
      ensures rows == Repaired(mine, low, block, old(rows))
      ensures last == LastAfter(mine, low, block, old(last))
    {
      var told, start := AfterReadable(mine, block);
      if !told {
        return;
      }
      if last == block {
        last := start - 1;
      }
      if mine(block + 1).Stamped? {
        var p := PeriodOf(mine(block + 1).stamp);
        if p in rows && rows[p] == block + 1 {
          rows := rows[p := start];
        }
      }
    }

    // The loop down to the last readable block.
    method AfterReadable(mine: View, block: nat) returns (told: bool, start: int)
      ensures told <==> !CannotTell(mine, low, block)
      ensures told ==> start == MovedDown(mine, block)
    {
      start := block;
      while start > 1 && !mine(start - 1).Stamped?
        invariant 0 <= start <= block && MovedDown(mine, start) == MovedDown(mine, block)
        invariant start < block ==> start >= low
      {
        if start - 1 < low {
          return false, start;
        }
        start := start - 1;
      }
      return true, start;
    }
  }

  ghost predicate AllSound(at: View, limit: nat, rows: map<nat, nat>) {
    forall p :: p in rows ==> Sound(at, limit, Entry(p, rows[p]))
  }

  ghost predicate AllPass(at: View, limit: nat, rows: map<nat, nat>) {
    forall p :: p in rows ==> PassesFor(at, limit, Entry(p, rows[p]))
  }

  /**
   An entry can be repaired: the block it starts at is read here, and the block it
   moves to is wiped, not merely one this member does not hold.
   */
  predicate Repairable(mine: View, all: View, low: nat, block: nat) {
    mine(block + 1).Stamped? && !CannotTell(mine, low, block) && !all(MovedDown(mine, block)).Stamped?
  }

  /**
   Sound entries, and one more block wiped: after the repair all of them pass for
   everyone, and are sound again, if and only if none starts right after that
   block or that one can be repaired. Starts only go down, so all is covered.
   */
  lemma RepairedIff(was: View, mine: View, low: nat, block: nat, limit: nat, rows: map<nat, nat>)
    requires block >= 1 && AllSound(was, limit, rows)
    requires mine(block) == Wiped && KnowsMore(mine, Without(was, block))
    ensures
      var all, after := Without(was, block), Repaired(mine, low, block, rows);
      && (AllPass(all, limit, after) <==> AllSound(all, limit, after))
      && (AllPass(all, limit, after) <==> block + 1 !in rows.Values || Repairable(mine, all, low, block))
      && after.Keys == rows.Keys && forall p :: p in rows ==>
           after[p] <= rows[p] && MissesNothing(all, Entry(p, after[p]))
  {
    hide Sound, PassesFor, Repaired, MissesNothing, Repairable;
    var all, after := Without(was, block), Repaired(mine, low, block, rows);
    RepairKeepsPeriods(mine, low, block, rows);
    forall p | p in rows
      ensures p in after && after[p] <= rows[p] && MissesNothing(all, Entry(p, after[p]))
      ensures PassesFor(all, limit, Entry(p, after[p])) <==> rows[p] != block + 1 || Repairable(mine, all, low, block)
      ensures PassesFor(all, limit, Entry(p, after[p])) <==> Sound(all, limit, Entry(p, after[p]))
    {
      OneRepairedIff(was, mine, low, block, limit, rows, p);
    }
  }

  lemma RepairKeepsPeriods(mine: View, low: nat, block: nat, rows: map<nat, nat>)
    ensures Repaired(mine, low, block, rows).Keys == rows.Keys
  {
  }

  lemma OneRepairedIff(was: View, mine: View, low: nat, block: nat, limit: nat, rows: map<nat, nat>, p: nat)
    requires block >= 1 && p in rows && Sound(was, limit, Entry(p, rows[p]))
    requires mine(block) == Wiped && KnowsMore(mine, Without(was, block))
    ensures
      var all, after := Without(was, block), Repaired(mine, low, block, rows);
      && p in after && after[p] <= rows[p] && MissesNothing(all, Entry(p, after[p]))
      && (PassesFor(all, limit, Entry(p, after[p])) <==> rows[p] != block + 1 || Repairable(mine, all, low, block))
      && (PassesFor(all, limit, Entry(p, after[p])) <==> Sound(all, limit, Entry(p, after[p])))
  {
    var all := Without(was, block);
    if rows[p] != block + 1 {
      assert Sound(all, limit, Entry(p, rows[p]));
    } else {
      AtTheWipedBlock(was, mine, limit, p, block);
    }
  }

  /** The entry right after the wiped block, left there and moved down. */
  lemma AtTheWipedBlock(was: View, mine: View, limit: nat, p: nat, block: nat)
    requires block >= 1 && Sound(was, limit, Entry(p, block + 1))
    requires mine(block) == Wiped && KnowsMore(mine, Without(was, block))
    ensures
      var all, moved := Without(was, block), Entry(p, MovedDown(mine, block));
      && !PassesFor(all, limit, Entry(p, block + 1)) && MissesNothing(all, Entry(p, block + 1))
      && MissesNothing(all, moved)
      && (PassesFor(all, limit, moved) <==> !all(moved.start).Stamped?)
      && (PassesFor(all, limit, moved) <==> Sound(all, limit, moved))
  {
    hide KnowsMore, MovedDown, Sound, MissesNothing, PassesFor, Without;
    Found(was, mine, block);
    StartsEarlier(was, limit, p, block, block + 1);
    StartsEarlier(was, limit, p, block, MovedDown(mine, block));
    MovedIff(was, limit, p, block, MovedDown(mine, block));
    LeftIsFalse(was, limit, p, block);
  }

  lemma StartsEarlier(was: View, limit: nat, p: nat, block: nat, start: nat)
    requires Sound(was, limit, Entry(p, block + 1)) && start <= block + 1
    ensures MissesNothing(Without(was, block), Entry(p, start))
  {
  }

  lemma LeftIsFalse(was: View, limit: nat, p: nat, block: nat)
    requires block >= 1
    ensures !PassesFor(Without(was, block), limit, Entry(p, block + 1))
  {
  }

  lemma MovedIff(was: View, limit: nat, p: nat, block: nat, start: nat)
    requires Sound(was, limit, Entry(p, block + 1)) && 1 <= start <= block
    requires start > 1 ==> was(start - 1).Stamped?
    ensures
      var all, moved := Without(was, block), Entry(p, start);
      && (PassesFor(all, limit, moved) <==> !all(start).Stamped?)
      && (PassesFor(all, limit, moved) <==> Sound(all, limit, moved))
  {
    assert was(start).Stamped? && start <= block ==> PeriodOf(was(start).stamp) < p;
  }

  /** What is read there is there for everyone. */
  lemma Found(was: View, mine: View, block: nat)
    requires block >= 1 && mine(block) == Wiped && KnowsMore(mine, Without(was, block))
    ensures
      var all, start := Without(was, block), MovedDown(mine, block);
      1 <= start <= block && all(block) == Wiped && (start > 1 ==> was(start - 1).Stamped? && all(start - 1).Stamped?)
  {
  }

  /** Deriving stands right after block `last`, the last readable one below `next`. */
  ghost predicate StandsAt(at: View, next: nat, last: nat, period: int) {
    && last < next
    && (last > 0 ==> at(last).Stamped?)
    && (forall k: nat :: last < k < next ==> !at(k).Stamped?)
    && (forall k: nat :: 1 <= k < next && at(k).Stamped? ==> PeriodOf(at(k).stamp) <= period)
  }

  lemma DerivedStands(at: View, end: nat)
    ensures
      var d := DeriveOf(at, 1, end, 0, -1);
      d.last >= 0 && StandsAt(at, d.next, d.last, d.period)
  {
    LastIsReadable(at, end);
    NoneAbove(at, end);
  }

  /**
   One more block below `next` wiped: the next entry derived, for the first
   readable block from there on, passes for everyone if and only if that block is
   not the last readable one, or what is found below it is wiped.
   */
  lemma NextEntryPassesIff(
    was: View, mine: View, low: nat, block: nat, next: nat, last: nat, period: int, k: nat, limit: nat)
    requires 1 <= block < next <= k < limit && StandsAt(was, next, last, period)
    requires mine(block) == Wiped && KnowsMore(mine, Without(was, block))
    requires was(k).Stamped? && PeriodOf(was(k).stamp) > period && forall j :: next <= j < k ==> !was(j).Stamped?
    ensures
      var all, from := Without(was, block), LastAfter(mine, low, block, last);
      && 0 <= from <= last
      && (PassesFor(all, limit, Entry(PeriodOf(was(k).stamp), from + 1)) <==>
          last != block || (!CannotTell(mine, low, block) && !all(MovedDown(mine, block)).Stamped?))
  {
    Found(was, mine, block);
    hide KnowsMore, MovedDown;
  }

  /** Two records of a period, then one of the next: its entries are 0 from block 1 and 1 from block 3. */
  function ThreeRecords(): View {
    (i: nat) => if 1 <= i <= 2 then Stamped(0) else if i == 3 then Stamped(PERIOD_MS) else Missing
  }

  /** What is kept of a list of entries. */
  function RowsOf(entries: seq<Entry>): map<nat, nat> {
    if entries == [] then map[]
    else
      var last := entries[|entries| - 1];
      RowsOf(entries[..|entries| - 1])[last.period := last.start]
  }

  function ThreeRows(): map<nat, nat> {
    RowsOf(DeriveOf(ThreeRecords(), 1, 4, 0, -1).entries)
  }

  lemma ThreeRowsAre()
    ensures ThreeRows() == map[0 := 1, 1 := 3]
  {
    var three := [Entry(0, 1), Entry(1, 3)];
    ThreeRecordsDerived();
    assert three[..1] == [Entry(0, 1)] && [Entry(0, 1)][..0] == [];
    assert RowsOf([Entry(0, 1)]) == map[0 := 1];
  }

  lemma ThreeRecordsDerived()
    ensures DeriveOf(ThreeRecords(), 1, 4, 0, -1).entries == [Entry(0, 1), Entry(1, 3)]
  {
    hide RowsOf;
    var at := ThreeRecords();
    assert PeriodOf(0) == 0 && PeriodOf(PERIOD_MS) == 1;
    assert DeriveOf(at, 1, 1, 0, -1) == Derived([], 1, 0, -1);
    assert DeriveOf(at, 1, 2, 0, -1) == Derived([Entry(0, 1)], 2, 1, 0);
    assert DeriveOf(at, 1, 3, 0, -1) == Derived([Entry(0, 1)], 3, 2, 0);
  }

  /** Its first two records deleted, the second before the first: the third's entry passes no check any more. */
  lemma DeletedBackwards()
    ensures
      var one := Without(ThreeRecords(), 2);
      var two := Without(one, 1);
      var rows := Repaired(two, 1, 1, Repaired(one, 1, 2, ThreeRows()));
      1 in rows && rows[1] == 2 && !PassesFor(two, 10, Entry(1, 2))
  {
    ThreeRowsAre();
  }

  /** The other way round it passes. */
  lemma DeletedForwards()
    ensures
      var one := Without(ThreeRecords(), 1);
      var two := Without(one, 2);
      var rows := Repaired(two, 1, 2, Repaired(one, 1, 1, ThreeRows()));
      1 in rows && rows[1] == 1 && PassesFor(two, 10, Entry(1, 1))
  {
    ThreeRowsAre();
  }

  /** The second deleted on a member that dropped the first one's content: the third's entry is false to others. */
  lemma MovedBelowADroppedBlock()
    ensures
      var all := Without(ThreeRecords(), 2);
      var mine: View := (i: nat) => if i == 1 then Missing else all(i);
      var rows := Repaired(mine, 1, 2, ThreeRows());
      1 in rows && rows[1] == 1 && !PassesFor(all, 10, Entry(1, 1))
  {
    ThreeRowsAre();
  }
}
