/**
 Judging a record against an open space's write limit (lib/limit.js), by the stamps
 of the blocks before it, some wiped and some not here.
 */
module WriteLimit {
  import opened Blocks
  import opened Options

  datatype Limit = Limit(records: nat, periodMs: nat)
  datatype Verdict = Ok | Over | Wait

  /** The stamps a record may have: any (it counts already), those from one on, or none. */
  datatype Allowed = Now | From(stamp: nat) | Never

  // --- what the loops find ---

  /** The first block from `i` on that is not wiped, below `end` (or `end`). */
  function FirstNotWiped(at: View, i: nat, end: nat): (j: nat)
    requires i <= end
    ensures i <= j <= end
    ensures forall k :: i <= k < j ==> at(k) == Wiped
    ensures j < end ==> at(j) != Wiped
    decreases end - i
  {
    if i == end || at(i) != Wiped then i else FirstNotWiped(at, i + 1, end)
  }

  function FirstStamped(at: View, i: nat, end: nat): (j: nat)
    requires i <= end
    ensures i <= j <= end
    ensures forall k :: i <= k < j ==> !at(k).Stamped?
    ensures j < end ==> at(j).Stamped?
    decreases end - i
  {
    if i == end || at(i).Stamped? then i else FirstStamped(at, i + 1, end)
  }

  function JudgeOf(block: nat, stamp: nat, limit: Option<Limit>, at: View): Verdict {
    if limit.None? || block <= limit.value.records then Ok
    else
      var j := FirstNotWiped(at, block - limit.value.records, block);
      if j == block then Over
      else match at(j)
        case Stamped(s) => if stamp - s >= limit.value.periodMs then Ok else Over
        case _ => Wait
  }

  function AllowedOf(block: nat, stamp: nat, limit: Option<Limit>, at: View): Allowed {
    if limit.None? || block <= limit.value.records then Now
    else
      var j := FirstStamped(at, block - limit.value.records, block);
      if j == block then Never
      else if stamp - at(j).stamp >= limit.value.periodMs then Now
      else From(at(j).stamp + limit.value.periodMs)
  }

  method Judge(block: nat, stamp: nat, limit: Option<Limit>, at: View) returns (v: Verdict)
    ensures v == JudgeOf(block, stamp, limit, at)
  {
    if limit.None? || block <= limit.value.records {
      return Ok;
    }
    var start := block - limit.value.records;
    for i := start to block
      invariant FirstNotWiped(at, start, block) == FirstNotWiped(at, i, block)
    {
      match at(i) {
        case Missing => return Wait;
        case Wiped =>
        case Stamped(s) => return if stamp - s >= limit.value.periodMs then Ok else Over;
      }
    }
    return Over;
  }

  method NextAllowed(block: nat, stamp: nat, limit: Option<Limit>, at: View) returns (a: Allowed)
    ensures a == AllowedOf(block, stamp, limit, at)
  {
    if limit.None? || block <= limit.value.records {
      return Now;
    }
    var start := block - limit.value.records;
    for i := start to block
      invariant FirstStamped(at, start, block) == FirstStamped(at, i, block)
    {
      if at(i).Stamped? {
        var s := at(i).stamp;
        return if stamp - s >= limit.value.periodMs then Now else From(s + limit.value.periodMs);
      }
    }
    return Never;
  }

  // --- what they promise ---

  /** The view of one whose stamps are `truth`, whatever it holds and whatever was wiped. */
  ghost predicate Shows(at: View, truth: nat -> nat) {
    forall i: nat :: at(i).Stamped? ==> at(i).stamp == truth(i)
  }

  lemma {:induction false} Spread(blocks: seq<nat>)
    requires forall i, j :: 0 <= i < j < |blocks| ==> blocks[i] < blocks[j]
    requires blocks != []
    ensures blocks[|blocks| - 1] >= blocks[0] + |blocks| - 1
  {
    if |blocks| > 1 {
      Spread(blocks[..|blocks| - 1]);
    }
  }

  /**
   The limit holds: of any `records + 1` records of a log whose stamps never
   decrease, the last judged ok (each member by whatever it holds, whatever was
   wiped before it judged, and whatever refused records lie between), the first
   and last are at least `periodMs` apart.
   */
  lemma WindowHolds(blocks: seq<nat>, limit: Limit, truth: nat -> nat, at: View)
    requires |blocks| == limit.records + 1
    requires forall i, j :: 0 <= i < j < |blocks| ==> blocks[i] < blocks[j]
    requires blocks[0] >= 1 // block 0 is the header
    requires forall i: nat, j: nat :: i <= j ==> truth(i) <= truth(j)
    requires Shows(at, truth)
    requires JudgeOf(blocks[limit.records], truth(blocks[limit.records]), Some(limit), at) == Ok
    ensures truth(blocks[limit.records]) - truth(blocks[0]) >= limit.periodMs
  {
    Spread(blocks);
    var last := blocks[limit.records];
    var j := FirstNotWiped(at, last - limit.records, last);
    assert truth(blocks[0]) <= truth(j);
  }

  /** Deleting never frees room: with stamps that never decrease, wiping more never turns `over` into `ok`. */
  lemma WipingNeverFreesRoom(block: nat, stamp: nat, limit: Option<Limit>, at: View, wiped: View)
    requires Monotone(at) && WipesMore(at, wiped)
    requires JudgeOf(block, stamp, limit, at) == Over
    ensures JudgeOf(block, stamp, limit, wiped) != Ok
    ensures (forall i :: 0 <= i < block ==> at(i) != Missing) ==> JudgeOf(block, stamp, limit, wiped) == Over
  {
    var start := block - limit.value.records;
    var j, k := FirstNotWiped(at, start, block), FirstNotWiped(wiped, start, block);
    if k < block {
      assert wiped(k) == at(k);
    }
  }

  /** On a log whose stamps do decrease it may: block 1 wiped, the later block 2 is stamped earlier. */
  lemma WipingMayFreeRoomOutOfOrder()
    ensures
      var at: View := i => if i == 1 then Stamped(10) else Stamped(0);
      var wiped: View := i => if i == 1 then Wiped else Stamped(0);
      && WipesMore(at, wiped)
      && JudgeOf(3, 12, Some(Limit(2, 5)), at) == Over
      && JudgeOf(3, 12, Some(Limit(2, 5)), wiped) == Ok
  {
    var wiped: View := i => if i == 1 then Wiped else Stamped(0);
    assert FirstNotWiped(wiped, 1, 3) == FirstNotWiped(wiped, 2, 3) == 2;
  }

  /** Exactly when it cannot: when every readable block of the window is too recent, not only the first. */
  lemma WipingFreesRoomExactly(block: nat, stamp: nat, limit: Limit, at: View)
    requires block > limit.records
    ensures (forall wiped: View :: WipesMore(at, wiped) ==> JudgeOf(block, stamp, Some(limit), wiped) != Ok) <==>
            (forall k :: block - limit.records <= k < block && at(k).Stamped? ==> stamp - at(k).stamp < limit.periodMs)
  {
    var start := block - limit.records;
    forall wiped: View | WipesMore(at, wiped) && JudgeOf(block, stamp, Some(limit), wiped) == Ok
      ensures exists k :: start <= k < block && at(k).Stamped? && stamp - at(k).stamp >= limit.periodMs
    {
      var k := FirstNotWiped(wiped, start, block);
      assert wiped(k) == at(k);
    }
    forall k | start <= k < block && at(k).Stamped? && stamp - at(k).stamp >= limit.periodMs
      ensures exists wiped: View :: WipesMore(at, wiped) && JudgeOf(block, stamp, Some(limit), wiped) == Ok
    {
      var wiped: View := i => if i < k then Wiped else at(i);
      var j := FirstNotWiped(wiped, start, block);
      assert wiped(k) == at(k);
      assert j == k;
      assert WipesMore(at, wiped) && JudgeOf(block, stamp, Some(limit), wiped) == Ok;
    }
  }

  /** On any log, an answer other than `wait` does not change as more blocks become known. */
  lemma AnswersStand(block: nat, stamp: nat, limit: Option<Limit>, at: View, more: View)
    requires KnowsMore(at, more)
    requires JudgeOf(block, stamp, limit, at) != Wait
    ensures JudgeOf(block, stamp, limit, more) == JudgeOf(block, stamp, limit, at)
  {
    if limit.Some? && block > limit.value.records {
      var start := block - limit.value.records;
      var j, k := FirstNotWiped(at, start, block), FirstNotWiped(more, start, block);
      assert j < block ==> more(j) == at(j);
      assert forall i :: start <= i < j ==> more(i) == at(i);
      assert k == j;
    }
  }

  /**
   With every block known, `nextAllowed` and `judge` agree: it is now, or the least
   stamp that counts, or none does.
   */
  lemma AllowedIsExact(block: nat, stamp: nat, limit: Option<Limit>, at: View)
    requires forall i :: 0 <= i < block ==> at(i) != Missing
    ensures
      match AllowedOf(block, stamp, limit, at)
      case Now => JudgeOf(block, stamp, limit, at) == Ok
      case From(t) => t > stamp && forall s: nat :: JudgeOf(block, s, limit, at) == Ok <==> s >= t
      case Never => forall s: nat :: JudgeOf(block, s, limit, at) == Over
  {
    if limit.Some? && block > limit.value.records {
      var start := block - limit.value.records;
      var j, k := FirstNotWiped(at, start, block), FirstStamped(at, start, block);
      assert j == k;
    }
  }

  /** Where some blocks are not here it may only be too careful: "now" is right for whoever knows more. */
  lemma AllowedNowIsSafe(block: nat, stamp: nat, limit: Option<Limit>, at: View, more: View)
    requires KnowsMore(at, more) && Monotone(more)
    requires forall i :: 0 <= i < block ==> more(i) != Missing
    requires AllowedOf(block, stamp, limit, at) == Now
    ensures JudgeOf(block, stamp, limit, more) == Ok
  {
    if limit.Some? && block > limit.value.records {
      var start := block - limit.value.records;
      var j, k := FirstNotWiped(more, start, block), FirstStamped(at, start, block);
      assert more(k) == at(k);
      assert j <= k;
      assert more(j).stamp <= more(k).stamp;
    }
  }

  // --- and what it must not refuse ---

  /** No limit, or no more than `records` records yet: whatever came before, the record counts and could be written. */
  lemma FirstRecordsCount(block: nat, stamp: nat, limit: Option<Limit>, at: View)
    requires limit.None? || block <= limit.value.records
    ensures JudgeOf(block, stamp, limit, at) == Ok && AllowedOf(block, stamp, limit, at) == Now
  {
  }

  /** Blocks 1 up to `end` (excluded) are all here, with stamps that never decrease. */
  ghost predicate WholeLog(at: View, end: nat) {
    && (forall k: nat :: 1 <= k < end ==> at(k).Stamped?)
    && (forall i: nat, j: nat :: 1 <= i <= j < end ==> at(i).stamp <= at(j).stamp)
  }

  /** The record at `block` and the `records` before it lie within less than a period. */
  ghost predicate Full(at: View, limit: Limit, block: nat)
    requires WholeLog(at, block + 1)
  {
    block > limit.records &&
    forall k: nat :: 1 <= k && block - limit.records <= k < block ==> at(block).stamp - at(k).stamp < limit.periodMs
  }

  /** On a whole log a record is over exactly then, and ok otherwise: the converse of `WindowHolds`. */
  lemma OverIffFull(block: nat, limit: Limit, at: View)
    requires limit.records >= 1 && block >= 1 && WholeLog(at, block + 1)
    ensures
      var v := JudgeOf(block, at(block).stamp, Some(limit), at);
      if Full(at, limit, block) then v == Over else v == Ok
  {
    if block > limit.records {
      var first := block - limit.records;
      assert FirstNotWiped(at, first, block) == first;
    }
  }

  /** A whole log counts to its last record if and only if any `records` + 1 in a row span a period. */
  lemma AllCountIffSpread(limit: Limit, at: View, end: nat)
    requires limit.records >= 1 && WholeLog(at, end)
    ensures (forall b: nat :: 1 <= b < end ==> JudgeOf(b, at(b).stamp, Some(limit), at) == Ok) <==>
            forall b: nat :: 1 <= b && b + limit.records < end ==>
              at(b + limit.records).stamp - at(b).stamp >= limit.periodMs
  {
    forall b: nat | 1 <= b && b + limit.records < end
      ensures JudgeOf(b + limit.records, at(b + limit.records).stamp, Some(limit), at) == Ok <==>
              at(b + limit.records).stamp - at(b).stamp >= limit.periodMs
    {
      assert FirstNotWiped(at, b, b + limit.records) == b;
    }
    if forall b: nat :: 1 <= b && b + limit.records < end ==>
        at(b + limit.records).stamp - at(b).stamp >= limit.periodMs {
      forall b: nat | 1 <= b < end
        ensures JudgeOf(b, at(b).stamp, Some(limit), at) == Ok
      {
        if b > limit.records {
          var first: nat := b - limit.records;
          assert first + limit.records == b;
        }
      }
    }
  }

  /** It waits only for a block that is not here, with all between it and the window's start wiped. */
  lemma WaitsForOne(block: nat, stamp: nat, limit: Option<Limit>, at: View)
    ensures JudgeOf(block, stamp, limit, at) == Wait <==>
            limit.Some? && block > limit.value.records &&
            exists j :: block - limit.value.records <= j < block && at(j) == Missing &&
              forall k :: block - limit.value.records <= k < j ==> at(k) == Wiped
  {
    if limit.Some? && block > limit.value.records {
      var j := FirstNotWiped(at, block - limit.value.records, block);
    }
  }

  /** For a new record a block not here is as one wiped. */
  lemma MissingAsWiped(block: nat, stamp: nat, limit: Option<Limit>, at: View)
    ensures
      var known: View := (i: nat) => if at(i) == Missing then Wiped else at(i);
      AllowedOf(block, stamp, limit, at) == AllowedOf(block, stamp, limit, known)
  {
    if limit.Some? && block > limit.value.records {
      var known: View := (i: nat) => if at(i) == Missing then Wiped else at(i);
      var start := block - limit.value.records;
      var j, k := FirstStamped(at, start, block), FirstStamped(known, start, block);
      assert j < block ==> known(j).Stamped?;
      assert k < block ==> at(k).Stamped?;
      assert j == k;
    }
  }
}
