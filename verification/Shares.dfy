/**
 Storage budgets (shares of lib/storage.js): the app's budget, less what is
 fixed, shared by the spaces in proportion to what each holds, none below what
 it cannot drop. Sizes are real numbers: rounding is not the point.
 */
module Shares {
  import opened Options

  /** Sizes in use, least possible and granted, and whether the first is also the last. */
  datatype Space = Space(id: nat, used: real, floor: real, budget: Option<real>, keep: bool)

  type Amounts = map<nat, real>

  function Max(a: real, b: real): real {
    if a < b then b else a
  }

  function Times(a: real, b: real): real {
    a * b
  }

  /** A space that shares what is left: neither kept whole nor with a budget of its own. */
  predicate Sharing(s: Space) {
    !s.keep && s.budget.None?
  }

  function OwnShare(s: Space): real
    requires !Sharing(s)
  {
    if s.keep then s.used else Max(s.budget.value, s.floor)
  }

  predicate Sized(s: Space) {
    s.used >= 0.0 && s.floor >= 0.0
  }

  ghost predicate Distinct(xs: seq<Space>) {
    forall i, j :: 0 <= i < j < |xs| ==> xs[i].id != xs[j].id
  }

  function Ids(xs: seq<Space>): (ids: set<nat>)
    ensures forall s :: s in xs ==> s.id in ids
  {
    set s | s in xs :: s.id
  }

  // --- sums ---

  function SumUsed(xs: seq<Space>): real {
    if xs == [] then 0.0 else SumUsed(xs[..|xs| - 1]) + xs[|xs| - 1].used
  }

  function SumFloor(xs: seq<Space>): real {
    if xs == [] then 0.0 else SumFloor(xs[..|xs| - 1]) + xs[|xs| - 1].floor
  }

  /** In proportion to what each holds, or evenly when none holds anything. */
  function WeightOf(byUse: bool, s: Space): real {
    if byUse then s.used else 1.0
  }

  function SumWeight(byUse: bool, xs: seq<Space>): real {
    if xs == [] then 0.0 else SumWeight(byUse, xs[..|xs| - 1]) + WeightOf(byUse, xs[|xs| - 1])
  }

  /** What these spaces get together. */
  function SumOf(out: Amounts, xs: seq<Space>): real
    requires forall s :: s in xs ==> s.id in out
  {
    if xs == [] then 0.0 else SumOf(out, xs[..|xs| - 1]) + out[xs[|xs| - 1].id]
  }

  // --- the loop as a function ---

  function Share(pool: real, total: real, n: nat, s: Space): real
    requires n > 0
  {
    Max(0.0, if total > 0.0 then pool * s.used / total else pool / n as real)
  }

  /** Of `xs`, those whose share would be below their floor (`low`), or the others. */
  function Pick(pool: real, total: real, n: nat, xs: seq<Space>, low: bool): (r: seq<Space>)
    requires n > 0
    ensures |r| <= |xs|
    ensures forall s :: s in r ==> s in xs && ((Share(pool, total, n, s) < s.floor) == low)
  {
    if xs == [] then []
    else
      var last := xs[|xs| - 1];
      Pick(pool, total, n, xs[..|xs| - 1], low) + if (Share(pool, total, n, last) < last.floor) == low then [last]
        else []
  }

  function GiveFloors(out: Amounts, xs: seq<Space>): (r: Amounts)
    ensures r.Keys == out.Keys + Ids(xs)
  {
    if xs == [] then out
    else
      var init, last := xs[..|xs| - 1], xs[|xs| - 1];
      assert xs == init + [last] && Ids(xs) == Ids(init) + {last.id};
      GiveFloors(out, init)[last.id := last.floor]
  }

  function GiveShares(out: Amounts, pool: real, total: real, n: nat, xs: seq<Space>): (r: Amounts)
    requires n > 0
    ensures r.Keys == out.Keys + Ids(xs)
  {
    if xs == [] then out
    else
      var init, last := xs[..|xs| - 1], xs[|xs| - 1];
      assert xs == init + [last] && Ids(xs) == Ids(init) + {last.id};
      GiveShares(out, pool, total, n, init)[last.id := Share(pool, total, n, last)]
  }

  lemma {:induction false} PickSplits(pool: real, total: real, n: nat, xs: seq<Space>, byUse: bool)
    requires n > 0
    ensures
      var low, rest := Pick(pool, total, n, xs, true), Pick(pool, total, n, xs, false);
      && |low| + |rest| == |xs|
      && SumUsed(low) + SumUsed(rest) == SumUsed(xs)
      && SumFloor(low) + SumFloor(rest) == SumFloor(xs)
      && SumWeight(byUse, low) + SumWeight(byUse, rest) == SumWeight(byUse, xs)
  {
    if xs != [] {
      var init, last := xs[..|xs| - 1], xs[|xs| - 1];
      PickSplits(pool, total, n, init, byUse);
      SumsOfSnoc(Pick(pool, total, n, init, true), last, byUse);
      SumsOfSnoc(Pick(pool, total, n, init, false), last, byUse);
    }
  }

  lemma SumsOfSnoc(xs: seq<Space>, s: Space, byUse: bool)
    ensures SumUsed(xs + [s]) == SumUsed(xs) + s.used
    ensures SumFloor(xs + [s]) == SumFloor(xs) + s.floor
    ensures SumWeight(byUse, xs + [s]) == SumWeight(byUse, xs) + WeightOf(byUse, s)
    ensures xs + [] == xs
  {
    assert (xs + [s])[..|xs|] == xs;
  }

  lemma {:induction false} PickKeepsDistinct(pool: real, total: real, n: nat, xs: seq<Space>, low: bool)
    requires n > 0 && Distinct(xs)
    ensures Distinct(Pick(pool, total, n, xs, low))
  {
    if xs != [] {
      var init, last := xs[..|xs| - 1], xs[|xs| - 1];
      PickKeepsDistinct(pool, total, n, init, low);
      forall s | s in Pick(pool, total, n, init, low) ensures s.id != last.id {
        var i :| 0 <= i < |init| && xs[i] == s;
      }
    }
  }

  lemma {:induction false} PickedBoth(pool: real, total: real, n: nat, xs: seq<Space>)
    requires n > 0
    ensures forall s :: s in xs ==> s in Pick(pool, total, n, xs, true) || s in Pick(pool, total, n, xs, false)
  {
    if xs != [] {
      PickedBoth(pool, total, n, xs[..|xs| - 1]);
      assert xs == xs[..|xs| - 1] + [xs[|xs| - 1]];
    }
  }

  lemma {:induction false} FloorsGiven(out: Amounts, xs: seq<Space>)
    requires Distinct(xs)
    ensures forall s :: s in xs ==> s.id in GiveFloors(out, xs) && GiveFloors(out, xs)[s.id] == s.floor
    ensures forall id :: id in out && id !in Ids(xs) ==> GiveFloors(out, xs)[id] == out[id]
  {
    hide Ids, Distinct, GiveFloors;
    if xs == [] {
      FloorsStep(out, xs);
    } else {
      var init, last := xs[..|xs| - 1], xs[|xs| - 1];
      assert xs == init + [last];
      FloorsStep(out, xs);
      DistinctInit(init, last);
      FloorsGiven(out, init);
      IdsSnoc(init, last);
    }
  }

  lemma FloorsStep(out: Amounts, xs: seq<Space>)
    ensures xs == [] ==> GiveFloors(out, xs) == out
    ensures xs != [] ==> GiveFloors(out, xs) == GiveFloors(out, xs[..|xs| - 1])[xs[|xs| - 1].id := xs[|xs| - 1].floor]
  {
  }

  lemma DistinctInit(xs: seq<Space>, s: Space)
    requires Distinct(xs + [s])
    ensures Distinct(xs) && s.id !in Ids(xs) && forall x :: x in xs ==> x.id != s.id
  {
    IdsSnoc(xs, s);
    assert forall i :: 0 <= i < |xs| ==> (xs + [s])[i] == xs[i];
  }

  lemma {:induction false} SharesGiven(out: Amounts, pool: real, total: real, n: nat, xs: seq<Space>)
    requires n > 0 && Distinct(xs)
    ensures forall s :: s in xs ==>
        s.id in GiveShares(out, pool, total, n, xs) &&
        GiveShares(out, pool, total, n, xs)[s.id] == Share(pool, total, n, s)
    ensures forall id :: id in out && id !in Ids(xs) ==> GiveShares(out, pool, total, n, xs)[id] == out[id]
  {
    hide Ids, Distinct, GiveShares, Share;
    if xs == [] {
      SharesStep(out, pool, total, n, xs);
    } else {
      var init, last := xs[..|xs| - 1], xs[|xs| - 1];
      assert xs == init + [last];
      SharesStep(out, pool, total, n, xs);
      DistinctInit(init, last);
      SharesGiven(out, pool, total, n, init);
      IdsSnoc(init, last);
    }
  }

  lemma SharesStep(out: Amounts, pool: real, total: real, n: nat, xs: seq<Space>)
    requires n > 0
    ensures xs == [] ==> GiveShares(out, pool, total, n, xs) == out
    ensures xs != [] ==>
      GiveShares(out, pool, total, n, xs) ==
        GiveShares(out, pool, total, n, xs[..|xs| - 1])[xs[|xs| - 1].id := Share(pool, total, n, xs[|xs| - 1])]
  {
    hide Share;
  }

  /** Those a round would leave below what they cannot drop. */
  function Low(pool: real, rest: seq<Space>): seq<Space>
    requires rest != []
  {
    Pick(pool, SumUsed(rest), |rest|, rest, true)
  }

  function Others(pool: real, rest: seq<Space>): seq<Space>
    requires rest != []
  {
    Pick(pool, SumUsed(rest), |rest|, rest, false)
  }

  lemma OthersAreFewer(pool: real, rest: seq<Space>)
    requires rest != []
    ensures Low(pool, rest) != [] ==> |Others(pool, rest)| < |rest|
  {
    hide Share;
    PickSplits(pool, SumUsed(rest), |rest|, rest, true);
  }

  /** The for (;;) loop of `shares` from here on. */
  function Settle(out: Amounts, pool: real, rest: seq<Space>): Amounts
    decreases |rest|
  {
    if rest == [] then out
    else
      var low := Low(pool, rest);
      if low == [] then GiveShares(out, pool, SumUsed(rest), |rest|, rest)
      else
        OthersAreFewer(pool, rest);
        Settle(GiveFloors(out, low), pool - SumFloor(low), Others(pool, rest))
  }

  /** One round: the low ones are some of `rest`, the others the rest of it. */
  lemma RoundSplits(pool: real, rest: seq<Space>, byUse: bool)
    requires Distinct(rest) && rest != []
    ensures
      var low, others := Low(pool, rest), Others(pool, rest);
      && Distinct(low) && Distinct(others)
      && (forall s :: s in low ==> s in rest) && (forall s :: s in others ==> s in rest)
      && (forall s :: s in rest ==> s in low || s in others)
      && Ids(low) !! Ids(others) && Ids(low) + Ids(others) == Ids(rest)
      && |low| + |others| == |rest|
      && SumUsed(low) + SumUsed(others) == SumUsed(rest)
      && SumFloor(low) + SumFloor(others) == SumFloor(rest)
      && SumWeight(byUse, low) + SumWeight(byUse, others) == SumWeight(byUse, rest)
  {
    hide Share, Distinct;
    var total, n := SumUsed(rest), |rest|;
    PickedBoth(pool, total, n, rest);
    PickKeepsDistinct(pool, total, n, rest, true);
    PickKeepsDistinct(pool, total, n, rest, false);
    PickSplits(pool, total, n, rest, byUse);
    forall s, o | s in Low(pool, rest) && o in Others(pool, rest) ensures s.id != o.id {
      if s.id == o.id {
        SameIdSameSpace(rest, s, o);
      }
    }
    assert Ids(Low(pool, rest)) + Ids(Others(pool, rest)) == Ids(rest);
  }

  /** One round of the loop: the others settle with what the low ones leave, or all get their share. */
  lemma SettleRound(out: Amounts, pool: real, rest: seq<Space>)
    requires rest != []
    ensures
      if Low(pool, rest) == [] then Settle(out, pool, rest) == GiveShares(out, pool, SumUsed(rest), |rest|, rest)
      else Settle(out, pool, rest) == Settle(GiveFloors(out, Low(pool, rest)), pool - SumFloor(Low(pool, rest)),
        Others(pool, rest))
  {
    hide Low, Others, Share, GiveFloors, GiveShares;
  }

  /** `m` gives each of `xs` at least its floor, and leaves everybody else as in `out`. */
  ghost predicate GivesFloors(out: Amounts, m: Amounts, xs: seq<Space>) {
    && m.Keys == out.Keys + Ids(xs)
    && (forall s :: s in xs ==> m[s.id] >= s.floor)
    && (forall id :: id in out && id !in Ids(xs) ==> m[id] == out[id])
  }

  lemma GivesFloorsInTurn(out: Amounts, mid: Amounts, m: Amounts, xs: seq<Space>, low: seq<Space>, others: seq<Space>)
    requires GivesFloors(out, mid, low) && GivesFloors(mid, m, others)
    requires forall s :: s in xs ==> s in low || s in others
    requires Ids(low) !! Ids(others) && Ids(low) + Ids(others) == Ids(xs)
    ensures GivesFloors(out, m, xs)
  {
    hide Ids;
  }

  lemma LastGivesFloors(out: Amounts, pool: real, rest: seq<Space>)
    requires Distinct(rest) && rest != [] && Low(pool, rest) == []
    ensures GivesFloors(out, GiveShares(out, pool, SumUsed(rest), |rest|, rest), rest)
  {
    RoundSplits(pool, rest, true);
    SharesGiven(out, pool, SumUsed(rest), |rest|, rest);
    hide Share, GiveShares, Ids, Distinct;
    assert forall s :: s in rest ==> s in Others(pool, rest);
  }

  lemma NoneGivesFloors(out: Amounts, pool: real)
    ensures GivesFloors(out, Settle(out, pool, []), [])
  {
  }

  lemma {:induction false} SettleGivesFloors(out: Amounts, pool: real, rest: seq<Space>)
    requires Distinct(rest)
    ensures GivesFloors(out, Settle(out, pool, rest), rest)
    decreases |rest|
  {
    hide Settle, Distinct, Share, GiveFloors, GiveShares, SumFloor, GivesFloors, Low, Others;
    if rest == [] {
      NoneGivesFloors(out, pool);
    } else {
      var low, others := Low(pool, rest), Others(pool, rest);
      RoundSplits(pool, rest, true);
      SettleRound(out, pool, rest);
      if low == [] {
        LastGivesFloors(out, pool, rest);
      } else {
        OthersAreFewer(pool, rest);
        LowGivesFloors(out, low);
        SettleGivesFloors(GiveFloors(out, low), pool - SumFloor(low), others);
        GivesFloorsInTurn(out, GiveFloors(out, low), Settle(out, pool, rest), rest, low, others);
      }
    }
  }

  lemma LowGivesFloors(out: Amounts, low: seq<Space>)
    requires Distinct(low)
    ensures GivesFloors(out, GiveFloors(out, low), low)
  {
    FloorsGiven(out, low);
  }

  lemma SameIdSameSpace(xs: seq<Space>, a: Space, b: Space)
    requires Distinct(xs) && a in xs && b in xs && a.id == b.id
    ensures a == b
  {
    var i :| 0 <= i < |xs| && xs[i] == a;
    var j :| 0 <= j < |xs| && xs[j] == b;
  }

  /** A space given its floor keeps exactly that. */
  lemma LowKeepsFloor(out: Amounts, pool: real, rest: seq<Space>)
    requires Distinct(rest) && rest != [] && Low(pool, rest) != []
    ensures forall s :: s in Low(pool, rest) ==>
        s.id in Settle(out, pool, rest) && Settle(out, pool, rest)[s.id] == s.floor
  {
    hide Settle, Low, Others, Distinct, GiveFloors, Ids;
    var low, others := Low(pool, rest), Others(pool, rest);
    RoundSplits(pool, rest, true);
    SettleRound(out, pool, rest);
    FloorsGiven(out, low);
    SettleGivesFloors(GiveFloors(out, low), pool - SumFloor(low), others);
  }

  // --- the sums of a round ---

  lemma {:induction false} SumsAreSized(byUse: bool, xs: seq<Space>)
    requires forall s :: s in xs ==> Sized(s)
    ensures SumUsed(xs) >= 0.0 && SumFloor(xs) >= 0.0 && SumWeight(byUse, xs) >= 0.0
    ensures SumWeight(true, xs) == SumUsed(xs) && SumWeight(false, xs) == |xs| as real
  {
    if xs != [] {
      assert xs[|xs| - 1] in xs;
      SumsAreSized(byUse, xs[..|xs| - 1]);
    }
  }

  lemma {:induction false} SumProportional(out: Amounts, xs: seq<Space>, r: real, byUse: bool)
    requires forall s :: s in xs ==> s.id in out && out[s.id] == Times(r, WeightOf(byUse, s))
    ensures SumOf(out, xs) == Times(r, SumWeight(byUse, xs))
  {
    if xs != [] {
      assert xs[|xs| - 1] in xs;
      SumProportional(out, xs[..|xs| - 1], r, byUse);
      Distribute(r, SumWeight(byUse, xs[..|xs| - 1]), WeightOf(byUse, xs[|xs| - 1]));
    }
  }

  lemma Distribute(r: real, a: real, b: real)
    ensures Times(r, a + b) == Times(r, a) + Times(r, b)
    ensures Times(r, 0.0) == 0.0
  {
  }

  lemma {:induction false} FloorsAboveShares(xs: seq<Space>, r: real, byUse: bool)
    requires forall s :: s in xs ==> Times(r, WeightOf(byUse, s)) < s.floor
    ensures Times(r, SumWeight(byUse, xs)) <= SumFloor(xs)
    ensures xs != [] ==> Times(r, SumWeight(byUse, xs)) < SumFloor(xs)
  {
    if xs != [] {
      assert xs[|xs| - 1] in xs;
      FloorsAboveShares(xs[..|xs| - 1], r, byUse);
      Distribute(r, SumWeight(byUse, xs[..|xs| - 1]), WeightOf(byUse, xs[|xs| - 1]));
    }
  }

  lemma {:induction false} SumOfFloors(out: Amounts, xs: seq<Space>)
    requires forall s :: s in xs ==> s.id in out
    ensures (forall s :: s in xs ==> out[s.id] == s.floor) ==> SumOf(out, xs) == SumFloor(xs)
    ensures (forall s :: s in xs ==> out[s.id] >= s.floor) ==> SumOf(out, xs) >= SumFloor(xs)
  {
    if xs != [] {
      assert xs[|xs| - 1] in xs;
      SumOfFloors(out, xs[..|xs| - 1]);
    }
  }

  lemma SumOfRound(out: Amounts, pool: real, rest: seq<Space>)
    requires rest != [] && forall s :: s in rest ==> s.id in out
    ensures (forall s :: s in Low(pool, rest) ==> s.id in out) && (forall s :: s in Others(pool, rest) ==> s.id in out)
    ensures SumOf(out, Low(pool, rest)) + SumOf(out, Others(pool, rest)) == SumOf(out, rest)
  {
    SumOfSplit(out, pool, SumUsed(rest), |rest|, rest);
  }

  lemma {:induction false} SumOfSplit(out: Amounts, pool: real, total: real, n: nat, xs: seq<Space>)
    requires n > 0 && forall s :: s in xs ==> s.id in out
    ensures SumOf(out, Pick(pool, total, n, xs, true)) + SumOf(out, Pick(pool, total, n, xs, false)) == SumOf(out, xs)
  {
    if xs != [] {
      var init, last := xs[..|xs| - 1], xs[|xs| - 1];
      SumOfSplit(out, pool, total, n, init);
      SumOfSnoc(out, Pick(pool, total, n, init, true), last);
      SumOfSnoc(out, Pick(pool, total, n, init, false), last);
    }
  }

  lemma SumOfSnoc(out: Amounts, xs: seq<Space>, s: Space)
    requires s.id in out && forall x :: x in xs ==> x.id in out
    ensures SumOf(out, xs + [s]) == SumOf(out, xs) + out[s.id]
    ensures xs + [] == xs
  {
    assert (xs + [s])[..|xs|] == xs;
  }

  lemma ScaledShare(a: real, b: real, t: real)
    requires t > 0.0 && a >= 0.0 && b >= 0.0
    ensures a * b / t == a / t * b
    ensures a / t >= 0.0 && a / t * b >= 0.0
  {
    ProductSign(a / t, b);
  }

  /** What a round gives per unit of weight. */
  function Ratio(pool: real, byUse: bool, rest: seq<Space>): real
    requires SumWeight(byUse, rest) > 0.0
  {
    pool / SumWeight(byUse, rest)
  }

  lemma RatioTimesWeight(pool: real, byUse: bool, rest: seq<Space>)
    requires SumWeight(byUse, rest) > 0.0 && pool >= 0.0
    ensures Ratio(pool, byUse, rest) >= 0.0 && Times(Ratio(pool, byUse, rest), SumWeight(byUse, rest)) == pool
  {
  }

  lemma WeightIsPositive(byUse: bool, rest: seq<Space>)
    requires rest != [] && forall x :: x in rest ==> Sized(x)
    requires byUse <==> SumUsed(rest) > 0.0
    ensures SumWeight(byUse, rest) > 0.0
  {
    SumsAreSized(byUse, rest);
  }

  /** In one round each share is the same multiple of the weight. */
  lemma ShareIsProportional(pool: real, rest: seq<Space>, byUse: bool, s: Space)
    requires rest != [] && s in rest && forall x :: x in rest ==> Sized(x)
    requires (byUse <==> SumUsed(rest) > 0.0) && SumWeight(byUse, rest) > 0.0
    requires pool >= 0.0
    ensures Share(pool, SumUsed(rest), |rest|, s) == Times(Ratio(pool, byUse, rest), WeightOf(byUse, s))
  {
    SumsAreSized(byUse, rest);
    WeightIsSized(byUse, s);
    hide SumUsed, SumWeight, Share, Times, WeightOf;
    ShareOf(pool, SumUsed(rest), SumWeight(byUse, rest), |rest|, byUse, s);
  }

  lemma ShareOf(pool: real, total: real, t: real, n: nat, byUse: bool, s: Space)
    requires n > 0 && pool >= 0.0 && t > 0.0 && WeightOf(byUse, s) >= 0.0
    requires byUse <==> total > 0.0
    requires t == if byUse then total else n as real
    ensures Share(pool, total, n, s) == Times(pool / t, WeightOf(byUse, s))
  {
    ScaledShare(pool, WeightOf(byUse, s), t);
  }

  lemma ProductSign(a: real, b: real)
    requires a >= 0.0 && b >= 0.0
    ensures a * b >= 0.0
  {
  }

  lemma RatioDrops(r: real, r0: real, t: real, pool: real)
    requires t > 0.0 && Times(r, t) <= pool && pool < Times(r0, t)
    ensures r < r0
  {
    if r >= r0 {
      ProductSign(r - r0, t);
    }
  }

  lemma ScaleDown(r: real, r0: real, w: real)
    requires r <= r0 && w >= 0.0
    ensures Times(r, w) <= Times(r0, w)
  {
    ProductSign(r0 - r, w);
  }

  ghost predicate Fits(pool: real, rest: seq<Space>) {
    SumFloor(rest) <= pool
  }

  /** Each of these gets its floor, or the ratio times its weight where that is more. */
  ghost predicate Filled(m: Amounts, xs: seq<Space>, r: real, byUse: bool) {
    forall s :: s in xs ==> s.id in m && m[s.id] == Max(s.floor, Times(r, WeightOf(byUse, s)))
  }

  lemma {:induction false} SettleFills(out: Amounts, pool: real, rest: seq<Space>, byUse: bool) returns (r: real)
    requires Distinct(rest) && rest != [] && (forall s :: s in rest ==> Sized(s))
    requires Fits(pool, rest) && (byUse <==> SumUsed(rest) > 0.0)
    ensures r >= 0.0 && Times(r, SumWeight(byUse, rest)) <= pool
    ensures Filled(Settle(out, pool, rest), rest, r, byUse)
    ensures SumOf(Settle(out, pool, rest), rest) == pool
    decreases |rest|
  {
    hide Share, Settle, Ratio, Distinct, SumUsed, WeightOf, Times, Low, Others, Filled, SumOf, SumWeight, SumFloor,
      GiveFloors, Sized;
    SumsAreSized(byUse, rest);
    WeightIsPositive(byUse, rest);
    RatioTimesWeight(pool, byUse, rest);
    RoundSplits(pool, rest, byUse);
    if Low(pool, rest) == [] {
      r := Ratio(pool, byUse, rest);
      LastRound(out, pool, rest, byUse);
    } else {
      var low, others := Low(pool, rest), Others(pool, rest);
      var pool' := pool - SumFloor(low);
      RoundLowersRatio(pool, rest, byUse);
      SettleRound(out, pool, rest);
      assert |others| < |rest|;
      r := SettleFills(GiveFloors(out, low), pool', others, byUse);
      EarlierRound(out, pool, rest, byUse, r);
    }
  }

  /** A round with nobody below its floor gives everything out, by one ratio. */
  lemma LastRound(out: Amounts, pool: real, rest: seq<Space>, byUse: bool)
    requires Distinct(rest) && rest != [] && (forall s :: s in rest ==> Sized(s))
    requires pool >= 0.0 && (byUse <==> SumUsed(rest) > 0.0) && SumWeight(byUse, rest) > 0.0
    requires Low(pool, rest) == []
    ensures Filled(Settle(out, pool, rest), rest, Ratio(pool, byUse, rest), byUse)
    ensures SumOf(Settle(out, pool, rest), rest) == pool
  {
    hide Settle, Ratio, Distinct, SumUsed, WeightOf, GiveShares, Share, Times;
    var m := Settle(out, pool, rest);
    SettleRound(out, pool, rest);
    SharesGiven(out, pool, SumUsed(rest), |rest|, rest);
    RoundSplits(pool, rest, byUse);
    RatioTimesWeight(pool, byUse, rest);
    var r := Ratio(pool, byUse, rest);
    forall s | s in rest ensures m[s.id] == Times(r, WeightOf(byUse, s)) == Max(s.floor, Times(r, WeightOf(byUse, s))) {
      ShareIsProportional(pool, rest, byUse, s);
      assert s in Others(pool, rest);
    }
    SumProportional(m, rest, r, byUse);
  }

  /** A round with somebody below its floor leaves the others less, weight for weight, and enough for their floors. */
  lemma RoundLowersRatio(pool: real, rest: seq<Space>, byUse: bool)
    requires Distinct(rest) && rest != [] && (forall s :: s in rest ==> Sized(s))
    requires Fits(pool, rest) && pool >= 0.0 && (byUse <==> SumUsed(rest) > 0.0) && SumWeight(byUse, rest) > 0.0
    requires Low(pool, rest) != []
    ensures
      var low, others, r0 := Low(pool, rest), Others(pool, rest), Ratio(pool, byUse, rest);
      var pool' := pool - SumFloor(low);
      && others != [] && Fits(pool', others)
      && (byUse <==> SumUsed(others) > 0.0)
      && SumWeight(byUse, others) > 0.0
      && pool' < Times(r0, SumWeight(byUse, others))
      && (forall s :: s in low ==> Times(r0, WeightOf(byUse, s)) < s.floor)
  {
    hide Share, Ratio, Distinct, WeightOf, SumUsed, SumWeight, Times, Low, Others, SumFloor;
    RoundSplits(pool, rest, byUse);
    RatioTimesWeight(pool, byUse, rest);
    LowGetLess(pool, rest, byUse);
    LeftForOthers(pool, Ratio(pool, byUse, rest), rest, Low(pool, rest), Others(pool, rest), byUse);
  }

  lemma LowGetLess(pool: real, rest: seq<Space>, byUse: bool)
    requires rest != [] && (forall s :: s in rest ==> Sized(s))
    requires pool >= 0.0 && (byUse <==> SumUsed(rest) > 0.0) && SumWeight(byUse, rest) > 0.0
    ensures forall s :: s in Low(pool, rest) ==> Times(Ratio(pool, byUse, rest), WeightOf(byUse, s)) < s.floor
  {
    hide Share, Ratio, WeightOf, SumUsed, SumWeight, Times;
    forall s | s in Low(pool, rest) ensures Times(Ratio(pool, byUse, rest), WeightOf(byUse, s)) < s.floor {
      ShareIsProportional(pool, rest, byUse, s);
    }
  }

  lemma LeftForOthers(pool: real, r0: real, rest: seq<Space>, low: seq<Space>, others: seq<Space>, byUse: bool)
    requires (forall s :: s in rest ==> Sized(s)) && (forall s :: s in low ==> s in rest) &&
        (forall s :: s in others ==> s in rest)
    requires Fits(pool, rest) && low != [] && (byUse <==> SumUsed(rest) > 0.0)
    requires Times(r0, SumWeight(byUse, rest)) == pool
    requires SumUsed(low) + SumUsed(others) == SumUsed(rest)
    requires SumFloor(low) + SumFloor(others) == SumFloor(rest)
    requires SumWeight(byUse, low) + SumWeight(byUse, others) == SumWeight(byUse, rest)
    requires forall s :: s in low ==> Times(r0, WeightOf(byUse, s)) < s.floor
    ensures others != [] && Fits(pool - SumFloor(low), others)
    ensures byUse <==> SumUsed(others) > 0.0
    ensures SumWeight(byUse, others) > 0.0
    ensures pool - SumFloor(low) < Times(r0, SumWeight(byUse, others))
  {
    NoWeight(byUse);
    hide WeightOf, SumUsed, SumWeight, Times, SumFloor;
    Distribute(r0, 0.0, 0.0);
    FloorsAboveShares(low, r0, byUse);
    Distribute(r0, SumWeight(byUse, low), SumWeight(byUse, others));
    SumsAreSized(byUse, others);
    SumsAreSized(byUse, low);
    SumsAreSized(byUse, rest);
  }

  /** The ratio the others end with also suits those given their floors. */
  lemma EarlierRound(out: Amounts, pool: real, rest: seq<Space>, byUse: bool, r: real)
    requires Distinct(rest) && rest != [] && (forall s :: s in rest ==> Sized(s))
    requires Fits(pool, rest) && pool >= 0.0 && (byUse <==> SumUsed(rest) > 0.0) && SumWeight(byUse, rest) > 0.0
    requires Low(pool, rest) != []
    requires
      var low, others := Low(pool, rest), Others(pool, rest);
      && Times(r, SumWeight(byUse, others)) <= pool - SumFloor(low)
      && Filled(Settle(out, pool, rest), others, r, byUse)
      && SumOf(Settle(out, pool, rest), others) == pool - SumFloor(low)
    ensures Times(r, SumWeight(byUse, rest)) <= pool
    ensures Filled(Settle(out, pool, rest), rest, r, byUse)
    ensures SumOf(Settle(out, pool, rest), rest) == pool
  {
    hide Share, Settle, Ratio, Distinct, WeightOf, Low, Others, Times;
    var low, others, r0 := Low(pool, rest), Others(pool, rest), Ratio(pool, byUse, rest);
    var m := Settle(out, pool, rest);
    RoundSplits(pool, rest, byUse);
    RatioTimesWeight(pool, byUse, rest);
    RoundLowersRatio(pool, rest, byUse);
    RatioDrops(r, r0, SumWeight(byUse, others), pool - SumFloor(low));
    ScaleDown(r, r0, SumWeight(byUse, rest));
    LowKeepsFloor(out, pool, rest);
    forall s | s in low ensures m[s.id] == s.floor == Max(s.floor, Times(r, WeightOf(byUse, s))) {
      WeightIsSized(byUse, s);
      ScaleDown(r, r0, WeightOf(byUse, s));
    }
    SumOfFloors(m, low);
    SumOfRound(m, pool, rest);
  }

  lemma NoWeight(byUse: bool)
    ensures SumWeight(byUse, []) == 0.0
  {
  }

  lemma WeightIsSized(byUse: bool, s: Space)
    requires Sized(s)
    ensures WeightOf(byUse, s) >= 0.0
  {
  }

  // --- the whole of `shares` ---

  /** The spaces that share what is left. */
  function RestOf(spaces: seq<Space>): (r: seq<Space>)
    ensures forall s :: s in r ==> s in spaces && Sharing(s)
  {
    if spaces == [] then []
    else
      var init, last := spaces[..|spaces| - 1], spaces[|spaces| - 1];
      assert spaces == init + [last];
      RestOf(init) + if Sharing(last) then [last] else []
  }

  /** What the others get: all they store, or their own budget and no less than their floor. */
  function Owned(spaces: seq<Space>): Amounts {
    if spaces == [] then map[]
    else
      var last := spaces[|spaces| - 1];
      if Sharing(last) then Owned(spaces[..|spaces| - 1]) else Owned(spaces[..|spaces| - 1])[last.id := OwnShare(last)]
  }

  function SumOwned(spaces: seq<Space>): real {
    if spaces == [] then 0.0
    else
      var last := spaces[|spaces| - 1];
      SumOwned(spaces[..|spaces| - 1]) + if Sharing(last) then 0.0 else OwnShare(last)
  }

  /** What is left for the spaces that share. */
  function Pool(app: real, spaces: seq<Space>, fixed: real): real {
    app - fixed - SumOwned(spaces)
  }

  function Result(app: real, spaces: seq<Space>, fixed: real): Amounts {
    Settle(Owned(spaces), Pool(app, spaces, fixed), RestOf(spaces))
  }

  method ShareOut(app: real, spaces: seq<Space>, fixed: real) returns (out: Amounts)
    ensures out == Result(app, spaces, fixed)
  {
    var pool, rest;
    out, pool, rest := FirstPass(app, spaces, fixed);
    hide Settle, Low, Others, Share, Owned, SumOwned, RestOf, SumFloor;
    var done := false;
    while !done
      invariant done ==> out == Result(app, spaces, fixed)
      invariant !done ==> Settle(out, pool, rest) == Result(app, spaces, fixed)
      decreases |rest|, !done
    {
      if rest == [] {
        SettleNone(out, pool);
        done := true;
      } else {
        SettleRound(out, pool, rest);
        OthersAreFewer(pool, rest);
        var low, others := Low(pool, rest), Others(pool, rest);
        if low == [] {
          out := GiveAll(out, pool, SumUsed(rest), rest);
          done := true;
        } else {
          out, pool := GiveLow(out, pool, low);
          rest := others;
        }
      }
    }
  }

  lemma SettleNone(out: Amounts, pool: real)
    ensures Settle(out, pool, []) == out
  {
  }

  // The first loop: those that do not share.
  method FirstPass(app: real, spaces: seq<Space>, fixed: real) returns (out: Amounts, pool: real, rest: seq<Space>)
    ensures out == Owned(spaces) && pool == Pool(app, spaces, fixed) && rest == RestOf(spaces)
  {
    out, pool, rest := map[], app - fixed, [];
    for i := 0 to |spaces|
      invariant out == Owned(spaces[..i]) && rest == RestOf(spaces[..i])
      invariant pool == app - fixed - SumOwned(spaces[..i])
    {
      var s := spaces[i];
      assert spaces[..i + 1][..i] == spaces[..i];
      if s.keep {
        out := out[s.id := s.used];
      } else if s.budget.Some? {
        out := out[s.id := Max(s.budget.value, s.floor)];
      } else {
        rest := rest + [s];
        continue;
      }
      pool := pool - out[s.id];
    }
    assert spaces[..|spaces|] == spaces;
  }

  method GiveLow(before: Amounts, start: real, low: seq<Space>) returns (out: Amounts, pool: real)
    ensures out == GiveFloors(before, low) && pool == start - SumFloor(low)
  {
    out, pool := before, start;
    for i := 0 to |low|
      invariant out == GiveFloors(before, low[..i]) && pool == start - SumFloor(low[..i])
    {
      assert low[..i + 1][..i] == low[..i];
      out := out[low[i].id := low[i].floor];
      pool := pool - low[i].floor;
    }
    assert low[..|low|] == low;
  }

  method GiveAll(before: Amounts, pool: real, total: real, rest: seq<Space>) returns (out: Amounts)
    requires rest != []
    ensures out == GiveShares(before, pool, total, |rest|, rest)
  {
    hide GiveShares, Share;
    out := before;
    SharesStep(before, pool, total, |rest|, rest[..0]);
    for i := 0 to |rest|
      invariant out == GiveShares(before, pool, total, |rest|, rest[..i])
    {
      assert rest[..i + 1][..i] == rest[..i];
      SharesStep(before, pool, total, |rest|, rest[..i + 1]);
      out := out[rest[i].id := Share(pool, total, |rest|, rest[i])];
    }
    assert rest[..|rest|] == rest;
  }

  // --- what it comes to ---

  lemma IdsSnoc(xs: seq<Space>, s: Space)
    ensures Ids(xs + [s]) == Ids(xs) + {s.id}
    ensures Distinct(xs + [s]) ==> s.id !in Ids(xs)
    ensures Distinct(xs) && s.id !in Ids(xs) ==> Distinct(xs + [s])
    ensures xs + [] == xs
  {
    forall x | x in xs && x.id == s.id ensures !Distinct(xs + [s]) {
      var i :| 0 <= i < |xs| && xs[i] == x;
      assert (xs + [s])[i].id == (xs + [s])[|xs|].id;
    }
  }

  lemma {:induction false} RestIsDistinct(spaces: seq<Space>)
    requires Distinct(spaces)
    ensures Distinct(RestOf(spaces))
    ensures Owned(spaces).Keys !! Ids(RestOf(spaces)) && Owned(spaces).Keys + Ids(RestOf(spaces)) == Ids(spaces)
  {
    if spaces != [] {
      var init, last := spaces[..|spaces| - 1], spaces[|spaces| - 1];
      RestIsDistinct(init);
      assert spaces == init + [last];
      IdsSnoc(init, last);
      IdsSnoc(RestOf(init), last);
      hide Ids, Distinct;
      assert RestOf(spaces) == RestOf(init) + if Sharing(last) then [last] else [];
    }
  }

  lemma {:induction false} OwnedExactly(spaces: seq<Space>)
    requires Distinct(spaces)
    ensures forall s :: s in spaces && !Sharing(s) ==> s.id in Owned(spaces) && Owned(spaces)[s.id] == OwnShare(s)
  {
    if spaces != [] {
      var init, last := spaces[..|spaces| - 1], spaces[|spaces| - 1];
      OwnedExactly(init);
      assert spaces == init + [last];
      IdsSnoc(init, last);
    }
  }

  lemma {:induction false} SumOfAll(out: Amounts, spaces: seq<Space>)
    requires forall s :: s in spaces ==> s.id in out && (!Sharing(s) ==> out[s.id] == OwnShare(s))
    ensures SumOf(out, spaces) == SumOwned(spaces) + SumOf(out, RestOf(spaces))
  {
    if spaces != [] {
      var init, last := spaces[..|spaces| - 1], spaces[|spaces| - 1];
      assert spaces == init + [last];
      SumOfAll(out, init);
      SumOfSnoc(out, RestOf(init), last);
    }
  }

  /**
   Every space gets something; a kept one what it stores, one with a budget that; one
   that shares no less than its floor.
   */
  lemma EachGetsItsDue(app: real, spaces: seq<Space>, fixed: real)
    requires Distinct(spaces)
    ensures
      var out := Result(app, spaces, fixed);
      && out.Keys == Ids(spaces)
      && forall s :: s in spaces ==>
           if s.keep then out[s.id] == s.used
           else if s.budget.Some? then
             out[s.id] >= s.budget.value && out[s.id] >= s.floor && out[s.id] in {s.budget.value, s.floor}
           else out[s.id] >= s.floor
  {
    hide Settle, Pool, Owned, Distinct;
    var out, rest := Result(app, spaces, fixed), RestOf(spaces);
    RestIsDistinct(spaces);
    OwnedExactly(spaces);
    SettleGivesFloors(Owned(spaces), Pool(app, spaces, fixed), rest);
    forall s | s in spaces ensures if Sharing(s) then out[s.id] >= s.floor else out[s.id] == OwnShare(s) {
      if Sharing(s) {
        RestHasSharing(spaces, s);
      }
    }
  }

  lemma {:induction false} RestHasSharing(spaces: seq<Space>, s: Space)
    requires s in spaces && Sharing(s)
    ensures s in RestOf(spaces)
  {
    if s != spaces[|spaces| - 1] {
      assert spaces == spaces[..|spaces| - 1] + [spaces[|spaces| - 1]];
      RestHasSharing(spaces[..|spaces| - 1], s);
    }
  }

  /**
   With some space sharing, the shares add up to exactly the app's budget if and only
   if the floors fit in what is left.
   */
  lemma AddsUpIffFloorsFit(app: real, spaces: seq<Space>, fixed: real)
    requires Distinct(spaces) && (forall s :: s in spaces ==> Sized(s)) && RestOf(spaces) != []
    ensures Ids(spaces) == Result(app, spaces, fixed).Keys
    ensures SumOf(Result(app, spaces, fixed), spaces) == app - fixed <==> Fits(Pool(app, spaces, fixed), RestOf(spaces))
  {
    EachGetsItsDue(app, spaces, fixed);
    hide Settle, Owned, Distinct, SumOf, SumUsed;
    var out, rest, pool := Result(app, spaces, fixed), RestOf(spaces), Pool(app, spaces, fixed);
    RestIsDistinct(spaces);
    SumOfAll(out, spaces);
    if Fits(pool, rest) {
      var r := SettleFills(Owned(spaces), pool, rest, SumUsed(rest) > 0.0);
    } else {
      SumOfFloors(out, rest);
    }
  }

  /**
   When the floors fit, one ratio does for all: each sharing space gets its
   floor, or the ratio times what it uses where that is more (where none uses
   anything: its floor, or an even share).
   */
  lemma OneRatioForAll(app: real, spaces: seq<Space>, fixed: real) returns (r: real)
    requires Distinct(spaces) && (forall s :: s in spaces ==> Sized(s)) && RestOf(spaces) != []
    requires Fits(Pool(app, spaces, fixed), RestOf(spaces))
    ensures r >= 0.0 && Filled(Result(app, spaces, fixed), RestOf(spaces), r, SumUsed(RestOf(spaces)) > 0.0)
  {
    hide Settle, Owned, Distinct, SumUsed;
    var rest := RestOf(spaces);
    RestIsDistinct(spaces);
    r := SettleFills(Owned(spaces), Pool(app, spaces, fixed), rest, SumUsed(rest) > 0.0);
  }

  /** Where the floors do not fit, nobody who shares gets more than its floor. */
  lemma FloorsOnlyIfTheyDoNotFit(app: real, spaces: seq<Space>, fixed: real)
    requires Distinct(spaces) && (forall s :: s in spaces ==> Sized(s))
    requires !Fits(Pool(app, spaces, fixed), RestOf(spaces))
    ensures forall s :: s in RestOf(spaces) ==>
      s.id in Result(app, spaces, fixed) && Result(app, spaces, fixed)[s.id] == s.floor
  {
    hide Settle, Owned, Distinct;
    RestIsDistinct(spaces);
    SettleFloors(Owned(spaces), Pool(app, spaces, fixed), RestOf(spaces));
  }

  lemma {:induction false} SettleFloors(out: Amounts, pool: real, rest: seq<Space>)
    requires Distinct(rest) && (forall s :: s in rest ==> Sized(s)) && !Fits(pool, rest)
    ensures forall s :: s in rest ==> s.id in Settle(out, pool, rest) && Settle(out, pool, rest)[s.id] == s.floor
    decreases |rest|
  {
    hide Share, Settle, Distinct, SumUsed, Low, Others, SumFloor, GiveFloors, GiveShares, Sized;
    if rest != [] {
      var low, others := Low(pool, rest), Others(pool, rest);
      RoundSplits(pool, rest, true);
      SettleRound(out, pool, rest);
      if low == [] {
        LastRoundFloors(out, pool, rest);
      } else {
        LowKeepsFloor(out, pool, rest);
        SettleFloors(GiveFloors(out, low), pool - SumFloor(low), others);
      }
    }
  }

  /** A round with nobody below its floor, although the floors do not fit, has nothing to give and none to keep. */
  lemma LastRoundFloors(out: Amounts, pool: real, rest: seq<Space>)
    requires Distinct(rest) && rest != [] && (forall s :: s in rest ==> Sized(s)) && !Fits(pool, rest)
    requires Low(pool, rest) == []
    ensures forall s :: s in rest ==> s.id in Settle(out, pool, rest) && Settle(out, pool, rest)[s.id] == s.floor
  {
    hide Settle, Distinct, SumUsed, SumFloor, SumWeight, SumOf, GiveShares, Share;
    var m, byUse := Settle(out, pool, rest), SumUsed(rest) > 0.0;
    RoundSplits(pool, rest, byUse);
    SettleRound(out, pool, rest);
    SharesGiven(out, pool, SumUsed(rest), |rest|, rest);
    SumsAreSized(byUse, rest);
    SumOfFloors(m, rest);
    if pool > 0.0 {
      WeightIsPositive(byUse, rest);
      LastRound(out, pool, rest, byUse);
    } else {
      forall s | s in rest ensures m[s.id] == s.floor {
        assert s in Others(pool, rest);
        NothingToShare(pool, SumUsed(rest), |rest|, s);
      }
    }
  }

  lemma NothingToShare(pool: real, total: real, n: nat, s: Space)
    requires n > 0 && pool <= 0.0 && Sized(s)
    ensures Share(pool, total, n, s) == 0.0
  {
    if total > 0.0 {
      ProductSign(s.used, -pool);
      assert pool * s.used == -(s.used * -pool);
    }
  }

  lemma {:induction false} EqualSumsOfOrdered(a: Amounts, b: Amounts, xs: seq<Space>)
    requires forall s :: s in xs ==> s.id in a && s.id in b && a[s.id] <= b[s.id]
    ensures SumOf(a, xs) <= SumOf(b, xs)
    ensures SumOf(a, xs) == SumOf(b, xs) ==> forall s :: s in xs ==> a[s.id] == b[s.id]
  {
    if xs != [] {
      assert xs == xs[..|xs| - 1] + [xs[|xs| - 1]];
      assert xs[|xs| - 1] in xs;
      EqualSumsOfOrdered(a, b, xs[..|xs| - 1]);
    }
  }

  lemma FilledIsMonotone(a: Amounts, b: Amounts, xs: seq<Space>, r: real, q: real, byUse: bool)
    requires (forall s :: s in xs ==> Sized(s)) && r <= q
    requires Filled(a, xs, r, byUse) && Filled(b, xs, q, byUse)
    ensures forall s :: s in xs ==> a[s.id] <= b[s.id]
  {
    hide WeightOf, Times;
    forall s | s in xs ensures a[s.id] <= b[s.id] {
      WeightIsSized(byUse, s);
      ScaleDown(r, q, WeightOf(byUse, s));
    }
  }

  /**
   And no other way of sharing does: whoever gives each space its floor or one
   ratio times its weight, and gives exactly the pool, gives what `shares` does.
   */
  lemma OnlyOneFilling(app: real, spaces: seq<Space>, fixed: real, other: Amounts, q: real)
    requires Distinct(spaces) && (forall s :: s in spaces ==> Sized(s)) && RestOf(spaces) != []
    requires Fits(Pool(app, spaces, fixed), RestOf(spaces))
    requires Filled(other, RestOf(spaces), q, SumUsed(RestOf(spaces)) > 0.0)
    requires SumOf(other, RestOf(spaces)) == Pool(app, spaces, fixed)
    ensures forall s :: s in RestOf(spaces) ==>
        s.id in Result(app, spaces, fixed) && Result(app, spaces, fixed)[s.id] == other[s.id]
  {
    hide Settle, Owned, Distinct, SumUsed, Times, WeightOf;
    var out, rest, byUse := Result(app, spaces, fixed), RestOf(spaces), SumUsed(RestOf(spaces)) > 0.0;
    RestIsDistinct(spaces);
    var r := SettleFills(Owned(spaces), Pool(app, spaces, fixed), rest, byUse);
    if r <= q {
      FilledIsMonotone(out, other, rest, r, q, byUse);
      EqualSumsOfOrdered(out, other, rest);
    } else {
      FilledIsMonotone(other, out, rest, q, r, byUse);
      EqualSumsOfOrdered(other, out, rest);
    }
  }
}
