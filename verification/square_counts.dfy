/**
 * How many squares of the 50-square strip each player gets: a rounded share
 * of the target with a minimum of one square for every player of positive
 * weight; when those minimums overshoot the target, a proportional rescale
 * followed by a one-square top-up in descending-weight order.
 *
 * The computing functions carry only their shape; what they mean is stated
 * by the lemmas after them.
 */
module SquareCounts {
  import opened Js
  import opened Arith

  /** The number of squares the generator aims for. */
  const TargetSquares: nat := 50

  function Sum(xs: seq<nat>): nat {
    if |xs| == 0 then 0 else xs[0] + Sum(xs[1..])
  }

  lemma {:induction false} ElemsLeSum(xs: seq<nat>)
    ensures forall i :: 0 <= i < |xs| ==> xs[i] <= Sum(xs)
  {
    if |xs| > 0 {
      ElemsLeSum(xs[1..]);
      assert forall i :: 1 <= i < |xs| ==> xs[i] == xs[1..][i - 1];
    }
  }

  /** Changing one entry changes the sum by the difference. */
  lemma {:induction false} SumUpdate(xs: seq<nat>, i: nat, v: nat)
    requires i < |xs|
    ensures Sum(xs[i := v]) == Sum(xs) - xs[i] + v
  {
    if i == 0 {
      assert xs[i := v][1..] == xs[1..];
    } else {
      SumUpdate(xs[1..], i - 1, v);
      assert xs[i := v][1..] == xs[1..][i - 1 := v];
    }
  }

  // ---------------------------------------------------------------------------
  // Step 1: rounded shares with the minimum of one square

  /** `Math.round(weight / total * 50)`: floor(50 w / T + 1/2), computed exactly. */
  function RoundShare(w: nat, total: nat): nat
    requires total > 0
  {
    (100 * w + total) / (2 * total)
  }

  /** A share of the whole never rounds above the target. */
  lemma RoundShareAtMostTarget(w: nat, total: nat)
    requires 0 < total && w <= total
    ensures RoundShare(w, total) <= TargetSquares
  {
    var a := 100 * w + total;
    var b := 2 * total;
    var k := a / b;
    assert b * k <= a;
    if k > TargetSquares {
      MulMonotone(b, TargetSquares + 1, k);
      assert false;
    }
  }

  /** The first count of a player: a rounded share, at least 1 when the weight is positive. */
  function RoundedCount(w: nat, total: nat): (c: nat)
    requires w <= total
    ensures w > 0 <==> c >= 1
    ensures c <= TargetSquares
  {
    if w > 0 then
      RoundShareAtMostTarget(w, total);
      Max(1, RoundShare(w, total))
    else 0
  }

  function Rounded(ws: seq<nat>, total: nat): (cs: seq<nat>)
    requires forall i :: 0 <= i < |ws| ==> ws[i] <= total
    ensures |cs| == |ws|
  {
    if |ws| == 0 then [] else [RoundedCount(ws[0], total)] + Rounded(ws[1..], total)
  }

  /** The counts before any adjustment, against the total weight. */
  function RoundedCounts(ws: seq<nat>): (cs: seq<nat>)
    ensures |cs| == |ws|
  {
    ElemsLeSum(ws);
    Rounded(ws, Sum(ws))
  }

  lemma {:induction false} RoundedFacts(ws: seq<nat>, total: nat)
    requires forall i :: 0 <= i < |ws| ==> ws[i] <= total
    ensures forall i :: 0 <= i < |ws| ==>
      (ws[i] > 0 <==> Rounded(ws, total)[i] >= 1) && Rounded(ws, total)[i] <= TargetSquares
  {
    if |ws| > 0 {
      RoundedFacts(ws[1..], total);
    }
  }

  /**
   * After rounding, every player of positive weight has at least one square,
   * every weight-0 player none, and nobody more than the target.
   */
  lemma RoundedCountsFacts(ws: seq<nat>)
    ensures forall i :: 0 <= i < |ws| ==>
      (ws[i] > 0 <==> RoundedCounts(ws)[i] >= 1) && RoundedCounts(ws)[i] <= TargetSquares
  {
    ElemsLeSum(ws);
    RoundedFacts(ws, Sum(ws));
  }

  // ---------------------------------------------------------------------------
  // Step 2: proportional rescale when the rounded total overshoots

  /** Scaling a count by 50 / t with t at least 50 never increases it. */
  lemma ScaledShareAtMost(c: nat, t: nat)
    requires t >= TargetSquares
    ensures (c * TargetSquares) / t <= c
  {
    var k := (c * TargetSquares) / t;
    assert t * k <= c * TargetSquares;
    if k > c {
      MulMonotone(t, c + 1, k);
      MulMonotone(c + 1, TargetSquares, t);
      assert false;
    }
  }

  /** `Math.max(1, Math.floor(count * 50 / total))` for players of positive weight. */
  function RescaledCount(c: nat, w: nat, total: nat): (r: nat)
    requires total > TargetSquares
    requires w > 0 ==> c >= 1
    ensures r <= c
    ensures w > 0 ==> r >= 1
    ensures w == 0 ==> r == c
  {
    ScaledShareAtMost(c, total);
    if w > 0 then Max(1, (c * TargetSquares) / total) else c
  }

  function Rescaled(cs: seq<nat>, ws: seq<nat>, total: nat): (rs: seq<nat>)
    requires |cs| == |ws| && total > TargetSquares
    requires forall i :: 0 <= i < |ws| ==> ws[i] > 0 ==> cs[i] >= 1
    ensures |rs| == |cs|
  {
    if |cs| == 0 then [] else [RescaledCount(cs[0], ws[0], total)] + Rescaled(cs[1..], ws[1..], total)
  }

  /** The counts after the rescale, for weights whose rounded total overshoots. */
  function RescaledCounts(ws: seq<nat>): (rs: seq<nat>)
    requires Sum(RoundedCounts(ws)) > TargetSquares
    ensures |rs| == |ws|
  {
    var cs := RoundedCounts(ws);
    RoundedCountsFacts(ws);
    Rescaled(cs, ws, Sum(cs))
  }

  lemma {:induction false} RescaledFacts(cs: seq<nat>, ws: seq<nat>, total: nat)
    requires |cs| == |ws| && total > TargetSquares
    requires forall i :: 0 <= i < |ws| ==> ws[i] > 0 ==> cs[i] >= 1
    ensures forall i :: 0 <= i < |cs| ==> Rescaled(cs, ws, total)[i] <= cs[i]
    ensures forall i :: 0 <= i < |cs| ==>
      (ws[i] > 0 ==> Rescaled(cs, ws, total)[i] >= 1) && (ws[i] == 0 ==> Rescaled(cs, ws, total)[i] == cs[i])
  {
    if |cs| > 0 {
      RescaledFacts(cs[1..], ws[1..], total);
    }
  }

  /**
   * The rescale never increases a count, keeps every player of positive weight
   * at one square or more, and leaves weight-0 players at zero.
   */
  lemma RescaleNeverIncreases(ws: seq<nat>)
    requires Sum(RoundedCounts(ws)) > TargetSquares
    ensures forall i :: 0 <= i < |ws| ==> RescaledCounts(ws)[i] <= RoundedCounts(ws)[i]
    ensures forall i :: 0 <= i < |ws| ==>
      (ws[i] > 0 ==> RescaledCounts(ws)[i] >= 1) && (ws[i] == 0 ==> RescaledCounts(ws)[i] == 0)
  {
    var cs := RoundedCounts(ws);
    RoundedCountsFacts(ws);
    RescaledFacts(cs, ws, Sum(cs));
  }

  // ---------------------------------------------------------------------------
  // Step 3: the top-up order, a stable sort of the positive players by weight

  /** A player's position in the list together with its weight (the sorted `pc` records). */
  datatype Ranked = Ranked(index: nat, weight: nat)

  /** x comes before y: heavier first, ties in list order. */
  predicate Precedes(x: Ranked, y: Ranked) {
    x.weight > y.weight || (x.weight == y.weight && x.index < y.index)
  }

  predicate SortedByWeight(order: seq<Ranked>) {
    forall a, b :: 0 <= a < b < |order| ==> Precedes(order[a], order[b])
  }

  predicate IncreasingIndices(rs: seq<Ranked>) {
    forall a, b :: 0 <= a < b < |rs| ==> rs[a].index < rs[b].index
  }

  /** Every entry names a player of `ws` with that player's weight. */
  predicate Faithful(ws: seq<nat>, rs: seq<Ranked>) {
    forall k :: 0 <= k < |rs| ==> rs[k].index < |ws| && rs[k].weight == ws[rs[k].index]
  }

  /** Some entry among the first m names player i. */
  predicate Reaches(order: seq<Ranked>, m: int, i: nat) {
    exists k :: 0 <= k < m && k < |order| && order[k].index == i
  }

  /** The players from `from` on whose weight is positive, in list order. */
  function PositiveFrom(ws: seq<nat>, from: nat): seq<Ranked>
    decreases |ws| - from
  {
    if from >= |ws| then []
    else if ws[from] > 0 then [Ranked(from, ws[from])] + PositiveFrom(ws, from + 1)
    else PositiveFrom(ws, from + 1)
  }

  /** Inserts e after every entry at least as heavy (a stable insertion). */
  function InsertByWeight(order: seq<Ranked>, e: Ranked): seq<Ranked> {
    if |order| == 0 then [e]
    else if order[0].weight >= e.weight then [order[0]] + InsertByWeight(order[1..], e)
    else [e] + order
  }

  /** A stable sort, heaviest first, by repeated insertion in list order. */
  function SortByWeight(rs: seq<Ranked>): seq<Ranked> {
    if |rs| == 0 then []
    else InsertByWeight(SortByWeight(rs[..|rs| - 1]), rs[|rs| - 1])
  }

  /** The order in which the top-up hands out extra squares. */
  function TopUpOrder(ws: seq<nat>): seq<Ranked> {
    SortByWeight(PositiveFrom(ws, 0))
  }

  lemma {:induction false} PositiveFromFacts(ws: seq<nat>, from: nat)
    ensures Faithful(ws, PositiveFrom(ws, from)) && IncreasingIndices(PositiveFrom(ws, from))
    ensures forall k :: 0 <= k < |PositiveFrom(ws, from)| ==>
      PositiveFrom(ws, from)[k].index >= from && PositiveFrom(ws, from)[k].weight > 0
    ensures forall i :: from <= i < |ws| && ws[i] > 0 ==> Ranked(i, ws[i]) in PositiveFrom(ws, from)
    decreases |ws| - from
  {
    if from < |ws| {
      PositiveFromFacts(ws, from + 1);
    }
  }

  lemma {:induction false} InsertMultiset(order: seq<Ranked>, e: Ranked)
    ensures multiset(InsertByWeight(order, e)) == multiset(order) + multiset{e}
  {
    if |order| > 0 {
      assert order == [order[0]] + order[1..];
      if order[0].weight >= e.weight {
        InsertMultiset(order[1..], e);
      }
    }
  }

  lemma {:induction false} SortMultiset(rs: seq<Ranked>)
    ensures multiset(SortByWeight(rs)) == multiset(rs)
  {
    if |rs| > 0 {
      SortMultiset(rs[..|rs| - 1]);
      InsertMultiset(SortByWeight(rs[..|rs| - 1]), rs[|rs| - 1]);
      assert rs == rs[..|rs| - 1] + [rs[|rs| - 1]];
    }
  }

  lemma {:induction false} InsertKeepsSorted(order: seq<Ranked>, e: Ranked)
    requires SortedByWeight(order)
    requires forall k :: 0 <= k < |order| ==> order[k].index < e.index
    ensures SortedByWeight(InsertByWeight(order, e))
  {
    if |order| > 0 && order[0].weight >= e.weight {
      InsertKeepsSorted(order[1..], e);
      InsertMultiset(order[1..], e);
      var rest := InsertByWeight(order[1..], e);
      var r := [order[0]] + rest;
      forall b | 0 < b < |r|
        ensures Precedes(order[0], r[b])
      {
        assert r[b] in multiset(rest);
        if r[b] != e {
          assert r[b] in order[1..];
        }
      }
    }
  }

  /** Sorting entries of increasing index yields them heaviest first, ties in list order. */
  lemma {:induction false} SortIsSorted(rs: seq<Ranked>)
    requires IncreasingIndices(rs)
    ensures SortedByWeight(SortByWeight(rs))
  {
    if |rs| > 0 {
      var init := rs[..|rs| - 1];
      var last := rs[|rs| - 1];
      SortIsSorted(init);
      SortMultiset(init);
      var sorted := SortByWeight(init);
      forall k | 0 <= k < |sorted|
        ensures sorted[k].index < last.index
      {
        assert sorted[k] in multiset(init);
        assert sorted[k] in init;
      }
      InsertKeepsSorted(sorted, last);
    }
  }

  /** Sorting keeps exactly the entries it was given. */
  lemma SortKeepsEntries(rs: seq<Ranked>)
    ensures |SortByWeight(rs)| == |rs|
    ensures forall e :: e in SortByWeight(rs) <==> e in rs
  {
    SortMultiset(rs);
    var sorted := SortByWeight(rs);
    assert |multiset(sorted)| == |sorted| && |multiset(rs)| == |rs|;
    forall e
      ensures e in sorted <==> e in rs
    {
      assert e in sorted <==> e in multiset(sorted);
      assert e in rs <==> e in multiset(rs);
    }
  }

  /**
   * The top-up order lists every player of positive weight exactly once, with
   * its weight, heaviest first and ties in list order.
   */
  lemma TopUpOrderFacts(ws: seq<nat>)
    ensures SortedByWeight(TopUpOrder(ws)) && Faithful(ws, TopUpOrder(ws))
    ensures forall k :: 0 <= k < |TopUpOrder(ws)| ==> TopUpOrder(ws)[k].weight > 0
    ensures forall i :: 0 <= i < |ws| ==> (ws[i] > 0 <==> Reaches(TopUpOrder(ws), |TopUpOrder(ws)|, i))
    ensures |TopUpOrder(ws)| == |PositiveFrom(ws, 0)|
  {
    var idx := PositiveFrom(ws, 0);
    var order := TopUpOrder(ws);
    PositiveFromFacts(ws, 0);
    SortIsSorted(idx);
    SortKeepsEntries(idx);
    forall k | 0 <= k < |order|
      ensures order[k].index < |ws| && order[k].weight == ws[order[k].index] && order[k].weight > 0
    {
      assert order[k] in idx;
    }
    forall i | 0 <= i < |ws|
      ensures ws[i] > 0 <==> Reaches(order, |order|, i)
    {
      if ws[i] > 0 {
        assert Ranked(i, ws[i]) in order;
      }
    }
  }

  predicate ValidOrder(n: nat, order: seq<Ranked>) {
    forall k :: 0 <= k < |order| ==> order[k].index < n
  }

  /** One more square to each of the first `d` players of `order` (the loop of the top-up). */
  function TopUp(cs: seq<nat>, order: seq<Ranked>, d: int): (r: seq<nat>)
    requires ValidOrder(|cs|, order)
    ensures |r| == |cs|
    decreases |order|
  {
    if d <= 0 || |order| == 0 then cs
    else TopUp(cs[order[0].index := cs[order[0].index] + 1], order[1..], d - 1)
  }

  /** Different entries of a weight-sorted order name different players. */
  lemma SortedNamesDistinct(order: seq<Ranked>, a: nat, b: nat)
    requires SortedByWeight(order) && a < b < |order|
    ensures order[a].index != order[b].index || order[a].weight != order[b].weight
  {
    assert Precedes(order[a], order[b]);
  }

  /** The top-up adds exactly one square per player it reaches and none elsewhere. */
  lemma {:induction false} TopUpEffect(ws: seq<nat>, cs: seq<nat>, order: seq<Ranked>, d: int)
    requires |cs| == |ws| && Faithful(ws, order) && SortedByWeight(order)
    ensures ValidOrder(|cs|, order)
    ensures forall i :: 0 <= i < |cs| ==>
      TopUp(cs, order, d)[i] == cs[i] + (if Reaches(order, Min(Max(d, 0), |order|), i) then 1 else 0)
    ensures Sum(TopUp(cs, order, d)) == Sum(cs) + Min(Max(d, 0), |order|)
    decreases |order|
  {
    if d > 0 && |order| > 0 {
      var j := order[0].index;
      var bumped := cs[j := cs[j] + 1];
      var rest := order[1..];
      TopUpEffect(ws, bumped, rest, d - 1);
      SumUpdate(cs, j, cs[j] + 1);
      var m := Min(d, |order|);
      forall i | 0 <= i < |cs|
        ensures TopUp(cs, order, d)[i] == cs[i] + (if Reaches(order, m, i) then 1 else 0)
      {
        if i == j {
          assert Reaches(order, m, i);
          forall k | 0 <= k < m - 1 && k < |rest|
            ensures rest[k].index != i
          {
            SortedNamesDistinct(order, 0, k + 1);
          }
        } else if Reaches(order, m, i) {
          var k :| 0 <= k < m && k < |order| && order[k].index == i;
          assert Reaches(rest, m - 1, i) by {
            assert rest[k - 1].index == i;
          }
        }
      }
    }
  }

  // ---------------------------------------------------------------------------
  // The whole count computation

  /** The per-player square counts. */
  function FinalCounts(ws: seq<nat>): (fs: seq<nat>)
    ensures |fs| == |ws|
  {
    var cs := RoundedCounts(ws);
    if Sum(cs) <= TargetSquares then cs
    else
      var rs := RescaledCounts(ws);
      var difference := TargetSquares - Sum(rs);
      if difference > 0 then
        TopUpOrderFacts(ws);
        TopUpEffect(ws, rs, TopUpOrder(ws), difference);
        TopUp(rs, TopUpOrder(ws), difference)
      else rs
  }

  // ---------------------------------------------------------------------------
  // Why the top-up always reaches the target in the rescale branch

  function NonZero(cs: seq<nat>): nat {
    if |cs| == 0 then 0 else (if cs[0] > 0 then 1 else 0) + NonZero(cs[1..])
  }

  /** The sum of the floored shares `floor(50 c / t)`. */
  function FloorShares(cs: seq<nat>, t: nat): nat
    requires t > 0
  {
    if |cs| == 0 then 0 else (cs[0] * TargetSquares) / t + FloorShares(cs[1..], t)
  }

  /** The sum of the remainders `(50 c) mod t`. */
  function RemShares(cs: seq<nat>, t: nat): nat
    requires t > 0
  {
    if |cs| == 0 then 0 else (cs[0] * TargetSquares) % t + RemShares(cs[1..], t)
  }

  lemma {:induction false} ShareDecomposition(cs: seq<nat>, t: nat)
    requires t > 0
    ensures t * FloorShares(cs, t) + RemShares(cs, t) == TargetSquares * Sum(cs)
    ensures RemShares(cs, t) <= (t - 1) * NonZero(cs)
  {
    if |cs| > 0 {
      ShareDecomposition(cs[1..], t);
      var x := cs[0] * TargetSquares;
      DivModParts(x, t);
      Distribute(t, x / t, FloorShares(cs[1..], t));
      Distribute(TargetSquares, cs[0], Sum(cs[1..]));
      var b := if cs[0] > 0 then 1 else 0;
      Distribute(t - 1, b, NonZero(cs[1..]));
    }
  }

  lemma {:induction false} RescaledAboveFloors(cs: seq<nat>, ws: seq<nat>, total: nat)
    requires |cs| == |ws| && total > TargetSquares
    requires forall i :: 0 <= i < |ws| ==> ws[i] > 0 ==> cs[i] >= 1
    ensures Sum(Rescaled(cs, ws, total)) >= FloorShares(cs, total)
  {
    if |cs| > 0 {
      RescaledAboveFloors(cs[1..], ws[1..], total);
      ScaledShareAtMost(cs[0], total);
      var rs := Rescaled(cs, ws, total);
      assert rs[0] >= (cs[0] * TargetSquares) / total;
      assert rs[1..] == Rescaled(cs[1..], ws[1..], total);
    }
  }

  lemma {:induction false} NonZeroOfRounded(ws: seq<nat>, cs: seq<nat>, from: nat)
    requires |cs| == |ws| && from <= |ws|
    requires forall i :: 0 <= i < |ws| ==> (ws[i] > 0 <==> cs[i] >= 1)
    ensures NonZero(cs[from..]) == |PositiveFrom(ws, from)|
    decreases |ws| - from
  {
    if from < |ws| {
      NonZeroOfRounded(ws, cs, from + 1);
      assert cs[from..][1..] == cs[from + 1..];
    }
  }

  lemma {:induction false} SomeNonZero(cs: seq<nat>)
    requires Sum(cs) > 0
    ensures NonZero(cs) > 0
  {
    if cs[0] == 0 {
      SomeNonZero(cs[1..]);
    }
  }

  /** Rescaling a total above the target, the floored shares fall short of it by less than the non-zero counts. */
  lemma FloorSharesNearTarget(cs: seq<nat>)
    requires Sum(cs) > TargetSquares
    ensures TargetSquares < FloorShares(cs, Sum(cs)) + NonZero(cs)
  {
    var t := Sum(cs);
    var q := FloorShares(cs, t);
    var n := NonZero(cs);
    ShareDecomposition(cs, t);
    SomeNonZero(cs);
    if q + n <= TargetSquares {
      MulMonotone(t, q + n, TargetSquares);
      Distribute(t, q, n);
      Distribute(n, t, -1);
      assert false;
    }
  }

  /**
   * In the rescale branch the shortfall is smaller than the number of players
   * of positive weight, so the top-up never runs out of players: with t the
   * rounded total, t * (floored shares) + (remainders) = 50 t and each of the n
   * non-zero remainders is below t, so 50 - (floored shares) < n.
   */
  lemma ShortfallBelowPlayers(ws: seq<nat>)
    requires Sum(RoundedCounts(ws)) > TargetSquares
    ensures TargetSquares - Sum(RescaledCounts(ws)) < |TopUpOrder(ws)|
  {
    var cs := RoundedCounts(ws);
    var t := Sum(cs);
    FloorSharesNearTarget(cs);
    RoundedCountsFacts(ws);
    RescaledAboveFloors(cs, ws, t);
    NonZeroOfRounded(ws, cs, 0);
    assert cs[0..] == cs;
    TopUpOrderFacts(ws);
  }

  /**
   * The total of the final counts: the rounded total, unadjusted, when it is
   * within the target; otherwise the target, unless the minimums of one square
   * alone already exceed it.
   */
  lemma FinalTotal(ws: seq<nat>)
    ensures Sum(RoundedCounts(ws)) <= TargetSquares ==> FinalCounts(ws) == RoundedCounts(ws)
    ensures Sum(RoundedCounts(ws)) > TargetSquares ==>
      Sum(FinalCounts(ws)) == Max(TargetSquares, Sum(RescaledCounts(ws)))
  {
    if Sum(RoundedCounts(ws)) > TargetSquares {
      var rs := RescaledCounts(ws);
      var difference := TargetSquares - Sum(rs);
      if difference > 0 {
        ShortfallBelowPlayers(ws);
        var order := TopUpOrder(ws);
        TopUpOrderFacts(ws);
        TopUpEffect(ws, rs, order, difference);
        assert FinalCounts(ws) == TopUp(rs, order, difference);
      }
    }
  }

  /** In a weight-sorted order, reaching a player implies reaching every player that precedes it. */
  lemma ReachesPrecedingFirst(ws: seq<nat>, order: seq<Ranked>, m: int, i: nat, j: nat)
    requires Faithful(ws, order) && SortedByWeight(order)
    requires i < |ws| && j < |ws| && Precedes(Ranked(i, ws[i]), Ranked(j, ws[j]))
    requires Reaches(order, |order|, i) && Reaches(order, m, j)
    ensures Reaches(order, m, i)
  {
    var b :| 0 <= b < m && b < |order| && order[b].index == j;
    var a :| 0 <= a < |order| && order[a].index == i;
    assert a <= b;
  }

  /** The effect of the top-up on one player: one square more exactly when it is reached. */
  lemma TopUpOfPlayer(ws: seq<nat>, i: nat)
    requires Sum(RoundedCounts(ws)) > TargetSquares && i < |ws|
    ensures var d := TargetSquares - Sum(RescaledCounts(ws));
      FinalCounts(ws)[i] == RescaledCounts(ws)[i] + (if Reaches(TopUpOrder(ws), Min(Max(d, 0), |TopUpOrder(ws)|), i) then 1 else 0)
  {
    var rs := RescaledCounts(ws);
    var order := TopUpOrder(ws);
    var difference := TargetSquares - Sum(rs);
    TopUpOrderFacts(ws);
    TopUpEffect(ws, rs, order, difference);
  }

  /** One player's top-up: at most one square more, and only for a positive weight. */
  lemma TopUpAtMostOne(ws: seq<nat>, i: nat)
    requires Sum(RoundedCounts(ws)) > TargetSquares && i < |ws|
    ensures FinalCounts(ws)[i] == RescaledCounts(ws)[i] ||
      (FinalCounts(ws)[i] == RescaledCounts(ws)[i] + 1 && ws[i] > 0)
  {
    var order := TopUpOrder(ws);
    var m := Min(Max(TargetSquares - Sum(RescaledCounts(ws)), 0), |order|);
    TopUpOrderFacts(ws);
    TopUpOfPlayer(ws, i);
    if Reaches(order, m, i) {
      assert Reaches(order, |order|, i);
    }
  }

  /** A player that precedes a topped-up player is topped up too. */
  lemma TopUpNeverSkips(ws: seq<nat>, i: nat, j: nat)
    requires Sum(RoundedCounts(ws)) > TargetSquares && i < |ws| && j < |ws| && ws[i] > 0
    requires Precedes(Ranked(i, ws[i]), Ranked(j, ws[j]))
    requires FinalCounts(ws)[j] > RescaledCounts(ws)[j]
    ensures FinalCounts(ws)[i] > RescaledCounts(ws)[i]
  {
    var order := TopUpOrder(ws);
    var m := Min(Max(TargetSquares - Sum(RescaledCounts(ws)), 0), |order|);
    TopUpOrderFacts(ws);
    TopUpOfPlayer(ws, i);
    TopUpOfPlayer(ws, j);
    ReachesPrecedingFirst(ws, order, m, i, j);
  }

  /**
   * The top-up adds at most one square per player, only to players of positive
   * weight, and never to a player while skipping one that precedes it (heavier,
   * or as heavy and earlier in the list).
   */
  lemma TopUpByDescendingWeight(ws: seq<nat>)
    requires Sum(RoundedCounts(ws)) > TargetSquares
    ensures forall i :: 0 <= i < |ws| ==>
      FinalCounts(ws)[i] == RescaledCounts(ws)[i] ||
      (FinalCounts(ws)[i] == RescaledCounts(ws)[i] + 1 && ws[i] > 0)
    ensures forall i, j | 0 <= i < |ws| && 0 <= j < |ws| && ws[i] > 0 &&
      Precedes(Ranked(i, ws[i]), Ranked(j, ws[j])) && FinalCounts(ws)[j] > RescaledCounts(ws)[j] ::
        FinalCounts(ws)[i] > RescaledCounts(ws)[i]
  {
    forall i | 0 <= i < |ws|
      ensures FinalCounts(ws)[i] == RescaledCounts(ws)[i] ||
        (FinalCounts(ws)[i] == RescaledCounts(ws)[i] + 1 && ws[i] > 0)
    {
      TopUpAtMostOne(ws, i);
    }
    forall i, j | 0 <= i < |ws| && 0 <= j < |ws| && ws[i] > 0 &&
      Precedes(Ranked(i, ws[i]), Ranked(j, ws[j])) && FinalCounts(ws)[j] > RescaledCounts(ws)[j]
      ensures FinalCounts(ws)[i] > RescaledCounts(ws)[i]
    {
      TopUpNeverSkips(ws, i, j);
    }
  }

  /** Every player of positive weight keeps a square; weight-0 players never get one. */
  lemma FinalCountsRepresentEveryone(ws: seq<nat>)
    ensures forall i :: 0 <= i < |ws| ==> (ws[i] > 0 <==> FinalCounts(ws)[i] >= 1)
  {
    RoundedCountsFacts(ws);
    if Sum(RoundedCounts(ws)) > TargetSquares {
      RescaleNeverIncreases(ws);
      TopUpByDescendingWeight(ws);
    }
  }

  // ---------------------------------------------------------------------------
  // Worked examples

  lemma MockRounded()
    ensures RoundedCounts([40, 15, 1, 10, 30]) == [21, 8, 1, 5, 16]
  {
    var ws: seq<nat> := [40, 15, 1, 10, 30];
    assert Sum(ws[4..]) == 30;
    assert Sum(ws[3..]) == 40;
    assert Sum(ws[2..]) == 41;
    assert Sum(ws[1..]) == 56;
    assert Sum(ws) == 96;
    assert Rounded(ws[4..], 96) == [16];
    assert Rounded(ws[3..], 96) == [5, 16];
    assert Rounded(ws[2..], 96) == [1, 5, 16];
    assert Rounded(ws[1..], 96) == [8, 1, 5, 16];
  }

  lemma MockRescaledSteps()
    ensures Rescaled([21, 8, 1, 5, 16], [40, 15, 1, 10, 30], 51) == [20, 7, 1, 4, 15]
  {
    var ws: seq<nat> := [40, 15, 1, 10, 30];
    var cs: seq<nat> := [21, 8, 1, 5, 16];
    assert cs[1..] == [8, 1, 5, 16] && ws[1..] == [15, 1, 10, 30];
    assert cs[2..] == [1, 5, 16] && ws[2..] == [1, 10, 30];
    assert cs[3..] == [5, 16] && ws[3..] == [10, 30];
    assert cs[4..] == [16] && ws[4..] == [30];
    assert Rescaled([16], [30], 51) == [15];
    assert Rescaled([5, 16], [10, 30], 51) == [4, 15];
    assert Rescaled([1, 5, 16], [1, 10, 30], 51) == [1, 4, 15];
    assert Rescaled([8, 1, 5, 16], [15, 1, 10, 30], 51) == [7, 1, 4, 15];
  }

  lemma MockRescaled()
    ensures Sum(RoundedCounts([40, 15, 1, 10, 30])) == 51
    ensures RescaledCounts([40, 15, 1, 10, 30]) == [20, 7, 1, 4, 15]
  {
    MockRounded();
    MockRescaledSteps();
    var cs: seq<nat> := [21, 8, 1, 5, 16];
    assert Sum(cs[4..]) == 16;
    assert Sum(cs[3..]) == 21;
    assert Sum(cs[2..]) == 22;
    assert Sum(cs[1..]) == 30;
    assert Sum(cs) == 51;
  }

  lemma MockTopUpOrder()
    ensures TopUpOrder([40, 15, 1, 10, 30]) == [Ranked(0, 40), Ranked(4, 30), Ranked(1, 15), Ranked(3, 10), Ranked(2, 1)]
  {
    var ws: seq<nat> := [40, 15, 1, 10, 30];
    var a, b, c, d, e := Ranked(0, 40), Ranked(1, 15), Ranked(2, 1), Ranked(3, 10), Ranked(4, 30);
    assert PositiveFrom(ws, 4) == [e];
    assert PositiveFrom(ws, 3) == [d, e];
    assert PositiveFrom(ws, 2) == [c, d, e];
    assert PositiveFrom(ws, 1) == [b, c, d, e];
    assert PositiveFrom(ws, 0) == [a, b, c, d, e];
    assert [a, b, c, d, e][..4] == [a, b, c, d];
    assert [a, b, c, d][..3] == [a, b, c];
    assert [a, b, c][..2] == [a, b];
    assert [a, b][..1] == [a];
    assert SortByWeight([a]) == [a];
    assert InsertByWeight([], b) == [b];
    assert InsertByWeight([a], b) == [a, b] by {
      assert [a][1..] == [];
    }
    assert SortByWeight([a, b]) == [a, b];
    assert InsertByWeight([], c) == [c];
    assert InsertByWeight([b], c) == [b, c] by {
      assert [b][1..] == [];
    }
    assert InsertByWeight([a, b], c) == [a, b, c] by {
      assert [a, b][1..] == [b];
    }
    assert SortByWeight([a, b, c]) == [a, b, c];
    assert InsertByWeight([c], d) == [d, c];
    assert InsertByWeight([b, c], d) == [b, d, c] by {
      assert [b, c][1..] == [c];
    }
    assert InsertByWeight([a, b, c], d) == [a, b, d, c] by {
      assert [a, b, c][1..] == [b, c];
    }
    assert SortByWeight([a, b, c, d]) == [a, b, d, c];
    assert InsertByWeight([b, d, c], e) == [e, b, d, c];
    assert InsertByWeight([a, b, d, c], e) == [a, e, b, d, c] by {
      assert [a, b, d, c][1..] == [b, d, c];
    }
  }

  /** The mock weights of the game page: 40, 15, 1, 10, 30. */
  lemma MockWeightsExample()
    ensures RoundedCounts([40, 15, 1, 10, 30]) == [21, 8, 1, 5, 16]
    ensures RescaledCounts([40, 15, 1, 10, 30]) == [20, 7, 1, 4, 15]
    ensures FinalCounts([40, 15, 1, 10, 30]) == [21, 8, 1, 4, 16]
  {
    MockRounded();
    MockRescaled();
    MockTopUpOrder();
    var rs: seq<nat> := [20, 7, 1, 4, 15];
    assert Sum(rs) == 47;
    var order := [Ranked(0, 40), Ranked(4, 30), Ranked(1, 15), Ranked(3, 10), Ranked(2, 1)];
    assert TopUp(rs, order, 3) == [21, 8, 1, 4, 16];
  }

  /** Six equal weights: each rounds to 8, the total is 48 and nothing tops it up. */
  lemma SixEqualWeightsExample()
    ensures FinalCounts([1, 1, 1, 1, 1, 1]) == [8, 8, 8, 8, 8, 8]
    ensures Sum(FinalCounts([1, 1, 1, 1, 1, 1])) == 48
  {
    var ws: seq<nat> := [1, 1, 1, 1, 1, 1];
    assert Sum(ws) == 6;
    assert RoundedCounts(ws) == [8, 8, 8, 8, 8, 8];
  }
  function Ones(n: nat): (xs: seq<nat>)
    ensures |xs| == n && forall i :: 0 <= i < n ==> xs[i] == 1
  {
    seq(n, _ => 1)
  }

  lemma {:induction false} SumOnes(n: nat)
    ensures Sum(Ones(n)) == n
  {
    if n > 0 {
      assert Ones(n)[1..] == Ones(n - 1);
      SumOnes(n - 1);
    }
  }

  lemma {:induction false} RoundedOnes(m: nat, total: nat)
    requires TargetSquares < total <= 2 * TargetSquares
    ensures Rounded(Ones(m), total) == Ones(m)
  {
    if m > 0 {
      assert Ones(m)[1..] == Ones(m - 1);
      RoundedOnes(m - 1, total);
      assert RoundShare(1, total) == 1;
    }
  }

  lemma {:induction false} RescaledOnes(m: nat, total: nat)
    requires TargetSquares < total
    ensures Rescaled(Ones(m), Ones(m), total) == Ones(m)
  {
    if m > 0 {
      assert Ones(m)[1..] == Ones(m - 1);
      RescaledOnes(m - 1, total);
    }
  }

  /**
   * Between 51 and 100 equal weights: every player keeps the one square the
   * minimum gives it, the rescale cannot lower it, and the total is the number
   * of players, above the target.
   */
  lemma ManyEqualWeights(n: nat)
    requires TargetSquares < n <= 2 * TargetSquares
    ensures FinalCounts(Ones(n)) == Ones(n)
    ensures Sum(FinalCounts(Ones(n))) == n
  {
    var ws := Ones(n);
    SumOnes(n);
    RoundedOnes(n, n);
    assert RoundedCounts(ws) == ws;
    RescaledOnes(n, n);
    assert RescaledCounts(ws) == ws;
  }

  /** A single player of positive weight gets all fifty squares. */
  lemma SinglePlayer(w: nat)
    requires w > 0
    ensures FinalCounts([w]) == [TargetSquares]
  {
    assert Sum([w]) == w;
    DivUnique(100 * w + w, 2 * w, TargetSquares, w);
    assert RoundShare(w, w) == TargetSquares;
    assert RoundedCounts([w]) == [TargetSquares];
  }

}
