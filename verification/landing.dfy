/**
 * Where the strip stops: the strip shows ten copies of the squares side by
 * side, each square 64 pixels wide; a spin picks a number of rotations in
 * [3, 5), lands a random point of the target square of the visible copy under
 * the centre marker, and takes longer the more it rotates.
 *
 * Widths and positions are exact reals; JavaScript's `NaN` (an empty strip)
 * is `None`.
 */
module Landing {
  import opened Js
  import opened Arith

  const SquareWidth: nat := 64
  const TotalRepeats: nat := 10
  /** The container width used when the container cannot be found. */
  const FallbackWidth: nat := 768
  const BaseTime: real := 5000.0
  const MaxExtraTime: real := 8000.0

  // ---------------------------------------------------------------------------
  // The rendered strip

  function Repeat<T>(s: seq<T>, n: nat): (r: seq<T>)
    ensures |r| == n * |s|
  {
    if n == 0 then [] else s + Repeat(s, n - 1)
  }

  /** The rendered strip: ten copies of the squares, or nothing when there are none. */
  function Strip<T>(squares: seq<T>): seq<T> {
    if |squares| > 0 then Repeat(squares, TotalRepeats) else []
  }

  /** Position q * |s| + r of n copies is element r of the q-th copy. */
  lemma {:induction false} RepeatIndex<T>(s: seq<T>, n: nat, q: nat, r: nat)
    requires q < n && r < |s|
    ensures q * |s| + r < n * |s|
    ensures Repeat(s, n)[q * |s| + r] == s[r]
  {
    var m := |s|;
    assert n * m == m + (n - 1) * m;
    if q > 0 {
      RepeatIndex(s, n - 1, q - 1, r);
      assert q * m == (q - 1) * m + m;
    }
  }

  lemma QuotientBelow(k: nat, m: nat, n: nat)
    requires 0 < m && k < n * m
    ensures k == (k / m) * m + k % m && k / m < n
  {
    DivModParts(k, m);
    if k / m >= n {
      MulMonotone(m, n, k / m);
      assert false;
    }
  }

  /** The strip has ten copies' worth of squares, position k showing square k mod n. */
  lemma StripShape<T>(squares: seq<T>)
    ensures |Strip(squares)| == TotalRepeats * |squares|
    ensures forall k :: 0 <= k < |Strip(squares)| ==> Strip(squares)[k] == squares[k % |squares|]
  {
    if |squares| > 0 {
      forall k | 0 <= k < |Strip(squares)|
        ensures Strip(squares)[k] == squares[k % |squares|]
      {
        var m := |squares|;
        var q := k / m;
        QuotientBelow(k, m, TotalRepeats);
        RepeatIndex(squares, TotalRepeats, q, k % m);
      }
    }
  }

  // ---------------------------------------------------------------------------
  // The spin plan

  /** The position under the centre marker: half the container width, 768 when unknown. */
  function CenterPosition(width: Option<nat>): (c: real)
    ensures width.None? ==> c == 384.0
    ensures c >= 0.0
  {
    width.GetOr(FallbackWidth) as real / 2.0
  }

  /** `3 + Math.random() * 2`. */
  function Rotations(u: real): (r: real)
    requires 0.0 <= u < 1.0
    ensures 3.0 <= r < 5.0
  {
    3.0 + u * 2.0
  }

  /** The width of one copy of the squares: `squares.length * 64`. */
  function SetWidth(setSize: nat): (w: real)
    ensures setSize > 0 <==> w > 0.0
  {
    (setSize * SquareWidth) as real
  }

  /** `Math.floor(rotations * W / W) % 10`, W the width of one copy; `NaN` (0 / 0) when W is 0. */
  function FinalSetIndex(setWidth: real, rotations: real): Option<int>
    requires setWidth >= 0.0
  {
    if setWidth == 0.0 then None else Some(((rotations * setWidth) / setWidth).Floor % TotalRepeats)
  }

  /** `5000 + Math.min(8000, (rotations - 3) * 2000)`. */
  function TotalTime(rotations: real): real {
    var extra := (rotations - 3.0) * 2000.0;
    BaseTime + (if MaxExtraTime <= extra then MaxExtraTime else extra)
  }

  datatype Plan = Plan(translateX: Option<real>, totalTime: real)

  /**
   * `calculateSpinPosition`: the translation that puts the point at fraction
   * `uPos` of the target square of the final set under the centre marker, and
   * the animation time.
   */
  function SpinPosition(setSize: nat, target: int, width: Option<nat>, uPos: real, uRot: real): (p: Plan)
    requires 0.0 <= uPos < 1.0 && 0.0 <= uRot < 1.0
    ensures p.translateX.Some? <==> setSize > 0
    ensures BaseTime <= p.totalTime < BaseTime + 4000.0
  {
    var rotations := Rotations(uRot);
    var time := TotalTime(rotations);
    match FinalSetIndex(SetWidth(setSize), rotations)
    case None => Plan(None, time)
    case Some(setIndex) =>
      var global := (setIndex * setSize * SquareWidth + target * SquareWidth) as real;
      var point := global + uPos * SquareWidth as real;
      Plan(Some(CenterPosition(width) - point), time)
  }

  /** The set shown under the marker is the fourth (index 3) or the fifth (index 4): never past the ten copies. */
  lemma CancelWidth(r: real, w: real)
    requires w > 0.0
    ensures FinalSetIndex(w, r) == Some(r.Floor % TotalRepeats)
  {
    assert (r * w) / w == r;
  }

  lemma RotationsFloor(uRot: real)
    requires 0.0 <= uRot < 1.0
    ensures Rotations(uRot).Floor == if uRot < 0.5 then 3 else 4
  {
  }

  lemma SetIndexThreeOrFour(setSize: nat, uRot: real)
    requires setSize > 0 && 0.0 <= uRot < 1.0
    ensures FinalSetIndex(SetWidth(setSize), Rotations(uRot)) == Some(if uRot < 0.5 then 3 else 4)
  {
    CancelWidth(Rotations(uRot), SetWidth(setSize));
    RotationsFloor(uRot);
  }

  /** The 8000 ms cap never applies: the extra time is under 4000 ms. */
  lemma TotalTimeUncapped(uRot: real)
    requires 0.0 <= uRot < 1.0
    ensures TotalTime(Rotations(uRot)) == BaseTime + (Rotations(uRot) - 3.0) * 2000.0
    ensures BaseTime <= TotalTime(Rotations(uRot)) < BaseTime + 4000.0
  {
  }

  /** More rotations never take less time. */
  lemma TotalTimeMonotone(r1: real, r2: real)
    requires r1 <= r2
    ensures TotalTime(r1) <= TotalTime(r2)
  {
  }

  /** The square boundary at the left edge of the landing square. */
  function LandingOffset(setIndex: int, setSize: nat, target: int): real {
    (setIndex * setSize * SquareWidth + target * SquareWidth) as real
  }

  /**
   * The point under the centre marker lies inside the target square of set 3
   * or 4: between its left edge and the next square.
   */
  lemma LandsInTargetSquare(setSize: nat, target: nat, width: Option<nat>, uPos: real, uRot: real)
    requires setSize > 0 && 0.0 <= uPos < 1.0 && 0.0 <= uRot < 1.0
    ensures var p := SpinPosition(setSize, target, width, uPos, uRot);
      var s := if uRot < 0.5 then 3 else 4;
      p.translateX.Some? &&
      LandingOffset(s, setSize, target) <= CenterPosition(width) - p.translateX.value < LandingOffset(s, setSize, target) + SquareWidth as real
  {
    SetIndexThreeOrFour(setSize, uRot);
  }

  /** The strip position whose square is under the centre marker. */
  function MarkerCell(width: Option<nat>, translateX: real): int {
    ((CenterPosition(width) - translateX) / SquareWidth as real).Floor
  }

  lemma FloorOfCell(base: int, u: real)
    requires 0.0 <= u < 1.0
    ensures (((base * SquareWidth) as real + u * SquareWidth as real) / SquareWidth as real).Floor == base
  {
    var x := ((base * SquareWidth) as real + u * SquareWidth as real) / SquareWidth as real;
    assert x == base as real + u;
  }

  /** The cell of set s holding the target is inside the ten copies and shows the target. */
  lemma CellOfTarget(s: nat, n: nat, target: nat)
    requires s < TotalRepeats && target < n
    ensures 0 <= s * n + target < TotalRepeats * n
    ensures (s * n + target) % n == target
  {
    DivUnique(s * n + target, n, s, target);
    Distribute(n, s, 1);
    MulMonotone(n, s + 1, TotalRepeats);
  }

  /** The point under the marker, in strip coordinates. */
  lemma MarkerPoint(setSize: nat, target: nat, width: Option<nat>, uPos: real, uRot: real)
    requires setSize > 0 && 0.0 <= uPos < 1.0 && 0.0 <= uRot < 1.0
    ensures var p := SpinPosition(setSize, target, width, uPos, uRot);
      var s := if uRot < 0.5 then 3 else 4;
      p.translateX.Some? &&
      CenterPosition(width) - p.translateX.value == ((s * setSize + target) * SquareWidth) as real + uPos * SquareWidth as real
  {
    SetIndexThreeOrFour(setSize, uRot);
    var s := if uRot < 0.5 then 3 else 4;
    assert s * setSize * SquareWidth + target * SquareWidth == (s * setSize + target) * SquareWidth;
  }

  /**
   * The square under the centre marker after a spin is the target square:
   * the marker cell lies within the rendered strip and shows `squares[target]`.
   */
  lemma LandsOnTarget<T>(squares: seq<T>, target: nat, width: Option<nat>, uPos: real, uRot: real)
    requires target < |squares| && 0.0 <= uPos < 1.0 && 0.0 <= uRot < 1.0
    ensures var p := SpinPosition(|squares|, target, width, uPos, uRot);
      p.translateX.Some? &&
      0 <= MarkerCell(width, p.translateX.value) < |Strip(squares)| &&
      Strip(squares)[MarkerCell(width, p.translateX.value)] == squares[target]
  {
    var n := |squares|;
    var s: nat := if uRot < 0.5 then 3 else 4;
    var p := SpinPosition(n, target, width, uPos, uRot);
    MarkerPoint(n, target, width, uPos, uRot);
    var cell := s * n + target;
    FloorOfCell(cell, uPos);
    assert MarkerCell(width, p.translateX.value) == cell;
    CellOfTarget(s, n, target);
    StripShape(squares);
  }
}
