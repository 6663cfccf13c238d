/**
 * What the spinner component derives from the hook's state: the per-player
 * square count and percentage, the colour classes of a square, and the label,
 * enablement and action of the main button.
 */
module SpinnerView {
  import opened Js
  import opened Arith
  import opened Types
  import opened SpinSession

  // ---------------------------------------------------------------------------
  // Occupancy

  /** `Math.round(count / total * 100)` when there are squares, else 0. */
  function Percentage(count: nat, total: nat): (p: nat)
    ensures total == 0 ==> p == 0
    ensures total > 0 ==> 2 * total * p <= 200 * count + total < 2 * total * (p + 1)
  {
    if total > 0 then (200 * count + total) / (2 * total) else 0
  }

  /** A player's displayed count and percentage. */
  datatype Occupancy = Occupancy(count: nat, percentage: nat)

  function OccupancyOf(squares: seq<Square>, id: int): (o: Occupancy)
    ensures o.count == multiset(SquareIds(squares))[id]
    ensures o.count <= |squares|
  {
    CountIsMultiplicity(squares, id);
    var count := CountOf(squares, id);
    Occupancy(count, Percentage(count, |squares|))
  }

  lemma PercentageAtMostHundred(count: nat, total: nat)
    requires count <= total
    ensures Percentage(count, total) <= 100
  {
    if total > 0 {
      var k := Percentage(count, total);
      assert 2 * total * k <= 200 * count + total;
      MulMonotone(200, count, total);
      if k > 100 {
        MulMonotone(2 * total, 101, k);
        assert false;
      }
    }
  }

  /** The percentage is within [0, 100], 0 for a player with no squares and 100 for a player owning them all. */
  lemma OccupancyPercentageBounds(squares: seq<Square>, id: int)
    ensures OccupancyOf(squares, id).percentage <= 100
    ensures OccupancyOf(squares, id).count == 0 ==> OccupancyOf(squares, id).percentage == 0
    ensures |squares| > 0 && OccupancyOf(squares, id).count == |squares| ==> OccupancyOf(squares, id).percentage == 100
  {
    var o := OccupancyOf(squares, id);
    PercentageAtMostHundred(o.count, |squares|);
    if |squares| > 0 {
      PercentageOfAll(|squares|);
    }
  }

  lemma PercentageOfAll(t: nat)
    requires t > 0
    ensures Percentage(t, t) == 100
  {
    DivUnique(200 * t + t, 2 * t, 100, t);
  }

  // ---------------------------------------------------------------------------
  // Colours

  /** The colours with their own Tailwind classes. */
  const KnownColors: seq<string> := ["blue", "red", "green", "yellow", "purple", "orange", "pink", "indigo"]

  function ColorPair(c: string): string {
    "bg-" + c + "-500 border-" + c + "-700"
  }

  /** `getColorClasses`: the class pair of a known colour, gray for anything else. */
  function ColorClasses(color: string): (r: string)
    ensures color in KnownColors ==> r == ColorPair(color)
    ensures color !in KnownColors ==> r == ColorPair("gray")
  {
    if color in KnownColors then ColorPair(color) else ColorPair("gray")
  }

  /** The text up to the first space (`split(" ")[0]`). */
  function FirstWord(s: string): (w: string)
    ensures |w| <= |s| && w == s[..|w|]
    ensures ' ' !in w
    ensures |w| < |s| ==> s[|w|] == ' '
  {
    if |s| == 0 || s[0] == ' ' then "" else [s[0]] + FirstWord(s[1..])
  }

  lemma FirstWordOf(a: string, b: string)
    requires ' ' !in a
    ensures FirstWord(a + " " + b) == a
  {
    if |a| > 0 {
      assert (a + " " + b)[1..] == a[1..] + " " + b;
      FirstWordOf(a[1..], b);
    }
  }

  /** The swatch next to a player: the background class of its colour. */
  function Swatch(color: string): string {
    FirstWord(ColorClasses(color))
  }

  lemma ColorHasNoSpace(c: string)
    requires c in KnownColors || c == "gray"
    ensures ' ' !in c
  {
  }

  lemma BackgroundHasNoSpace(c: string)
    requires ' ' !in c
    ensures ' ' !in "bg-" + c + "-500"
  {
    var s := "bg-" + c + "-500";
    forall i | 0 <= i < |s|
      ensures s[i] != ' '
    {
      if 3 <= i < 3 + |c| {
        assert s[i] == c[i - 3];
      }
    }
  }

  /** The swatch is `bg-<colour>-500` for the eight known colours and `bg-gray-500` otherwise. */
  lemma SwatchIsBackground(color: string)
    ensures color in KnownColors ==> Swatch(color) == "bg-" + color + "-500"
    ensures color !in KnownColors ==> Swatch(color) == "bg-gray-500"
  {
    var c := if color in KnownColors then color else "gray";
    ColorHasNoSpace(c);
    BackgroundHasNoSpace(c);
    assert ColorPair(c) == ("bg-" + c + "-500") + " " + ("border-" + c + "-700");
    FirstWordOf("bg-" + c + "-500", "border-" + c + "-700");
  }

  // ---------------------------------------------------------------------------
  // The main button

  /** `winner` in a boolean position: a non-zero number. */
  predicate HasWinner(s: Session) {
    s.winner.Some? && s.winner.value != 0
  }

  datatype Action = StartSpin | TryAgainAction

  function ButtonLabel(s: Session): (text: string)
    ensures text == "SPINNING..." <==> s.isSpinning
    ensures !s.isSpinning ==> (text == "TRY AGAIN" <==> HasWinner(s))
    ensures text == "SPINNING..." || text == "TRY AGAIN" || text == "START SPIN"
  {
    if s.isSpinning then "SPINNING..." else if HasWinner(s) then "TRY AGAIN" else "START SPIN"
  }

  function ButtonDisabled(s: Session): (disabled: bool)
    ensures s.isSpinning ==> disabled
    ensures !s.isSpinning && HasWinner(s) ==> !disabled
    ensures !s.isSpinning && !HasWinner(s) ==> (disabled <==> s.winnerInput == "")
  {
    s.isSpinning || (!HasWinner(s) && s.winnerInput == "")
  }

  function ButtonAction(s: Session): (action: Action)
    ensures action == TryAgainAction <==> HasWinner(s)
  {
    if HasWinner(s) then TryAgainAction else StartSpin
  }

  /** The label names the action a click performs whenever the button is enabled. */
  lemma LabelMatchesAction(s: Session)
    requires !ButtonDisabled(s)
    ensures ButtonAction(s) == StartSpin <==> ButtonLabel(s) == "START SPIN"
    ensures ButtonAction(s) == TryAgainAction <==> ButtonLabel(s) == "TRY AGAIN"
  {
  }

  /**
   * In every session reachable from the start, the button is disabled while a
   * spin is in flight, so a click can never start a second spin.
   */
  lemma InFlightDisablesButton(es: seq<Event>)
    requires Run(Initial(), es).Some?
    ensures InFlight(Run(Initial(), es).value.pending) == 1 ==> ButtonDisabled(Run(Initial(), es).value)
    ensures !ButtonDisabled(Run(Initial(), es).value) ==> InFlight(Run(Initial(), es).value.pending) == 0
  {
    SpinningIffInFlight(es);
  }

  /** An enabled "START SPIN" click is never swallowed by the spinning guard. */
  lemma EnabledSpinIsHandled(s: Session, playerCount: nat, uPick: real)
    requires !ButtonDisabled(s) && ButtonAction(s) == StartSpin && 0.0 <= uPick < 1.0
    ensures HandleSpin(s, playerCount, uPick).session != s || HandleSpin(s, playerCount, uPick).alert.Some?
  {
    var o := HandleSpin(s, playerCount, uPick);
    if AcceptedWinner(ParseInt(s.winnerInput), playerCount) && o.alert.None? {
      assert o.session.isSpinning;
    }
  }

  /** The winner input is shown while there is no winner; the banner while a winner is shown. */
  function InputVisible(s: Session): bool {
    !HasWinner(s)
  }

  function BannerVisible(s: Session): bool {
    HasWinner(s) && s.showWinner
  }

  /** Try again always brings back the input and the "START SPIN" label on a still spinner. */
  lemma TryAgainRestoresStart(s: Session)
    requires !s.isSpinning
    ensures InputVisible(HandleTryAgain(s)) && !BannerVisible(HandleTryAgain(s))
    ensures ButtonLabel(HandleTryAgain(s)) == "START SPIN" && ButtonDisabled(HandleTryAgain(s))
  {
  }
}
