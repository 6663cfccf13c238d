/**
 * The spinner's state machine: a spin request validates the typed winner,
 * picks one of the winner's squares and schedules three timers (apply the
 * offset after 100 ms, stop spinning after the animation time, reveal the
 * winner 500 ms later); "try again" clears the result.
 *
 * Timers are records in a pending list; any pending timer may fire next, which
 * covers every interleaving the real clock allows. Each timer keeps what its
 * closure captured: the winner id, the target index and the squares of the
 * render that scheduled it.
 */
module SpinSession {
  import opened Js
  import opened Types
  import opened SquareLayout
  import opened Landing

  /** A scheduled `setTimeout` callback with its delay in milliseconds. */
  datatype Timer =
    | ApplyOffset(winnerId: int, target: int, strip: seq<Square>, delay: real)
    | CompleteSpin(winnerId: int, delay: real)
    | RevealWinner(winnerId: int, delay: real)

  /** The pre-roll before the offset is applied, and the settling pause before the reveal. */
  const OffsetDelay: real := 100.0
  const RevealDelay: real := 500.0

  /** The hook's state; `translateX` is `None` for `NaN`. */
  datatype Session = Session(
    isSpinning: bool,
    translateX: Option<real>,
    winnerInput: string,
    winner: Option<int>,
    squares: seq<Square>,
    showWinner: bool,
    pending: seq<Timer>)

  function Initial(): (s: Session)
    ensures !s.isSpinning && s.winner.None? && !s.showWinner && s.pending == []
  {
    Session(false, Some(0.0), "", None, [], false, [])
  }

  /** A session together with the text of the `alert` it raised, if any. */
  datatype Outcome = Outcome(session: Session, alert: Option<string>)

  function InvalidWinnerAlert(playerCount: nat): string {
    "Please enter a valid player number (1-" + IntToDecimal(playerCount) + ")"
  }

  function NoSquaresAlert(winnerId: int): string {
    "Player " + IntToDecimal(winnerId) + " has no squares!"
  }

  /** `!winnerId || winnerId < 1 || winnerId > players.length` fails: a number in 1..playerCount. */
  predicate AcceptedWinner(parsed: Option<int>, playerCount: nat) {
    parsed.Some? && parsed.value != 0 && 1 <= parsed.value <= playerCount
  }

  /**
   * `handleSpin`: ignored while spinning; an alert for an input that is not a
   * player number; otherwise the spin starts (and stops at once, with an alert,
   * when the winner has no squares).
   */
  function HandleSpin(s: Session, playerCount: nat, uPick: real): (o: Outcome)
    requires 0.0 <= uPick < 1.0
    ensures s.isSpinning ==> o == Outcome(s, None)
    ensures !s.isSpinning && !AcceptedWinner(ParseInt(s.winnerInput), playerCount) ==>
      o == Outcome(s, Some(InvalidWinnerAlert(playerCount)))
    ensures !s.isSpinning && AcceptedWinner(ParseInt(s.winnerInput), playerCount) ==>
      var id := ParseInt(s.winnerInput).value;
      o.session.winner.None? && !o.session.showWinner && o.session.translateX == Some(0.0) &&
      o.session.squares == s.squares && o.session.winnerInput == s.winnerInput &&
      (CountOf(s.squares, id) == 0 ==>
        o.alert == Some(NoSquaresAlert(id)) && !o.session.isSpinning && o.session.pending == s.pending) &&
      (CountOf(s.squares, id) > 0 ==>
        o.alert.None? && o.session.isSpinning && |o.session.pending| == |s.pending| + 1 &&
        o.session.pending[..|s.pending|] == s.pending &&
        o.session.pending[|s.pending|].ApplyOffset? &&
        o.session.pending[|s.pending|].winnerId == id &&
        o.session.pending[|s.pending|].strip == s.squares &&
        o.session.pending[|s.pending|].delay == OffsetDelay)
  {
    if s.isSpinning then Outcome(s, None)
    else
      var parsed := ParseInt(s.winnerInput);
      if !AcceptedWinner(parsed, playerCount) then Outcome(s, Some(InvalidWinnerAlert(playerCount)))
      else
        var id := parsed.value;
        var reset := s.(winner := None, showWinner := false, translateX := Some(0.0));
        var mine := SquaresOf(s.squares, id);
        if |mine| == 0 then Outcome(reset.(isSpinning := false), Some(NoSquaresAlert(id)))
        else
          var target := mine[Pick(uPick, |mine|)].squareIndex;
          Outcome(reset.(isSpinning := true, pending := s.pending + [ApplyOffset(id, target, s.squares, OffsetDelay)]), None)
  }

  function Remove(ts: seq<Timer>, k: nat): (r: seq<Timer>)
    requires k < |ts|
    ensures |r| == |ts| - 1
  {
    ts[..k] + ts[k + 1..]
  }

  /** Fires the k-th pending timer; the draws are the two `Math.random()` calls of the position. */
  function Fire(s: Session, k: nat, width: Option<nat>, uPos: real, uRot: real): (t: Session)
    requires k < |s.pending| && 0.0 <= uPos < 1.0 && 0.0 <= uRot < 1.0
    ensures t.squares == s.squares && t.winnerInput == s.winnerInput
    ensures s.pending[k].ApplyOffset? ==>
      var plan := SpinPosition(|s.pending[k].strip|, s.pending[k].target, width, uPos, uRot);
      t.translateX == plan.translateX &&
      t.isSpinning == s.isSpinning && t.winner == s.winner && t.showWinner == s.showWinner &&
      t.pending == Remove(s.pending, k) + [CompleteSpin(s.pending[k].winnerId, plan.totalTime)]
    ensures s.pending[k].CompleteSpin? ==>
      !t.isSpinning && t.translateX == s.translateX && t.winner == s.winner && t.showWinner == s.showWinner &&
      t.pending == Remove(s.pending, k) + [RevealWinner(s.pending[k].winnerId, RevealDelay)]
    ensures s.pending[k].RevealWinner? ==>
      t.winner == Some(s.pending[k].winnerId) && t.showWinner &&
      t.isSpinning == s.isSpinning && t.translateX == s.translateX &&
      t.pending == Remove(s.pending, k)
  {
    var rest := Remove(s.pending, k);
    match s.pending[k]
    case ApplyOffset(id, target, strip, _) =>
      var plan := SpinPosition(|strip|, target, width, uPos, uRot);
      s.(translateX := plan.translateX, pending := rest + [CompleteSpin(id, plan.totalTime)])
    case CompleteSpin(id, _) =>
      s.(isSpinning := false, pending := rest + [RevealWinner(id, RevealDelay)])
    case RevealWinner(id, _) =>
      s.(winner := Some(id), showWinner := true, pending := rest)
  }

  /** `handleTryAgain`: back to the start position with no winner and an empty input. */
  function HandleTryAgain(s: Session): (t: Session)
    ensures t.translateX == Some(0.0) && t.winner.None? && t.winnerInput == "" && !t.showWinner
    ensures t.isSpinning == s.isSpinning && t.squares == s.squares && t.pending == s.pending
  {
    s.(translateX := Some(0.0), winner := None, winnerInput := "", showWinner := false)
  }

  /** Every event the hook reacts to. */
  datatype Event =
    | Spin(playerCount: nat, uPick: real)
    | FireTimer(k: nat, width: Option<nat>, uPos: real, uRot: real)
    | TryAgain
    | SetInput(text: string)
    | Regenerate(squares: seq<Square>)

  /**
   * The events that can occur in a session: draws in [0, 1), an existing timer,
   * and regenerated squares as `generateSquares` numbers them.
   */
  predicate ValidEvent(s: Session, e: Event) {
    match e
    case Spin(_, u) => 0.0 <= u < 1.0
    case FireTimer(k, _, uPos, uRot) => k < |s.pending| && 0.0 <= uPos < 1.0 && 0.0 <= uRot < 1.0
    case TryAgain => true
    case SetInput(_) => true
    case Regenerate(squares) => Stamped(squares)
  }

  function Step(s: Session, e: Event): Session
    requires ValidEvent(s, e)
  {
    match e
    case Spin(n, u) => HandleSpin(s, n, u).session
    case FireTimer(k, width, uPos, uRot) => Fire(s, k, width, uPos, uRot)
    case TryAgain => HandleTryAgain(s)
    case SetInput(text) => s.(winnerInput := text)
    case Regenerate(squares) => s.(squares := squares)
  }

  // ---------------------------------------------------------------------------
  // The invariant

  predicate IsSpinTimer(t: Timer) {
    t.ApplyOffset? || t.CompleteSpin?
  }

  /** The number of pending timers that belong to a running spin. */
  function InFlight(ts: seq<Timer>): nat {
    if |ts| == 0 then 0 else (if IsSpinTimer(ts[0]) then 1 else 0) + InFlight(ts[1..])
  }

  lemma {:induction false} InFlightConcat(a: seq<Timer>, b: seq<Timer>)
    ensures InFlight(a + b) == InFlight(a) + InFlight(b)
  {
    if |a| > 0 {
      InFlightConcat(a[1..], b);
      assert (a + b)[1..] == a[1..] + b;
    } else {
      assert a + b == b;
    }
  }

  lemma {:induction false} InFlightRemove(ts: seq<Timer>, k: nat)
    requires k < |ts|
    ensures InFlight(Remove(ts, k)) + (if IsSpinTimer(ts[k]) then 1 else 0) == InFlight(ts)
    decreases k
  {
    if k == 0 {
      assert Remove(ts, 0) == ts[1..];
    } else {
      var r := Remove(ts[1..], k - 1);
      InFlightRemove(ts[1..], k - 1);
      assert Remove(ts, k) == [ts[0]] + r;
      assert ([ts[0]] + r)[1..] == r;
    }
  }

  /** An offset timer aims at a square of its winner in the strip it captured. */
  predicate AimsAtWinner(t: Timer) {
    t.ApplyOffset? ==> 0 <= t.target < |t.strip| && t.strip[t.target].playerId == t.winnerId
  }

  /**
   * A spin is in flight exactly while the spinner spins, every offset timer aims
   * at a square of its winner, and the squares are numbered by position.
   */
  predicate Inv(s: Session) {
    Stamped(s.squares) &&
    InFlight(s.pending) == (if s.isSpinning then 1 else 0) &&
    forall k :: 0 <= k < |s.pending| ==> AimsAtWinner(s.pending[k])
  }

  lemma InitialInv()
    ensures Inv(Initial())
  {
  }

  /** On a numbered strip, the square a square names as its index is that square. */
  lemma PickedSquareIsWinners(squares: seq<Square>, id: int, j: nat)
    requires Stamped(squares) && j < |SquaresOf(squares, id)|
    ensures var target := SquaresOf(squares, id)[j].squareIndex;
      0 <= target < |squares| && squares[target].playerId == id
  {
    var sq := SquaresOf(squares, id)[j];
    assert sq in squares;
    var p :| 0 <= p < |squares| && squares[p] == sq;
  }

  lemma HandleSpinInv(s: Session, playerCount: nat, uPick: real)
    requires Inv(s) && 0.0 <= uPick < 1.0
    ensures Inv(HandleSpin(s, playerCount, uPick).session)
  {
    var t := HandleSpin(s, playerCount, uPick).session;
    if !s.isSpinning && AcceptedWinner(ParseInt(s.winnerInput), playerCount) {
      var id := ParseInt(s.winnerInput).value;
      var mine := SquaresOf(s.squares, id);
      if |mine| > 0 {
        var timer := t.pending[|s.pending|];
        PickedSquareIsWinners(s.squares, id, Pick(uPick, |mine|));
        assert AimsAtWinner(timer);
        InFlightConcat(s.pending, [timer]);
        assert t.pending == s.pending + [timer];
      }
    }
  }

  lemma FireInv(s: Session, k: nat, width: Option<nat>, uPos: real, uRot: real)
    requires Inv(s) && k < |s.pending| && 0.0 <= uPos < 1.0 && 0.0 <= uRot < 1.0
    ensures Inv(Fire(s, k, width, uPos, uRot))
  {
    var rest := Remove(s.pending, k);
    InFlightRemove(s.pending, k);
    var t := Fire(s, k, width, uPos, uRot);
    forall i | 0 <= i < |rest|
      ensures AimsAtWinner(rest[i])
    {
      if i < k {
        assert rest[i] == s.pending[i];
      } else {
        assert rest[i] == s.pending[i + 1];
      }
    }
    match s.pending[k]
    case ApplyOffset(_, _, _, _) =>
      var last := t.pending[|t.pending| - 1];
      assert t.pending == rest + [last];
      InFlightConcat(rest, [last]);
    case CompleteSpin(_, _) =>
      var last := t.pending[|t.pending| - 1];
      assert t.pending == rest + [last];
      InFlightConcat(rest, [last]);
    case RevealWinner(_, _) =>
  }

  /** Every event keeps the invariant. */
  lemma StepInv(s: Session, e: Event)
    requires Inv(s) && ValidEvent(s, e)
    ensures Inv(Step(s, e))
  {
    match e
    case Spin(n, u) => HandleSpinInv(s, n, u);
    case FireTimer(k, width, uPos, uRot) => FireInv(s, k, width, uPos, uRot);
    case TryAgain =>
    case SetInput(_) =>
    case Regenerate(_) =>
  }

  /** A session after a sequence of events, when every event can occur. */
  function Run(s: Session, es: seq<Event>): Option<Session>
    decreases |es|
  {
    if |es| == 0 then Some(s)
    else if ValidEvent(s, es[0]) then Run(Step(s, es[0]), es[1..])
    else None
  }

  /** Every state reachable from the initial one satisfies the invariant. */
  lemma {:induction false} RunInv(s: Session, es: seq<Event>)
    requires Inv(s) && Run(s, es).Some?
    ensures Inv(Run(s, es).value)
    decreases |es|
  {
    if |es| > 0 {
      StepInv(s, es[0]);
      RunInv(Step(s, es[0]), es[1..]);
    }
  }

  /** A spin in flight iff the spinner spins: one spin at a time. */
  lemma SpinningIffInFlight(es: seq<Event>)
    requires Run(Initial(), es).Some?
    ensures Run(Initial(), es).value.isSpinning <==> InFlight(Run(Initial(), es).value.pending) == 1
    ensures InFlight(Run(Initial(), es).value.pending) <= 1
  {
    InitialInv();
    RunInv(Initial(), es);
  }

  // ---------------------------------------------------------------------------
  // Landing and completion

  /**
   * Applying the offset stops the strip with a square of the winner under the
   * centre marker, in the strip the spin was started on.
   */
  lemma OffsetLandsOnWinner(s: Session, k: nat, width: Option<nat>, uPos: real, uRot: real)
    requires Inv(s) && k < |s.pending| && s.pending[k].ApplyOffset?
    requires 0.0 <= uPos < 1.0 && 0.0 <= uRot < 1.0
    ensures var t := Fire(s, k, width, uPos, uRot);
      var strip := s.pending[k].strip;
      t.translateX.Some? &&
      0 <= MarkerCell(width, t.translateX.value) < |Strip(strip)| &&
      Strip(strip)[MarkerCell(width, t.translateX.value)].playerId == s.pending[k].winnerId
  {
    assert AimsAtWinner(s.pending[k]);
    LandsOnTarget(s.pending[k].strip, s.pending[k].target, width, uPos, uRot);
  }

  /**
   * From an idle session, a valid spin whose winner has squares, followed by
   * its three timers in order, ends with that winner shown and the spinner
   * stopped.
   */
  lemma SpinEndsWithWinner(s: Session, playerCount: nat, uPick: real, width: Option<nat>, uPos: real, uRot: real)
    requires !s.isSpinning && s.pending == []
    requires AcceptedWinner(ParseInt(s.winnerInput), playerCount)
    requires CountOf(s.squares, ParseInt(s.winnerInput).value) > 0
    requires 0.0 <= uPick < 1.0 && 0.0 <= uPos < 1.0 && 0.0 <= uRot < 1.0
    ensures var s1 := HandleSpin(s, playerCount, uPick).session;
      |s1.pending| == 1 &&
      var s2 := Fire(s1, 0, width, uPos, uRot);
      |s2.pending| == 1 &&
      var s3 := Fire(s2, 0, width, uPos, uRot);
      |s3.pending| == 1 && !s3.isSpinning &&
      var s4 := Fire(s3, 0, width, uPos, uRot);
      s4.winner == ParseInt(s.winnerInput) && s4.showWinner && !s4.isSpinning && s4.pending == []
  {
  }

  // ---------------------------------------------------------------------------
  // The stale reveal

  /**
   * The reveal timer of a finished spin is never cancelled: a new spin started
   * in the 500 ms before it fires shows the previous winner while spinning.
   */
  lemma StaleRevealDuringSpin()
    ensures var s0 := Initial().(winnerInput := "1", squares := [Square(1, "Alice", "blue", 0)]);
      var s1 := HandleSpin(s0, 1, 0.0).session;
      |s1.pending| == 1 &&
      var s2 := Fire(s1, 0, None, 0.0, 0.0);
      |s2.pending| == 1 &&
      var s3 := Fire(s2, 0, None, 0.0, 0.0);
      var s4 := HandleSpin(s3, 1, 0.0).session;
      |s4.pending| == 2 && s4.pending[0].RevealWinner? &&
      var s5 := Fire(s4, 0, None, 0.0, 0.0);
      s5.isSpinning && s5.showWinner && s5.winner == Some(1)
  {
    var s0 := Initial().(winnerInput := "1", squares := [Square(1, "Alice", "blue", 0)]);
    assert ParseInt("1") == Some(1) by {
      assert DigitPrefix("1") == "1";
    }
    assert SquaresOf(s0.squares, 1) == s0.squares;
  }

  /** `handleSpin` that also clears the pending reveal of the previous spin. */
  function HandleSpinCancellingReveal(s: Session, playerCount: nat, uPick: real): (o: Outcome)
    requires 0.0 <= uPick < 1.0
    ensures !s.isSpinning ==> forall k :: 0 <= k < |o.session.pending| ==> !o.session.pending[k].RevealWinner?
  {
    var o := HandleSpin(s, playerCount, uPick);
    if s.isSpinning then o
    else o.(session := o.session.(pending := WithoutReveals(o.session.pending)))
  }

  function WithoutReveals(ts: seq<Timer>): (r: seq<Timer>)
    ensures forall k :: 0 <= k < |r| ==> !r[k].RevealWinner?
    ensures InFlight(r) == InFlight(ts)
    ensures forall t :: t in r <==> t in ts && !t.RevealWinner?
  {
    if |ts| == 0 then []
    else if ts[0].RevealWinner? then WithoutReveals(ts[1..])
    else [ts[0]] + WithoutReveals(ts[1..])
  }

  /** While spinning, no winner is displayed and no reveal is pending. */
  predicate Calm(s: Session) {
    s.isSpinning ==> !s.showWinner && forall k :: 0 <= k < |s.pending| ==> !s.pending[k].RevealWinner?
  }

  function StepCancelling(s: Session, e: Event): Session
    requires ValidEvent(s, e)
  {
    match e
    case Spin(n, u) => HandleSpinCancellingReveal(s, n, u).session
    case _ => Step(s, e)
  }

  /** With the reveal cancelled, every event keeps both the invariant and calm. */
  lemma StepCancellingCalm(s: Session, e: Event)
    requires Inv(s) && Calm(s) && ValidEvent(s, e)
    ensures Inv(StepCancelling(s, e)) && Calm(StepCancelling(s, e))
  {
    var t := StepCancelling(s, e);
    match e
    case Spin(n, u) =>
      HandleSpinInv(s, n, u);
      var o := HandleSpin(s, n, u).session;
      if !s.isSpinning {
        forall k | 0 <= k < |t.pending|
          ensures AimsAtWinner(t.pending[k])
        {
          assert t.pending[k] in o.pending;
        }
      }
    case FireTimer(k, width, uPos, uRot) =>
      FireInv(s, k, width, uPos, uRot);
      if s.isSpinning && t.isSpinning {
        var rest := Remove(s.pending, k);
        forall i | 0 <= i < |t.pending|
          ensures !t.pending[i].RevealWinner?
        {
          if i < |rest| {
            if i < k {
              assert rest[i] == s.pending[i];
            } else {
              assert rest[i] == s.pending[i + 1];
            }
          }
        }
      }
    case TryAgain =>
    case SetInput(_) =>
    case Regenerate(_) =>
  }
}
