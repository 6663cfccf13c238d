/**
 * The global loading overlay: a nesting counter with an optional message.
 * Every `show` opens one level, every `hide` closes one, and the overlay is
 * active while any level is open.
 */
module GlobalLoader {
  import opened Js

  datatype LoaderState = LoaderState(active: bool, message: Option<string>, count: int)

  /** The provider's initial state. */
  function Idle(): (s: LoaderState)
    ensures !s.active && s.count == 0 && s.message.None?
  {
    LoaderState(false, None, 0)
  }

  /** One more level open; the message is replaced only when one is given (`??`). */
  function Show(prev: LoaderState, message: Option<string>): (s: LoaderState)
    ensures s.active && s.count == prev.count + 1
    ensures message.Some? ==> s.message == message
    ensures message.None? ==> s.message == prev.message
  {
    LoaderState(true, if message.Some? then message else prev.message, prev.count + 1)
  }

  /** One level closed; closing the last one resets to the initial state, dropping the message. */
  function Hide(prev: LoaderState): (s: LoaderState)
    ensures prev.count - 1 <= 0 ==> s == Idle()
    ensures prev.count - 1 > 0 ==> s == prev.(count := prev.count - 1)
  {
    var next := prev.count - 1;
    if next <= 0 then LoaderState(false, None, 0) else prev.(count := next)
  }

  /** Replaces the message (possibly with none); nothing else changes. */
  function SetMessage(prev: LoaderState, message: Option<string>): (s: LoaderState)
    ensures s.active == prev.active && s.count == prev.count && s.message == message
  {
    prev.(message := message)
  }

  /** The overlay is active exactly while a level is open. */
  predicate Inv(s: LoaderState) {
    s.count >= 0 && (s.active <==> s.count > 0)
  }

  datatype Op = ShowOp(message: Option<string>) | HideOp | SetMessageOp(message: Option<string>)

  function Apply(s: LoaderState, op: Op): LoaderState {
    match op
    case ShowOp(m) => Show(s, m)
    case HideOp => Hide(s)
    case SetMessageOp(m) => SetMessage(s, m)
  }

  function Run(s: LoaderState, ops: seq<Op>): LoaderState
    decreases |ops|
  {
    if |ops| == 0 then s else Run(Apply(s, ops[0]), ops[1..])
  }

  lemma ApplyInv(s: LoaderState, op: Op)
    requires Inv(s)
    ensures Inv(Apply(s, op))
  {
  }

  /** Every state reachable from the initial one keeps the invariant. */
  lemma {:induction false} RunInv(s: LoaderState, ops: seq<Op>)
    requires Inv(s)
    ensures Inv(Run(s, ops))
    decreases |ops|
  {
    if |ops| > 0 {
      ApplyInv(s, ops[0]);
      RunInv(Apply(s, ops[0]), ops[1..]);
    }
  }

  lemma ReachableInv(ops: seq<Op>)
    ensures Inv(Run(Idle(), ops))
    ensures Run(Idle(), ops).count >= 0
    ensures Run(Idle(), ops).active <==> Run(Idle(), ops).count > 0
  {
    RunInv(Idle(), ops);
  }

  function Shows(n: nat): (ops: seq<Op>)
    ensures |ops| == n
  {
    if n == 0 then [] else [ShowOp(None)] + Shows(n - 1)
  }

  function Hides(n: nat): (ops: seq<Op>)
    ensures |ops| == n
  {
    if n == 0 then [] else [HideOp] + Hides(n - 1)
  }

  lemma {:induction false} RunConcat(s: LoaderState, a: seq<Op>, b: seq<Op>)
    ensures Run(s, a + b) == Run(Run(s, a), b)
    decreases |a|
  {
    if |a| > 0 {
      assert (a + b)[1..] == a[1..] + b;
      RunConcat(Apply(s, a[0]), a[1..], b);
    } else {
      assert a + b == b;
    }
  }

  lemma {:induction false} ShowsCount(s: LoaderState, n: nat)
    ensures Run(s, Shows(n)).count == s.count + n
    ensures n > 0 ==> Run(s, Shows(n)).active
    ensures Run(s, Shows(n)).message == s.message
    decreases n
  {
    if n > 0 {
      ShowsCount(Show(s, None), n - 1);
    }
  }

  lemma {:induction false} HidesCount(s: LoaderState, n: nat)
    requires Inv(s) && n <= s.count
    ensures Run(s, Hides(n)).count == s.count - n
    ensures Inv(Run(s, Hides(n)))
    decreases n
  {
    if n > 0 {
      HidesCount(Hide(s), n - 1);
    }
  }

  /** n shows followed by n hides, from any valid state, returns to the same count and activity. */
  lemma ShowsThenHides(s: LoaderState, n: nat)
    requires Inv(s)
    ensures Run(s, Shows(n) + Hides(n)).count == s.count
    ensures Run(s, Shows(n) + Hides(n)).active == s.active
  {
    RunConcat(s, Shows(n), Hides(n));
    ShowsCount(s, n);
    var mid := Run(s, Shows(n));
    HidesCount(mid, n);
  }

  /** From the initial state, n shows and n hides leave the overlay inactive. */
  lemma BalancedIsInactive(n: nat)
    ensures !Run(Idle(), Shows(n) + Hides(n)).active
    ensures Run(Idle(), Shows(n) + Hides(n)).count == 0
  {
    ShowsThenHides(Idle(), n);
  }

  /** A hide while idle keeps the count at 0 rather than going negative. */
  lemma HideWhileIdle(s: LoaderState)
    requires Inv(s) && !s.active
    ensures Hide(s) == Idle()
  {
  }

  /**
   * A show undone by a hide: with levels already open, only the message may
   * have changed; with none open, the state is the initial one.
   */
  lemma ShowHide(s: LoaderState, message: Option<string>)
    requires Inv(s)
    ensures s.count > 0 ==> Hide(Show(s, message)) == s.(message := if message.Some? then message else s.message)
    ensures s.count == 0 ==> Hide(Show(s, message)) == Idle()
  {
  }
  /** The overlay's message line: shown only on an active overlay with a non-empty message. */
  function OverlayMessage(s: LoaderState): (line: Option<string>)
    ensures line.Some? <==> s.active && Truthy(s.message)
    ensures line.Some? ==> line == s.message
  {
    if s.active && Truthy(s.message) then s.message else None
  }

  /** Once every level is closed the overlay shows nothing, whatever messages were set on the way. */
  lemma ClosedOverlayIsBlank(ops: seq<Op>)
    requires Run(Idle(), ops).count == 0
    ensures OverlayMessage(Run(Idle(), ops)).None?
  {
    ReachableInv(ops);
  }
}
