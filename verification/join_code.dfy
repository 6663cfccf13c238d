/**
 * Entering a lobby code on the home page: the modal's hidden input, paste,
 * key and backspace handling, the six digit slots, and the page's sanitiser,
 * submit guard and close reset. Every change of the code goes through the
 * page's sanitiser, so the code is always at most six digits.
 */
module JoinCode {
  import opened Js
  import opened Lobby

  const MaxDigits: nat := 6

  // ---------------------------------------------------------------------------
  // Sanitising

  /** `s.replace(/\D/g, "")`: the digits of s, in order. */
  function DigitsOf(s: string): (d: string)
    ensures |d| <= |s| && AllDigits(d)
  {
    if |s| == 0 then ""
    else if IsDigit(s[0]) then [s[0]] + DigitsOf(s[1..])
    else DigitsOf(s[1..])
  }

  lemma {:induction false} DigitsOfConcat(a: string, b: string)
    ensures DigitsOf(a + b) == DigitsOf(a) + DigitsOf(b)
  {
    if |a| > 0 {
      assert (a + b)[1..] == a[1..] + b;
      DigitsOfConcat(a[1..], b);
    } else {
      assert a + b == b;
    }
  }

  /** A string of digits is its own digit subsequence; a string without digits has none. */
  lemma {:induction false} DigitsOfDigits(s: string)
    ensures AllDigits(s) <==> DigitsOf(s) == s
  {
    if |s| > 0 {
      DigitsOfDigits(s[1..]);
      if !IsDigit(s[0]) {
        assert |DigitsOf(s)| < |s|;
      }
    }
  }

  /** `onChangeCode`: the digits of the typed value, cut to six. */
  function Sanitize(v: string): (c: string)
    ensures AllDigits(c) && |c| <= MaxDigits
    ensures |c| == Min(MaxDigits, |DigitsOf(v)|) && c == DigitsOf(v)[..|c|]
  {
    var d := DigitsOf(v);
    if |d| <= MaxDigits then d else d[..MaxDigits]
  }

  /** A well-formed code: at most six digits. */
  predicate ValidCode(c: string) {
    AllDigits(c) && |c| <= MaxDigits
  }

  /** Sanitising leaves exactly the well-formed codes unchanged. */
  lemma SanitizeFixes(c: string)
    ensures Sanitize(c) == c <==> ValidCode(c)
  {
    DigitsOfDigits(c);
  }

  /** Sanitising twice is sanitising once. */
  lemma SanitizeIdempotent(v: string)
    ensures Sanitize(Sanitize(v)) == Sanitize(v)
  {
    SanitizeFixes(Sanitize(v));
  }

  /** Non-digits typed anywhere are ignored: adding them around a value does not change its code. */
  lemma SanitizeIgnoresNonDigits(a: string, v: string, b: string)
    requires DigitsOf(a) == "" && DigitsOf(b) == ""
    ensures Sanitize(a + v + b) == Sanitize(v)
  {
    DigitsOfConcat(a + v, b);
    DigitsOfConcat(a, v);
  }

  // ---------------------------------------------------------------------------
  // The home page's modal state

  datatype JoinState = JoinState(showJoinModal: bool, joinCode: string)

  function Home(): JoinState {
    JoinState(false, "")
  }

  /** The JOIN LOBBY menu button. */
  function OpenModal(s: JoinState): (r: JoinState)
    ensures r.showJoinModal && r.joinCode == s.joinCode
  {
    s.(showJoinModal := true)
  }

  function ChangeCode(s: JoinState, v: string): (r: JoinState)
    ensures r.showJoinModal == s.showJoinModal && ValidCode(r.joinCode)
  {
    s.(joinCode := Sanitize(v))
  }

  /** `onClose`: the modal is hidden and the code cleared. */
  function CloseModal(s: JoinState): (r: JoinState)
    ensures !r.showJoinModal && r.joinCode == ""
  {
    JoinState(false, "")
  }

  /** `onSubmit`: the route to navigate to, only for a six-character code. */
  function SubmitRoute(code: string): (route: Option<string>)
    ensures route.Some? <==> |code| == MaxDigits
    ensures route.Some? ==> StartsWith(route.value, "/lobby?code=") && route.value[12..] == code
  {
    if |code| == MaxDigits then Some("/lobby?code=" + code) else None
  }

  /** The `code` query parameter of a `/lobby?code=` route. */
  function QueryCode(route: string): Option<string> {
    if StartsWith(route, "/lobby?code=") then Some(route[12..]) else None
  }

  /** A submitted code reaches the lobby page unchanged and is shown there as it was typed. */
  lemma SubmittedCodeShownInLobby(code: string)
    requires ValidCode(code) && |code| == MaxDigits
    ensures SubmitRoute(code).Some?
    ensures QueryCode(SubmitRoute(code).value) == Some(code)
    ensures LobbyCode(QueryCode(SubmitRoute(code).value)) == code
  {
    LongCodeUnchanged(code);
  }

  /** `displayName`: `@username` when there is a username, else the first name, else "Guest". */
  function DisplayName(user: Option<TgUser>): (name: string)
    ensures user.Some? && Truthy(user.value.username) ==> name == "@" + user.value.username.value
    ensures user.Some? && !Truthy(user.value.username) && user.value.firstName != "" ==> name == user.value.firstName
    ensures user.None? || (!Truthy(user.value.username) && user.value.firstName == "") ==> name == "Guest"
  {
    if user.Some? && Truthy(user.value.username) then "@" + user.value.username.value
    else if user.Some? && user.value.firstName != "" then user.value.firstName
    else "Guest"
  }

  // ---------------------------------------------------------------------------
  // The modal's controls

  /** `code.slice(0, -1)`: the code without its last character. */
  function DropLast(code: string): (r: string)
    ensures |code| > 0 ==> r == code[..|code| - 1]
    ensures |code| == 0 ==> r == ""
  {
    if |code| == 0 then "" else code[..|code| - 1]
  }

  function BackspaceDisabled(code: string): bool {
    |code| == 0
  }

  /** The backspace button on a well-formed code removes exactly its last digit. */
  lemma BackspaceRemovesLast(s: JoinState)
    requires ValidCode(s.joinCode) && !BackspaceDisabled(s.joinCode)
    ensures ChangeCode(s, DropLast(s.joinCode)).joinCode + [s.joinCode[|s.joinCode| - 1]] == s.joinCode
  {
    var d := DropLast(s.joinCode);
    assert ValidCode(d);
    SanitizeFixes(d);
  }

  /** The input's change handler: the sanitised value, and whether the input should lose focus. */
  function TypedInput(s: JoinState, raw: string): (r: (JoinState, bool))
    ensures r.0 == ChangeCode(s, raw)
    ensures r.1 <==> |Sanitize(raw)| == MaxDigits
  {
    var digits := Sanitize(raw);
    SanitizeIdempotent(raw);
    (ChangeCode(s, digits), |digits| == MaxDigits)
  }

  /** Paste: the clipboard's first six digits replace the code, when there are any; otherwise the paste proceeds natively. */
  function Paste(s: JoinState, pasted: string): (r: Option<JoinState>)
    ensures r.Some? <==> |DigitsOf(pasted)| > 0
    ensures r.Some? ==> r.value.joinCode == Sanitize(pasted) && r.value.showJoinModal == s.showJoinModal
  {
    var digits := Sanitize(pasted);
    SanitizeIdempotent(pasted);
    if digits != "" then Some(ChangeCode(s, digits)) else None
  }

  datatype Key = Key(key: string, meta: bool, ctrl: bool, alt: bool)

  datatype KeyOutcome = Submit | Close | Block | Allow

  /** A printable key that is not a digit, with no modifier held. */
  predicate BlockedKey(k: Key) {
    |k.key| == 1 && !IsDigit(k.key[0]) && !k.meta && !k.ctrl && !k.alt
  }

  /** `onKeyDown`: Enter on a full code submits, Escape closes, other printable non-digits are blocked. */
  function KeyDown(code: string, k: Key): (o: KeyOutcome)
    ensures o == Submit <==> k.key == "Enter" && |code| == MaxDigits
    ensures o == Close <==> k.key == "Escape"
    ensures o == Block <==> BlockedKey(k)
  {
    if k.key == "Enter" && |code| == MaxDigits then Submit
    else if k.key == "Escape" then Close
    else if BlockedKey(k) then Block
    else Allow
  }

  /** The deferred backspace check: when the input's value did not shrink, the code is shortened by hand. */
  function BackspaceFallback(code: string, raw: string): (r: Option<string>)
    ensures r.Some? <==> |raw| == |code|
    ensures r.Some? ==> r.value == DropLast(code)
  {
    if |raw| == |code| then Some(DropLast(code)) else None
  }

  /** Digits and editing keys always reach the input. */
  lemma DigitKeysPass(code: string, k: Key)
    requires |k.key| == 1 && IsDigit(k.key[0])
    ensures KeyDown(code, k) == Allow
  {
  }

  /** The six slots: slot i shows the i-th character of the code, or a dot when there is none. */
  function Slots(code: string): (slots: seq<string>)
    ensures |slots| == MaxDigits
    ensures forall i :: 0 <= i < MaxDigits ==> slots[i] == (if i < |code| then [code[i]] else "•")
  {
    seq(MaxDigits, i requires 0 <= i < MaxDigits => if i < |code| then [code[i]] else "•")
  }

  function Filled(slots: seq<string>, n: nat): string
    requires n <= |slots|
  {
    if n == 0 then "" else Filled(slots, n - 1) + slots[n - 1]
  }

  /** Reading the slots of a well-formed code left to right spells the code. */
  lemma {:induction false} FilledSpellsCode(code: string, n: nat)
    requires ValidCode(code) && n <= |code|
    ensures Filled(Slots(code), n) == code[..n]
  {
    if n > 0 {
      FilledSpellsCode(code, n - 1);
      assert code[..n] == code[..n - 1] + [code[n - 1]];
    }
  }

  /** The Join button is enabled exactly when the code would be submitted. */
  function JoinEnabled(code: string): (enabled: bool)
    ensures enabled <==> SubmitRoute(code).Some?
  {
    |code| == MaxDigits
  }

  // ---------------------------------------------------------------------------
  // Every reachable modal state holds a well-formed code

  datatype JoinEvent = Open | Type(raw: string) | PasteText(pasted: string) | Backspace | Dismiss

  function JoinStep(s: JoinState, e: JoinEvent): JoinState {
    match e
    case Open => OpenModal(s)
    case Type(raw) => TypedInput(s, raw).0
    case PasteText(p) => Paste(s, p).GetOr(s)
    case Backspace => if BackspaceDisabled(s.joinCode) then s else ChangeCode(s, DropLast(s.joinCode))
    case Dismiss => CloseModal(s)
  }

  function JoinRun(s: JoinState, es: seq<JoinEvent>): JoinState
    decreases |es|
  {
    if |es| == 0 then s else JoinRun(JoinStep(s, es[0]), es[1..])
  }

  lemma {:induction false} JoinRunValid(s: JoinState, es: seq<JoinEvent>)
    requires ValidCode(s.joinCode)
    ensures ValidCode(JoinRun(s, es).joinCode)
    decreases |es|
  {
    if |es| > 0 {
      JoinRunValid(JoinStep(s, es[0]), es[1..]);
    }
  }

  /** Whatever is typed, pasted or deleted, the code stays at most six digits, and submitting it routes to its lobby only when full. */
  lemma ReachableCodesValid(es: seq<JoinEvent>)
    ensures ValidCode(JoinRun(Home(), es).joinCode)
    ensures SubmitRoute(JoinRun(Home(), es).joinCode).Some? ==>
      LobbyCode(QueryCode(SubmitRoute(JoinRun(Home(), es).joinCode).value)) == JoinRun(Home(), es).joinCode
  {
    JoinRunValid(Home(), es);
    var c := JoinRun(Home(), es).joinCode;
    if SubmitRoute(c).Some? {
      SubmittedCodeShownInLobby(c);
    }
  }
}
