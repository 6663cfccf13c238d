/**
 * The lobby page's state rules: the lobby code taken from the query string,
 * the mock player list with the current Telegram user added, the current
 * user's ready toggle and the "everyone is ready" gate of the start button.
 */
module Lobby {
  import opened Js

  /** The Telegram user as the page sees it; `username` is optional. */
  datatype TgUser = TgUser(id: int, firstName: string, username: Option<string>)

  datatype LobbyPlayer = LobbyPlayer(id: int, username: string, displayName: string, isReady: bool, color: string)

  // ---------------------------------------------------------------------------
  // The lobby code

  const DefaultCode: string := "834219"
  const CodeLength: nat := 6

  /** `String.prototype.padEnd(n, c)`: append copies of c up to length n, never truncating. */
  function PadEnd(s: string, n: nat, c: char): (r: string)
    ensures |r| == Max(n, |s|)
    ensures r[..|s|] == s
    ensures forall i :: |s| <= i < |r| ==> r[i] == c
  {
    if |s| >= n then s else s + seq(n - |s|, _ => c)
  }

  /** Padding what is already long enough changes nothing, so padding twice is padding once. */
  lemma PadEndIdempotent(s: string, n: nat, c: char)
    ensures PadEnd(PadEnd(s, n, c), n, c) == PadEnd(s, n, c)
  {
  }

  /** The code of the `code` query parameter, `834219` when it is missing or empty, padded with '0' to six characters. */
  function LobbyCode(code: Option<string>): (r: string)
    ensures |r| >= CodeLength
    ensures Truthy(code) ==> |r| == Max(CodeLength, |code.value|) && r[..|code.value|] == code.value
    ensures Truthy(code) ==> forall i :: |code.value| <= i < |r| ==> r[i] == '0'
    ensures !Truthy(code) ==> r == DefaultCode
  {
    PadEnd(OrElse(code, DefaultCode), CodeLength, '0')
  }

  /** A code of six or more characters is shown as given. */
  lemma LongCodeUnchanged(code: string)
    requires |code| >= CodeLength
    ensures LobbyCode(Some(code)) == code
  {
  }

  // ---------------------------------------------------------------------------
  // The initial player list

  function MockPlayers(): (ps: seq<LobbyPlayer>)
    ensures |ps| == 3
  {
    [ LobbyPlayer(1, "captain", "Captain", true, "pink"),
      LobbyPlayer(2, "sailor", "Sailor", false, "blue"),
      LobbyPlayer(3, "gunner", "Gunner", false, "violet") ]
  }

  predicate HasId(ps: seq<LobbyPlayer>, id: int) {
    exists k :: 0 <= k < |ps| && ps[k].id == id
  }

  predicate DistinctIds(ps: seq<LobbyPlayer>) {
    forall i, j :: 0 <= i < j < |ps| ==> ps[i].id != ps[j].id
  }

  /** The entry for a user not in the list: defaults for missing names, not ready, emerald. */
  function NewPlayer(u: TgUser): (p: LobbyPlayer)
    ensures p.id == u.id && !p.isReady && p.color == "emerald"
    ensures p.username == OrElse(u.username, "user" + IntToDecimal(u.id))
    ensures p.displayName == if u.firstName != "" then u.firstName else OrElse(u.username, "Player")
  {
    LobbyPlayer(u.id, OrElse(u.username, "user" + IntToDecimal(u.id)),
      if u.firstName != "" then u.firstName else OrElse(u.username, "Player"), false, "emerald")
  }

  /** The list the page starts with: the mock players, plus the current user when absent from them. */
  function InitialPlayers(user: Option<TgUser>): (ps: seq<LobbyPlayer>)
    ensures user.None? ==> ps == MockPlayers()
    ensures user.Some? && HasId(MockPlayers(), user.value.id) ==> ps == MockPlayers()
    ensures user.Some? && !HasId(MockPlayers(), user.value.id) ==> ps == MockPlayers() + [NewPlayer(user.value)]
  {
    if user.Some? && !HasId(MockPlayers(), user.value.id) then MockPlayers() + [NewPlayer(user.value)]
    else MockPlayers()
  }

  /** The current user is always in the initial list, and ids stay distinct. */
  lemma InitialPlayersContainUser(user: Option<TgUser>)
    ensures DistinctIds(InitialPlayers(user))
    ensures user.Some? ==> HasId(InitialPlayers(user), user.value.id)
    ensures 3 <= |InitialPlayers(user)| <= 4
  {
    var ps := InitialPlayers(user);
    if user.Some? && !HasId(MockPlayers(), user.value.id) {
      assert ps[3].id == user.value.id;
    }
  }

  // ---------------------------------------------------------------------------
  // Ready toggling and the start gate

  /** `!currentUserId`: no id, or the id 0. */
  predicate HasCurrentUser(currentUserId: Option<int>) {
    currentUserId.Some? && currentUserId.value != 0
  }

  function Flip(p: LobbyPlayer): LobbyPlayer {
    p.(isReady := !p.isReady)
  }

  /** `toggleReady`: flips the readiness of the player carrying the current user's id. */
  function ToggleReady(ps: seq<LobbyPlayer>, currentUserId: Option<int>): (r: seq<LobbyPlayer>)
    ensures |r| == |ps|
    ensures !HasCurrentUser(currentUserId) ==> r == ps
    ensures HasCurrentUser(currentUserId) ==> forall k :: 0 <= k < |ps| ==>
      (ps[k].id == currentUserId.value ==> r[k] == ps[k].(isReady := !ps[k].isReady)) &&
      (ps[k].id != currentUserId.value ==> r[k] == ps[k])
  {
    if !HasCurrentUser(currentUserId) then ps
    else seq(|ps|, k requires 0 <= k < |ps| => if ps[k].id == currentUserId.value then Flip(ps[k]) else ps[k])
  }

  /** Toggling twice gives back the original list. */
  lemma ToggleTwice(ps: seq<LobbyPlayer>, currentUserId: Option<int>)
    ensures ToggleReady(ToggleReady(ps, currentUserId), currentUserId) == ps
  {
  }

  /** `allReady`: more than one player and all of them ready. */
  predicate AllReady(ps: seq<LobbyPlayer>) {
    |ps| > 1 && forall k :: 0 <= k < |ps| ==> ps[k].isReady
  }

  /** The start button is enabled exactly when everyone is ready. */
  predicate StartEnabled(ps: seq<LobbyPlayer>) {
    AllReady(ps)
  }

  /**
   * With a current user, one toggle makes the lobby startable exactly when
   * there are at least two players, every other player is ready and every
   * entry of the current user is not. The id 0 counts as no user, and its
   * toggle leaves the gate as it was.
   */
  lemma ToggleMakesStartable(ps: seq<LobbyPlayer>, u: int)
    ensures u != 0 ==> (StartEnabled(ToggleReady(ps, Some(u))) <==>
      |ps| > 1 && forall k :: 0 <= k < |ps| ==> (ps[k].isReady <==> ps[k].id != u))
    ensures u == 0 ==> (StartEnabled(ToggleReady(ps, Some(u))) <==> StartEnabled(ps))
  {
  }

  function Toggles(ps: seq<LobbyPlayer>, currentUserId: Option<int>, n: nat): seq<LobbyPlayer>
    decreases n
  {
    if n == 0 then ps else Toggles(ToggleReady(ps, currentUserId), currentUserId, n - 1)
  }

  /** A player that is not the current user keeps its readiness through any number of toggles. */
  lemma {:induction false} TogglesKeepOthers(ps: seq<LobbyPlayer>, currentUserId: Option<int>, n: nat, k: nat)
    requires k < |ps| && (currentUserId.Some? ==> ps[k].id != currentUserId.value)
    ensures |Toggles(ps, currentUserId, n)| == |ps|
    ensures Toggles(ps, currentUserId, n)[k] == ps[k]
    decreases n
  {
    if n > 0 {
      TogglesKeepOthers(ToggleReady(ps, currentUserId), currentUserId, n - 1, k);
    }
  }

  /**
   * With only the current user's toggle available, the mock lobby never lets
   * the game start: of the two mock players who are not ready, at least one is
   * not the current user and stays not ready.
   */
  lemma StartNeverEnabledAlone(user: Option<TgUser>, n: nat)
    ensures !StartEnabled(Toggles(InitialPlayers(user), if user.Some? then Some(user.value.id) else None, n))
  {
    var ps := InitialPlayers(user);
    var uid := if user.Some? then Some(user.value.id) else None;
    var k: nat := if user.Some? && user.value.id == 2 then 2 else 1;
    assert ps[k] == MockPlayers()[k];
    TogglesKeepOthers(ps, uid, n, k);
  }
}
