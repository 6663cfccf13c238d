/**
 * The shapes shared by the spinner: a weighted player, the unnumbered slot a
 * player contributes to the strip, and the numbered square the strip is made
 * of; together with the per-player occupancy of a strip.
 */
module Types {

  /** A weighted entrant; weight 0 means "present but never on the strip". */
  datatype Player = Player(id: int, name: string, color: string, weight: nat)

  /** One copy of a player on the strip, before it is numbered. */
  datatype Slot = Slot(playerId: int, playerName: string, color: string)

  /** A numbered square of the strip; `squareIndex` is its position in one set. */
  datatype Square = Square(playerId: int, playerName: string, color: string, squareIndex: int) {

    function Unstamped(): Slot {
      Slot(playerId, playerName, color)
    }
  }

  function SlotOf(p: Player): Slot {
    Slot(p.id, p.name, p.color)
  }

  function Weights(ps: seq<Player>): (ws: seq<nat>)
    ensures |ws| == |ps|
    ensures forall i :: 0 <= i < |ps| ==> ws[i] == ps[i].weight
  {
    seq(|ps|, i requires 0 <= i < |ps| => ps[i].weight)
  }

  predicate UniqueIds(ps: seq<Player>) {
    forall i, j :: 0 <= i < j < |ps| ==> ps[i].id != ps[j].id
  }

  /** Every square carries its own position as its index. */
  predicate Stamped(squares: seq<Square>) {
    forall i :: 0 <= i < |squares| ==> squares[i].squareIndex == i
  }

  function SlotIds(slots: seq<Slot>): (ids: seq<int>)
    ensures |ids| == |slots|
    ensures forall i :: 0 <= i < |slots| ==> ids[i] == slots[i].playerId
  {
    seq(|slots|, i requires 0 <= i < |slots| => slots[i].playerId)
  }

  /** The ids of a numbered strip are the ids of its slots. */
  function SquareIds(squares: seq<Square>): (ids: seq<int>)
    ensures |ids| == |squares|
    ensures forall i :: 0 <= i < |squares| ==> ids[i] == squares[i].playerId
  {
    SlotIds(seq(|squares|, i requires 0 <= i < |squares| => squares[i].Unstamped()))
  }

  /** The squares of one player, in strip order (`squares.filter(s => s.playerId === id)`). */
  function SquaresOf(squares: seq<Square>, id: int): (mine: seq<Square>)
    ensures |mine| <= |squares|
    ensures forall s :: s in mine ==> s in squares && s.playerId == id
    ensures forall s :: s in squares && s.playerId == id ==> s in mine
  {
    if |squares| == 0 then []
    else if squares[0].playerId == id then [squares[0]] + SquaresOf(squares[1..], id)
    else SquaresOf(squares[1..], id)
  }

  /** Square numbers increase along the strip. */
  predicate Ascending(squares: seq<Square>) {
    forall i, j :: 0 <= i < j < |squares| ==> squares[i].squareIndex < squares[j].squareIndex
  }

  lemma AscendingTail(squares: seq<Square>)
    requires |squares| > 0 && Ascending(squares)
    ensures Ascending(squares[1..])
    ensures forall t :: t in squares[1..] ==> squares[0].squareIndex < t.squareIndex
  {
    var tail := squares[1..];
    forall a, b | 0 <= a < b < |tail|
      ensures tail[a].squareIndex < tail[b].squareIndex
    {
      assert tail[a] == squares[a + 1] && tail[b] == squares[b + 1];
    }
    forall t | t in tail
      ensures squares[0].squareIndex < t.squareIndex
    {
      var q :| 0 <= q < |tail| && tail[q] == t;
      assert tail[q] == squares[q + 1];
    }
  }

  lemma AscendingCons(x: Square, rest: seq<Square>)
    requires Ascending(rest) && forall t :: t in rest ==> x.squareIndex < t.squareIndex
    ensures Ascending([x] + rest)
  {
    var r := [x] + rest;
    forall a, b | 0 <= a < b < |r|
      ensures r[a].squareIndex < r[b].squareIndex
    {
      assert r[b] == rest[b - 1] && r[b] in rest;
      if a > 0 {
        assert r[a] == rest[a - 1];
      }
    }
  }

  /**
   * The filter keeps strip order: on a strip whose numbers increase, in
   * particular one numbered by position, the player's squares keep increasing
   * numbers.
   */
  lemma {:induction false} SquaresOfInStripOrder(squares: seq<Square>, id: int)
    ensures Ascending(squares) ==> Ascending(SquaresOf(squares, id))
    ensures Stamped(squares) ==> Ascending(SquaresOf(squares, id))
  {
    if Stamped(squares) {
      assert Ascending(squares);
    }
    if |squares| > 0 && Ascending(squares) {
      AscendingTail(squares);
      SquaresOfInStripOrder(squares[1..], id);
      if squares[0].playerId == id {
        AscendingCons(squares[0], SquaresOf(squares[1..], id));
      }
    }
  }

  /** How many squares of the strip belong to one player. */
  function CountOf(squares: seq<Square>, id: int): nat {
    |SquaresOf(squares, id)|
  }

  /** The occupancy count is the multiplicity of the id among the strip's ids. */
  lemma {:induction false} CountIsMultiplicity(squares: seq<Square>, id: int)
    ensures CountOf(squares, id) == multiset(SquareIds(squares))[id]
  {
    if |squares| > 0 {
      CountIsMultiplicity(squares[1..], id);
      assert SquareIds(squares) == [squares[0].playerId] + SquareIds(squares[1..]);
    }
  }
}
