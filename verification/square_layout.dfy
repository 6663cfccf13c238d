/**
 * From per-player counts to the numbered strip: every player contributes as
 * many slots as its count, in list order; a Fisher-Yates shuffle driven by
 * the random draws mixes them; each square is then numbered with its position.
 */
module SquareLayout {
  import opened Js
  import opened Types
  import opened SquareCounts

  function Replicate(s: Slot, n: nat): (r: seq<Slot>)
    ensures |r| == n
  {
    if n == 0 then [] else [s] + Replicate(s, n - 1)
  }

  /** The unshuffled strip: `count` copies of each player, in list order. */
  function Expand(ps: seq<Player>, counts: seq<nat>): seq<Slot>
    requires |counts| == |ps|
  {
    if |ps| == 0 then [] else Replicate(SlotOf(ps[0]), counts[0]) + Expand(ps[1..], counts[1..])
  }

  lemma SlotIdsConcat(a: seq<Slot>, b: seq<Slot>)
    ensures SlotIds(a + b) == SlotIds(a) + SlotIds(b)
  {
  }

  lemma {:induction false} ReplicateIds(s: Slot, n: nat, id: int)
    ensures multiset(SlotIds(Replicate(s, n)))[id] == if id == s.playerId then n else 0
  {
    if n > 0 {
      ReplicateIds(s, n - 1, id);
      SlotIdsConcat([s], Replicate(s, n - 1));
    }
  }

  lemma {:induction false} ReplicateMembers(x: Slot, n: nat, s: Slot)
    requires s in Replicate(x, n)
    ensures n > 0 && s == x
  {
    if s != x {
      ReplicateMembers(x, n - 1, s);
    }
  }

  /** The unshuffled strip has one slot per square counted. */
  lemma {:induction false} ExpandLength(ps: seq<Player>, counts: seq<nat>)
    requires |counts| == |ps|
    ensures |Expand(ps, counts)| == Sum(counts)
  {
    if |ps| > 0 {
      ExpandLength(ps[1..], counts[1..]);
    }
  }

  /** Every slot of the unshuffled strip is a copy of some player with a positive count. */
  lemma {:induction false} ExpandMembers(ps: seq<Player>, counts: seq<nat>, s: Slot)
    requires |counts| == |ps| && s in Expand(ps, counts)
    ensures exists k :: 0 <= k < |ps| && counts[k] > 0 && SlotOf(ps[k]) == s
  {
    var head := Replicate(SlotOf(ps[0]), counts[0]);
    if s in head {
      ReplicateMembers(SlotOf(ps[0]), counts[0], s);
    } else {
      ExpandMembers(ps[1..], counts[1..], s);
      var k :| 0 <= k < |ps| - 1 && counts[1..][k] > 0 && SlotOf(ps[1..][k]) == s;
      assert counts[k + 1] > 0 && SlotOf(ps[k + 1]) == s;
    }
  }

  /** An id no player carries has no slot. */
  lemma {:induction false} ExpandAbsent(ps: seq<Player>, counts: seq<nat>, id: int)
    requires |counts| == |ps|
    requires forall k :: 0 <= k < |ps| ==> ps[k].id != id
    ensures multiset(SlotIds(Expand(ps, counts)))[id] == 0
  {
    if |ps| > 0 {
      ExpandAbsent(ps[1..], counts[1..], id);
      ReplicateIds(SlotOf(ps[0]), counts[0], id);
      SlotIdsConcat(Replicate(SlotOf(ps[0]), counts[0]), Expand(ps[1..], counts[1..]));
    }
  }

  /** With distinct ids, each player has exactly its count of slots. */
  lemma {:induction false} ExpandMultiplicity(ps: seq<Player>, counts: seq<nat>, k: nat)
    requires |counts| == |ps| && UniqueIds(ps) && k < |ps|
    ensures multiset(SlotIds(Expand(ps, counts)))[ps[k].id] == counts[k]
  {
    var id := ps[k].id;
    ReplicateIds(SlotOf(ps[0]), counts[0], id);
    SlotIdsConcat(Replicate(SlotOf(ps[0]), counts[0]), Expand(ps[1..], counts[1..]));
    if k == 0 {
      ExpandAbsent(ps[1..], counts[1..], id);
    } else {
      ExpandMultiplicity(ps[1..], counts[1..], k - 1);
    }
  }

  /** `Math.floor(u * n)` for a draw u in [0, 1): an index below n. */
  function Pick(u: real, n: nat): (j: nat)
    requires 0.0 <= u < 1.0 && n > 0
    ensures j < n
    ensures j as real <= u * n as real < (j + 1) as real
  {
    (u * n as real).Floor
  }

  predicate ValidDraws(draws: seq<real>) {
    forall k :: 0 <= k < |draws| ==> 0.0 <= draws[k] < 1.0
  }

  function Swap<T>(s: seq<T>, i: nat, j: nat): (r: seq<T>)
    requires i < |s| && j < |s|
    ensures |r| == |s|
  {
    s[i := s[j]][j := s[i]]
  }

  lemma SwapPermutes(s: seq<Slot>, i: nat, j: nat)
    requires i < |s| && j < |s|
    ensures multiset(Swap(s, i, j)) == multiset(s)
    ensures SlotIds(Swap(s, i, j)) == Swap(SlotIds(s), i, j)
    ensures multiset(SlotIds(Swap(s, i, j))) == multiset(SlotIds(s))
  {
    var r := Swap(s, i, j);
    assert SlotIds(r) == Swap(SlotIds(s), i, j);
  }

  /**
   * The in-place Fisher-Yates shuffle: for i from the last position down to 1,
   * swap position i with position floor(u * (i + 1)), u being the next draw.
   */
  method Shuffle(xs: seq<Slot>, draws: seq<real>) returns (ys: seq<Slot>)
    requires ValidDraws(draws) && |xs| <= |draws| + 1
    ensures |ys| == |xs|
    ensures multiset(ys) == multiset(xs)
    ensures multiset(SlotIds(ys)) == multiset(SlotIds(xs))
  {
    ys := xs;
    if |xs| == 0 {
      return;
    }
    var i := |xs| - 1;
    while i > 0
      invariant 0 <= i < |xs| && |ys| == |xs|
      invariant multiset(ys) == multiset(xs)
      invariant multiset(SlotIds(ys)) == multiset(SlotIds(xs))
      decreases i
    {
      var j := Pick(draws[|xs| - 1 - i], i + 1);
      SwapPermutes(ys, i, j);
      ys := Swap(ys, i, j);
      i := i - 1;
    }
  }

  /** Numbers each slot with its position (`squareIndex: index`). */
  function Stamp(slots: seq<Slot>): (squares: seq<Square>)
    ensures |squares| == |slots| && Stamped(squares)
    ensures forall i :: 0 <= i < |slots| ==> squares[i].Unstamped() == slots[i]
  {
    seq(|slots|, i requires 0 <= i < |slots| =>
      Square(slots[i].playerId, slots[i].playerName, slots[i].color, i))
  }

  function Unstamp(squares: seq<Square>): (slots: seq<Slot>)
    ensures |slots| == |squares|
  {
    seq(|squares|, i requires 0 <= i < |squares| => squares[i].Unstamped())
  }

  /** Numbering loses nothing: removing the numbers gives the slots back. */
  lemma UnstampStamp(slots: seq<Slot>)
    ensures Unstamp(Stamp(slots)) == slots
  {
  }

  /** Numbering a stamped strip again changes nothing. */
  lemma StampUnstamp(squares: seq<Square>)
    requires Stamped(squares)
    ensures Stamp(Unstamp(squares)) == squares
  {
  }

  lemma StampIds(slots: seq<Slot>)
    ensures SquareIds(Stamp(slots)) == SlotIds(slots)
  {
  }

  /**
   * The strip of squares for a list of players: as many squares as the final
   * counts add up to, numbered by position, each player holding exactly its
   * count (when ids are distinct), every square a copy of a player of positive
   * count.
   */
  method GenerateSquares(ps: seq<Player>, draws: seq<real>) returns (squares: seq<Square>)
    requires ValidDraws(draws) && Sum(FinalCounts(Weights(ps))) <= |draws| + 1
    ensures |squares| == Sum(FinalCounts(Weights(ps)))
    ensures Stamped(squares)
    ensures UniqueIds(ps) ==>
      forall k :: 0 <= k < |ps| ==> CountOf(squares, ps[k].id) == FinalCounts(Weights(ps))[k]
    ensures forall i :: 0 <= i < |squares| ==>
      exists k :: 0 <= k < |ps| && FinalCounts(Weights(ps))[k] > 0 && SlotOf(ps[k]) == squares[i].Unstamped()
  {
    var counts := FinalCounts(Weights(ps));
    var all := Expand(ps, counts);
    ExpandLength(ps, counts);
    var shuffled := Shuffle(all, draws);
    squares := Stamp(shuffled);
    StampIds(shuffled);
    if UniqueIds(ps) {
      forall k | 0 <= k < |ps|
        ensures CountOf(squares, ps[k].id) == counts[k]
      {
        CountIsMultiplicity(squares, ps[k].id);
        ExpandMultiplicity(ps, counts, k);
      }
    }
    forall i | 0 <= i < |squares|
      ensures exists k :: 0 <= k < |ps| && counts[k] > 0 && SlotOf(ps[k]) == squares[i].Unstamped()
    {
      assert shuffled[i] in multiset(all);
      ExpandMembers(ps, counts, shuffled[i]);
    }
  }

  /** A player list with distinct ids yields a strip where every player of positive weight appears. */
  lemma EveryPositivePlayerOnStrip(ps: seq<Player>, squares: seq<Square>)
    requires UniqueIds(ps)
    requires forall k :: 0 <= k < |ps| ==> CountOf(squares, ps[k].id) == FinalCounts(Weights(ps))[k]
    ensures forall k :: 0 <= k < |ps| ==> (ps[k].weight > 0 <==> CountOf(squares, ps[k].id) >= 1)
  {
    FinalCountsRepresentEveryone(Weights(ps));
  }
}
