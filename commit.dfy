/**
 * Committing a play: play_card, which applies a chosen play to the pawn dict
 * in place, and the test at the end of each turn of whether the player (and,
 * in teams, the teammate) has brought every pawn Home.
 */
module Commit {
  import opened Wrappers
  import opened Board
  import opened Movement
  import opened Tables
  import opened Legality

  /**
   * The targets play_card can apply: it indexes them without checking, so a
   * 7 needs its dict of distances, a Sorry or an 11 swap two pawns, and every
   * other card a first pawn. Discards never reach it.
   */
  predicate Playable(card: Card, t: Targets, at: map<Label, Loc>) {
    Named(t, at) &&
    (card == Seven ==> t.Split?) &&
    (card != Seven ==>
       t.Picks? && |t.items| >= (if card == Sorry then 2 else 1) && forall i :: 0 <= i < |t.items| ==> t.items[i].Pawn?)
  }

  /** The play exchanges two pawns: a Sorry, or an 11 with two targets. */
  predicate Swaps(card: Card, t: Targets) {
    card == Sorry || (card == Eleven && Size(t) == 2)
  }

  /** The entries of a 7 moved one after another, with no validity check. */
  function MoveAll(order: seq<Label>, at: map<Label, Loc>, moves: seq<SplitMove>): (r: map<Label, Loc>)
    requires WellFormed(order, at) && Named(Split(moves), at)
    ensures r.Keys == at.Keys
    decreases |moves|
  {
    if moves == [] then at
    else
      assert Named(Split(moves[1..]), at) by {
        forall i | 0 <= i < |moves[1..]| ensures moves[1..][i].pawn in at {
          assert moves[1..][i] == moves[i + 1];
        }
      }
      MoveAll(order, Move(order, at, moves[0].distance, moves[0].pawn, None).at, moves[1..])
  }

  /** A zero-step move (slide or capture where the pawn now stands) of a pawn that is not at Start. */
  function Settle(order: seq<Label>, at: map<Label, Loc>, p: Label): (r: map<Label, Loc>)
    requires WellFormed(order, at) && p in at
    ensures r.Keys == at.Keys
  {
    if at[p] != Start then Move(order, at, 0, p, None).at else at
  }

  /** The two locations exchanged, then each pawn settled on its new square. */
  function Swapped(order: seq<Label>, at: map<Label, Loc>, a: Label, b: Label): (r: map<Label, Loc>)
    requires WellFormed(order, at) && a in at && b in at
    ensures r.Keys == at.Keys
  {
    var s := at[a := at[b]][b := at[a]];
    Settle(order, Settle(order, s, a), b)
  }

  /** What play_card leaves in the dict. */
  function Played(order: seq<Label>, at: map<Label, Loc>, card: Card, t: Targets, tenBackward: bool): (r: map<Label, Loc>)
    requires WellFormed(order, at) && Playable(card, t, at)
    ensures r.Keys == at.Keys
  {
    if card == Seven then MoveAll(order, at, t.moves)
    else
      var p := t.items[0].pawn;
      if (card == One || card == Two) && at[p] == Start then
        var exit := StartExit(p.color);
        Bumped(order, at, [exit], 0)[p := exit]
      else if Swaps(card, t) then Swapped(order, at, p, t.items[1].pawn)
      else if card == Four || tenBackward then Move(order, at, if tenBackward then -1 else -4, p, None).at
      else Move(order, at, Distance(card), p, None).at
  }

  /** play_card: applies the play to the dict in place. */
  method PlayCard(t: PawnTable, card: Card, targets: Targets, tenBackward: bool)
    requires t.Valid() && Playable(card, targets, t.at)
    modifies t
    ensures t.Valid() && t.at == Played(t.order, old(t.at), card, targets, tenBackward)
  {
    if card == Seven {
      var moves := targets.moves;
      var i := 0;
      while i < |moves|
        invariant 0 <= i <= |moves|
        invariant t.Valid() && Named(Split(moves[i..]), t.at)
        invariant MoveAll(t.order, t.at, moves[i..]) == Played(t.order, old(t.at), card, targets, tenBackward)
      {
        assert moves[i..][0] == moves[i] && moves[i..][1..] == moves[i + 1..];
        var _ := MovePawn(t, moves[i].distance, moves[i].pawn, None);
        i := i + 1;
      }
      return;
    }
    var p := targets.items[0].pawn;
    if (card == One || card == Two) && t.at[p] == Start {
      var exit := StartExit(p.color);
      Bump(t, [exit]);
      t.at := t.at[p := exit];
    } else if Swaps(card, targets) {
      var b := targets.items[1].pawn;
      t.at := t.at[p := t.at[b]][b := t.at[p]];
      if t.at[p] != Start {
        var _ := MovePawn(t, 0, p, None);
      }
      if t.at[b] != Start {
        var _ := MovePawn(t, 0, b, None);
      }
    } else if card == Four || tenBackward {
      var _ := MovePawn(t, if tenBackward then -1 else -4, p, None);
    } else {
      var _ := MovePawn(t, Distance(card), p, None);
    }
  }

  // ----- What a committed play does -----

  /**
   * Leaving Start with a 1 or a 2 puts the pawn on its start exit and sends
   * back to Start whatever stood there; nothing else moves. It is the very
   * move that is_valid_target simulated with move_pawn.
   */
  lemma LeaveStartCommits(order: seq<Label>, at: map<Label, Loc>, card: Card, p: Label, tenBackward: bool)
    requires WellFormed(order, at) && Distinct(order) && Sparse(order, at) && p in at && at[p] == Start
    requires card == One || card == Two
    ensures Playable(card, Picks([Pawn(p)]), at)
    ensures var r := Played(order, at, card, Picks([Pawn(p)]), tenBackward);
      r[p] == StartExit(p.color) &&
      (forall q :: q in order && q != p ==> r[q] == if at[q] == StartExit(p.color) then Start else at[q]) &&
      r == Move(order, at, Distance(card), p, None).at
  {
    var exit := StartExit(p.color);
    var r := Played(order, at, card, Picks([Pawn(p)]), tenBackward);
    StartExitOnOwnLine(p.color);
    MoveLands(order, at, Distance(card), p, None);
    CaptureCount(order, at, p, {exit}, Start);
    assert at[p := Start] == at;
    assert (set l | l in [exit]) == {exit};
    BumpedAll(order, at, [exit], 0);
    forall q | q in at ensures r[q] == Move(order, at, Distance(card), p, None).at[q] {
      assert InOrder(order, q);
    }
  }

  /** A zero-step move of a pawn standing alone on a square that starts no slide leaves the dict as it is. */
  lemma SettleAlone(order: seq<Label>, at: map<Label, Loc>, p: Label)
    requires WellFormed(order, at) && Distinct(order) && Sparse(order, at) && p in at && at[p].Cell?
    requires !SlideApplies(p.color, at[p])
    requires forall q :: q in at && q != p ==> at[q] != at[p]
    ensures Settle(order, at, p) == at
  {
    MoveLands(order, at, 0, p, None);
    forall q | q in at ensures Settle(order, at, p)[q] == at[q] {
      assert InOrder(order, q);
    }
  }

  /** Exchanging the places of two pawns keeps every square to at most one pawn. */
  lemma SwapKeepsSparse(order: seq<Label>, at: map<Label, Loc>, a: Label, b: Label)
    requires WellFormed(order, at) && Distinct(order) && Sparse(order, at) && a in order && b in order
    ensures WellFormed(order, at[a := at[b]][b := at[a]]) && Sparse(order, at[a := at[b]][b := at[a]])
  {
    var s := at[a := at[b]][b := at[a]];
    forall i, j | 0 <= i < j < |order| && s[order[i]].Cell? ensures s[order[i]] != s[order[j]] {
      var x, y := order[i], order[j];
      var x', y' := if x == a then b else if x == b then a else x, if y == a then b else if y == b then a else y;
      assert s[x] == at[x'] && s[y] == at[y'];
      assert x' != y';
      assert x' in order && y' in order;
      var i' :| 0 <= i' < |order| && order[i'] == x';
      var j' :| 0 <= j' < |order| && order[j'] == y';
      assert i' != j';
    }
  }

  /**
   * An 11 swap of two pawns on squares that start no slide for their new
   * owners exchanges their places and moves nothing else.
   */
  lemma SwapExchanges(order: seq<Label>, at: map<Label, Loc>, a: Label, b: Label, tenBackward: bool)
    requires WellFormed(order, at) && Distinct(order) && Sparse(order, at) && a in order && b in order && a != b
    requires at[a].Cell? && at[b].Cell?
    requires !SlideApplies(a.color, at[b]) && !SlideApplies(b.color, at[a])
    ensures Playable(Eleven, Picks([Pawn(a), Pawn(b)]), at)
    ensures Played(order, at, Eleven, Picks([Pawn(a), Pawn(b)]), tenBackward) == at[a := at[b]][b := at[a]]
  {
    var s := at[a := at[b]][b := at[a]];
    SwapKeepsSparse(order, at, a, b);
    assert forall q :: q in s && q != a ==> s[q] != s[a] by {
      forall q | q in s && q != a ensures s[q] != s[a] {
        assert InOrder(order, q);
        if q == b {
          SparsePair(order, at, a, b);
        } else {
          SparsePair(order, at, b, q);
        }
      }
    }
    SettleAlone(order, s, a);
    assert forall q :: q in s && q != b ==> s[q] != s[b] by {
      forall q | q in s && q != b ensures s[q] != s[b] {
        assert InOrder(order, q);
        if q == a {
          SparsePair(order, at, a, b);
        } else {
          SparsePair(order, at, a, q);
        }
      }
    }
    SettleAlone(order, s, b);
  }

  /**
   * A Sorry of a friendly pawn f at Start and a pawn o on the board, where
   * o's square starts no slide for f, puts f on o's square and o at Start,
   * and moves nothing else.
   */
  lemma SorryBumps(order: seq<Label>, at: map<Label, Loc>, f: Label, o: Label, tenBackward: bool)
    requires WellFormed(order, at) && Distinct(order) && Sparse(order, at) && f in order && o in order && f != o
    requires at[f] == Start && at[o].Cell? && !SlideApplies(f.color, at[o])
    ensures Playable(Sorry, Picks([Pawn(f), Pawn(o)]), at) && Playable(Sorry, Picks([Pawn(o), Pawn(f)]), at)
    ensures Played(order, at, Sorry, Picks([Pawn(f), Pawn(o)]), tenBackward) == at[f := at[o]][o := Start]
    ensures Played(order, at, Sorry, Picks([Pawn(o), Pawn(f)]), tenBackward) == at[f := at[o]][o := Start]
  {
    var s := at[f := at[o]][o := at[f]];
    SwapKeepsSparse(order, at, f, o);
    assert forall q :: q in s && q != f ==> s[q] != s[f] by {
      forall q | q in s && q != f ensures s[q] != s[f] {
        assert InOrder(order, q);
        if q != o {
          SparsePair(order, at, o, q);
        }
      }
    }
    SettleAlone(order, s, f);
    var s' := at[o := at[f]][f := at[o]];
    assert s' == s;
  }

  /** In a sparse dict, two different pawns on the same square of the grid cannot be. */
  lemma SparsePair(order: seq<Label>, at: map<Label, Loc>, p: Label, q: Label)
    requires WellFormed(order, at) && Sparse(order, at) && p in order && q in order && p != q && at[p].Cell?
    ensures at[p] != at[q]
  {
    var i :| 0 <= i < |order| && order[i] == p;
    var j :| 0 <= j < |order| && order[j] == q;
    assert i != j;
  }

  /** The moves of a 7 keep every square to at most one pawn. */
  lemma {:induction false} MoveAllKeepsSparse(order: seq<Label>, at: map<Label, Loc>, moves: seq<SplitMove>)
    requires WellFormed(order, at) && Distinct(order) && Sparse(order, at) && Named(Split(moves), at)
    ensures WellFormed(order, MoveAll(order, at, moves)) && Sparse(order, MoveAll(order, at, moves))
    decreases |moves|
  {
    if moves != [] {
      var r := Move(order, at, moves[0].distance, moves[0].pawn, None);
      MoveKeepsSparse(order, at, moves[0].distance, moves[0].pawn, None);
      assert Named(Split(moves[1..]), r.at) by {
        forall i | 0 <= i < |moves[1..]| ensures moves[1..][i].pawn in r.at {
          assert moves[1..][i] == moves[i + 1];
        }
      }
      MoveAllKeepsSparse(order, r.at, moves[1..]);
    }
  }

  /** A zero-step move keeps every square to at most one pawn. */
  lemma SettleKeepsSparse(order: seq<Label>, at: map<Label, Loc>, p: Label)
    requires WellFormed(order, at) && Distinct(order) && Sparse(order, at) && p in at
    ensures WellFormed(order, Settle(order, at, p)) && Sparse(order, Settle(order, at, p))
  {
    if at[p] != Start {
      MoveKeepsSparse(order, at, 0, p, None);
    }
  }

  /**
   * Every committed play keeps the pawns the same and every square of the
   * grid to at most one pawn.
   */
  lemma PlayedKeepsSparse(order: seq<Label>, at: map<Label, Loc>, card: Card, t: Targets, tenBackward: bool)
    requires WellFormed(order, at) && Distinct(order) && Sparse(order, at) && Playable(card, t, at)
    ensures var r := Played(order, at, card, t, tenBackward); r.Keys == at.Keys && Sparse(order, r)
  {
    if card == Seven {
      MoveAllKeepsSparse(order, at, t.moves);
    } else {
      var p := t.items[0].pawn;
      if (card == One || card == Two) && at[p] == Start {
        LeaveStartCommits(order, at, card, p, tenBackward);
        MoveKeepsSparse(order, at, Distance(card), p, None);
      } else if Swaps(card, t) {
        var b := t.items[1].pawn;
        var s := at[p := at[b]][b := at[p]];
        assert InOrder(order, p) && InOrder(order, b);
        SwapKeepsSparse(order, at, p, b);
        SettleKeepsSparse(order, s, p);
        SettleKeepsSparse(order, Settle(order, s, p), b);
      } else if card == Four || tenBackward {
        MoveKeepsSparse(order, at, if tenBackward then -1 else -4, p, None);
      } else {
        MoveKeepsSparse(order, at, Distance(card), p, None);
      }
    }
  }

  // ----- The end of a turn -----

  /** Every pawn of colour c is Home. */
  predicate AllHome(order: seq<Label>, at: map<Label, Loc>, c: Color)
    requires WellFormed(order, at)
  {
    forall q :: q in order && q.color == c ==> at[q] == Home
  }

  /** The loop over one player's pawns, breaking at the first that is not Home. */
  method PawnsAllHome(t: PawnTable, c: Color) returns (home: bool)
    requires t.Valid()
    ensures home <==> AllHome(t.order, t.at, c)
  {
    home := true;
    var i := 0;
    while i < |t.order|
      invariant 0 <= i <= |t.order|
      invariant forall j :: 0 <= j < i && t.order[j].color == c ==> t.at[t.order[j]] == Home
    {
      var q := t.order[i];
      if q.color == c && t.at[q] != Home {
        home := false;
        break;
      }
      i := i + 1;
    }
  }

  /**
   * The win test after a turn: the player's pawns are all Home and, in teams,
   * so are those of the player seated two places on.
   */
  method IsGameWon(t: PawnTable, seats: seq<Color>, turn: nat, teams: bool) returns (won: bool)
    requires t.Valid() && turn < |seats|
    ensures won <==> AllHome(t.order, t.at, seats[turn]) && (teams ==> AllHome(t.order, t.at, seats[(turn + 2) % |seats|]))
  {
    won := PawnsAllHome(t, seats[turn]);
    if teams && won {
      won := PawnsAllHome(t, seats[(turn + 2) % |seats|]);
    }
  }

  /** The seating of a four-player game, in order of play. */
  const FourSeats: seq<Color> := [Blue, Yellow, Green, Red]

  /**
   * With all four colours seated, the player two seats on is the teammate, so
   * a team wins exactly when all eight of its pawns are Home.
   */
  lemma TeamWin(order: seq<Label>, at: map<Label, Loc>, turn: nat)
    requires WellFormed(order, at) && turn < 4
    ensures FourSeats[(turn + 2) % |FourSeats|] == Teammate(FourSeats[turn])
    ensures (AllHome(order, at, FourSeats[turn]) && AllHome(order, at, FourSeats[(turn + 2) % |FourSeats|])) <==>
      forall q :: q in order && (q.color == FourSeats[turn] || q.color == Teammate(FourSeats[turn])) ==> at[q] == Home
  {
  }
}
