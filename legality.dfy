/**
 * The legality rules of each card (is_valid_target) and the four searches
 * built on it (is_some_valid_split_for_seven, is_some_valid_move_for_ten,
 * is_some_valid_swap_for_eleven, is_some_valid_play_for_sorry).
 */
module Legality {
  import opened Wrappers
  import opened Board
  import opened Movement
  import opened Tables

  /** The cards of the deck. */
  datatype Card = One | Two | Three | Four | Five | Seven | Eight | Ten | Eleven | Twelve | Sorry

  /** The number printed on a card (int(card_value)); the Sorry card has none. */
  function Distance(card: Card): int {
    match card
    case One => 1
    case Two => 2
    case Three => 3
    case Four => 4
    case Five => 5
    case Seven => 7
    case Eight => 8
    case Ten => 10
    case Eleven => 11
    case Twelve => 12
    case Sorry => 0
  }

  /** One entry of a target list: a pawn label, or the discard marker 'd'. */
  datatype Item = Pawn(pawn: Label) | Discard

  /** One entry of a 7's target dict: a pawn and how far it moves. */
  datatype SplitMove = SplitMove(pawn: Label, distance: int)

  /**
   * The targets of a play: a list of items, or (for a 7) a dict of
   * distances, kept as its entries in insertion order.
   */
  datatype Targets = Picks(items: seq<Item>) | Split(moves: seq<SplitMove>)

  /** len(pawn_targets). */
  function Size(t: Targets): nat {
    match t
    case Picks(items) => |items|
    case Split(moves) => |moves|
  }

  /** Every pawn named by the targets is a key of the dict. */
  predicate Named(t: Targets, at: map<Label, Loc>) {
    match t
    case Picks(items) => forall i :: 0 <= i < |items| && items[i].Pawn? ==> items[i].pawn in at
    case Split(moves) => forall i :: 0 <= i < |moves| ==> moves[i].pawn in at
  }

  /** The labels of a 7's entries, in order. */
  function SplitLabels(moves: seq<SplitMove>): (r: seq<Label>)
    ensures |r| == |moves| && forall i :: 0 <= i < |moves| ==> r[i] == moves[i].pawn
  {
    if moves == [] then [] else [moves[0].pawn] + SplitLabels(moves[1..])
  }

  /** The distances of a 7's entries added up. */
  function SplitSum(moves: seq<SplitMove>): int {
    if moves == [] then 0 else moves[0].distance + SplitSum(moves[1..])
  }

  /** A square with a coordinate on the outer frame (the source's test for "on the border"). */
  predicate EdgeSquare(l: Loc) {
    l.Cell? && (Edge(l.x) || Edge(l.y))
  }

  /**
   * The 7's loop over its entries: each pawn must have started off Start and
   * Home, be new, be friendly, and move validly on the running copy; the
   * distances must add up to 7.
   */
  function SevenOk(order: seq<Label>, at: map<Label, Loc>, copy: map<Label, Loc>, moves: seq<SplitMove>,
                   seen: seq<Label>, sum: int, player: Color, teams: bool): bool
    requires WellFormed(order, at) && WellFormed(order, copy) && Named(Split(moves), at) && Named(Split(moves), copy)
    decreases |moves|, 1
  {
    if moves == [] then sum == 7 else SevenEntry(order, at, copy, moves, seen, sum, player, teams)
  }

  /** The body of the 7's loop for its first entry, then the loop over the rest. */
  function SevenEntry(order: seq<Label>, at: map<Label, Loc>, copy: map<Label, Loc>, moves: seq<SplitMove>,
                      seen: seq<Label>, sum: int, player: Color, teams: bool): bool
    requires WellFormed(order, at) && WellFormed(order, copy) && Named(Split(moves), at) && Named(Split(moves), copy)
    requires moves != []
    decreases |moves|, 0
  {
    var p := moves[0].pawn;
    assert Named(Split(moves[1..]), at) && Named(Split(moves[1..]), copy) by {
      forall i | 0 <= i < |moves[1..]| ensures moves[1..][i].pawn in at && moves[1..][i].pawn in copy {
        assert moves[1..][i] == moves[i + 1];
      }
    }
    if at[p] == Start || at[p] == Home then false
    else if p in seen then false
    else if !Friendly(player, teams, p.color) then false
    else
      var r := Move(order, copy, moves[0].distance, p, Some(player));
      if r.valid != Some(true) then false
      else SevenOk(order, at, r.at, moves[1..], seen + [p], sum + moves[0].distance, player, teams)
  }

  /** The card moves a single pawn by its number (or back one, for a ten used that way). */
  predicate SingleCard(card: Card, t: Targets) {
    card in {One, Two, Three, Five, Eight, Ten, Twelve} || (card == Eleven && Size(t) == 1)
  }

  /**
   * is_valid_target. Targets of the wrong shape for the card (where the
   * source would raise) are rejected.
   */
  function ValidTarget(order: seq<Label>, at: map<Label, Loc>, t: Targets, card: Card, player: Color,
                       teams: bool, splitMany: bool, tenBackward: bool): bool
    requires WellFormed(order, at) && Named(t, at)
  {
    if t.Picks? && Discard in t.items then |t.items| == 1
    else if SingleCard(card, t) then
      t.Picks? && |t.items| == 1 &&
      var p := t.items[0].pawn;
      Friendly(player, teams, p.color) && at[p] != Home && (at[p] != Start || card in {One, Two}) &&
      Move(order, at, if card == Ten && tenBackward then -1 else Distance(card), p, Some(player)).valid == Some(true)
    else if card == Four then
      t.Picks? && |t.items| == 1 &&
      var p := t.items[0].pawn;
      Friendly(player, teams, p.color) && at[p] != Home && at[p] != Start &&
      Move(order, at, -4, p, Some(player)).valid == Some(true)
    else if card == Seven then
      (splitMany || Size(t) <= 2) && t.Split? && SevenOk(order, at, at, t.moves, [], 0, player, teams)
    else if card == Eleven then
      t.Picks? && |t.items| == 2 &&
      var a, b := t.items[0].pawn, t.items[1].pawn;
      EdgeSquare(at[a]) && EdgeSquare(at[b]) && a.color != b.color &&
      ((a.color != player && Friendly(player, teams, b.color)) || (b.color != player && Friendly(player, teams, a.color)))
    else if card == Sorry then
      t.Picks? && |t.items| == 2 &&
      var a, b := t.items[0].pawn, t.items[1].pawn;
      if a.color == b.color then false
      else if a.color != player && Friendly(player, teams, b.color) then at[b] == Start && EdgeSquare(at[a])
      else if b.color != player && Friendly(player, teams, a.color) then at[a] == Start && EdgeSquare(at[b])
      else false
    else false
  }

  /** is_valid_target, simulating on copies of the table, which it leaves untouched. */
  method IsValidTarget(t: PawnTable, targets: Targets, card: Card, player: Color, teams: bool,
                       splitMany: bool, tenBackward: bool) returns (ok: bool)
    requires t.Valid() && Named(targets, t.at)
    ensures ok == ValidTarget(t.order, t.at, targets, card, player, teams, splitMany, tenBackward)
  {
    if targets.Picks? && Discard in targets.items {
      return |targets.items| == 1;
    }
    if SingleCard(card, targets) {
      if targets.Picks? && |targets.items| == 1 {
        var p := targets.items[0].pawn;
        if Friendly(player, teams, p.color) && t.at[p] != Home && (t.at[p] != Start || card in {One, Two}) {
          ok := TryMove(t, if card == Ten && tenBackward then -1 else Distance(card), p, player);
          return;
        }
      }
    } else if card == Four {
      if targets.Picks? && |targets.items| == 1 {
        var p := targets.items[0].pawn;
        if Friendly(player, teams, p.color) && t.at[p] != Home && t.at[p] != Start {
          ok := TryMove(t, -4, p, player);
          return;
        }
      }
    } else if card == Seven {
      if (splitMany || Size(targets) <= 2) && targets.Split? {
        ok := SevenLoop(t, targets.moves, player, teams);
        return;
      }
    } else if card == Eleven {
      if targets.Picks? && |targets.items| == 2 {
        var a, b := targets.items[0].pawn, targets.items[1].pawn;
        if EdgeSquare(t.at[a]) && EdgeSquare(t.at[b]) {
          return a.color != b.color &&
            ((a.color != player && Friendly(player, teams, b.color)) || (b.color != player && Friendly(player, teams, a.color)));
        }
      }
    } else if card == Sorry {
      if targets.Picks? && |targets.items| == 2 {
        var a, b := targets.items[0].pawn, targets.items[1].pawn;
        if a.color != b.color {
          if a.color != player && Friendly(player, teams, b.color) {
            return t.at[b] == Start && EdgeSquare(t.at[a]);
          } else if b.color != player && Friendly(player, teams, a.color) {
            return t.at[a] == Start && EdgeSquare(t.at[b]);
          }
        }
      }
    }
    return false;
  }

  /** move_pawn on a deep copy of the table: whether the move is valid, the table itself untouched. */
  method TryMove(t: PawnTable, n: int, p: Label, player: Color) returns (ok: bool)
    requires t.Valid() && p in t.at
    ensures ok == (Move(t.order, t.at, n, p, Some(player)).valid == Some(true))
  {
    var copy := Copy(t);
    var v := MovePawn(copy, n, p, Some(player));
    ok := v == Some(true);
  }

  /** The 7's loop: the entries in order, each moved on one shared copy of the table. */
  method SevenLoop(t: PawnTable, moves: seq<SplitMove>, player: Color, teams: bool) returns (ok: bool)
    requires t.Valid() && Named(Split(moves), t.at)
    ensures ok == SevenOk(t.order, t.at, t.at, moves, [], 0, player, teams)
  {
    var sum := 0;
    var seen: seq<Label> := [];
    var copy := Copy(t);
    var i := 0;
    while i < |moves|
      invariant 0 <= i <= |moves|
      invariant copy.Valid() && copy.order == t.order && fresh(copy)
      invariant Named(Split(moves[i..]), t.at) && Named(Split(moves[i..]), copy.at)
      invariant SevenOk(t.order, t.at, copy.at, moves[i..], seen, sum, player, teams) ==
                SevenOk(t.order, t.at, t.at, moves, [], 0, player, teams)
    {
      assert moves[i..][0] == moves[i] && moves[i..][1..] == moves[i + 1..];
      var go := SevenStep(t, copy, moves[i..], seen, sum, player, teams);
      if !go {
        return false;
      }
      seen := seen + [moves[i].pawn];
      sum := sum + moves[i].distance;
      i := i + 1;
    }
    ok := sum == 7;
  }

  /** The body of the 7's loop for the first entry of moves: its checks, then its move on the shared copy. */
  method SevenStep(t: PawnTable, copy: PawnTable, moves: seq<SplitMove>, seen: seq<Label>, sum: int, player: Color,
                   teams: bool) returns (go: bool)
    requires t.Valid() && copy.Valid() && copy.order == t.order && copy != t && moves != []
    requires Named(Split(moves), t.at) && Named(Split(moves), copy.at)
    modifies copy
    ensures copy.Valid() && copy.order == t.order
    ensures Named(Split(moves[1..]), t.at) && Named(Split(moves[1..]), copy.at)
    ensures go ==> SevenOk(t.order, t.at, copy.at, moves[1..], seen + [moves[0].pawn], sum + moves[0].distance, player, teams) ==
                   SevenOk(t.order, t.at, old(copy.at), moves, seen, sum, player, teams)
    ensures !go ==> !SevenOk(t.order, t.at, old(copy.at), moves, seen, sum, player, teams)
  {
    var p := moves[0].pawn;
    assert moves[0] in moves;
    assert Named(Split(moves[1..]), t.at) && Named(Split(moves[1..]), copy.at) by {
      forall i | 0 <= i < |moves[1..]| ensures moves[1..][i].pawn in t.at && moves[1..][i].pawn in copy.at {
        assert moves[1..][i] == moves[i + 1];
      }
    }
    if t.at[p] == Start || t.at[p] == Home || p in seen || !Friendly(player, teams, p.color) {
      return false;
    }
    var v := MovePawn(copy, moves[0].distance, p, Some(player));
    go := v == Some(true);
  }

  // ----- What the rules mean -----

  /** The discard marker is accepted exactly when it is the only target, whatever the card. */
  lemma DiscardOnlyAlone(order: seq<Label>, at: map<Label, Loc>, items: seq<Item>, card: Card, player: Color,
                         teams: bool, splitMany: bool, tenBackward: bool)
    requires WellFormed(order, at) && Named(Picks(items), at) && Discard in items
    ensures ValidTarget(order, at, Picks(items), card, player, teams, splitMany, tenBackward) <==> items == [Discard]
  {
  }

  /** The entries of a 7, applied one after another to a running copy; None as soon as one is reported invalid. */
  function Applied(order: seq<Label>, copy: map<Label, Loc>, moves: seq<SplitMove>, player: Color): Option<map<Label, Loc>>
    requires WellFormed(order, copy) && Named(Split(moves), copy)
    decreases |moves|
  {
    if moves == [] then Some(copy)
    else
      assert Named(Split(moves[1..]), copy) by {
        forall i | 0 <= i < |moves[1..]| ensures moves[1..][i].pawn in copy {
          assert moves[1..][i] == moves[i + 1];
        }
      }
      var r := Move(order, copy, moves[0].distance, moves[0].pawn, Some(player));
      if r.valid == Some(true) then Applied(order, r.at, moves[1..], player) else None
  }

  /** The conditions a 7's entries must meet, stated one by one. */
  predicate SevenConditions(order: seq<Label>, at: map<Label, Loc>, moves: seq<SplitMove>, player: Color, teams: bool)
    requires WellFormed(order, at) && Named(Split(moves), at)
  {
    Distinct(SplitLabels(moves)) &&
    (forall i :: 0 <= i < |moves| ==> at[moves[i].pawn] != Start && at[moves[i].pawn] != Home) &&
    (forall i :: 0 <= i < |moves| ==> Friendly(player, teams, moves[i].pawn.color)) &&
    Applied(order, at, moves, player).Some? &&
    SplitSum(moves) == 7
  }

  /** The per-entry checks of the 7's loop: new with respect to seen, off Start and Home, friendly. */
  predicate Checks(at: map<Label, Loc>, moves: seq<SplitMove>, seen: seq<Label>, player: Color, teams: bool)
    requires Named(Split(moves), at)
  {
    forall i :: 0 <= i < |moves| ==>
      moves[i].pawn !in seen && at[moves[i].pawn] != Start && at[moves[i].pawn] != Home &&
      Friendly(player, teams, moves[i].pawn.color)
  }

  /** Distinct labels, one element at a time. */
  lemma DistinctCons(s: seq<Label>)
    requires s != []
    ensures Distinct(s) <==> Distinct(s[1..]) && s[0] !in s[1..]
  {
    if Distinct(s[1..]) && s[0] !in s[1..] {
      forall i, j | 0 <= i < j < |s| ensures s[i] != s[j] {
        if i == 0 {
          assert s[j] == s[1..][j - 1];
        } else {
          assert s[i] == s[1..][i - 1] && s[j] == s[1..][j - 1];
        }
      }
    }
    if Distinct(s) {
      forall i, j | 0 <= i < j < |s[1..]| ensures s[1..][i] != s[1..][j] {
        assert s[1..][i] == s[i + 1] && s[1..][j] == s[j + 1];
      }
    }
  }

  /** The checks and the distinctness of the later entries follow from those of all entries. */
  lemma ChecksTail(at: map<Label, Loc>, moves: seq<SplitMove>, seen: seq<Label>, player: Color, teams: bool)
    requires Named(Split(moves), at) && moves != []
    requires Checks(at, moves, seen, player, teams) && Distinct(SplitLabels(moves))
    ensures Named(Split(moves[1..]), at)
    ensures Checks(at, moves[1..], seen + [moves[0].pawn], player, teams) && Distinct(SplitLabels(moves[1..]))
  {
    var rest := moves[1..];
    var p := moves[0].pawn;
    assert forall i :: 0 <= i < |rest| ==> rest[i] == moves[i + 1];
    assert SplitLabels(moves)[1..] == SplitLabels(rest);
    DistinctCons(SplitLabels(moves));
    forall i | 0 <= i < |rest|
      ensures rest[i].pawn !in seen + [p]
    {
      assert SplitLabels(rest)[i] == rest[i].pawn;
    }
  }

  /** A first entry that passes, followed by later entries that pass, make entries that all pass. */
  lemma ChecksJoin(at: map<Label, Loc>, moves: seq<SplitMove>, seen: seq<Label>, player: Color, teams: bool)
    requires Named(Split(moves), at) && moves != [] && Named(Split(moves[1..]), at)
    requires var p := moves[0].pawn;
      p !in seen && at[p] != Start && at[p] != Home && Friendly(player, teams, p.color)
    requires Checks(at, moves[1..], seen + [moves[0].pawn], player, teams) && Distinct(SplitLabels(moves[1..]))
    ensures Checks(at, moves, seen, player, teams) && Distinct(SplitLabels(moves))
  {
    var rest := moves[1..];
    var p := moves[0].pawn;
    assert SplitLabels(moves)[1..] == SplitLabels(rest);
    DistinctCons(SplitLabels(moves));
    forall i | 0 <= i < |moves|
      ensures moves[i].pawn !in seen && at[moves[i].pawn] != Start && at[moves[i].pawn] != Home &&
        Friendly(player, teams, moves[i].pawn.color)
    {
      if i > 0 {
        assert moves[i] == rest[i - 1];
      }
    }
  }

  /** The checks and the distinctness of a 7's entries, one entry at a time. */
  lemma ChecksCons(at: map<Label, Loc>, moves: seq<SplitMove>, seen: seq<Label>, player: Color, teams: bool)
    requires Named(Split(moves), at) && moves != []
    ensures Named(Split(moves[1..]), at)
    ensures Checks(at, moves, seen, player, teams) && Distinct(SplitLabels(moves)) <==>
      var p := moves[0].pawn;
      p !in seen && at[p] != Start && at[p] != Home && Friendly(player, teams, p.color) &&
      Checks(at, moves[1..], seen + [p], player, teams) && Distinct(SplitLabels(moves[1..]))
  {
    assert Named(Split(moves[1..]), at) by {
      forall i | 0 <= i < |moves[1..]| ensures moves[1..][i].pawn in at {
        assert moves[1..][i] == moves[i + 1];
      }
    }
    var p := moves[0].pawn;
    if Checks(at, moves, seen, player, teams) && Distinct(SplitLabels(moves)) {
      ChecksTail(at, moves, seen, player, teams);
    }
    if p !in seen && at[p] != Start && at[p] != Home && Friendly(player, teams, p.color) &&
       Checks(at, moves[1..], seen + [p], player, teams) && Distinct(SplitLabels(moves[1..])) {
      ChecksJoin(at, moves, seen, player, teams);
    }
  }

  /** The 7's loop accepts exactly when every entry passes every check and the total comes out right. */
  lemma {:induction false} SevenOkMeaning(order: seq<Label>, at: map<Label, Loc>, copy: map<Label, Loc>, moves: seq<SplitMove>,
                                           seen: seq<Label>, sum: int, player: Color, teams: bool)
    requires WellFormed(order, at) && WellFormed(order, copy) && Named(Split(moves), at) && Named(Split(moves), copy)
    ensures SevenOk(order, at, copy, moves, seen, sum, player, teams) <==>
      Distinct(SplitLabels(moves)) && Checks(at, moves, seen, player, teams) &&
      Applied(order, copy, moves, player).Some? && sum + SplitSum(moves) == 7
    decreases |moves|
  {
    if moves != [] {
      var p := moves[0].pawn;
      var rest := moves[1..];
      ChecksCons(at, moves, seen, player, teams);
      assert Named(Split(rest), copy) by {
        forall i | 0 <= i < |rest| ensures rest[i].pawn in copy {
          assert rest[i] == moves[i + 1];
        }
      }
      var r := Move(order, copy, moves[0].distance, p, Some(player));
      SevenOkMeaning(order, at, r.at, rest, seen + [p], sum + moves[0].distance, player, teams);
    }
  }

  /**
   * Apart from a discard, a 7 is accepted exactly when (with at most two
   * entries unless splitting wider is allowed) no pawn repeats, none started on Start or Home, all are
   * friendly, the moves all succeed one after another on one copy of the
   * board, and the distances add up to 7.
   */
  lemma SevenRule(order: seq<Label>, at: map<Label, Loc>, t: Targets, player: Color, teams: bool, splitMany: bool, tenBackward: bool)
    requires WellFormed(order, at) && Named(t, at) && (t.Picks? ==> Discard !in t.items)
    ensures ValidTarget(order, at, t, Seven, player, teams, splitMany, tenBackward) <==>
      t.Split? && (splitMany || |t.moves| <= 2) && SevenConditions(order, at, t.moves, player, teams)
  {
    if t.Split? {
      SevenLoopConditions(order, at, t.moves, player, teams);
    }
  }

  /** The 7's loop, started on the table itself with nothing seen and a zero total, checks exactly the conditions. */
  lemma SevenLoopConditions(order: seq<Label>, at: map<Label, Loc>, moves: seq<SplitMove>, player: Color, teams: bool)
    requires WellFormed(order, at) && Named(Split(moves), at)
    ensures SevenOk(order, at, at, moves, [], 0, player, teams) <==> SevenConditions(order, at, moves, player, teams)
  {
    SevenOkMeaning(order, at, at, moves, [], 0, player, teams);
    assert Checks(at, moves, [], player, teams) <==>
      (forall i :: 0 <= i < |moves| ==> at[moves[i].pawn] != Start && at[moves[i].pawn] != Home) &&
      (forall i :: 0 <= i < |moves| ==> Friendly(player, teams, moves[i].pawn.color));
  }

  /**
   * Leaving Start with a 1 or a 2 is legal for a friendly pawn exactly when no
   * other pawn of the player's own colour stands on that pawn's start exit.
   */
  lemma LeaveStartRule(order: seq<Label>, at: map<Label, Loc>, p: Label, card: Card, player: Color,
                       teams: bool, splitMany: bool, tenBackward: bool)
    requires WellFormed(order, at) && Distinct(order) && Sparse(order, at) && p in at && at[p] == Start && (card == One || card == Two)
    ensures ValidTarget(order, at, Picks([Pawn(p)]), card, player, teams, splitMany, tenBackward) <==>
      Friendly(player, teams, p.color) && forall q :: q in order && q != p && q.color == player ==> at[q] != StartExit(p.color)
  {
    StartExitOnOwnLine(p.color);
    MoveLands(order, at, Distance(card), p, Some(player));
  }

  /** A pawn at Home is never the target of a single-pawn play, whatever the card. */
  lemma HomeIsFinal(order: seq<Label>, at: map<Label, Loc>, p: Label, card: Card, player: Color,
                    teams: bool, splitMany: bool, tenBackward: bool)
    requires WellFormed(order, at) && p in at && at[p] == Home
    ensures !ValidTarget(order, at, Picks([Pawn(p)]), card, player, teams, splitMany, tenBackward)
  {
  }

  /** Nor can it take part in a swap or a Sorry. */
  lemma HomeIsFinalForPairs(order: seq<Label>, at: map<Label, Loc>, p: Label, q: Label, card: Card, player: Color,
                            teams: bool, splitMany: bool, tenBackward: bool)
    requires WellFormed(order, at) && p in at && q in at && at[p] == Home
    ensures !ValidTarget(order, at, Picks([Pawn(p), Pawn(q)]), card, player, teams, splitMany, tenBackward)
    ensures !ValidTarget(order, at, Picks([Pawn(q), Pawn(p)]), card, player, teams, splitMany, tenBackward)
  {
  }

  /** On a pawn that may stand there, the source's frame test is being on the shared track. */
  lemma EdgeSquareIsTrack(c: Color, l: Loc)
    requires Placed(c, l)
    ensures EdgeSquare(l) <==> OnBorder(l)
  {
  }

  /**
   * An 11 swap is legal exactly when both pawns are on the shared track (not
   * Start, Home or a safety zone), their colours differ, and one is friendly
   * while the other is not of the player's own colour.
   */
  lemma ElevenSwapRule(order: seq<Label>, at: map<Label, Loc>, a: Label, b: Label, player: Color,
                       teams: bool, splitMany: bool, tenBackward: bool)
    requires WellFormed(order, at) && a in at && b in at && Placed(a.color, at[a]) && Placed(b.color, at[b])
    ensures ValidTarget(order, at, Picks([Pawn(a), Pawn(b)]), Eleven, player, teams, splitMany, tenBackward) <==>
      OnBorder(at[a]) && OnBorder(at[b]) && a.color != b.color &&
      ((a.color != player && Friendly(player, teams, b.color)) || (b.color != player && Friendly(player, teams, a.color)))
  {
    EdgeSquareIsTrack(a.color, at[a]);
    EdgeSquareIsTrack(b.color, at[b]);
  }

  /**
   * A Sorry is legal exactly when one pawn is friendly and at Start, and the
   * other, of a different colour and not the player's own, is on the border.
   * (The source's two cases never both apply.)
   */
  lemma SorryRule(order: seq<Label>, at: map<Label, Loc>, a: Label, b: Label, player: Color,
                  teams: bool, splitMany: bool, tenBackward: bool)
    requires WellFormed(order, at) && a in at && b in at
    ensures ValidTarget(order, at, Picks([Pawn(a), Pawn(b)]), Sorry, player, teams, splitMany, tenBackward) <==>
      a.color != b.color &&
      ((a.color != player && Friendly(player, teams, b.color) && at[b] == Start && EdgeSquare(at[a])) ||
       (b.color != player && Friendly(player, teams, a.color) && at[a] == Start && EdgeSquare(at[b])))
  {
  }

  // ----- The searches -----

  /** is_some_valid_move_for_ten: the ten works as a step back or as ten forward. */
  method IsSomeValidMoveForTen(t: PawnTable, targets: Targets, player: Color, teams: bool) returns (r: bool)
    requires t.Valid() && Named(targets, t.at)
    ensures r <==> ValidTarget(t.order, t.at, targets, Ten, player, teams, false, true) ||
                   ValidTarget(t.order, t.at, targets, Ten, player, teams, false, false)
  {
    r := IsValidTarget(t, targets, Ten, player, teams, false, true);
    if !r {
      r := IsValidTarget(t, targets, Ten, player, teams, false, false);
    }
  }

  /** The pair [existing, q] is a legal play of the card. */
  predicate PairValid(order: seq<Label>, at: map<Label, Loc>, existing: Label, q: Label, card: Card, player: Color, teams: bool)
    requires WellFormed(order, at) && existing in at && q in at
  {
    ValidTarget(order, at, Picks([Pawn(existing), Pawn(q)]), card, player, teams, false, false)
  }

  /** is_some_valid_swap_for_eleven and is_some_valid_play_for_sorry: some other pawn completes the pair. */
  method IsSomeValidPartner(t: PawnTable, existing: Label, card: Card, player: Color, teams: bool) returns (r: bool)
    requires t.Valid() && existing in t.at
    ensures r <==> exists q :: q in t.order && q != existing && PairValid(t.order, t.at, existing, q, card, player, teams)
  {
    var i := 0;
    while i < |t.order|
      invariant 0 <= i <= |t.order|
      invariant forall j :: 0 <= j < i && t.order[j] != existing ==> !PairValid(t.order, t.at, existing, t.order[j], card, player, teams)
    {
      var q := t.order[i];
      if q != existing {
        var ok := IsValidTarget(t, Picks([Pawn(existing), Pawn(q)]), card, player, teams, false, false);
        if ok {
          assert q in t.order && PairValid(t.order, t.at, existing, q, card, player, teams);
          return true;
        }
      }
      i := i + 1;
    }
    return false;
  }

  /** is_some_valid_swap_for_eleven. */
  method IsSomeValidSwapForEleven(t: PawnTable, existing: Label, player: Color, teams: bool) returns (r: bool)
    requires t.Valid() && existing in t.at
    ensures r <==> exists q :: q in t.order && q != existing && PairValid(t.order, t.at, existing, q, Eleven, player, teams)
  {
    r := IsSomeValidPartner(t, existing, Eleven, player, teams);
  }

  /** is_some_valid_play_for_sorry. */
  method IsSomeValidPlayForSorry(t: PawnTable, existing: Label, player: Color, teams: bool) returns (r: bool)
    requires t.Valid() && existing in t.at
    ensures r <==> exists q :: q in t.order && q != existing && PairValid(t.order, t.at, existing, q, Sorry, player, teams)
  {
    r := IsSomeValidPartner(t, existing, Sorry, player, teams);
  }

  // ----- is_some_valid_split_for_seven -----

  /** A pawn may join a 7 under construction: friendly, and not already one of its entries. */
  predicate Addable(p: Label, moves: seq<SplitMove>, player: Color, teams: bool) {
    Friendly(player, teams, p.color) && p !in SplitLabels(moves)
  }

  /** A bound on the distance still to hand out, for termination. */
  function Measure(r: int): nat {
    if r < 0 then 0 else r + 1
  }

  /** The shortest distance tried: 2 as written (range(r + 1, 1, -1)), 1 as intended. */
  function MinStep(asWritten: bool): int {
    if asWritten then 2 else 1
  }

  /** The longest distance tried: r + 1 as written, r as intended. */
  function MaxStep(r: int, asWritten: bool): int {
    if asWritten then r + 1 else r
  }

  /**
   * is_some_valid_split_for_seven(moves, r): the 7 is valid as it stands, or some
   * pawn that may join it, at some distance tried, gives a 7 for which the search
   * succeeds with r reduced by that distance.
   */
  function SplitSearch(order: seq<Label>, at: map<Label, Loc>, moves: seq<SplitMove>, r: int, player: Color,
                       teams: bool, splitMany: bool, asWritten: bool): bool
    requires WellFormed(order, at) && Named(Split(moves), at)
    decreases Measure(r), 2, 0
  {
    ValidTarget(order, at, Split(moves), Seven, player, teams, splitMany, false) ||
    TryPawns(order, at, moves, r, order, player, teams, splitMany, asWritten)
  }

  /** The loop over the pawns of the dict. */
  function TryPawns(order: seq<Label>, at: map<Label, Loc>, moves: seq<SplitMove>, r: int, ps: seq<Label>,
                    player: Color, teams: bool, splitMany: bool, asWritten: bool): bool
    requires WellFormed(order, at) && Named(Split(moves), at) && Covers(ps, at)
    decreases Measure(r), 1, |ps|
  {
    ps != [] &&
    ((Addable(ps[0], moves, player, teams) &&
      TryDistances(order, at, moves, r, ps[0], MaxStep(r, asWritten), player, teams, splitMany, asWritten)) ||
     TryPawns(order, at, moves, r, ps[1..], player, teams, splitMany, asWritten))
  }

  /** The loop over the distances for one pawn, from d down to the shortest tried. */
  function TryDistances(order: seq<Label>, at: map<Label, Loc>, moves: seq<SplitMove>, r: int, p: Label, d: int,
                        player: Color, teams: bool, splitMany: bool, asWritten: bool): bool
    requires WellFormed(order, at) && Named(Split(moves), at) && p in at && d <= MaxStep(r, asWritten)
    decreases Measure(r), 0, if d < 0 then 0 else d
  {
    d >= MinStep(asWritten) &&
    (SplitSearch(order, at, moves + [SplitMove(p, d)], r - d, player, teams, splitMany, asWritten) ||
     TryDistances(order, at, moves, r, p, d - 1, player, teams, splitMany, asWritten))
  }

  /** Every distance of the entries is at least the shortest one tried. */
  predicate StepsFrom(e: seq<SplitMove>, asWritten: bool) {
    forall i :: 0 <= i < |e| ==> e[i].distance >= MinStep(asWritten)
  }

  /** When the search succeeds, the entries it added make a valid 7, each with a distance it tried. */
  lemma {:induction false} SplitSearchSound(order: seq<Label>, at: map<Label, Loc>, moves: seq<SplitMove>, r: int, player: Color,
                                             teams: bool, splitMany: bool, asWritten: bool) returns (e: seq<SplitMove>)
    requires WellFormed(order, at) && Named(Split(moves), at)
    requires SplitSearch(order, at, moves, r, player, teams, splitMany, asWritten)
    ensures Named(Split(moves + e), at) && StepsFrom(e, asWritten)
    ensures ValidTarget(order, at, Split(moves + e), Seven, player, teams, splitMany, false)
    decreases Measure(r), 2, 0
  {
    if ValidTarget(order, at, Split(moves), Seven, player, teams, splitMany, false) {
      e := [];
      assert moves + e == moves;
    } else {
      e := TryPawnsSound(order, at, moves, r, order, player, teams, splitMany, asWritten);
    }
  }

  lemma {:induction false} TryPawnsSound(order: seq<Label>, at: map<Label, Loc>, moves: seq<SplitMove>, r: int, ps: seq<Label>,
                                          player: Color, teams: bool, splitMany: bool, asWritten: bool) returns (e: seq<SplitMove>)
    requires WellFormed(order, at) && Named(Split(moves), at) && Covers(ps, at)
    requires TryPawns(order, at, moves, r, ps, player, teams, splitMany, asWritten)
    ensures Named(Split(moves + e), at) && StepsFrom(e, asWritten)
    ensures ValidTarget(order, at, Split(moves + e), Seven, player, teams, splitMany, false)
    decreases Measure(r), 1, |ps|
  {
    if Addable(ps[0], moves, player, teams) &&
       TryDistances(order, at, moves, r, ps[0], MaxStep(r, asWritten), player, teams, splitMany, asWritten) {
      e := TryDistancesSound(order, at, moves, r, ps[0], MaxStep(r, asWritten), player, teams, splitMany, asWritten);
    } else {
      e := TryPawnsSound(order, at, moves, r, ps[1..], player, teams, splitMany, asWritten);
    }
  }

  lemma {:induction false} TryDistancesSound(order: seq<Label>, at: map<Label, Loc>, moves: seq<SplitMove>, r: int, p: Label, d: int,
                                              player: Color, teams: bool, splitMany: bool, asWritten: bool) returns (e: seq<SplitMove>)
    requires WellFormed(order, at) && Named(Split(moves), at) && p in at && d <= MaxStep(r, asWritten)
    requires TryDistances(order, at, moves, r, p, d, player, teams, splitMany, asWritten)
    ensures Named(Split(moves + e), at) && StepsFrom(e, asWritten)
    ensures ValidTarget(order, at, Split(moves + e), Seven, player, teams, splitMany, false)
    decreases Measure(r), 0, if d < 0 then 0 else d
  {
    var m := SplitMove(p, d);
    if SplitSearch(order, at, moves + [m], r - d, player, teams, splitMany, asWritten) {
      var e' := SplitSearchSound(order, at, moves + [m], r - d, player, teams, splitMany, asWritten);
      e := [m] + e';
      assert moves + e == moves + [m] + e';
      assert forall i :: 1 <= i < |e| ==> e[i] == e'[i - 1];
    } else {
      e := TryDistancesSound(order, at, moves, r, p, d - 1, player, teams, splitMany, asWritten);
    }
  }

  /** The distances of two runs of entries add up. */
  lemma {:induction false} SplitSumAppend(a: seq<SplitMove>, b: seq<SplitMove>)
    ensures SplitSum(a + b) == SplitSum(a) + SplitSum(b)
  {
    if a == [] {
      assert a + b == b;
    } else {
      assert (a + b)[0] == a[0] && (a + b)[1..] == a[1..] + b;
      SplitSumAppend(a[1..], b);
    }
  }

  /** Entries of distance at least k add up to at least k for each of them. */
  lemma {:induction false} SplitSumAtLeast(e: seq<SplitMove>, k: int)
    requires forall i :: 0 <= i < |e| ==> e[i].distance >= k
    ensures SplitSum(e) >= k * |e|
  {
    if e != [] {
      assert forall i :: 0 <= i < |e[1..]| ==> e[1..][i] == e[i + 1];
      SplitSumAtLeast(e[1..], k);
    }
  }

  /**
   * As written, the search never confirms a 7 that still lacks exactly one
   * square: the distances it tries start at 2, so the entries it adds can
   * never total 1.
   */
  lemma SplitSearchAsWrittenMissesOne(order: seq<Label>, at: map<Label, Loc>, moves: seq<SplitMove>, r: int, player: Color,
                                      teams: bool, splitMany: bool)
    requires WellFormed(order, at) && Named(Split(moves), at) && SplitSum(moves) == 6
    ensures !SplitSearch(order, at, moves, r, player, teams, splitMany, true)
  {
    if SplitSearch(order, at, moves, r, player, teams, splitMany, true) {
      var e := SplitSearchSound(order, at, moves, r, player, teams, splitMany, true);
      SevenRule(order, at, Split(moves + e), player, teams, splitMany, false);
      SplitSumAppend(moves, e);
      SplitSumAtLeast(e, 2);
      assert false;
    }
  }

  /** The search tries each pawn of the list it is given. */
  lemma {:induction false} TryPawnsFinds(order: seq<Label>, at: map<Label, Loc>, moves: seq<SplitMove>, r: int, ps: seq<Label>, p: Label,
                                          player: Color, teams: bool, splitMany: bool, asWritten: bool)
    requires WellFormed(order, at) && Named(Split(moves), at) && Covers(ps, at) && p in ps && p in at
    requires Addable(p, moves, player, teams)
    requires TryDistances(order, at, moves, r, p, MaxStep(r, asWritten), player, teams, splitMany, asWritten)
    ensures TryPawns(order, at, moves, r, ps, player, teams, splitMany, asWritten)
    decreases |ps|
  {
    if ps[0] != p {
      TryPawnsFinds(order, at, moves, r, ps[1..], p, player, teams, splitMany, asWritten);
    }
  }

  /** The search tries each distance from d down to the shortest. */
  lemma {:induction false} TryDistancesFinds(order: seq<Label>, at: map<Label, Loc>, moves: seq<SplitMove>, r: int, p: Label, d: int, d0: int,
                                              player: Color, teams: bool, splitMany: bool, asWritten: bool)
    requires WellFormed(order, at) && Named(Split(moves), at) && p in at && d <= MaxStep(r, asWritten)
    requires MinStep(asWritten) <= d0 <= d
    requires Named(Split(moves + [SplitMove(p, d0)]), at)
    requires SplitSearch(order, at, moves + [SplitMove(p, d0)], r - d0, player, teams, splitMany, asWritten)
    ensures TryDistances(order, at, moves, r, p, d, player, teams, splitMany, asWritten)
    decreases d - d0
  {
    if d != d0 {
      TryDistancesFinds(order, at, moves, r, p, d - 1, d0, player, teams, splitMany, asWritten);
    }
  }

  /**
   * As intended (distances from r down to 1), the search finds every valid
   * completion: whenever some further entries of pawns of the dict, each moving
   * at least one square and together no more than r, make a valid 7, the search
   * succeeds.
   */
  lemma {:induction false} SplitSearchComplete(order: seq<Label>, at: map<Label, Loc>, moves: seq<SplitMove>, e: seq<SplitMove>, r: int,
                                                player: Color, teams: bool, splitMany: bool)
    requires WellFormed(order, at) && Named(Split(moves), at) && Named(Split(moves + e), at)
    requires forall i :: 0 <= i < |e| ==> e[i].pawn in order && e[i].distance >= 1
    requires SplitSum(e) <= r
    requires ValidTarget(order, at, Split(moves + e), Seven, player, teams, splitMany, false)
    ensures SplitSearch(order, at, moves, r, player, teams, splitMany, false)
    decreases |e|
  {
    if e == [] {
      assert moves + e == moves;
    } else {
      var m := e[0];
      var rest := e[1..];
      FirstEntryAddable(order, at, moves, e, player, teams, splitMany);
      assert moves + e == (moves + [m]) + rest;
      assert forall i :: 0 <= i < |rest| ==> rest[i] == e[i + 1];
      SplitSumAtLeast(rest, 1);
      SplitSearchComplete(order, at, moves + [m], rest, r - m.distance, player, teams, splitMany);
      SplitSearchFindsEntry(order, at, moves, m, r, player, teams, splitMany);
    }
  }

  /** The search succeeds when one entry it may add leaves a 7 for which it succeeds. */
  lemma SplitSearchFindsEntry(order: seq<Label>, at: map<Label, Loc>, moves: seq<SplitMove>, m: SplitMove, r: int,
                              player: Color, teams: bool, splitMany: bool)
    requires WellFormed(order, at) && Named(Split(moves), at) && Named(Split(moves + [m]), at)
    requires m.pawn in order && Addable(m.pawn, moves, player, teams) && 1 <= m.distance <= r
    requires SplitSearch(order, at, moves + [m], r - m.distance, player, teams, splitMany, false)
    ensures SplitSearch(order, at, moves, r, player, teams, splitMany, false)
  {
    TryDistancesFinds(order, at, moves, r, m.pawn, r, m.distance, player, teams, splitMany, false);
    TryPawnsFinds(order, at, moves, r, order, m.pawn, player, teams, splitMany, false);
  }

  /** The first added entry of a valid 7 could have been added: its pawn is friendly and new. */
  lemma FirstEntryAddable(order: seq<Label>, at: map<Label, Loc>, moves: seq<SplitMove>, e: seq<SplitMove>,
                          player: Color, teams: bool, splitMany: bool)
    requires WellFormed(order, at) && e != [] && Named(Split(moves + e), at)
    requires ValidTarget(order, at, Split(moves + e), Seven, player, teams, splitMany, false)
    ensures Addable(e[0].pawn, moves, player, teams) && Named(Split(moves + [e[0]]), at)
  {
    var all := moves + e;
    SevenRule(order, at, Split(all), player, teams, splitMany, false);
    assert all[|moves|] == e[0];
    forall i | 0 <= i < |moves + [e[0]]| ensures (moves + [e[0]])[i].pawn in at {
      assert (moves + [e[0]])[i] == all[i];
    }
    assert SplitLabels(all)[|moves|] == e[0].pawn;
    assert forall j :: 0 <= j < |moves| ==> SplitLabels(moves)[j] == SplitLabels(all)[j];
  }

  /** A mutable 7 under construction (the dict the search adds to and pops from). */
  class SplitBuffer {
    var moves: seq<SplitMove>

    constructor (moves: seq<SplitMove>)
      ensures this.moves == moves
    {
      this.moves := moves;
    }
  }

  /**
   * is_some_valid_split_for_seven, with the distances it tries running from r
   * down to 1: each entry is added, the search recurses, and the entry is
   * popped again, so the buffer ends as it started.
   */
  method SomeValidSplitForSeven(t: PawnTable, buf: SplitBuffer, r: int, player: Color, teams: bool, splitMany: bool)
    returns (found: bool)
    requires t.Valid() && Named(Split(buf.moves), t.at)
    modifies buf
    ensures buf.moves == old(buf.moves)
    ensures found == SplitSearch(t.order, t.at, old(buf.moves), r, player, teams, splitMany, false)
    decreases Measure(r), 2
  {
    var ok := IsValidTarget(t, Split(buf.moves), Seven, player, teams, splitMany, false);
    if ok {
      return true;
    }
    ghost var moves0 := buf.moves;
    var i := 0;
    while i < |t.order|
      invariant 0 <= i <= |t.order|
      invariant buf.moves == moves0
      invariant TryPawns(t.order, t.at, moves0, r, t.order[i..], player, teams, splitMany, false) ==
                SplitSearch(t.order, t.at, moves0, r, player, teams, splitMany, false)
    {
      var p := t.order[i];
      assert t.order[i..][0] == p && t.order[i..][1..] == t.order[i + 1..];
      if Friendly(player, teams, p.color) && p !in SplitLabels(buf.moves) {
        var rec := SomeDistance(t, buf, r, p, player, teams, splitMany);
        if rec {
          return true;
        }
      }
      i := i + 1;
    }
    return false;
  }

  /** The loop over the distances r down to 1 for pawn p, each tried by the search on the rest. */
  method SomeDistance(t: PawnTable, buf: SplitBuffer, r: int, p: Label, player: Color, teams: bool, splitMany: bool)
    returns (found: bool)
    requires t.Valid() && Named(Split(buf.moves), t.at) && p in t.at
    modifies buf
    ensures buf.moves == old(buf.moves)
    ensures found == TryDistances(t.order, t.at, old(buf.moves), r, p, r, player, teams, splitMany, false)
    decreases Measure(r), 1
  {
    ghost var moves0 := buf.moves;
    var d := r;
    while d > 0
      invariant d <= r
      invariant buf.moves == moves0
      invariant TryDistances(t.order, t.at, moves0, r, p, d, player, teams, splitMany, false) ==
                TryDistances(t.order, t.at, moves0, r, p, r, player, teams, splitMany, false)
      decreases d
    {
      buf.moves := buf.moves + [SplitMove(p, d)];
      var rec := SomeValidSplitForSeven(t, buf, r - d, player, teams, splitMany);
      buf.moves := buf.moves[..|buf.moves| - 1];
      assert buf.moves == moves0;
      if rec {
        return true;
      }
      d := d - 1;
    }
    return false;
  }
}
