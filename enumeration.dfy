/**
 * enumerate_possible_plays: every legal play of a hand (single pawns, 11
 * swaps and Sorry pairs, both uses of a ten, the splits of a 7), the
 * draw-only 2, and the discard plays offered when nothing else (or only an
 * 11 swap) is possible.
 *
 * Each loop of the source is specified by a function giving the plays its
 * first n passes list, so that one more pass appends to them.
 */
module Enumeration {
  import opened Wrappers
  import opened Board
  import opened Movement
  import opened Tables
  import opened Legality

  /** One entry of possible_plays: the card, its targets, and (for a ten only) whether it steps back one. */
  datatype Play = Play(card: Card, targets: Targets, tenBackward: Option<bool>)

  /** The target list [p]. */
  function Single(p: Label): Targets {
    Picks([Pawn(p)])
  }

  /** The target list [a, b]. */
  function Pair(a: Label, b: Label): Targets {
    Picks([Pawn(a), Pawn(b)])
  }

  /** Playing a 2 purely to draw again. */
  const DrawTwo: Play := Play(Two, Picks([]), None)

  /** An 11 used to swap two pawns. */
  predicate IsSwap(x: Play) {
    x.card == Eleven && Size(x.targets) == 2
  }

  /** The cards whose plays move one pawn forward by their number (the 11 also swaps). */
  predicate PlainCard(card: Card) {
    card in {One, Two, Three, Four, Five, Eight, Eleven, Twelve}
  }

  // ----- The plays each loop lists -----

  /** The single-pawn plays of the card for the first n pawns of the dict. */
  function Singles(order: seq<Label>, at: map<Label, Loc>, n: nat, card: Card, player: Color,
                   teams: bool, splitMany: bool): seq<Play>
    requires WellFormed(order, at) && n <= |order|
  {
    if n == 0 then []
    else
      Singles(order, at, n - 1, card, player, teams, splitMany) +
      (if ValidTarget(order, at, Single(order[n - 1]), card, player, teams, splitMany, false)
       then [Play(card, Single(order[n - 1]), None)] else [])
  }

  /** The pair plays [a, q] of the card, for q over the first n pawns. */
  function Partners(order: seq<Label>, at: map<Label, Loc>, a: Label, n: nat, card: Card, player: Color,
                    teams: bool, splitMany: bool): seq<Play>
    requires WellFormed(order, at) && a in at && n <= |order|
  {
    if n == 0 then []
    else
      Partners(order, at, a, n - 1, card, player, teams, splitMany) +
      (if ValidTarget(order, at, Pair(a, order[n - 1]), card, player, teams, splitMany, false)
       then [Play(card, Pair(a, order[n - 1]), None)] else [])
  }

  /** The pair plays of the card, the first pawn among the first n and the second over the whole dict. */
  function Pairs(order: seq<Label>, at: map<Label, Loc>, n: nat, card: Card, player: Color,
                 teams: bool, splitMany: bool): seq<Play>
    requires WellFormed(order, at) && n <= |order|
  {
    if n == 0 then []
    else
      Pairs(order, at, n - 1, card, player, teams, splitMany) +
      Partners(order, at, order[n - 1], |order|, card, player, teams, splitMany)
  }

  /** The ten's plays of one pawn: back one, then ten forward. */
  function TenAt(order: seq<Label>, at: map<Label, Loc>, p: Label, card: Card, player: Color, teams: bool): seq<Play>
    requires WellFormed(order, at) && p in at
  {
    (if ValidTarget(order, at, Single(p), card, player, teams, false, true) then [Play(card, Single(p), Some(true))] else []) +
    (if ValidTarget(order, at, Single(p), card, player, teams, false, false) then [Play(card, Single(p), Some(false))] else [])
  }

  /** The ten's plays for the first n pawns. */
  function Tens(order: seq<Label>, at: map<Label, Loc>, n: nat, card: Card, player: Color, teams: bool): seq<Play>
    requires WellFormed(order, at) && n <= |order|
    decreases n, 1
  {
    if n == 0 then [] else TensThrough(order, at, n, card, player, teams)
  }

  /** The ten's plays for the first n pawns, n >= 1: those of the first n - 1, then pawn n's. */
  function TensThrough(order: seq<Label>, at: map<Label, Loc>, n: nat, card: Card, player: Color, teams: bool): seq<Play>
    requires WellFormed(order, at) && 1 <= n <= |order|
    decreases n, 0
  {
    Tens(order, at, n - 1, card, player, teams) + TenAt(order, at, order[n - 1], card, player, teams)
  }

  /** A pawn the 7 may move: friendly, and neither at Start nor Home. */
  predicate CanMove(at: map<Label, Loc>, p: Label, player: Color, teams: bool)
    requires p in at
  {
    Friendly(player, teams, p.color) && at[p] != Start && at[p] != Home
  }

  /** movable_pawns: the pawns among the first n that the 7 may move, in dict order. */
  function Movable(order: seq<Label>, at: map<Label, Loc>, n: nat, player: Color, teams: bool): seq<Label>
    requires WellFormed(order, at) && n <= |order|
  {
    if n == 0 then []
    else Movable(order, at, n - 1, player, teams) + (if CanMove(at, order[n - 1], player, teams) then [order[n - 1]] else [])
  }

  /** The pawns Movable lists are exactly the pawns among the first n that the 7 may move. */
  lemma {:induction false} MovableMembers(order: seq<Label>, at: map<Label, Loc>, n: nat, player: Color, teams: bool)
    requires WellFormed(order, at) && n <= |order|
    ensures forall p :: p in Movable(order, at, n, player, teams) <==> p in order[..n] && CanMove(at, p, player, teams)
  {
    if n > 0 {
      MovableMembers(order, at, n - 1, player, teams);
      assert order[..n] == order[..n - 1] + [order[n - 1]];
    }
  }

  /**
   * The 7's checks as is_valid_target runs them on a dict of distances (at most
   * two entries unless splitMany); SevenKept shows this is is_valid_target.
   */
  predicate SevenAccepts(order: seq<Label>, at: map<Label, Loc>, t: Targets, player: Color, teams: bool, splitMany: bool)
    requires WellFormed(order, at)
  {
    t.Split? && Named(t, at) && (splitMany || |t.moves| <= 2) && SevenOk(order, at, at, t.moves, [], 0, player, teams)
  }

  /** A candidate 7, kept when the 7's checks accept it (the source appends it and pops it again otherwise). */
  function Keep(order: seq<Label>, at: map<Label, Loc>, t: Targets, player: Color, teams: bool, splitMany: bool): seq<Play>
    requires WellFormed(order, at)
  {
    if SevenAccepts(order, at, t, player, teams, splitMany) then [Play(Seven, t, None)] else []
  }

  /** The 7's checks accept exactly the dicts is_valid_target accepts for a 7. */
  lemma SevenKept(order: seq<Label>, at: map<Label, Loc>, t: Targets, player: Color, teams: bool, splitMany: bool)
    requires WellFormed(order, at) && Named(t, at) && t.Split?
    ensures SevenAccepts(order, at, t, player, teams, splitMany) == ValidTarget(order, at, t, Seven, player, teams, splitMany, false)
  {
  }

  /** The candidates the 7's checks accept, as plays, in the order they were tried. */
  function KeepAll(order: seq<Label>, at: map<Label, Loc>, cands: seq<Targets>, player: Color, teams: bool,
                   splitMany: bool): seq<Play>
    requires WellFormed(order, at)
  {
    if cands == [] then []
    else
      var last := cands[|cands| - 1];
      KeepAll(order, at, cands[..|cands| - 1], player, teams, splitMany) + Keep(order, at, last, player, teams, splitMany)
  }

  /** Filtering two runs of candidates one after the other is filtering each. */
  lemma {:induction false} KeepAllAppend(order: seq<Label>, at: map<Label, Loc>, a: seq<Targets>, b: seq<Targets>,
                                         player: Color, teams: bool, splitMany: bool)
    requires WellFormed(order, at)
    ensures KeepAll(order, at, a + b, player, teams, splitMany) ==
      KeepAll(order, at, a, player, teams, splitMany) + KeepAll(order, at, b, player, teams, splitMany)
  {
    if b != [] {
      var b' := b[..|b| - 1];
      assert (a + b)[..|a + b| - 1] == a + b' && (a + b)[|a + b| - 1] == b[|b| - 1];
      KeepAllAppend(order, at, a, b', player, teams, splitMany);
    } else {
      assert a + b == a;
    }
  }

  /** One more candidate tried: the kept plays of the candidates so far, then its own. */
  lemma KeepAllSnoc(order: seq<Label>, at: map<Label, Loc>, cands: seq<Targets>, t: Targets, player: Color,
                    teams: bool, splitMany: bool)
    requires WellFormed(order, at)
    ensures KeepAll(order, at, cands + [t], player, teams, splitMany) ==
      KeepAll(order, at, cands, player, teams, splitMany) + Keep(order, at, t, player, teams, splitMany)
  {
    assert (cands + [t])[..|cands|] == cands;
  }

  /** The split of a 7 between movable pawns i1 and i2: c to the first, the rest to the second. */
  function TwoWay(mv: seq<Label>, i1: int, i2: int, c: int): Targets
    requires 0 <= i1 < |mv| && 0 <= i2 < |mv|
  {
    if i1 != i2 then Split([SplitMove(mv[i1], c), SplitMove(mv[i2], 7 - c)]) else Split([SplitMove(mv[i1], c)])
  }

  /** A split in two names pawns of the dict when the movable pawns do. */
  lemma TwoWayNamed(mv: seq<Label>, i1: int, i2: int, c: int, at: map<Label, Loc>)
    requires 0 <= i1 < |mv| && 0 <= i2 < |mv| && Covers(mv, at)
    ensures TwoWay(mv, i1, i2, c).Split? && Named(TwoWay(mv, i1, i2, c), at)
  {
    assert mv[i1] in mv && mv[i2] in mv;
  }

  /** The candidates giving count c to first pawn i1, for second pawns among the first n. */
  function SecondSplits(mv: seq<Label>, i1: nat, c: int, n: nat): seq<Targets>
    requires i1 < |mv| && n <= |mv|
  {
    if n == 0 then [] else SecondSplits(mv, i1, c, n - 1) + [TwoWay(mv, i1, n - 1, c)]
  }

  /** The candidates of first pawn i1 with movement counts 1 to n. */
  function CountSplits(mv: seq<Label>, i1: nat, n: nat): seq<Targets>
    requires i1 < |mv|
  {
    if n == 0 then [] else CountSplits(mv, i1, n - 1) + SecondSplits(mv, i1, n, |mv|)
  }

  /** The 7's candidates without splitMany for first pawns among the first n movable ones. */
  function SevenSplits(mv: seq<Label>, n: nat): seq<Targets>
    requires n <= |mv|
  {
    if n == 0 then []
    else SevenSplits(mv, n - 1) + [Split([SplitMove(mv[n - 1], 7)])] + CountSplits(mv, n - 1, MaxShare())
  }

  /**
   * The largest count the first pawn of a split in two takes (a function
   * rather than a literal, so that the verifier does not unroll CountSplits).
   */
  function MaxShare(): nat { 6 }

  // ----- The odometer of the splitMany 7 -----

  /** pawn_indices.count(i): how many counters hold i. */
  function Count(d: seq<int>, i: int): nat {
    if d == [] then 0 else (if d[0] == i then 1 else 0) + Count(d[1..], i)
  }

  /** Count is the multiplicity of i among the counters. */
  lemma {:induction false} CountMultiset(d: seq<int>, i: int)
    ensures Count(d, i) == multiset(d)[i]
  {
    if d != [] {
      CountMultiset(d[1..], i);
      assert d == [d[0]] + d[1..];
    }
  }

  /** The target dict of an odometer state: each of the first n movable pawns whose index some counter holds, with that count. */
  function Tally(mv: seq<Label>, d: seq<int>, n: nat): (r: seq<SplitMove>)
    requires n <= |mv|
    ensures forall k :: 0 <= k < |r| ==> r[k].pawn in mv
  {
    if n == 0 then []
    else Tally(mv, d, n - 1) + (if Count(d, n - 1) != 0 then [SplitMove(mv[n - 1], Count(d, n - 1))] else [])
  }

  /** The carry loop: each of the first six counters that has reached m is reset and carries into the next. */
  function Carry(d: seq<int>, i: nat, m: nat): (e: seq<int>)
    requires |d| == 7 && i <= 6
    ensures |e| == 7
    decreases 6 - i
  {
    if i == 6 then d
    else if d[i] == m then Carry(d[i := 0][i + 1 := d[i + 1] + 1], i + 1, m)
    else Carry(d, i + 1, m)
  }

  /** One step of the odometer: the first counter goes up by one, and carries follow. */
  function Advance(d: seq<int>, m: nat): (e: seq<int>)
    requires |d| == 7
    ensures |e| == 7
  {
    Carry(d[0 := d[0] + 1], 0, m)
  }

  /**
   * The states the odometer passes through over m movable pawns: the first
   * six counters below m; with no movable pawns, the even counters equal
   * and the odd ones zero.
   */
  predicate OdometerState(d: seq<int>, m: nat) {
    |d| == 7 && 0 <= d[6] <= 7 &&
    if m == 0 then d == [d[6], 0, d[6], 0, d[6], 0, d[6]]
    else forall i :: 0 <= i < 6 ==> 0 <= d[i] < m
  }

  /** pawn_indices at the start: seven counters at zero. */
  const Zeros: seq<int> := [0, 0, 0, 0, 0, 0, 0]

  /** The counters after k passes of the odometer loop started from d. */
  function Iterate(d: seq<int>, m: nat, k: nat): (e: seq<int>)
    requires |d| == 7
    ensures |e| == 7
    decreases k
  {
    if k == 0 then d else Iterate(Advance(d, m), m, k - 1)
  }

  /** The counters after k passes of the odometer loop over m movable pawns. */
  function Reading(m: nat, k: nat): (d: seq<int>)
    ensures |d| == 7
  {
    Iterate(Zeros, m, k)
  }

  /** The number of passes of the odometer loop from state d on, until the last counter reaches 7. */
  function Ticks(d: seq<int>, m: nat): nat
    requires OdometerState(d, m)
    decreases 7 - d[6], m - d[5], m - d[4], m - d[3], m - d[2], m - d[1], m - d[0]
  {
    if d[6] == 7 then 0
    else
      AdvanceStep(d, m);
      1 + Ticks(Advance(d, m), m)
  }

  /** The 7's candidates of the first k passes of the odometer loop. */
  function OdometerSplits(mv: seq<Label>, k: nat): seq<Targets> {
    if k == 0 then [] else OdometerSplits(mv, k - 1) + [Split(Tally(mv, Reading(|mv|, k - 1), |mv|))]
  }

  /** The 7's candidates with splitMany: one per pass of the odometer loop. */
  function OdometerAll(mv: seq<Label>): seq<Targets> {
    OdometerSplits(mv, Passes(|mv|))
  }

  /** The number of passes the odometer loop makes over m movable pawns. */
  function Passes(m: nat): nat {
    assert OdometerState(Zeros, m);
    Ticks(Zeros, m)
  }

  /** Carrying leaves the counters alone once none of those still to be checked has reached m. */
  lemma {:induction false} CarryIdle(d: seq<int>, i: nat, m: nat)
    requires |d| == 7 && i <= 6
    requires forall j :: i <= j < 6 ==> d[j] != m
    ensures Carry(d, i, m) == d
    decreases 6 - i
  {
    if i < 6 {
      CarryIdle(d, i + 1, m);
    }
  }

  /**
   * With m >= 1, carrying from counter i, which has just gone up by one from
   * its value in b, keeps the counters below m and yields a state later than
   * b, compared from the last counter down.
   */
  lemma {:induction false} CarryUp(d: seq<int>, b: seq<int>, i: nat, m: nat)
    requires m >= 1 && |d| == 7 && |b| == 7 && i <= 6
    requires forall j :: 0 <= j < i ==> 0 <= d[j] < m
    requires forall j :: i < j < 6 ==> 0 <= d[j] < m
    requires i < 6 ==> 0 <= d[i] <= m
    requires forall j :: i < j < 7 ==> d[j] == b[j]
    requires d[i] == b[i] + 1
    ensures var e := Carry(d, i, m);
      (forall j :: 0 <= j < 6 ==> 0 <= e[j] < m) && d[6] <= e[6] <= d[6] + (if i == 6 then 0 else 1) && Later(e, b)
    decreases 6 - i
  {
    var e := Carry(d, i, m);
    if i == 6 || d[i] < m {
      CarryIdle(d, i, m);
    } else {
      var d' := d[i := 0][i + 1 := d[i + 1] + 1];
      CarryUp(d', b, i + 1, m);
    }
  }

  /** The odometer state e comes after d, compared from the last counter down. */
  predicate Later(e: seq<int>, d: seq<int>)
    requires |e| == 7 && |d| == 7
  {
    e[6] > d[6] || (e[6] == d[6] && (e[5] > d[5] || (e[5] == d[5] && (e[4] > d[4] || (e[4] == d[4] &&
    (e[3] > d[3] || (e[3] == d[3] && (e[2] > d[2] || (e[2] == d[2] && (e[1] > d[1] || (e[1] == d[1] &&
    e[0] > d[0])))))))))))
  }

  /** With no movable pawns, one odometer step raises every even counter by one. */
  lemma AdvanceEmpty(d: seq<int>)
    requires OdometerState(d, 0)
    ensures Advance(d, 0) == [d[6] + 1, 0, d[6] + 1, 0, d[6] + 1, 0, d[6] + 1]
  {
    var k := d[6];
    var d0 := d[0 := k + 1];
    assert d0 == [k + 1, 0, k, 0, k, 0, k];
    assert Carry(d0, 0, 0) == Carry(d0, 1, 0);
    var d1 := [k + 1, 0, k + 1, 0, k, 0, k];
    assert Carry(d0, 1, 0) == Carry(d1, 2, 0);
    assert Carry(d1, 2, 0) == Carry(d1, 3, 0);
    var d2 := [k + 1, 0, k + 1, 0, k + 1, 0, k];
    assert Carry(d1, 3, 0) == Carry(d2, 4, 0);
    assert Carry(d2, 4, 0) == Carry(d2, 5, 0);
    var d3 := [k + 1, 0, k + 1, 0, k + 1, 0, k + 1];
    assert Carry(d2, 5, 0) == Carry(d3, 6, 0);
  }

  /** Each odometer step keeps the state shape and moves strictly forward, so the loop ends. */
  lemma AdvanceStep(d: seq<int>, m: nat)
    requires OdometerState(d, m) && d[6] < 7
    ensures var e := Advance(d, m); OdometerState(e, m) && Later(e, d)
  {
    if m == 0 {
      AdvanceEmpty(d);
    } else {
      CarryUp(d[0 := d[0] + 1], d, 0, m);
    }
  }

  /** Before the first pass: the counters at zero, and no candidate tried. */
  lemma OdometerStart(mv: seq<Label>, order: seq<Label>, at: map<Label, Loc>, player: Color, teams: bool, splitMany: bool)
    requires WellFormed(order, at)
    ensures Zeros == Reading(|mv|, 0)
    ensures KeepAll(order, at, OdometerSplits(mv, 0), player, teams, splitMany) == []
  {
  }

  /** One pass of the odometer loop over m movable pawns: the next reading, and one pass fewer to go. */
  lemma OdometerPass(m: nat, k: nat, d: seq<int>)
    requires OdometerState(d, m) && d == Reading(m, k) && d[6] != 7
    ensures OdometerState(Advance(d, m), m) && Advance(d, m) == Reading(m, k + 1)
    ensures Ticks(d, m) == 1 + Ticks(Advance(d, m), m)
  {
    TicksStep(d, m);
    IterateLast(Zeros, m, k);
  }

  /** Within the passes left from state d, the k-th later reading is a state with k passes fewer to go. */
  lemma {:induction false} IterateTicks(d: seq<int>, m: nat, k: nat)
    requires OdometerState(d, m) && k <= Ticks(d, m)
    ensures OdometerState(Iterate(d, m, k), m) && k + Ticks(Iterate(d, m, k), m) == Ticks(d, m)
    decreases k
  {
    if k > 0 {
      assert d[6] != 7;
      TicksStep(d, m);
      IterateTicks(Advance(d, m), m, k - 1);
    }
  }

  /** The pass after the first k passes: k + 1 passes. */
  lemma {:induction false} IterateLast(d: seq<int>, m: nat, k: nat)
    requires |d| == 7
    ensures Iterate(d, m, k + 1) == Advance(Iterate(d, m, k), m)
    decreases k
  {
    var e := Advance(d, m);
    if k > 0 {
      IterateLast(e, m, k - 1);
      assert Iterate(d, m, k) == Iterate(e, m, k - 1);
    }
    assert Iterate(d, m, k + 1) == Iterate(e, m, k);
  }

  /** A pass from a state that is not the last leads to a state with one pass fewer to go. */
  lemma TicksStep(d: seq<int>, m: nat)
    requires OdometerState(d, m) && d[6] != 7
    ensures OdometerState(Advance(d, m), m) && Ticks(d, m) == 1 + Ticks(Advance(d, m), m)
  {
    AdvanceStep(d, m);
  }

  /** Within the passes of the loop, the k-th reading is a state of the odometer with the rest of the passes to go. */
  lemma PassesLeft(m: nat, k: nat)
    requires k <= Passes(m)
    ensures OdometerState(Reading(m, k), m) && k + Ticks(Reading(m, k), m) == Passes(m)
  {
    assert OdometerState(Zeros, m);
    IterateTicks(Zeros, m, k);
  }

  // ----- The whole hand -----

  /** The plays of one card that do not depend on the plays listed before it. */
  function PawnPlays(order: seq<Label>, at: map<Label, Loc>, card: Card, player: Color, teams: bool, splitMany: bool): seq<Play>
    requires WellFormed(order, at)
  {
    if card == Eleven then
      Singles(order, at, |order|, Eleven, player, teams, splitMany) + Pairs(order, at, |order|, Eleven, player, teams, splitMany)
    else if PlainCard(card) then Singles(order, at, |order|, card, player, teams, splitMany)
    else if card == Seven then
      var mv := Movable(order, at, |order|, player, teams);
      MovableMembers(order, at, |order|, player, teams);
      KeepAll(order, at, if splitMany then OdometerAll(mv) else SevenSplits(mv, |mv|), player, teams, splitMany)
    else if card == Ten then Tens(order, at, |order|, card, player, teams)
    else Pairs(order, at, |order|, Sorry, player, teams, splitMany)
  }

  /** Some play listed so far is a 2. */
  predicate HasTwo(plays: seq<Play>) {
    exists i :: 0 <= i < |plays| && plays[i].card == Two
  }

  /** Whether the draw-only 2 is offered: drawing again needs a card to follow. */
  predicate DrawAllowed(handSize: int, drawAfterTwo: bool) {
    !drawAfterTwo || handSize > 1
  }

  /**
   * The plays one card adds after the plays acc: its pawn plays and, for a 2
   * when no 2 has been listed, the draw-only 2.
   */
  function CardPlays(order: seq<Label>, at: map<Label, Loc>, card: Card, acc: seq<Play>, handSize: int, player: Color,
                     teams: bool, splitMany: bool, drawAfterTwo: bool): seq<Play>
    requires WellFormed(order, at)
  {
    var s := PawnPlays(order, at, card, player, teams, splitMany);
    if card == Two && !HasTwo(acc + s) && DrawAllowed(handSize, drawAfterTwo) then s + [DrawTwo] else s
  }

  /** The plays listed for the first n cards of the hand. */
  function Listed(order: seq<Label>, at: map<Label, Loc>, hand: seq<Card>, n: nat, player: Color,
                  teams: bool, splitMany: bool, drawAfterTwo: bool): seq<Play>
    requires WellFormed(order, at) && n <= |hand|
    decreases n, 1
  {
    if n == 0 then [] else ListedThrough(order, at, hand, n, player, teams, splitMany, drawAfterTwo)
  }

  /** The plays listed for the first n cards, n >= 1: those of the first n - 1, then what card n adds. */
  function ListedThrough(order: seq<Label>, at: map<Label, Loc>, hand: seq<Card>, n: nat, player: Color,
                         teams: bool, splitMany: bool, drawAfterTwo: bool): seq<Play>
    requires WellFormed(order, at) && 1 <= n <= |hand|
    decreases n, 0
  {
    var acc := Listed(order, at, hand, n - 1, player, teams, splitMany, drawAfterTwo);
    acc + CardPlays(order, at, hand[n - 1], acc, |hand|, player, teams, splitMany, drawAfterTwo)
  }

  /** Every listed play is an 11 swap. */
  predicate AllSwaps(plays: seq<Play>) {
    forall i :: 0 <= i < |plays| ==> IsSwap(plays[i])
  }

  /** One discard play per card in hand. */
  function Discards(hand: seq<Card>): (r: seq<Play>)
    ensures |r| == |hand| && forall i :: 0 <= i < |hand| ==> r[i] == Play(hand[i], Picks([Discard]), None)
  {
    if hand == [] then [] else Discards(hand[..|hand| - 1]) + [Play(hand[|hand| - 1], Picks([Discard]), None)]
  }

  /** The plays of the hand before the discards. */
  function HandPlays(order: seq<Label>, at: map<Label, Loc>, hand: seq<Card>, player: Color, teams: bool,
                     splitMany: bool, drawAfterTwo: bool): seq<Play>
    requires WellFormed(order, at)
  {
    Listed(order, at, hand, |hand|, player, teams, splitMany, drawAfterTwo)
  }

  /** enumerate_possible_plays in list mode: the plays, and the discards when nothing but swaps is possible. */
  function Enumerated(order: seq<Label>, at: map<Label, Loc>, hand: seq<Card>, player: Color, teams: bool,
                      splitMany: bool, drawAfterTwo: bool): seq<Play>
    requires WellFormed(order, at)
  {
    var c := HandPlays(order, at, hand, player, teams, splitMany, drawAfterTwo);
    if c == [] || AllSwaps(c) then c + Discards(hand) else c
  }

  /** enumerate_possible_plays in existence mode, as intended: some play other than an 11 swap exists. */
  predicate SomePlay(order: seq<Label>, at: map<Label, Loc>, hand: seq<Card>, player: Color, teams: bool,
                     splitMany: bool, drawAfterTwo: bool)
    requires WellFormed(order, at)
  {
    var c := HandPlays(order, at, hand, player, teams, splitMany, drawAfterTwo);
    c != [] && !AllSwaps(c)
  }

  /**
   * enumerate_possible_plays in existence mode, as written: it returns True
   * at the first play listed, an 11 swap included, and otherwise (only 7s
   * listed, which do not return early) whenever the list is non-empty.
   */
  predicate SomePlayAsWritten(order: seq<Label>, at: map<Label, Loc>, hand: seq<Card>, player: Color, teams: bool,
                              splitMany: bool, drawAfterTwo: bool)
    requires WellFormed(order, at)
  {
    HandPlays(order, at, hand, player, teams, splitMany, drawAfterTwo) != []
  }

  // ----- The loops -----

  /** The loop over the dict for a card that moves one pawn. */
  method AddSingles(t: PawnTable, card: Card, player: Color, teams: bool, splitMany: bool)
    returns (r: seq<Play>)
    requires t.Valid()
    ensures r == Singles(t.order, t.at, |t.order|, card, player, teams, splitMany)
  {
    r := [];
    var i := 0;
    while i < |t.order|
      invariant 0 <= i <= |t.order|
      invariant r == Singles(t.order, t.at, i, card, player, teams, splitMany)
    {
      r := AddSingle(t, r, i, card, player, teams, splitMany);
      i := i + 1;
    }
  }

  /** The body of the loop over the dict: the play of pawn i when it is legal. */
  method AddSingle(t: PawnTable, plays: seq<Play>, i: nat, card: Card, player: Color, teams: bool, splitMany: bool)
    returns (r: seq<Play>)
    requires t.Valid() && i < |t.order| && plays == Singles(t.order, t.at, i, card, player, teams, splitMany)
    ensures r == Singles(t.order, t.at, i + 1, card, player, teams, splitMany)
  {
    var p := t.order[i];
    assert p in t.order;
    var ok := IsValidTarget(t, Single(p), card, player, teams, splitMany, false);
    r := plays;
    if ok {
      r := r + [Play(card, Single(p), None)];
    }
  }

  /** The inner loop over the dict: the partners q of pawn a. */
  method AddPartners(t: PawnTable, a: Label, card: Card, player: Color, teams: bool, splitMany: bool)
    returns (r: seq<Play>)
    requires t.Valid() && a in t.at
    ensures r == Partners(t.order, t.at, a, |t.order|, card, player, teams, splitMany)
  {
    r := [];
    var j := 0;
    while j < |t.order|
      invariant 0 <= j <= |t.order|
      invariant r == Partners(t.order, t.at, a, j, card, player, teams, splitMany)
    {
      var b := t.order[j];
      var ok := IsValidTarget(t, Pair(a, b), card, player, teams, splitMany, false);
      if ok {
        r := r + [Play(card, Pair(a, b), None)];
      }
      j := j + 1;
    }
  }

  /** The nested loops over two pawns for an 11 swap or a Sorry. */
  method AddPairs(t: PawnTable, card: Card, player: Color, teams: bool, splitMany: bool)
    returns (r: seq<Play>)
    requires t.Valid()
    ensures r == Pairs(t.order, t.at, |t.order|, card, player, teams, splitMany)
  {
    r := [];
    var i := 0;
    while i < |t.order|
      invariant 0 <= i <= |t.order|
      invariant r == Pairs(t.order, t.at, i, card, player, teams, splitMany)
    {
      var s := AddPartners(t, t.order[i], card, player, teams, splitMany);
      r := r + s;
      i := i + 1;
    }
  }

  /** The two tests of one pawn with a ten, the body of the loop over the dict. */
  method TenChecks(t: PawnTable, r: seq<Play>, i: nat, card: Card, player: Color, teams: bool) returns (r': seq<Play>)
    requires t.Valid() && i < |t.order| && r == Tens(t.order, t.at, i, card, player, teams)
    ensures r' == Tens(t.order, t.at, i + 1, card, player, teams)
  {
    var p := t.order[i];
    var s := [];
    var back := IsValidTarget(t, Single(p), card, player, teams, false, true);
    if back {
      s := s + [Play(card, Single(p), Some(true))];
    }
    var ahead := IsValidTarget(t, Single(p), card, player, teams, false, false);
    if ahead {
      s := s + [Play(card, Single(p), Some(false))];
    }
    assert s == TenAt(t.order, t.at, p, card, player, teams);
    r' := r + s;
    assert r' == TensThrough(t.order, t.at, i + 1, card, player, teams);
  }

  /** The loop over the dict for a ten. */
  method AddTens(t: PawnTable, card: Card, player: Color, teams: bool) returns (r: seq<Play>)
    requires t.Valid()
    ensures r == Tens(t.order, t.at, |t.order|, card, player, teams)
  {
    r := [];
    var i := 0;
    while i < |t.order|
      invariant 0 <= i <= |t.order|
      invariant r == Tens(t.order, t.at, i, card, player, teams)
    {
      r := TenChecks(t, r, i, card, player, teams);
      i := i + 1;
    }
  }

  /** The loop collecting movable_pawns. */
  method MovablePawns(t: PawnTable, player: Color, teams: bool) returns (mv: seq<Label>)
    requires t.Valid()
    ensures mv == Movable(t.order, t.at, |t.order|, player, teams)
  {
    mv := [];
    var i := 0;
    while i < |t.order|
      invariant 0 <= i <= |t.order|
      invariant mv == Movable(t.order, t.at, i, player, teams)
    {
      var p := t.order[i];
      if CanMove(t.at, p, player, teams) {
        mv := mv + [p];
      }
      i := i + 1;
    }
  }

  /** Appends a candidate 7 and pops it again when it is not legal. */
  method TryKeep(t: PawnTable, plays: seq<Play>, targets: Targets, player: Color, teams: bool, splitMany: bool)
    returns (r: seq<Play>)
    requires t.Valid() && Named(targets, t.at) && targets.Split?
    ensures r == plays + Keep(t.order, t.at, targets, player, teams, splitMany)
  {
    r := plays + [Play(Seven, targets, None)];
    var ok := IsValidTarget(t, r[|r| - 1].targets, Seven, player, teams, splitMany, false);
    SevenKept(t.order, t.at, targets, player, teams, splitMany);
    if !ok {
      r := r[..|r| - 1];
    }
  }

  /** The innermost 7 loop: the second pawns, for first pawn i1 and count c. */
  method AddSeconds(t: PawnTable, mv: seq<Label>, i1: nat, c: int, player: Color, teams: bool, splitMany: bool)
    returns (r: seq<Play>)
    requires t.Valid() && Covers(mv, t.at) && i1 < |mv|
    ensures r == KeepAll(t.order, t.at, SecondSplits(mv, i1, c, |mv|), player, teams, splitMany)
  {
    r := [];
    var i2 := 0;
    while i2 < |mv|
      invariant 0 <= i2 <= |mv|
      invariant r == KeepAll(t.order, t.at, SecondSplits(mv, i1, c, i2), player, teams, splitMany)
    {
      var cand := TwoWay(mv, i1, i2, c);
      TwoWayNamed(mv, i1, i2, c, t.at);
      KeepAllSnoc(t.order, t.at, SecondSplits(mv, i1, c, i2), cand, player, teams, splitMany);
      r := TryKeep(t, r, cand, player, teams, splitMany);
      i2 := i2 + 1;
    }
  }

  /** The loop over movement counts 1 to 6 for first pawn i1. */
  method AddCounts(t: PawnTable, mv: seq<Label>, i1: nat, player: Color, teams: bool, splitMany: bool)
    returns (r: seq<Play>)
    requires t.Valid() && Covers(mv, t.at) && i1 < |mv|
    ensures r == KeepAll(t.order, t.at, CountSplits(mv, i1, MaxShare()), player, teams, splitMany)
  {
    r := [];
    var c := 1;
    while c < 7
      invariant 1 <= c <= 7
      invariant r == KeepAll(t.order, t.at, CountSplits(mv, i1, c - 1), player, teams, splitMany)
    {
      var s := AddSeconds(t, mv, i1, c, player, teams, splitMany);
      KeepAllAppend(t.order, t.at, CountSplits(mv, i1, c - 1), SecondSplits(mv, i1, c, |mv|), player, teams, splitMany);
      r := r + s;
      c := c + 1;
    }
  }

  /** The body of the 7's outer loop for first pawn i1: the whole 7 on it, then its splits in two. */
  method AddFirst(t: PawnTable, plays: seq<Play>, mv: seq<Label>, i1: nat, player: Color, teams: bool, splitMany: bool)
    returns (r: seq<Play>)
    requires t.Valid() && Covers(mv, t.at) && i1 < |mv|
    requires plays == KeepAll(t.order, t.at, SevenSplits(mv, i1), player, teams, splitMany)
    ensures r == KeepAll(t.order, t.at, SevenSplits(mv, i1 + 1), player, teams, splitMany)
  {
    TwoWayNamed(mv, i1, i1, 7, t.at);
    r := TryKeep(t, plays, TwoWay(mv, i1, i1, 7), player, teams, splitMany);
    var s := AddCounts(t, mv, i1, player, teams, splitMany);
    SevenSplitsStep(t.order, t.at, mv, i1, player, teams, splitMany);
    r := r + s;
  }

  /** One more first pawn adds its whole 7, then its splits in two, to the kept plays. */
  lemma SevenSplitsStep(order: seq<Label>, at: map<Label, Loc>, mv: seq<Label>, i1: nat, player: Color, teams: bool,
                        splitMany: bool)
    requires WellFormed(order, at) && i1 < |mv|
    ensures KeepAll(order, at, SevenSplits(mv, i1 + 1), player, teams, splitMany) ==
      KeepAll(order, at, SevenSplits(mv, i1), player, teams, splitMany)
      + Keep(order, at, TwoWay(mv, i1, i1, 7), player, teams, splitMany)
      + KeepAll(order, at, CountSplits(mv, i1, MaxShare()), player, teams, splitMany)
  {
    var whole := TwoWay(mv, i1, i1, 7);
    KeepAllSnoc(order, at, SevenSplits(mv, i1), whole, player, teams, splitMany);
    KeepAllAppend(order, at, SevenSplits(mv, i1) + [whole], CountSplits(mv, i1, MaxShare()), player, teams, splitMany);
  }

  /** The 7's loops without splitMany: the whole 7 on one pawn, then every split in two. */
  method AddSevenPairs(t: PawnTable, mv: seq<Label>, player: Color, teams: bool, splitMany: bool)
    returns (r: seq<Play>)
    requires t.Valid() && Covers(mv, t.at)
    ensures r == KeepAll(t.order, t.at, SevenSplits(mv, |mv|), player, teams, splitMany)
  {
    r := [];
    var i1 := 0;
    while i1 < |mv|
      invariant 0 <= i1 <= |mv|
      invariant r == KeepAll(t.order, t.at, SevenSplits(mv, i1), player, teams, splitMany)
    {
      r := AddFirst(t, r, mv, i1, player, teams, splitMany);
      i1 := i1 + 1;
    }
  }

  /** The scan of pawn_indices.count(i). */
  method CountOf(d: seq<int>, i: int) returns (n: nat)
    ensures n == Count(d, i)
  {
    n := 0;
    var k := 0;
    while k < |d|
      invariant 0 <= k <= |d|
      invariant n == multiset(d[..k])[i]
    {
      assert d[..k + 1] == d[..k] + [d[k]];
      if d[k] == i {
        n := n + 1;
      }
      k := k + 1;
    }
    assert d[..k] == d;
    CountMultiset(d, i);
  }

  /** The target dict of the current odometer state. */
  method TallyOf(mv: seq<Label>, d: seq<int>) returns (targets: seq<SplitMove>)
    ensures targets == Tally(mv, d, |mv|)
  {
    targets := [];
    var i := 0;
    while i < |mv|
      invariant 0 <= i <= |mv|
      invariant targets == Tally(mv, d, i)
    {
      var c := CountOf(d, i);
      if c != 0 {
        targets := targets + [SplitMove(mv[i], c)];
      }
      i := i + 1;
    }
  }

  /** pawn_indices[0] += 1 and the carry loop that follows it. */
  method AdvanceCounters(d: seq<int>, m: nat) returns (e: seq<int>)
    requires |d| == 7
    ensures e == Advance(d, m)
  {
    e := d[0 := d[0] + 1];
    var i := 0;
    while i < 6
      invariant 0 <= i <= 6 && |e| == 7
      invariant Carry(e, i, m) == Advance(d, m)
    {
      if e[i] == m {
        e := e[i := 0];
        e := e[i + 1 := e[i + 1] + 1];
      }
      i := i + 1;
    }
  }

  /** One pass of the odometer loop: the candidate of the current counters, then the counters advanced. */
  method OdometerStep(t: PawnTable, r: seq<Play>, mv: seq<Label>, d: seq<int>, ghost k: nat,
                      player: Color, teams: bool, splitMany: bool) returns (r': seq<Play>, e: seq<int>)
    requires t.Valid() && Covers(mv, t.at)
    requires k <= Passes(|mv|) && d == Reading(|mv|, k) && d[6] != 7
    requires r == KeepAll(t.order, t.at, OdometerSplits(mv, k), player, teams, splitMany)
    ensures k + 1 <= Passes(|mv|) && e == Reading(|mv|, k + 1)
    ensures r' == KeepAll(t.order, t.at, OdometerSplits(mv, k + 1), player, teams, splitMany)
  {
    PassesLeft(|mv|, k);
    OdometerPass(|mv|, k, d);
    var targets := TallyOf(mv, d);
    assert Named(Split(targets), t.at) by {
      forall i | 0 <= i < |targets| ensures targets[i].pawn in t.at {
        assert targets[i].pawn in mv;
      }
    }
    KeepAllSnoc(t.order, t.at, OdometerSplits(mv, k), Split(targets), player, teams, splitMany);
    r' := TryKeep(t, r, Split(targets), player, teams, splitMany);
    e := AdvanceCounters(d, |mv|);
  }

  /** Once the last counter reads 7, the passes made are all the passes of the loop. */
  lemma OdometerDone(mv: seq<Label>, d: seq<int>, k: nat)
    requires k <= Passes(|mv|) && d == Reading(|mv|, k) && d[6] == 7
    ensures OdometerSplits(mv, k) == OdometerAll(mv)
  {
    PassesLeft(|mv|, k);
    assert Ticks(d, |mv|) == 0;
    assert k == Passes(|mv|);
  }

  /** The 7's odometer loop with splitMany, over the counters pawn_indices. */
  method AddSevenSplits(t: PawnTable, mv: seq<Label>, player: Color, teams: bool, splitMany: bool)
    returns (r: seq<Play>)
    requires t.Valid() && Covers(mv, t.at)
    ensures r == KeepAll(t.order, t.at, OdometerAll(mv), player, teams, splitMany)
  {
    OdometerStart(mv, t.order, t.at, player, teams, splitMany);
    ghost var k := 0;
    r := [];
    var d := Zeros;
    while d[6] != 7
      invariant k <= Passes(|mv|) && d == Reading(|mv|, k)
      invariant r == KeepAll(t.order, t.at, OdometerSplits(mv, k), player, teams, splitMany)
      decreases Passes(|mv|) - k
    {
      r, d := OdometerStep(t, r, mv, d, k, player, teams, splitMany);
      k := k + 1;
    }
    OdometerDone(mv, d, k);
  }

  /** The first loop over reversed(possible_plays): whether a 2 has been listed. */
  method HasTwoPlay(plays: seq<Play>) returns (found: bool)
    ensures found == HasTwo(plays)
  {
    var i := |plays|;
    while i > 0
      invariant 0 <= i <= |plays|
      invariant forall k :: i <= k < |plays| ==> plays[k].card != Two
    {
      i := i - 1;
      if plays[i].card == Two {
        return true;
      }
    }
    return false;
  }

  /** The plays one card adds after the plays listed so far. */
  method AddCardPlays(t: PawnTable, plays: seq<Play>, card: Card, handSize: int, player: Color, teams: bool,
                      splitMany: bool, drawAfterTwo: bool) returns (r: seq<Play>)
    requires t.Valid()
    ensures r == CardPlays(t.order, t.at, card, plays, handSize, player, teams, splitMany, drawAfterTwo)
  {
    if PlainCard(card) {
      r := AddSingles(t, card, player, teams, splitMany);
      if card == Two {
        var two := HasTwoPlay(plays + r);
        if !two && DrawAllowed(handSize, drawAfterTwo) {
          r := r + [DrawTwo];
        }
      } else if card == Eleven {
        var s := AddPairs(t, Eleven, player, teams, splitMany);
        r := r + s;
      }
    } else if card == Seven {
      var mv := MovablePawns(t, player, teams);
      MovableMembers(t.order, t.at, |t.order|, player, teams);
      if splitMany {
        r := AddSevenSplits(t, mv, player, teams, splitMany);
      } else {
        r := AddSevenPairs(t, mv, player, teams, splitMany);
      }
    } else if card == Ten {
      r := AddTens(t, card, player, teams);
    } else {
      r := AddPairs(t, Sorry, player, teams, splitMany);
    }
  }

  /** The body of the loop over the hand: the plays of card i appended to those of the cards before it. */
  method AddCard(t: PawnTable, plays: seq<Play>, hand: seq<Card>, i: nat, player: Color, teams: bool,
                 splitMany: bool, drawAfterTwo: bool) returns (r: seq<Play>)
    requires t.Valid() && i < |hand| && plays == Listed(t.order, t.at, hand, i, player, teams, splitMany, drawAfterTwo)
    ensures r == Listed(t.order, t.at, hand, i + 1, player, teams, splitMany, drawAfterTwo)
  {
    var s := AddCardPlays(t, plays, hand[i], |hand|, player, teams, splitMany, drawAfterTwo);
    r := plays + s;
    assert r == ListedThrough(t.order, t.at, hand, i + 1, player, teams, splitMany, drawAfterTwo);
  }

  /** The loop over the cards in hand, before the check for swaps. */
  method ListPlays(t: PawnTable, hand: seq<Card>, player: Color, teams: bool, splitMany: bool, drawAfterTwo: bool)
    returns (plays: seq<Play>)
    requires t.Valid()
    ensures plays == HandPlays(t.order, t.at, hand, player, teams, splitMany, drawAfterTwo)
  {
    plays := [];
    for i := 0 to |hand|
      invariant plays == Listed(t.order, t.at, hand, i, player, teams, splitMany, drawAfterTwo)
    {
      plays := AddCard(t, plays, hand, i, player, teams, splitMany, drawAfterTwo);
    }
  }

  /** The scan for a play that is not an 11 swap. */
  method OnlySwaps(plays: seq<Play>) returns (b: bool)
    ensures b == AllSwaps(plays)
  {
    b := true;
    var j := 0;
    while j < |plays|
      invariant 0 <= j <= |plays|
      invariant forall k :: 0 <= k < j ==> IsSwap(plays[k])
    {
      if !IsSwap(plays[j]) {
        return false;
      }
      j := j + 1;
    }
  }

  /** The loop adding a discard for each card in hand. */
  method DiscardAll(hand: seq<Card>) returns (ds: seq<Play>)
    ensures ds == Discards(hand)
  {
    ds := [];
    var k := 0;
    while k < |hand|
      invariant 0 <= k <= |hand|
      invariant ds == Discards(hand[..k])
    {
      assert hand[..k + 1][..k] == hand[..k];
      ds := ds + [Play(hand[k], Picks([Discard]), None)];
      k := k + 1;
    }
    assert hand[..k] == hand;
  }

  /**
   * enumerate_possible_plays. In list mode it returns the plays and the
   * discards; in existence mode it reports whether a play other than an 11
   * swap exists (the plays returned then are those before the discards).
   */
  method EnumeratePossiblePlays(t: PawnTable, hand: seq<Card>, player: Color, teams: bool, whetherSome: bool,
                                splitMany: bool, drawAfterTwo: bool) returns (plays: seq<Play>, some: bool)
    requires t.Valid()
    ensures !whetherSome ==> plays == Enumerated(t.order, t.at, hand, player, teams, splitMany, drawAfterTwo) && !some
    ensures whetherSome ==> plays == HandPlays(t.order, t.at, hand, player, teams, splitMany, drawAfterTwo) &&
                            (some <==> SomePlay(t.order, t.at, hand, player, teams, splitMany, drawAfterTwo))
  {
    plays := ListPlays(t, hand, player, teams, splitMany, drawAfterTwo);
    var onlySwaps := OnlySwaps(plays);
    if whetherSome {
      return plays, plays != [] && !onlySwaps;
    }
    some := false;
    if plays == [] || onlySwaps {
      var ds := DiscardAll(hand);
      plays := plays + ds;
    }
  }
}
