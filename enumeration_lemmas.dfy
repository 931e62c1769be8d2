/**
 * What the lists of enumerate_possible_plays contain: each loop lists exactly
 * the candidates is_valid_target accepts, every play but the draw-only 2 and
 * the discards passes is_valid_target, and the discards are offered exactly
 * when nothing but 11 swaps is possible.
 */
module EnumerationLemmas {
  import opened Wrappers
  import opened Board
  import opened Movement
  import opened Legality
  import opened Enumeration

  /** A play that moves pawns: it names pawns of the dict, is not a discard, and is_valid_target accepts it for its card. */
  predicate Genuine(order: seq<Label>, at: map<Label, Loc>, x: Play, player: Color, teams: bool, splitMany: bool)
    requires WellFormed(order, at)
  {
    Named(x.targets, at) && (x.targets.Picks? ==> Discard !in x.targets.items) &&
    ValidTarget(order, at, x.targets, x.card, player, teams, splitMany, x.tenBackward == Some(true))
  }

  // ----- Two lemmas per loop: what it lists is legal, and it lists every legal candidate -----

  /** A play the single-pawn loop lists names one pawn it has passed, and is legal for the card. */
  lemma {:induction false} SinglesSound(order: seq<Label>, at: map<Label, Loc>, n: nat, card: Card, player: Color,
                                        teams: bool, splitMany: bool, x: Play)
    requires WellFormed(order, at) && n <= |order|
    requires x in Singles(order, at, n, card, player, teams, splitMany)
    ensures x.card == card && x.tenBackward == None && x.targets.Picks? && |x.targets.items| == 1 &&
      x.targets.items[0].Pawn? && x.targets.items[0].pawn in order[..n] && Genuine(order, at, x, player, teams, splitMany)
  {
    assert order[..n] == order[..n - 1] + [order[n - 1]];
    if x in Singles(order, at, n - 1, card, player, teams, splitMany) {
      SinglesSound(order, at, n - 1, card, player, teams, splitMany, x);
    }
  }

  /** The single-pawn loop lists [p] exactly when it has passed p and the card may move p. */
  lemma {:induction false} SinglesListed(order: seq<Label>, at: map<Label, Loc>, n: nat, card: Card, player: Color,
                                         teams: bool, splitMany: bool, p: Label)
    requires WellFormed(order, at) && n <= |order| && p in at
    ensures Play(card, Single(p), None) in Singles(order, at, n, card, player, teams, splitMany) <==>
      p in order[..n] && ValidTarget(order, at, Single(p), card, player, teams, splitMany, false)
  {
    if n > 0 {
      SinglesListed(order, at, n - 1, card, player, teams, splitMany, p);
      assert order[..n] == order[..n - 1] + [order[n - 1]];
    }
  }

  /** A play the inner pair loop lists is [a, q] for a pawn q it has passed, and is legal for the card. */
  lemma {:induction false} PartnersSound(order: seq<Label>, at: map<Label, Loc>, a: Label, n: nat, card: Card,
                                         player: Color, teams: bool, splitMany: bool, x: Play)
    requires WellFormed(order, at) && a in at && n <= |order|
    requires x in Partners(order, at, a, n, card, player, teams, splitMany)
    ensures x.card == card && x.tenBackward == None && x.targets.Picks? && |x.targets.items| == 2 &&
      x.targets.items[0] == Pawn(a) && x.targets.items[1].Pawn? && x.targets.items[1].pawn in order[..n] &&
      Genuine(order, at, x, player, teams, splitMany)
  {
    assert order[..n] == order[..n - 1] + [order[n - 1]];
    if x in Partners(order, at, a, n - 1, card, player, teams, splitMany) {
      PartnersSound(order, at, a, n - 1, card, player, teams, splitMany, x);
    }
  }

  /** The inner pair loop lists [a, q] exactly when it has passed q and [a, q] is a legal pair for the card. */
  lemma {:induction false} PartnersListed(order: seq<Label>, at: map<Label, Loc>, a: Label, n: nat, card: Card,
                                          player: Color, teams: bool, splitMany: bool, q: Label)
    requires WellFormed(order, at) && a in at && n <= |order| && q in at
    ensures Play(card, Pair(a, q), None) in Partners(order, at, a, n, card, player, teams, splitMany) <==>
      q in order[..n] && ValidTarget(order, at, Pair(a, q), card, player, teams, splitMany, false)
  {
    if n > 0 {
      PartnersListed(order, at, a, n - 1, card, player, teams, splitMany, q);
      assert order[..n] == order[..n - 1] + [order[n - 1]];
    }
  }

  /** A play the nested pair loops list is a pair whose first pawn they have passed, and is legal for the card. */
  lemma {:induction false} PairsSound(order: seq<Label>, at: map<Label, Loc>, n: nat, card: Card, player: Color,
                                      teams: bool, splitMany: bool, x: Play)
    requires WellFormed(order, at) && n <= |order|
    requires x in Pairs(order, at, n, card, player, teams, splitMany)
    ensures x.card == card && x.tenBackward == None && x.targets.Picks? && |x.targets.items| == 2 &&
      x.targets.items[0].Pawn? && x.targets.items[0].pawn in order[..n] &&
      x.targets.items[1].Pawn? && x.targets.items[1].pawn in order && Genuine(order, at, x, player, teams, splitMany)
  {
    assert order[..n] == order[..n - 1] + [order[n - 1]];
    if x in Pairs(order, at, n - 1, card, player, teams, splitMany) {
      PairsSound(order, at, n - 1, card, player, teams, splitMany, x);
    } else {
      PartnersSound(order, at, order[n - 1], |order|, card, player, teams, splitMany, x);
      assert order[..|order|] == order;
    }
  }

  /** One pass of the outer pair loop, for first pawn c, adds [a, b] exactly when a is c and [a, b] is legal. */
  lemma PairsStep(order: seq<Label>, at: map<Label, Loc>, n: nat, card: Card, player: Color,
                  teams: bool, splitMany: bool, a: Label, b: Label)
    requires WellFormed(order, at) && 1 <= n <= |order| && a in at && b in at
    ensures Play(card, Pair(a, b), None) in Pairs(order, at, n, card, player, teams, splitMany) <==>
      Play(card, Pair(a, b), None) in Pairs(order, at, n - 1, card, player, teams, splitMany) ||
      (a == order[n - 1] && b in order && ValidTarget(order, at, Pair(a, b), card, player, teams, splitMany, false))
  {
    var c := order[n - 1];
    var x := Play(card, Pair(a, b), None);
    assert order[..|order|] == order;
    if a == c {
      PartnersListed(order, at, c, |order|, card, player, teams, splitMany, b);
    } else if x in Partners(order, at, c, |order|, card, player, teams, splitMany) {
      PartnersFirst(order, at, c, |order|, card, player, teams, splitMany, x);
      assert false;
    }
  }

  /** The nested pair loops list [a, b] exactly when they have passed a and [a, b] is a legal pair for the card. */
  lemma {:induction false} PairsListed(order: seq<Label>, at: map<Label, Loc>, n: nat, card: Card, player: Color,
                                       teams: bool, splitMany: bool, a: Label, b: Label)
    requires WellFormed(order, at) && n <= |order| && a in at && b in at
    ensures Play(card, Pair(a, b), None) in Pairs(order, at, n, card, player, teams, splitMany) <==>
      a in order[..n] && b in order && ValidTarget(order, at, Pair(a, b), card, player, teams, splitMany, false)
  {
    if n > 0 {
      PairsListed(order, at, n - 1, card, player, teams, splitMany, a, b);
      PairsStep(order, at, n, card, player, teams, splitMany, a, b);
      PrefixMember(order, n, a);
    }
  }

  /** Every pair the inner loop lists for pawn a starts with a. */
  lemma {:induction false} PartnersFirst(order: seq<Label>, at: map<Label, Loc>, a: Label, n: nat, card: Card,
                                         player: Color, teams: bool, splitMany: bool, x: Play)
    requires WellFormed(order, at) && a in at && n <= |order|
    requires x in Partners(order, at, a, n, card, player, teams, splitMany)
    ensures x.targets.Picks? && |x.targets.items| == 2 && x.targets.items[0] == Pawn(a)
  {
    if x in Partners(order, at, a, n - 1, card, player, teams, splitMany) {
      PartnersFirst(order, at, a, n - 1, card, player, teams, splitMany, x);
    }
  }

  /** A play the ten's loop lists names one pawn it has passed, and is legal in the direction it records. */
  lemma {:induction false} TensSound(order: seq<Label>, at: map<Label, Loc>, n: nat, card: Card, player: Color, teams: bool,
                                     x: Play)
    requires WellFormed(order, at) && n <= |order|
    requires x in Tens(order, at, n, card, player, teams)
    ensures x.card == card && x.tenBackward.Some? && x.targets.Picks? && |x.targets.items| == 1 &&
      x.targets.items[0].Pawn? && x.targets.items[0].pawn in order[..n] && Genuine(order, at, x, player, teams, false)
  {
    assert Tens(order, at, n, card, player, teams) == TensThrough(order, at, n, card, player, teams);
    assert order[..n] == order[..n - 1] + [order[n - 1]];
    if x in Tens(order, at, n - 1, card, player, teams) {
      TensSound(order, at, n - 1, card, player, teams, x);
    }
  }

  /** The ten's plays of pawn q include that of p in a direction exactly when p is q and may move that way. */
  lemma TenAtListed(order: seq<Label>, at: map<Label, Loc>, q: Label, card: Card, player: Color, teams: bool,
                    p: Label, back: bool)
    requires WellFormed(order, at) && q in at && p in at
    ensures Play(card, Single(p), Some(back)) in TenAt(order, at, q, card, player, teams) <==>
      p == q && ValidTarget(order, at, Single(p), card, player, teams, false, back)
  {
    if back {
      assert Play(card, Single(p), Some(back)) != Play(card, Single(q), Some(false));
    } else {
      assert Play(card, Single(p), Some(back)) != Play(card, Single(q), Some(true));
    }
  }

  /** The ten's loop lists the play of p in a direction exactly when it has passed p and p may move that way. */
  lemma {:induction false} TensListed(order: seq<Label>, at: map<Label, Loc>, n: nat, card: Card, player: Color, teams: bool,
                                      p: Label, back: bool)
    requires WellFormed(order, at) && n <= |order| && p in at
    ensures Play(card, Single(p), Some(back)) in Tens(order, at, n, card, player, teams) <==>
      p in order[..n] && ValidTarget(order, at, Single(p), card, player, teams, false, back)
  {
    if n > 0 {
      TensListed(order, at, n - 1, card, player, teams, p, back);
      TenAtListed(order, at, order[n - 1], card, player, teams, p, back);
      TensSplit(order, at, n, card, player, teams, Play(card, Single(p), Some(back)));
      PrefixMember(order, n, p);
    }
  }

  /** A play is among the ten's plays for the first n pawns when it is among those of the first n - 1 or of pawn n. */
  lemma TensSplit(order: seq<Label>, at: map<Label, Loc>, n: nat, card: Card, player: Color, teams: bool, x: Play)
    requires WellFormed(order, at) && 1 <= n <= |order|
    ensures x in Tens(order, at, n, card, player, teams) <==>
      x in Tens(order, at, n - 1, card, player, teams) || x in TenAt(order, at, order[n - 1], card, player, teams)
  {
    assert Tens(order, at, n, card, player, teams) ==
      Tens(order, at, n - 1, card, player, teams) + TenAt(order, at, order[n - 1], card, player, teams);
  }

  /** A label is among the first n when it is among the first n - 1 or is the n-th. */
  lemma PrefixMember(order: seq<Label>, n: nat, p: Label)
    requires 1 <= n <= |order|
    ensures p in order[..n] <==> p in order[..n - 1] || p == order[n - 1]
  {
    assert order[..n] == order[..n - 1] + [order[n - 1]];
  }

  // ----- The 7's candidates -----

  /** Every 7 the filter keeps is legal: the 7's checks accepted its dict. */
  lemma {:induction false} KeepAllSound(order: seq<Label>, at: map<Label, Loc>, cands: seq<Targets>, player: Color,
                                        teams: bool, splitMany: bool, x: Play)
    requires WellFormed(order, at) && x in KeepAll(order, at, cands, player, teams, splitMany)
    ensures x.card == Seven && x.tenBackward == None && x.targets.Split? && x.targets in cands &&
      Genuine(order, at, x, player, teams, splitMany)
    decreases |cands|
  {
    var last := cands[|cands| - 1];
    var init := cands[..|cands| - 1];
    assert cands == init + [last];
    if x in KeepAll(order, at, init, player, teams, splitMany) {
      KeepAllSound(order, at, init, player, teams, splitMany, x);
    } else {
      SevenKept(order, at, last, player, teams, splitMany);
    }
  }

  /** The counters' multiset alone decides the dict they stand for. */
  lemma {:induction false} TallyMultiset(mv: seq<Label>, d: seq<int>, e: seq<int>, n: nat)
    requires n <= |mv| && multiset(d) == multiset(e)
    ensures Tally(mv, d, n) == Tally(mv, e, n)
  {
    if n > 0 {
      TallyMultiset(mv, d, e, n - 1);
      CountMultiset(d, n - 1);
      CountMultiset(e, n - 1);
    }
  }

  /** Before the first counter wraps, the odometer reads k on the first counter and zero elsewhere. */
  lemma {:induction false} ReadingBelow(m: nat, k: nat)
    requires 2 <= m && k < m
    ensures Reading(m, k) == Zeros[0 := k]
  {
    if k > 0 {
      ReadingBelow(m, k - 1);
      IterateLast(Zeros, m, k - 1);
      AdvanceBelow(m, k - 1);
    }
  }

  /** While the first counter stays below m, a pass only raises it by one. */
  lemma AdvanceBelow(m: nat, k: nat)
    requires 2 <= m && k + 1 < m
    ensures Advance(Zeros[0 := k], m) == Zeros[0 := k + 1]
  {
    var d := Zeros[0 := k + 1];
    assert Zeros[0 := k][0 := k + 1] == d;
    assert forall j :: 0 <= j < 6 ==> d[j] != m;
    CarryNone(d, 0, m);
  }

  /** No counter from i on has reached m: the carry loop changes nothing. */
  lemma {:induction false} CarryNone(d: seq<int>, i: nat, m: nat)
    requires |d| == 7 && i <= 6 && forall j :: i <= j < 6 ==> d[j] != m
    ensures Carry(d, i, m) == d
    decreases 6 - i
  {
    if i < 6 {
      CarryNone(d, i + 1, m);
    }
  }

  /** The k-th candidate of the odometer is the dict of the k-th reading. */
  lemma {:induction false} OdometerSplitsAt(mv: seq<Label>, k: nat, j: nat)
    requires j < k
    ensures |OdometerSplits(mv, k)| == k && OdometerSplits(mv, k)[j] == Split(Tally(mv, Reading(|mv|, j), |mv|))
  {
    if k > 1 {
      if j < k - 1 {
        OdometerSplitsAt(mv, k - 1, j);
      } else {
        OdometerSplitsAt(mv, k - 1, 0);
      }
    }
  }

  /**
   * The repeated candidates of the splitMany 7: with m >= 2 movable pawns the
   * readings after one pass and after m passes are [1, 0, ...] and
   * [0, 1, 0, ...], which both give six to the first pawn and one to the
   * second, so that dict is tried, and listed if legal, twice.
   */
  lemma SevenDuplicates(mv: seq<Label>)
    requires |mv| >= 2
    ensures var m := |mv|; var cands := OdometerSplits(mv, m + 1);
      |cands| == m + 1 && cands[1] == cands[m] && cands[1] == Split([SplitMove(mv[0], 6), SplitMove(mv[1], 1)])
  {
    var m := |mv|;
    var one, e := [1, 0, 0, 0, 0, 0, 0], [0, 1, 0, 0, 0, 0, 0];
    ReadingOne(m);
    ReadingWrap(m);
    TallySwapped(mv, one, e);
    OdometerSplitsAt(mv, m + 1, 1);
    OdometerSplitsAt(mv, m + 1, m);
  }

  /** After one pass, the first counter reads one. */
  lemma ReadingOne(m: nat)
    requires m >= 2
    ensures Reading(m, 1) == [1, 0, 0, 0, 0, 0, 0]
  {
    ReadingBelow(m, 1);
  }

  /** [1, 0, ...] and [0, 1, 0, ...] give the same dict: six to the first pawn, one to the second. */
  lemma TallySwapped(mv: seq<Label>, one: seq<int>, e: seq<int>)
    requires |mv| >= 2 && one == [1, 0, 0, 0, 0, 0, 0] && e == [0, 1, 0, 0, 0, 0, 0]
    ensures Tally(mv, one, |mv|) == Tally(mv, e, |mv|) == [SplitMove(mv[0], 6), SplitMove(mv[1], 1)]
  {
    assert multiset(one) == multiset(e);
    TallyMultiset(mv, one, e, |mv|);
    TallyFirstTwo(mv, e, |mv|);
  }

  /** After m passes over m >= 2 movable pawns, the first counter has wrapped into the second. */
  lemma ReadingWrap(m: nat)
    requires m >= 2
    ensures Reading(m, m) == [0, 1, 0, 0, 0, 0, 0]
  {
    ReadingBelow(m, m - 1);
    IterateLast(Zeros, m, m - 1);
    var d := Zeros[0 := m];
    var e := [0, 1, 0, 0, 0, 0, 0];
    assert Zeros[0 := m - 1][0 := m - 1 + 1] == d;
    assert d[0 := 0][1 := d[1] + 1] == e;
    CarryNone(e, 1, m);
    assert Carry(d, 0, m) == Carry(e, 1, m);
  }

  /** The dict of [0, 1, 0, ...]: six moves to the first pawn and one to the second. */
  lemma {:induction false} TallyFirstTwo(mv: seq<Label>, e: seq<int>, n: nat)
    requires 2 <= n <= |mv| && e == [0, 1, 0, 0, 0, 0, 0]
    ensures Tally(mv, e, n) == [SplitMove(mv[0], 6), SplitMove(mv[1], 1)]
  {
    CountMultiset(e, n - 1);
    if n > 2 {
      TallyFirstTwo(mv, e, n - 1);
      assert multiset(e)[n - 1] == 0;
    } else {
      CountMultiset(e, 0);
      CountMultiset(e, 1);
      assert multiset(e)[0] == 6 && multiset(e)[1] == 1;
      assert Tally(mv, e, 0) == [];
    }
  }

  // ----- The whole hand -----

  /** Whether maxSplit is passed on to is_valid_target matters only for a 7. */
  lemma SplitManyOnlySeven(order: seq<Label>, at: map<Label, Loc>, t: Targets, card: Card, player: Color, teams: bool,
                           back: bool)
    requires WellFormed(order, at) && Named(t, at) && card != Seven
    ensures ValidTarget(order, at, t, card, player, teams, false, back) == ValidTarget(order, at, t, card, player, teams, true, back)
  {
  }

  /** Every play a card lists for the pawns is of that card, names some pawn, and is legal. */
  lemma PawnPlaysSound(order: seq<Label>, at: map<Label, Loc>, card: Card, player: Color, teams: bool, splitMany: bool,
                       x: Play)
    requires WellFormed(order, at) && x in PawnPlays(order, at, card, player, teams, splitMany)
    ensures x.card == card && Size(x.targets) > 0 && Genuine(order, at, x, player, teams, splitMany)
  {
    var n := |order|;
    if card == Eleven {
      if x in Singles(order, at, n, Eleven, player, teams, splitMany) {
        SinglesSound(order, at, n, Eleven, player, teams, splitMany, x);
      } else {
        PairsSound(order, at, n, Eleven, player, teams, splitMany, x);
      }
    } else if PlainCard(card) {
      SinglesSound(order, at, n, card, player, teams, splitMany, x);
    } else if card == Seven {
      var mv := Movable(order, at, n, player, teams);
      MovableMembers(order, at, n, player, teams);
      KeepAllSound(order, at, if splitMany then OdometerAll(mv) else SevenSplits(mv, |mv|), player, teams, splitMany, x);
    } else if card == Ten {
      TensSound(order, at, n, card, player, teams, x);
      SplitManyOnlySeven(order, at, x.targets, card, player, teams, x.tenBackward == Some(true));
    } else {
      assert card == Sorry;
      PairsSound(order, at, n, Sorry, player, teams, splitMany, x);
    }
  }

  /** Every play listed for the first n cards is the draw-only 2, or a legal play of one of those cards. */
  lemma {:induction false} ListedSound(order: seq<Label>, at: map<Label, Loc>, hand: seq<Card>, n: nat, player: Color,
                                       teams: bool, splitMany: bool, drawAfterTwo: bool, x: Play)
    requires WellFormed(order, at) && n <= |hand| && x in Listed(order, at, hand, n, player, teams, splitMany, drawAfterTwo)
    ensures x == DrawTwo || (x.card in hand[..n] && Size(x.targets) > 0 && Genuine(order, at, x, player, teams, splitMany))
  {
    var acc := Listed(order, at, hand, n - 1, player, teams, splitMany, drawAfterTwo);
    assert hand[..n] == hand[..n - 1] + [hand[n - 1]];
    if x in acc {
      ListedSound(order, at, hand, n - 1, player, teams, splitMany, drawAfterTwo, x);
    } else if x in PawnPlays(order, at, hand[n - 1], player, teams, splitMany) {
      PawnPlaysSound(order, at, hand[n - 1], player, teams, splitMany, x);
    }
  }

  /**
   * Every play enumerate_possible_plays lists, but the draw-only 2, is of a
   * card in hand and passes is_valid_target, discards included.
   */
  lemma EnumeratedSound(order: seq<Label>, at: map<Label, Loc>, hand: seq<Card>, player: Color, teams: bool,
                        splitMany: bool, drawAfterTwo: bool, x: Play)
    requires WellFormed(order, at) && x in Enumerated(order, at, hand, player, teams, splitMany, drawAfterTwo)
    ensures x == DrawTwo || (x.card in hand && Named(x.targets, at) &&
      ValidTarget(order, at, x.targets, x.card, player, teams, splitMany, x.tenBackward == Some(true)))
  {
    var c := HandPlays(order, at, hand, player, teams, splitMany, drawAfterTwo);
    assert hand[..|hand|] == hand;
    if x in c {
      ListedSound(order, at, hand, |hand|, player, teams, splitMany, drawAfterTwo, x);
    } else {
      var i :| 0 <= i < |hand| && Discards(hand)[i] == x;
      DiscardOnlyAlone(order, at, [Discard], x.card, player, teams, splitMany, false);
    }
  }

  /**
   * A discard of a card is offered exactly when the card is in hand and no
   * play is listed, or only 11 swaps are.
   */
  lemma DiscardsOffered(order: seq<Label>, at: map<Label, Loc>, hand: seq<Card>, player: Color, teams: bool,
                        splitMany: bool, drawAfterTwo: bool, card: Card)
    requires WellFormed(order, at)
    ensures var c := HandPlays(order, at, hand, player, teams, splitMany, drawAfterTwo);
      Play(card, Picks([Discard]), None) in Enumerated(order, at, hand, player, teams, splitMany, drawAfterTwo) <==>
      card in hand && (c == [] || AllSwaps(c))
  {
    var c := HandPlays(order, at, hand, player, teams, splitMany, drawAfterTwo);
    var x := Play(card, Picks([Discard]), None);
    assert hand[..|hand|] == hand;
    if x in c {
      ListedSound(order, at, hand, |hand|, player, teams, splitMany, drawAfterTwo, x);
      assert false;
    }
    if card in hand && (c == [] || AllSwaps(c)) {
      var i :| 0 <= i < |hand| && hand[i] == card;
      assert Discards(hand)[i] == x;
    }
  }

  // ----- The draw-only 2 -----

  /** No pawn can be moved by a 2. */
  predicate NoTwoMove(order: seq<Label>, at: map<Label, Loc>, player: Color, teams: bool, splitMany: bool)
    requires WellFormed(order, at)
  {
    forall p :: p in order ==> !ValidTarget(order, at, Single(p), Two, player, teams, splitMany, false)
  }

  /** Some play of a list is a 2 exactly when some play of one of its parts is. */
  lemma HasTwoAppend(a: seq<Play>, b: seq<Play>)
    ensures HasTwo(a + b) <==> HasTwo(a) || HasTwo(b)
  {
    if HasTwo(a + b) {
      var i :| 0 <= i < |a + b| && (a + b)[i].card == Two;
      if i >= |a| {
        assert b[i - |a|].card == Two;
      }
    }
    if HasTwo(b) {
      var i :| 0 <= i < |b| && b[i].card == Two;
      assert (a + b)[|a| + i].card == Two;
    }
    if HasTwo(a) {
      var i :| 0 <= i < |a| && a[i].card == Two;
      assert (a + b)[i].card == Two;
    }
  }

  /** A card's pawn plays hold a 2 exactly when the card is a 2 that can move some pawn; they never hold the draw-only 2. */
  lemma PawnPlaysTwo(order: seq<Label>, at: map<Label, Loc>, card: Card, player: Color, teams: bool, splitMany: bool)
    requires WellFormed(order, at)
    ensures var s := PawnPlays(order, at, card, player, teams, splitMany);
      DrawTwo !in s && (HasTwo(s) <==> card == Two && !NoTwoMove(order, at, player, teams, splitMany))
  {
    var s := PawnPlays(order, at, card, player, teams, splitMany);
    if DrawTwo in s {
      PawnPlaysSound(order, at, card, player, teams, splitMany, DrawTwo);
    }
    if HasTwo(s) {
      PawnPlaysTwoSound(order, at, card, player, teams, splitMany);
    }
    if card == Two && !NoTwoMove(order, at, player, teams, splitMany) {
      PawnPlaysTwoComplete(order, at, player, teams, splitMany);
    }
  }

  /** A 2 among the pawn plays moves a pawn, so the card is a 2 and some pawn can move by it. */
  lemma PawnPlaysTwoSound(order: seq<Label>, at: map<Label, Loc>, card: Card, player: Color, teams: bool,
                          splitMany: bool)
    requires WellFormed(order, at) && HasTwo(PawnPlays(order, at, card, player, teams, splitMany))
    ensures card == Two && !NoTwoMove(order, at, player, teams, splitMany)
  {
    var s := PawnPlays(order, at, card, player, teams, splitMany);
    var i :| 0 <= i < |s| && s[i].card == Two;
    PawnPlaysSound(order, at, card, player, teams, splitMany, s[i]);
    SinglesSound(order, at, |order|, Two, player, teams, splitMany, s[i]);
    assert s[i].targets == Single(s[i].targets.items[0].pawn);
  }

  /** A pawn that can move by a 2 puts a 2 among the pawn plays of a 2. */
  lemma PawnPlaysTwoComplete(order: seq<Label>, at: map<Label, Loc>, player: Color, teams: bool, splitMany: bool)
    requires WellFormed(order, at) && !NoTwoMove(order, at, player, teams, splitMany)
    ensures HasTwo(PawnPlays(order, at, Two, player, teams, splitMany))
  {
    var s := PawnPlays(order, at, Two, player, teams, splitMany);
    var p :| p in order && ValidTarget(order, at, Single(p), Two, player, teams, splitMany, false);
    assert order[..|order|] == order;
    SinglesListed(order, at, |order|, Two, player, teams, splitMany, p);
    var x := Play(Two, Single(p), None);
    var i :| 0 <= i < |s| && s[i] == x;
  }

  /**
   * What one more card adds to the 2s listed: acc is listed for the cards
   * before it (before says whether one of them is a 2), s is its pawn plays,
   * and l what the card leaves listed.
   */
  lemma DrawTwoStep(acc: seq<Play>, s: seq<Play>, l: seq<Play>, card: Card, before: bool, allowed: bool, none: bool)
    requires (DrawTwo in acc <==> before && allowed && none) && (HasTwo(acc) <==> before && (allowed || !none))
    requires DrawTwo !in s && (HasTwo(s) <==> card == Two && !none)
    requires l == if card == Two && !HasTwo(acc + s) && allowed then acc + s + [DrawTwo] else acc + s
    ensures DrawTwo in l <==> (before || card == Two) && allowed && none
    ensures HasTwo(l) <==> (before || card == Two) && (allowed || !none)
  {
    HasTwoAppend(acc, s);
    if card == Two && !HasTwo(acc + s) && allowed {
      HasTwoAppend(acc + s, [DrawTwo]);
      assert HasTwo([DrawTwo]) by {
        assert [DrawTwo][0].card == Two;
      }
    }
  }

  /** One more card of the hand: its pawn plays, then the draw-only 2 if it is a 2, none is listed yet and drawing is allowed. */
  lemma ListedStep(order: seq<Label>, at: map<Label, Loc>, hand: seq<Card>, n: nat, player: Color,
                   teams: bool, splitMany: bool, drawAfterTwo: bool)
    requires WellFormed(order, at) && 1 <= n <= |hand|
    ensures var acc := Listed(order, at, hand, n - 1, player, teams, splitMany, drawAfterTwo);
      var s := PawnPlays(order, at, hand[n - 1], player, teams, splitMany);
      Listed(order, at, hand, n, player, teams, splitMany, drawAfterTwo) ==
        if hand[n - 1] == Two && !HasTwo(acc + s) && DrawAllowed(|hand|, drawAfterTwo) then acc + s + [DrawTwo] else acc + s
  {
    var acc := Listed(order, at, hand, n - 1, player, teams, splitMany, drawAfterTwo);
    var s := PawnPlays(order, at, hand[n - 1], player, teams, splitMany);
    assert Listed(order, at, hand, n, player, teams, splitMany, drawAfterTwo) == ListedThrough(order, at, hand, n, player, teams, splitMany, drawAfterTwo);
    assert acc + (s + [DrawTwo]) == acc + s + [DrawTwo];
  }

  /**
   * The draw-only 2 is listed for the first n cards exactly when one of them
   * is a 2, drawing again is allowed, and no pawn can be moved by a 2; some 2
   * is listed exactly when one of them is a 2 that either moves a pawn or may
   * be played to draw.
   */
  predicate TwoFacts(order: seq<Label>, at: map<Label, Loc>, hand: seq<Card>, n: nat, player: Color,
                     teams: bool, splitMany: bool, drawAfterTwo: bool)
    requires WellFormed(order, at) && n <= |hand|
  {
    var l := Listed(order, at, hand, n, player, teams, splitMany, drawAfterTwo);
    var none := NoTwoMove(order, at, player, teams, splitMany);
    (DrawTwo in l <==> Two in hand[..n] && DrawAllowed(|hand|, drawAfterTwo) && none) &&
    (HasTwo(l) <==> Two in hand[..n] && (DrawAllowed(|hand|, drawAfterTwo) || !none))
  }

  /** The facts about the 2s listed hold for every prefix of the hand. */
  lemma {:induction false} DrawTwoThrough(order: seq<Label>, at: map<Label, Loc>, hand: seq<Card>, n: nat, player: Color,
                                          teams: bool, splitMany: bool, drawAfterTwo: bool)
    requires WellFormed(order, at) && n <= |hand|
    ensures TwoFacts(order, at, hand, n, player, teams, splitMany, drawAfterTwo)
  {
    if n > 0 {
      DrawTwoThrough(order, at, hand, n - 1, player, teams, splitMany, drawAfterTwo);
      DrawTwoNext(order, at, hand, n, player, teams, splitMany, drawAfterTwo);
    }
  }

  /** The step of DrawTwoThrough: from the cards before hand[n - 1] to the cards up to it. */
  lemma DrawTwoNext(order: seq<Label>, at: map<Label, Loc>, hand: seq<Card>, n: nat, player: Color,
                    teams: bool, splitMany: bool, drawAfterTwo: bool)
    requires WellFormed(order, at) && 1 <= n <= |hand|
    requires TwoFacts(order, at, hand, n - 1, player, teams, splitMany, drawAfterTwo)
    ensures TwoFacts(order, at, hand, n, player, teams, splitMany, drawAfterTwo)
  {
    var acc := Listed(order, at, hand, n - 1, player, teams, splitMany, drawAfterTwo);
    var card := hand[n - 1];
    var s := PawnPlays(order, at, card, player, teams, splitMany);
    var allowed := DrawAllowed(|hand|, drawAfterTwo);
    var l := Listed(order, at, hand, n, player, teams, splitMany, drawAfterTwo);
    assert hand[..n] == hand[..n - 1] + [card];
    assert Two in hand[..n] <==> Two in hand[..n - 1] || card == Two;
    PawnPlaysTwo(order, at, card, player, teams, splitMany);
    ListedStep(order, at, hand, n, player, teams, splitMany, drawAfterTwo);
    DrawTwoStep(acc, s, l, card, Two in hand[..n - 1], allowed, NoTwoMove(order, at, player, teams, splitMany));
  }

  /**
   * For the whole hand: the draw-only 2 is offered exactly when a 2 is in
   * hand, drawing again is allowed, and no pawn can be moved by a 2.
   */
  lemma DrawTwoOffered(order: seq<Label>, at: map<Label, Loc>, hand: seq<Card>, player: Color, teams: bool,
                       splitMany: bool, drawAfterTwo: bool)
    requires WellFormed(order, at)
    ensures DrawTwo in HandPlays(order, at, hand, player, teams, splitMany, drawAfterTwo) <==>
      Two in hand && DrawAllowed(|hand|, drawAfterTwo) && NoTwoMove(order, at, player, teams, splitMany)
  {
    DrawTwoThrough(order, at, hand, |hand|, player, teams, splitMany, drawAfterTwo);
    assert hand[..|hand|] == hand;
  }

  // ----- Existence mode on a hand that can only swap -----

  /** A blue pawn on its safety entrance and a yellow pawn on the top row. */
  const SwapOrder: seq<Label> := [Label(Blue, 1), Label(Yellow, 1)]
  const SwapBoard: map<Label, Loc> := map[Label(Blue, 1) := SafetyEntrance(Blue), Label(Yellow, 1) := Cell(5, 0)]

  /** The two swaps of that board, in the order the nested loops try them. */
  const BoardSwaps: seq<Play> :=
    [Play(Eleven, Pair(Label(Blue, 1), Label(Yellow, 1)), None), Play(Eleven, Pair(Label(Yellow, 1), Label(Blue, 1)), None)]

  /** Eleven squares forward from a pawn's safety entrance overshoot Home. */
  lemma ElevenOvershoots()
    ensures Walk(Blue, SafetyEntrance(Blue), 11, true) == Walked(Home, true)
  {
    assert Walk(Blue, ZoneCell(Blue, 5), 6, true) == Walked(Home, true) by {
      assert Step(Blue, ZoneCell(Blue, 5), true) == Home;
    }
    StepEntersSafetyZone(Blue);
    StepWithinSafetyZone(Blue, 1);
    StepWithinSafetyZone(Blue, 2);
    StepWithinSafetyZone(Blue, 3);
    StepWithinSafetyZone(Blue, 4);
  }

  /** So neither pawn can be moved by the 11 for blue. */
  lemma NoElevenSingle()
    ensures WellFormed(SwapOrder, SwapBoard)
    ensures Singles(SwapOrder, SwapBoard, 2, Eleven, Blue, false, false) == []
  {
    ElevenOvershoots();
    var order, at := SwapOrder, SwapBoard;
    assert !ValidTarget(order, at, Single(order[0]), Eleven, Blue, false, false, false);
    assert !ValidTarget(order, at, Single(order[1]), Eleven, Blue, false, false, false);
    assert Singles(order, at, 1, Eleven, Blue, false, false) == [];
  }

  /** But each can swap with the other. */
  lemma ElevenPairs()
    ensures WellFormed(SwapOrder, SwapBoard)
    ensures Pairs(SwapOrder, SwapBoard, 2, Eleven, Blue, false, false) == BoardSwaps
  {
    var order, at := SwapOrder, SwapBoard;
    var b, y := order[0], order[1];
    assert Partners(order, at, b, 1, Eleven, Blue, false, false) == [];
    assert Partners(order, at, b, 2, Eleven, Blue, false, false) == [BoardSwaps[0]];
    assert Partners(order, at, y, 1, Eleven, Blue, false, false) == [BoardSwaps[1]];
    assert Partners(order, at, y, 2, Eleven, Blue, false, false) == [BoardSwaps[1]];
    assert Pairs(order, at, 1, Eleven, Blue, false, false) == [BoardSwaps[0]];
  }

  /**
   * A blue player holding only an 11 on that board has the two swaps as its
   * only plays: list mode adds the discard, and existence mode as intended
   * answers False, but as written it answers True.
   */
  lemma OnlySwapsAsWritten()
    ensures WellFormed(SwapOrder, SwapBoard)
    ensures HandPlays(SwapOrder, SwapBoard, [Eleven], Blue, false, false, false) == BoardSwaps
    ensures Enumerated(SwapOrder, SwapBoard, [Eleven], Blue, false, false, false) ==
      BoardSwaps + [Play(Eleven, Picks([Discard]), None)]
    ensures SomePlayAsWritten(SwapOrder, SwapBoard, [Eleven], Blue, false, false, false)
    ensures !SomePlay(SwapOrder, SwapBoard, [Eleven], Blue, false, false, false)
  {
    NoElevenSingle();
    ElevenPairs();
    assert PawnPlays(SwapOrder, SwapBoard, Eleven, Blue, false, false) == BoardSwaps;
    assert Listed(SwapOrder, SwapBoard, [Eleven], 1, Blue, false, false, false) == BoardSwaps;
    assert Discards([Eleven]) == [Play(Eleven, Picks([Discard]), None)];
  }
}
