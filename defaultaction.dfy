/**
 * determine_default_action: given the card chosen, the pawns picked so far
 * and the list of possible plays, the rest of the play when exactly one way
 * to complete it remains (up to plays that are the same), and nothing
 * otherwise. Two comparisons are used: for a 7 the entries are compared in
 * order, for the other cards as collections of pawns.
 */
module DefaultAction {
  import opened Wrappers
  import opened Board
  import opened Legality
  import opened Enumeration

  // ----- Targets as the comparisons see them -----

  /** One entry of a list of targets, or one (pawn, distance) entry of a 7's dict. */
  datatype Entry = ItemEntry(item: Item) | MoveEntry(move: SplitMove)

  /** The entries of the targets in order, as list(...items()) or the list itself gives them. */
  function Entries(t: Targets): (r: seq<Entry>)
    ensures |r| == Size(t)
  {
    match t
    case Picks(items) => seq(|items|, i requires 0 <= i < |items| => ItemEntry(items[i]))
    case Split(moves) => seq(|moves|, i requires 0 <= i < |moves| => MoveEntry(moves[i]))
  }

  /** The targets after the first k, as the slice the 7's branch takes. */
  function Rest(t: Targets, k: nat): (r: Targets)
    requires k <= Size(t)
    ensures Size(r) + k == Size(t) && Entries(r) == Entries(t)[k..]
  {
    match t
    case Picks(items) => Picks(items[k..])
    case Split(moves) => Split(moves[k..])
  }

  /** The list a Picks holds; a dict contributes nothing to the list comparisons. */
  function Items(t: Targets): seq<Item> {
    if t.Picks? then t.items else []
  }

  /** No item occurs twice. */
  predicate Unique(s: seq<Item>) {
    forall i, j :: 0 <= i < j < |s| ==> s[i] != s[j]
  }

  /** list.remove: the first occurrence of v goes, the rest keeps its order. */
  function RemoveFirst(s: seq<Item>, v: Item): (r: seq<Item>)
    ensures multiset(r) == multiset(s) - multiset{v}
    ensures |r| == if v in s then |s| - 1 else |s|
  {
    if s == [] then []
    else if s[0] == v then
      assert s == [s[0]] + s[1..];
      s[1..]
    else
      assert s == [s[0]] + s[1..];
      [s[0]] + RemoveFirst(s[1..], v)
  }

  /** The chosen items removed from a play's list one after another. */
  function RemoveAll(s: seq<Item>, chosen: seq<Item>): (r: seq<Item>)
    ensures multiset(r) == multiset(s) - multiset(chosen)
    decreases |chosen|
  {
    if chosen == [] then s
    else
      assert chosen == [chosen[0]] + chosen[1..];
      RemoveAll(RemoveFirst(s, chosen[0]), chosen[1..])
  }

  // ----- When a play is still an option, and when two plays are the same -----

  /**
   * The play agrees with what was picked: for a 7 the picked entries begin
   * its entries, otherwise every picked item is among its items.
   */
  predicate Consistent(ordered: bool, chosen: Targets, x: Targets) {
    if ordered then Size(chosen) <= Size(x) && Entries(x)[..Size(chosen)] == Entries(chosen)
    else forall i :: 0 <= i < |Items(chosen)| ==> Items(chosen)[i] in Items(x)
  }

  /**
   * The play is the one already found, completed by default d: it has as
   * many entries as the picks and d together, and (for a 7) they are the
   * picks then d, or (otherwise) each is among the picks or d.
   */
  predicate Equivalent(ordered: bool, d: Targets, chosen: Targets, x: Targets) {
    Size(d) + Size(chosen) == Size(x) &&
    if ordered then Entries(x) == Entries(chosen) + Entries(d)
    else forall i :: 0 <= i < |Items(x)| ==> Items(x)[i] in Items(chosen) || Items(x)[i] in Items(d)
  }

  /** What is left of a consistent play once the picks are taken out of it. */
  function Completion(ordered: bool, chosen: Targets, x: Targets): Targets
    requires ordered ==> Size(chosen) <= Size(x)
  {
    if ordered then Rest(x, Size(chosen)) else Picks(RemoveAll(Items(x), Items(chosen)))
  }

  /** A play of the card that agrees with the picks. */
  predicate IsOption(ordered: bool, card: Card, chosen: Targets, x: Play) {
    x.card == card && Consistent(ordered, chosen, x.targets)
  }

  /**
   * The scan of the possible plays from index i: found says a default d has
   * been fixed; a second option that is not the same play ends the scan with
   * no default.
   */
  function Scan(plays: seq<Play>, card: Card, chosen: Targets, ordered: bool, i: nat, found: bool, d: Targets): Option<Targets>
    requires i <= |plays|
    decreases |plays| - i
  {
    if i == |plays| then Some(d)
    else
      var x := plays[i];
      var option := IsOption(ordered, card, chosen, x) && !(found && Equivalent(ordered, d, chosen, x.targets));
      if !option then Scan(plays, card, chosen, ordered, i + 1, found, d)
      else if found then None
      else Scan(plays, card, chosen, ordered, i + 1, true, Completion(ordered, chosen, x.targets))
  }

  // ----- The first pick of a Sorry or an 11 -----

  /** The items of d that are in keep, in d's order. */
  function Sieve(d: seq<Item>, keep: seq<Item>): (r: seq<Item>)
    ensures forall v :: v in r <==> v in d && v in keep
  {
    if d == [] then []
    else (if d[0] in keep then [d[0]] else []) + Sieve(d[1..], keep)
  }

  /**
   * The loop at sorry_boardgame.py:732-734 as written: it iterates over d by
   * index while removing from d, so the item after each removed one is
   * skipped.
   */
  function SieveAsWritten(d: seq<Item>, keep: seq<Item>, i: nat): seq<Item>
    decreases if i <= |d| then |d| - i else 0
  {
    if i >= |d| then d
    else if d[i] in keep then SieveAsWritten(d, keep, i + 1)
    else SieveAsWritten(RemoveFirst(d, d[i]), keep, i + 1)
  }

  /** The items of the first play of the card, sieved by each later play of the card. */
  function Common(plays: seq<Play>, card: Card, i: nat, started: bool, d: seq<Item>, asWritten: bool): seq<Item>
    requires i <= |plays|
    decreases |plays| - i
  {
    if i == |plays| then d
    else if plays[i].card != card then Common(plays, card, i + 1, started, d, asWritten)
    else if !started then Common(plays, card, i + 1, true, d + Items(plays[i].targets), asWritten)
    else
      var keep := Items(plays[i].targets);
      Common(plays, card, i + 1, true, if asWritten then SieveAsWritten(d, keep, 0) else Sieve(d, keep), asWritten)
  }

  // ----- The whole routine -----

  /** The first pick is a pawn of the player or, in teams, of the teammate. */
  predicate FriendlyFirst(chosen: Targets, player: Color, teams: bool) {
    chosen.Picks? && |chosen.items| > 0 && chosen.items[0].Pawn? && Friendly(player, teams, chosen.items[0].pawn.color)
  }

  /**
   * The default (the rest of the play) or None. An 11 whose first pick is
   * friendly moves that pawn forward: nothing more to pick. A Sorry or an 11
   * with nothing picked suggests the pawns every one of its plays shares.
   */
  function DefaultFor(card: Card, chosen: Targets, plays: seq<Play>, player: Color, teams: bool, asWritten: bool): Option<Targets> {
    if card == Eleven && FriendlyFirst(chosen, player, teams) then Some(Picks([]))
    else if card != Seven && ((card != Eleven && card != Sorry) || Size(chosen) > 0) then
      Scan(plays, card, chosen, false, 0, false, Picks([]))
    else if card == Eleven || card == Sorry then
      var d := Common(plays, card, 0, false, [], asWritten);
      if d == [] then None else Some(Picks(d))
    else Scan(plays, card, chosen, true, 0, false, Picks([]))
  }

  /** The picks are a proper beginning of the play's entries: the 7's comparison would index past the play's end. */
  predicate ShortPrefix(chosen: Targets, x: Targets) {
    Size(x) < Size(chosen) && Entries(chosen)[..Size(x)] == Entries(x)
  }

  /**
   * What the 7's branch needs to run without an exception: once anything is
   * picked, the picks and every 7 play are dicts, and no 7 play is a proper
   * beginning of the picks.
   */
  predicate SevenShaped(chosen: Targets, plays: seq<Play>) {
    (chosen.Picks? ==> chosen.items == []) &&
    (Size(chosen) > 0 ==> forall j :: 0 <= j < |plays| && plays[j].card == Seven ==>
       plays[j].targets.Split? && !ShortPrefix(chosen, plays[j].targets))
  }

  /** The loop that checks a play against the picks, breaking at the first disagreement. */
  method IsConsistent(ordered: bool, chosen: Targets, x: Targets) returns (ok: bool)
    requires ordered && Size(chosen) > 0 ==> chosen.Split? && x.Split? && !ShortPrefix(chosen, x)
    ensures ok == Consistent(ordered, chosen, x)
  {
    ok := true;
    if ordered {
      var ce, xe := Entries(chosen), Entries(x);
      var i := 0;
      while i < |ce|
        invariant i <= |ce| && i <= |xe|
        invariant ce[..i] == xe[..i]
      {
        if i == |xe| {
          assert false;
        }
        if ce[i] != xe[i] {
          if |ce| <= |xe| {
            assert xe[..|ce|][i] != ce[i];
          }
          ok := false;
          break;
        }
        i := i + 1;
      }
      if ok {
        assert ce[..i] == ce;
      }
    } else {
      var c, items := Items(chosen), Items(x);
      var i := 0;
      while i < |c|
        invariant i <= |c|
        invariant forall j :: 0 <= j < i ==> c[j] in items
      {
        if c[i] !in items {
          ok := false;
          break;
        }
        i := i + 1;
      }
    }
  }

  /** The loop that compares a play with the default found, clearing the flag at each difference. */
  method IsEquivalent(ordered: bool, d: Targets, chosen: Targets, x: Targets) returns (eq: bool)
    ensures eq == Equivalent(ordered, d, chosen, x)
  {
    if Size(d) + Size(chosen) != Size(x) {
      return false;
    }
    eq := true;
    if ordered {
      var ce, de, xe := Entries(chosen), Entries(d), Entries(x);
      var i := 0;
      while i < |xe|
        invariant i <= |xe|
        invariant eq <==> forall j :: 0 <= j < i ==> xe[j] == (ce + de)[j]
      {
        if xe[i] != (if i < |ce| then ce[i] else de[i - |ce|]) {
          eq := false;
        }
        i := i + 1;
      }
      if !eq {
        var j :| 0 <= j < |xe| && xe[j] != (ce + de)[j];
        assert xe[j] != (ce + de)[j];
      }
    } else {
      var c, dd, items := Items(chosen), Items(d), Items(x);
      var i := 0;
      while i < |items|
        invariant i <= |items|
        invariant eq <==> forall j :: 0 <= j < i ==> items[j] in c || items[j] in dd
      {
        if items[i] !in c && items[i] !in dd {
          eq := false;
        }
        i := i + 1;
      }
    }
  }

  /** The default taken from an option: the 7's slice, or a copy of the list with each pick removed. */
  method Complete(ordered: bool, chosen: Targets, x: Targets) returns (d: Targets)
    requires ordered ==> Size(chosen) <= Size(x)
    ensures d == Completion(ordered, chosen, x)
  {
    if ordered {
      return Rest(x, Size(chosen));
    }
    var c := Items(chosen);
    var rest := Items(x);
    var j := 0;
    while j < |c|
      invariant j <= |c|
      invariant RemoveAll(rest, c[j..]) == RemoveAll(Items(x), c)
    {
      assert c[j..][0] == c[j] && c[j..][1..] == c[j + 1..];
      rest := RemoveFirst(rest, c[j]);
      j := j + 1;
    }
    d := Picks(rest);
  }

  /** The 7's branch can compare the picks with every play of the card without an exception. */
  predicate Comparable(plays: seq<Play>, card: Card, chosen: Targets, ordered: bool) {
    ordered && Size(chosen) > 0 ==>
      chosen.Split? &&
      forall j :: 0 <= j < |plays| && plays[j].card == card ==> plays[j].targets.Split? && !ShortPrefix(chosen, plays[j].targets)
  }

  /** One pass of the loop over the possible plays: either it ends the scan with no default, or the scan goes on from the next play. */
  method Visit(plays: seq<Play>, card: Card, chosen: Targets, ordered: bool, i: nat, found: bool, d: Targets)
    returns (stop: bool, found': bool, d': Targets)
    requires i < |plays| && Comparable(plays, card, chosen, ordered)
    ensures stop ==> Scan(plays, card, chosen, ordered, i, found, d) == None
    ensures !stop ==> Scan(plays, card, chosen, ordered, i, found, d) == Scan(plays, card, chosen, ordered, i + 1, found', d')
  {
    stop, found', d' := false, found, d;
    var x := plays[i];
    if x.card == card {
      var option := IsConsistent(ordered, chosen, x.targets);
      if found {
        var eq := IsEquivalent(ordered, d, chosen, x.targets);
        if eq {
          option := false;
        }
      }
      if option {
        if found {
          return true, found, d;
        }
        found' := true;
        d' := Complete(ordered, chosen, x.targets);
      }
    }
  }

  /** The loop over the possible plays in the ordered and unordered branches. */
  method ScanPlays(plays: seq<Play>, card: Card, chosen: Targets, ordered: bool) returns (r: Option<Targets>)
    requires Comparable(plays, card, chosen, ordered)
    ensures r == Scan(plays, card, chosen, ordered, 0, false, Picks([]))
  {
    var found := false;
    var d := Picks([]);
    var i := 0;
    while i < |plays|
      invariant i <= |plays|
      invariant Scan(plays, card, chosen, ordered, i, found, d) == Scan(plays, card, chosen, ordered, 0, false, Picks([]))
    {
      var stop;
      stop, found, d := Visit(plays, card, chosen, ordered, i, found, d);
      if stop {
        return None;
      }
      i := i + 1;
    }
    r := Some(d);
  }

  /**
   * The sieve loop as written: it walks d by index and removes, in place,
   * each item the play lacks, so the item after a removed one is never
   * looked at. Every shared item stays and nothing new comes in.
   */
  method KeepCommon(d: seq<Item>, keep: seq<Item>) returns (r: seq<Item>)
    ensures r == SieveAsWritten(d, keep, 0)
    ensures forall v :: v in d && v in keep ==> v in r
    ensures forall v :: v in r ==> v in d
  {
    r := d;
    var i := 0;
    while i < |r|
      invariant SieveAsWritten(r, keep, i) == SieveAsWritten(d, keep, 0)
      decreases |r| - i
    {
      if r[i] !in keep {
        r := RemoveFirst(r, r[i]);
      }
      i := i + 1;
    }
    forall v {
      SieveAsWrittenKeeps(d, keep, 0, v);
    }
  }

  /** The loop over the possible plays of a Sorry or an 11 with nothing picked. */
  method CommonPicks(plays: seq<Play>, card: Card) returns (d: seq<Item>)
    ensures d == Common(plays, card, 0, false, [], true)
  {
    var started := false;
    d := [];
    var i := 0;
    while i < |plays|
      invariant i <= |plays|
      invariant Common(plays, card, i, started, d, true) == Common(plays, card, 0, false, [], true)
    {
      if plays[i].card == card {
        if !started {
          started := true;
          d := d + Items(plays[i].targets);
        } else {
          d := KeepCommon(d, Items(plays[i].targets));
        }
      }
      i := i + 1;
    }
  }

  /** determine_default_action, without the explanation string. */
  method DetermineDefaultAction(card: Card, chosen: Targets, plays: seq<Play>, player: Color, teams: bool)
    returns (r: Option<Targets>)
    requires card == Seven ==> SevenShaped(chosen, plays)
    ensures r == DefaultFor(card, chosen, plays, player, teams, true)
  {
    if card == Eleven && FriendlyFirst(chosen, player, teams) {
      return Some(Picks([]));
    }
    if card != Seven && ((card != Eleven && card != Sorry) || Size(chosen) > 0) {
      r := ScanPlays(plays, card, chosen, false);
    } else if card == Eleven || card == Sorry {
      var d := CommonPicks(plays, card);
      r := if d == [] then None else Some(Picks(d));
    } else {
      r := ScanPlays(plays, card, chosen, true);
    }
  }

  // ----- What the scan decides -----

  /** Past the default's discovery, the scan keeps it exactly when every later option is the same play. */
  lemma {:induction false} ScanAfter(plays: seq<Play>, card: Card, chosen: Targets, ordered: bool, i: nat, d: Targets)
    requires i <= |plays|
    ensures Scan(plays, card, chosen, ordered, i, true, d) ==
      if forall j :: i <= j < |plays| && IsOption(ordered, card, chosen, plays[j]) ==> Equivalent(ordered, d, chosen, plays[j].targets)
      then Some(d) else None
    decreases |plays| - i
  {
    if i < |plays| {
      ScanAfter(plays, card, chosen, ordered, i + 1, d);
    }
  }

  /** Before any option, the scan passes over every play. */
  lemma {:induction false} ScanBefore(plays: seq<Play>, card: Card, chosen: Targets, ordered: bool, i: nat, k: nat)
    requires i <= k <= |plays| && forall j :: i <= j < k ==> !IsOption(ordered, card, chosen, plays[j])
    ensures Scan(plays, card, chosen, ordered, i, false, Picks([])) == Scan(plays, card, chosen, ordered, k, false, Picks([]))
    decreases k - i
  {
    if i < k {
      ScanBefore(plays, card, chosen, ordered, i + 1, k);
    }
  }

  /** With no play of the card agreeing with the picks, the default is to pick nothing more. */
  lemma NoOptionDefault(plays: seq<Play>, card: Card, chosen: Targets, ordered: bool)
    requires forall j :: 0 <= j < |plays| ==> !IsOption(ordered, card, chosen, plays[j])
    ensures Scan(plays, card, chosen, ordered, 0, false, Picks([])) == Some(Picks([]))
  {
    ScanBefore(plays, card, chosen, ordered, 0, |plays|);
  }

  /**
   * With plays[k] the first option, the default is what it leaves to pick,
   * unless a later option is a different play, in which case there is none.
   */
  lemma FirstOptionDefault(plays: seq<Play>, card: Card, chosen: Targets, ordered: bool, k: nat)
    requires k < |plays| && IsOption(ordered, card, chosen, plays[k])
    requires forall j :: 0 <= j < k ==> !IsOption(ordered, card, chosen, plays[j])
    ensures var d := Completion(ordered, chosen, plays[k].targets);
      Scan(plays, card, chosen, ordered, 0, false, Picks([])) ==
      if forall j :: k < j < |plays| && IsOption(ordered, card, chosen, plays[j]) ==> Equivalent(ordered, d, chosen, plays[j].targets)
      then Some(d) else None
  {
    ScanBefore(plays, card, chosen, ordered, 0, k);
    ScanAfter(plays, card, chosen, ordered, k + 1, Completion(ordered, chosen, plays[k].targets));
  }

  /**
   * For a 7, a later option is the same play as the first exactly when its
   * entries are the first option's entries: repeated 7 plays do not spoil
   * the default.
   */
  lemma OrderedEquivalence(chosen: Targets, x: Targets, y: Targets)
    requires Consistent(true, chosen, x)
    ensures Equivalent(true, Completion(true, chosen, x), chosen, y) <==> Entries(y) == Entries(x)
  {
    var k := Size(chosen);
    assert Entries(x) == Entries(x)[..k] + Entries(x)[k..];
  }

  /** What is removed from a play is what was picked, so nothing else goes. */
  lemma RemoveAllMembers(s: seq<Item>, chosen: seq<Item>, v: Item)
    requires forall i :: 0 <= i < |chosen| ==> chosen[i] in s
    ensures v in s <==> v in chosen || v in RemoveAll(s, chosen)
  {
    var r := RemoveAll(s, chosen);
    assert v in r <==> multiset(r)[v] > 0;
    assert v in s <==> multiset(s)[v] > 0;
    assert v in chosen <==> multiset(chosen)[v] > 0;
  }

  /** Removing distinct picks that the play has leaves as many items fewer. */
  lemma {:induction false} RemoveAllLength(s: seq<Item>, chosen: seq<Item>)
    requires Unique(chosen) && forall i :: 0 <= i < |chosen| ==> chosen[i] in s
    ensures |RemoveAll(s, chosen)| == |s| - |chosen|
    decreases |chosen|
  {
    if chosen != [] {
      var s' := RemoveFirst(s, chosen[0]);
      forall i | 0 <= i < |chosen[1..]| ensures chosen[1..][i] in s' {
        var v := chosen[1..][i];
        assert v == chosen[i + 1] && v != chosen[0];
        assert multiset(s)[v] > 0;
        assert v in s' <==> multiset(s')[v] > 0;
      }
      RemoveAllLength(s', chosen[1..]);
    }
  }

  /**
   * For the other cards, with distinct picks, a later option is the same play
   * as the first exactly when it has as many items and only the first's
   * items: the same pawns, perhaps in another order.
   */
  lemma UnorderedEquivalence(chosen: seq<Item>, x: seq<Item>, y: seq<Item>)
    requires Unique(chosen) && forall i :: 0 <= i < |chosen| ==> chosen[i] in x
    ensures Equivalent(false, Completion(false, Picks(chosen), Picks(x)), Picks(chosen), Picks(y)) <==>
      |y| == |x| && forall i :: 0 <= i < |y| ==> y[i] in x
  {
    var d := RemoveAll(x, chosen);
    assert Completion(false, Picks(chosen), Picks(x)) == Picks(d);
    RemoveAllLength(x, chosen);
    PicksEquivalent(d, chosen, y);
    RemovedMembers(x, chosen, y);
  }

  /** Unordered sameness of plays of picks, in terms of their item lists. */
  lemma PicksEquivalent(d: seq<Item>, chosen: seq<Item>, y: seq<Item>)
    ensures Equivalent(false, Picks(d), Picks(chosen), Picks(y)) <==>
      |d| + |chosen| == |y| && forall i :: 0 <= i < |y| ==> y[i] in chosen || y[i] in d
  {
    assert Items(Picks(y)) == y && Items(Picks(chosen)) == chosen && Items(Picks(d)) == d;
  }

  /** Every item of y is a pick or left over exactly when every item of y is in the play. */
  lemma RemovedMembers(x: seq<Item>, chosen: seq<Item>, y: seq<Item>)
    requires forall i :: 0 <= i < |chosen| ==> chosen[i] in x
    ensures (forall i :: 0 <= i < |y| ==> y[i] in chosen || y[i] in RemoveAll(x, chosen)) <==>
      forall i :: 0 <= i < |y| ==> y[i] in x
  {
    forall i | 0 <= i < |y| ensures y[i] in x <==> y[i] in chosen || y[i] in RemoveAll(x, chosen) {
      RemoveAllMembers(x, chosen, y[i]);
    }
  }

  // ----- What the first pick of a Sorry or an 11 suggests -----

  /** The plays of the card from i on: those from i + 1 on, and plays[i] if it is of the card. */
  lemma PlaysFrom(plays: seq<Play>, card: Card, i: nat, v: Item)
    requires i < |plays|
    ensures (exists j :: i <= j < |plays| && plays[j].card == card) <==>
      plays[i].card == card || exists j :: i + 1 <= j < |plays| && plays[j].card == card
    ensures (forall j :: i <= j < |plays| && plays[j].card == card ==> v in Items(plays[j].targets)) <==>
      (plays[i].card == card ==> v in Items(plays[i].targets)) &&
      forall j :: i + 1 <= j < |plays| && plays[j].card == card ==> v in Items(plays[j].targets)
  {
    if exists j :: i <= j < |plays| && plays[j].card == card {
      var j :| i <= j < |plays| && plays[j].card == card;
      assert j == i || i + 1 <= j;
    }
  }

  /** Once the first play of the card has been seen, the corrected sieve keeps what every later play of the card has. */
  lemma {:induction false} CommonAfter(plays: seq<Play>, card: Card, i: nat, d: seq<Item>, v: Item)
    requires i <= |plays|
    ensures v in Common(plays, card, i, true, d, false) <==>
      v in d && forall j :: i <= j < |plays| && plays[j].card == card ==> v in Items(plays[j].targets)
    decreases |plays| - i
  {
    if i < |plays| {
      PlaysFrom(plays, card, i, v);
      if plays[i].card != card {
        CommonAfter(plays, card, i + 1, d, v);
      } else {
        CommonAfter(plays, card, i + 1, Sieve(d, Items(plays[i].targets)), v);
      }
    }
  }

  /**
   * With nothing picked for a Sorry or an 11, the suggested pawns are exactly
   * those found in every play of the card; with no play of the card there are
   * none.
   */
  lemma {:induction false} CommonMeaning(plays: seq<Play>, card: Card, i: nat, v: Item)
    requires i <= |plays|
    ensures v in Common(plays, card, i, false, [], false) <==>
      (exists j :: i <= j < |plays| && plays[j].card == card) &&
      forall j :: i <= j < |plays| && plays[j].card == card ==> v in Items(plays[j].targets)
    decreases |plays| - i
  {
    if i < |plays| {
      PlaysFrom(plays, card, i, v);
      if plays[i].card != card {
        CommonMeaning(plays, card, i + 1, v);
      } else {
        assert [] + Items(plays[i].targets) == Items(plays[i].targets);
        CommonAfter(plays, card, i + 1, Items(plays[i].targets), v);
      }
    }
  }

  /** The loop as written keeps every item of d that keep has, and adds nothing. */
  lemma {:induction false} SieveAsWrittenKeeps(d: seq<Item>, keep: seq<Item>, i: nat, v: Item)
    ensures v in SieveAsWritten(d, keep, i) ==> v in d
    ensures v in d && v in keep ==> v in SieveAsWritten(d, keep, i)
    decreases if i <= |d| then |d| - i else 0
  {
    if i < |d| {
      if d[i] in keep {
        SieveAsWrittenKeeps(d, keep, i + 1, v);
      } else {
        var d' := RemoveFirst(d, d[i]);
        assert v in d' <==> multiset(d')[v] > 0;
        assert v in d <==> multiset(d)[v] > 0;
        SieveAsWrittenKeeps(d', keep, i + 1, v);
      }
    }
  }

  /** Past the first play of the card, the sieve as written keeps what every later play of the card has, and adds nothing. */
  lemma {:induction false} CommonAsWrittenAfter(plays: seq<Play>, card: Card, i: nat, d: seq<Item>, v: Item)
    requires i <= |plays|
    ensures v in Common(plays, card, i, true, d, true) ==> v in d
    ensures v in d && (forall j :: i <= j < |plays| && plays[j].card == card ==> v in Items(plays[j].targets)) ==>
      v in Common(plays, card, i, true, d, true)
    decreases |plays| - i
  {
    if i < |plays| {
      PlaysFrom(plays, card, i, v);
      if plays[i].card != card {
        CommonAsWrittenAfter(plays, card, i + 1, d, v);
      } else {
        SieveAsWrittenKeeps(d, Items(plays[i].targets), 0, v);
        CommonAsWrittenAfter(plays, card, i + 1, SieveAsWritten(d, Items(plays[i].targets), 0), v);
      }
    }
  }

  /**
   * What the code as written suggests for a Sorry or an 11 with nothing
   * picked: every pawn found in all plays of the card, and only pawns of the
   * first play of the card, which may include some that a later play lacks.
   */
  lemma {:induction false} CommonAsWrittenMeaning(plays: seq<Play>, card: Card, i: nat, v: Item)
    requires i <= |plays|
    ensures ((exists j :: i <= j < |plays| && plays[j].card == card) &&
             forall j :: i <= j < |plays| && plays[j].card == card ==> v in Items(plays[j].targets)) ==>
      v in Common(plays, card, i, false, [], true)
    ensures v in Common(plays, card, i, false, [], true) ==>
      exists j :: i <= j < |plays| && plays[j].card == card && v in Items(plays[j].targets)
    decreases |plays| - i
  {
    if i < |plays| {
      PlaysFrom(plays, card, i, v);
      if plays[i].card != card {
        CommonAsWrittenMeaning(plays, card, i + 1, v);
      } else {
        assert [] + Items(plays[i].targets) == Items(plays[i].targets);
        CommonAsWrittenAfter(plays, card, i + 1, Items(plays[i].targets), v);
      }
    }
  }

  /**
   * The removal while iterating lets an item through: with [a, b] and a play
   * holding neither, the loop removes a, then stops before b.
   */
  lemma SieveAsWrittenSkips(a: Item, b: Item, keep: seq<Item>)
    requires a != b && a !in keep && b !in keep
    ensures SieveAsWritten([a, b], keep, 0) == [b] && Sieve([a, b], keep) == []
  {
    assert RemoveFirst([a, b], a) == [b];
    assert SieveAsWritten([a, b], keep, 0) == SieveAsWritten([b], keep, 1) == [b];
    assert [a, b][1..] == [b] && [b][1..] == [];
    assert Sieve([a, b], keep) == Sieve([b], keep) == Sieve([], keep) == [];
  }

  /**
   * The consequence for the default: when the only plays of an 11 are the
   * swap of a and b and a discard, the code as written suggests b as the first
   * pick although the discard does not name it; the corrected sieve suggests
   * nothing.
   */
  lemma DefaultAsWrittenSuggestsStranger(a: Label, b: Label, player: Color, teams: bool)
    requires a != b
    ensures var plays := [Play(Eleven, Pair(a, b), None), Play(Eleven, Picks([Discard]), None)];
      DefaultFor(Eleven, Picks([]), plays, player, teams, true) == Some(Picks([Pawn(b)])) &&
      DefaultFor(Eleven, Picks([]), plays, player, teams, false) == None
  {
    var plays := [Play(Eleven, Pair(a, b), None), Play(Eleven, Picks([Discard]), None)];
    var d := [] + Items(plays[0].targets);
    assert d == [Pawn(a), Pawn(b)];
    SieveAsWrittenSkips(Pawn(a), Pawn(b), [Discard]);
    assert Common(plays, Eleven, 0, false, [], true) == Common(plays, Eleven, 1, true, d, true);
    assert Common(plays, Eleven, 0, false, [], false) == Common(plays, Eleven, 1, true, d, false);
    assert Items(plays[1].targets) == [Discard];
    assert Common(plays, Eleven, 1, true, d, true) == Common(plays, Eleven, 2, true, [Pawn(b)], true) == [Pawn(b)];
    assert Common(plays, Eleven, 1, true, d, false) == Common(plays, Eleven, 2, true, [], false) == [];
  }
}
