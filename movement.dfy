/**
 * The movement resolver as pure functions over the pawn dict: the stepping
 * walk of move_pawn, bump_pawns_at_coordinates, the slide lookup, and the
 * whole effect of one move_pawn call. The imperative versions in module
 * Tables are proved equal to these.
 */
module Movement {
  import opened Wrappers
  import opened Board
  import opened Lookup

  /**
   * order lists exactly the pawn dict's keys, in insertion order: each label of
   * order has a location and each key is in order (that each occurs once is
   * Distinct, below).
   */
  ghost predicate WellFormed(order: seq<Label>, at: map<Label, Loc>) {
    Covers(order, at) && forall q {:trigger InOrder(order, q)} :: q in at ==> InOrder(order, q)
  }

  /** The label is one of the dict's keys in insertion order. */
  predicate InOrder(order: seq<Label>, q: Label) {
    q in order
  }

  /** No two pawns share a square of the grid (Start and Home hold any number). */
  predicate Sparse(order: seq<Label>, at: map<Label, Loc>)
    requires WellFormed(order, at)
  {
    forall i, j :: 0 <= i < j < |order| && at[order[i]].Cell? ==> at[order[i]] != at[order[j]]
  }

  function Abs(n: int): nat {
    if n < 0 then -n else n
  }

  // ----- The stepping loop -----

  /** Where the stepping loop leaves the pawn, and whether it stopped because the pawn was Home with steps left. */
  datatype Walked = Walked(loc: Loc, aborted: bool)

  /**
   * n iterations of move_pawn's loop: a Home pawn with steps left stops the
   * move as invalid, a Start pawn goes to its start exit and the rest of the
   * count is dropped, any other pawn takes one step.
   */
  function Walk(c: Color, l: Loc, n: nat, forward: bool): Walked
    decreases n
  {
    if n == 0 then Walked(l, false)
    else match l
      case Home => Walked(Home, true)
      case Start => Walked(StartExit(c), false)
      case Cell(_, _) => Walk(c, Step(c, l, forward), n - 1, forward)
  }

  /** The walk stops early only on Home. */
  lemma {:induction false} WalkAbortsOnlyAtHome(c: Color, l: Loc, n: nat, forward: bool)
    ensures Walk(c, l, n, forward).aborted ==> Walk(c, l, n, forward).loc == Home
    decreases n
  {
    if n > 0 && l.Cell? {
      WalkAbortsOnlyAtHome(c, Step(c, l, forward), n - 1, forward);
    }
  }

  /**
   * Home is entered only by exact count: a walk that reaches Home after k
   * steps is rejected when it was asked for more.
   */
  lemma {:induction false} WalkOvershootRejected(c: Color, l: Loc, k: nat, n: nat, forward: bool)
    requires l != Home && Walk(c, l, k, forward) == Walked(Home, false) && k < n
    ensures Walk(c, l, n, forward) == Walked(Home, true)
    decreases n
  {
    match l
    case Start =>
      assert false;
    case Cell(_, _) =>
      var s := Step(c, l, forward);
      if s == Home {
        assert n - 1 > 0;
      } else {
        WalkOvershootRejected(c, s, k - 1, n - 1, forward);
      }
  }

  /** A walk never takes a pawn off the squares its colour may occupy. */
  lemma {:induction false} WalkKeepsPlaced(c: Color, l: Loc, n: nat, forward: bool)
    requires Placed(c, l)
    ensures Placed(c, Walk(c, l, n, forward).loc)
    decreases n
  {
    if n > 0 && l.Cell? {
      StepKeepsPlaced(c, l, forward);
      WalkKeepsPlaced(c, Step(c, l, forward), n - 1, forward);
    }
  }

  /** No walk position along the way, the origin included, is Home. */
  predicate AvoidsHome(c: Color, l: Loc, n: nat, forward: bool)
    decreases n
  {
    l.Cell? && (n > 0 ==> AvoidsHome(c, Step(c, l, forward), n - 1, forward))
  }

  /** One more step at the end of a walk over squares of the grid. */
  lemma {:induction false} WalkSnoc(c: Color, l: Loc, n: nat, forward: bool)
    requires AvoidsHome(c, l, n, forward)
    ensures Walk(c, l, n, forward).loc.Cell? && !Walk(c, l, n, forward).aborted
    ensures Walk(c, l, n + 1, forward) == Walked(Step(c, Walk(c, l, n, forward).loc, forward), false)
    decreases n
  {
    if n > 0 {
      WalkSnoc(c, Step(c, l, forward), n - 1, forward);
    }
  }

  /**
   * Moving d squares forward and then d squares backward returns a pawn on
   * the track or in its safety zone to where it was, provided Home was not
   * entered on the way.
   */
  lemma {:induction false} WalkRoundTrip(c: Color, l: Loc, n: nat)
    requires Placed(c, l) && AvoidsHome(c, l, n, true)
    ensures Walk(c, Walk(c, l, n, true).loc, n, false) == Walked(l, false)
    decreases n
  {
    if n > 0 {
      var s := Step(c, l, true);
      StepKeepsPlaced(c, l, true);
      StepRoundTrip(c, l);
      WalkRoundTrip(c, s, n - 1);
      var e := Walk(c, l, n, true).loc;
      assert Walk(c, s, n - 1, true).loc == e;
      BackAvoidsHome(c, s, n - 1);
      WalkSnoc(c, e, n - 1, false);
    }
  }

  /** The backward walk that retraces a forward walk stays on the grid. */
  lemma {:induction false} BackAvoidsHome(c: Color, l: Loc, n: nat)
    requires Placed(c, l) && AvoidsHome(c, l, n, true)
    ensures AvoidsHome(c, Walk(c, l, n, true).loc, n, false)
    ensures Walk(c, Walk(c, l, n, true).loc, n, false) == Walked(l, false)
    decreases n, 0
  {
    if n > 0 {
      var s := Step(c, l, true);
      StepKeepsPlaced(c, l, true);
      StepRoundTrip(c, l);
      BackAvoidsHome(c, s, n - 1);
      var e := Walk(c, l, n, true).loc;
      assert Walk(c, s, n - 1, true).loc == e;
      WalkSnoc(c, e, n - 1, false);
      BackAvoidsHomeSnoc(c, e, n - 1, l);
    }
  }

  /** Extending a Home-free backward walk by a step that lands on the grid keeps it Home-free. */
  lemma {:induction false} BackAvoidsHomeSnoc(c: Color, e: Loc, n: nat, l: Loc)
    requires AvoidsHome(c, e, n, false) && l.Cell? && Walk(c, e, n, false).loc.Cell?
    requires Step(c, Walk(c, e, n, false).loc, false) == l
    ensures AvoidsHome(c, e, n + 1, false)
    decreases n
  {
    WalkSnoc(c, e, n, false);
    if n > 0 {
      BackAvoidsHomeSnoc(c, Step(c, e, false), n - 1, l);
    }
  }

  // ----- Bumping -----

  /** Every label of keys has a location. */
  predicate Covers(keys: seq<Label>, at: map<Label, Loc>) {
    forall l :: l in keys ==> l in at
  }

  /**
   * bump_pawns_at_coordinates over the labels keys, count pawns already sent
   * back: each pawn on one of the coordinates goes to Start, and the scan stops
   * once one pawn more than there are coordinates has been sent back.
   */
  function Bumped(keys: seq<Label>, at: map<Label, Loc>, coords: seq<Loc>, count: nat): (r: map<Label, Loc>)
    requires Covers(keys, at)
    ensures r.Keys == at.Keys
    ensures forall q :: q in at ==> r[q] == at[q] || (at[q] in coords && r[q] == Start)
    decreases |keys|
  {
    if keys == [] then at
    else
      var p := keys[0];
      if at[p] in coords then
        var at' := at[p := Start];
        if count + 1 > |coords| then at' else Bumped(keys[1..], at', coords, count + 1)
      else Bumped(keys[1..], at, coords, count)
  }

  /** One round of the scan. */
  lemma BumpedUnfold(keys: seq<Label>, at: map<Label, Loc>, coords: seq<Loc>, count: nat)
    requires Covers(keys, at) && keys != []
    ensures Covers(keys[1..], at) && Covers(keys[1..], at[keys[0] := Start])
    ensures Bumped(keys, at, coords, count) ==
      if at[keys[0]] !in coords then Bumped(keys[1..], at, coords, count)
      else if count + 1 > |coords| then at[keys[0] := Start]
      else Bumped(keys[1..], at[keys[0] := Start], coords, count + 1)
  {
  }

  /** Distinct labels. */
  predicate Distinct(keys: seq<Label>) {
    forall i, j :: 0 <= i < j < |keys| ==> keys[i] != keys[j]
  }

  /** How many of the labels stand on one of the squares. */
  function CountOn(keys: seq<Label>, at: map<Label, Loc>, s: set<Loc>): nat
    requires Covers(keys, at)
  {
    if keys == [] then 0
    else (if at[keys[0]] in s then 1 else 0) + CountOn(keys[1..], at, s)
  }

  /** Labels outside the scan keep their places. */
  lemma {:induction false} BumpedOutside(keys: seq<Label>, at: map<Label, Loc>, coords: seq<Loc>, count: nat, q: Label)
    requires Covers(keys, at) && q in at && q !in keys
    ensures Bumped(keys, at, coords, count)[q] == at[q]
    decreases |keys|
  {
    if keys != [] {
      var p := keys[0];
      if at[p] in coords {
        if count + 1 <= |coords| {
          BumpedOutside(keys[1..], at[p := Start], coords, count + 1, q);
        }
      } else {
        BumpedOutside(keys[1..], at, coords, count, q);
      }
    }
  }

  /**
   * When no more pawns stand on the coordinates than the scan may send back,
   * exactly the pawns on them go to Start and every other pawn stays.
   */
  lemma {:induction false} BumpedAll(keys: seq<Label>, at: map<Label, Loc>, coords: seq<Loc>, count: nat)
    requires Covers(keys, at) && Distinct(keys)
    requires count + CountOn(keys, at, (set l | l in coords)) <= |coords| + 1
    ensures forall q :: q in at ==>
      Bumped(keys, at, coords, count)[q] == if q in keys && at[q] in coords then Start else at[q]
    decreases |keys|
  {
    if keys != [] {
      var p := keys[0];
      var rest := keys[1..];
      assert Distinct(rest);
      assert Covers(rest, at);
      if at[p] in coords {
        var at' := at[p := Start];
        CountOnUpdate(rest, at, p, Start, (set l | l in coords));
        if count + 1 <= |coords| {
          BumpedAll(rest, at', coords, count + 1);
          forall q | q in at
            ensures Bumped(keys, at, coords, count)[q] == if q in keys && at[q] in coords then Start else at[q]
          {
            if q == p {
              BumpedOutside(rest, at', coords, count + 1, q);
            }
          }
        } else {
          assert CountOn(rest, at, (set l | l in coords)) == 0;
          forall q | q in at
            ensures Bumped(keys, at, coords, count)[q] == if q in keys && at[q] in coords then Start else at[q]
          {
            if q in rest {
              CountOnZero(rest, at, (set l | l in coords), q);
            }
          }
        }
      } else {
        BumpedAll(rest, at, coords, count);
        forall q | q in at
          ensures Bumped(keys, at, coords, count)[q] == if q in keys && at[q] in coords then Start else at[q]
        {
          if q == p {
            BumpedOutside(rest, at, coords, count, q);
          }
        }
      }
    }
  }

  /** Changing the place of a label outside keys does not change the count. */
  lemma {:induction false} CountOnUpdate(keys: seq<Label>, at: map<Label, Loc>, p: Label, v: Loc, s: set<Loc>)
    requires Covers(keys, at) && p !in keys
    ensures Covers(keys, at[p := v]) && CountOn(keys, at[p := v], s) == CountOn(keys, at, s)
  {
    if keys != [] {
      CountOnUpdate(keys[1..], at, p, v, s);
    }
  }

  /** With a count of zero none of the labels stands on the squares. */
  lemma {:induction false} CountOnZero(keys: seq<Label>, at: map<Label, Loc>, s: set<Loc>, q: Label)
    requires Covers(keys, at) && CountOn(keys, at, s) == 0 && q in keys
    ensures at[q] !in s
  {
    if keys[0] != q {
      CountOnZero(keys[1..], at, s, q);
    }
  }

  /** Labels none of which stands on square x are counted the same with or without x. */
  lemma {:induction false} CountOnRemove(keys: seq<Label>, at: map<Label, Loc>, s: set<Loc>, x: Loc)
    requires Covers(keys, at) && forall q :: q in keys ==> at[q] != x
    ensures CountOn(keys, at, s - {x}) == CountOn(keys, at, s)
  {
    if keys != [] {
      CountOnRemove(keys[1..], at, s, x);
    }
  }

  /** Pawns on pairwise different grid squares are no more than the squares. */
  lemma {:induction false} CountOnAtMost(keys: seq<Label>, at: map<Label, Loc>, s: set<Loc>)
    requires Covers(keys, at) && Distinct(keys)
    requires forall l :: l in s ==> l.Cell?
    requires forall i, j :: 0 <= i < j < |keys| && at[keys[i]].Cell? ==> at[keys[i]] != at[keys[j]]
    ensures CountOn(keys, at, s) <= |s|
  {
    if keys != [] {
      var k := keys[0];
      var rest := keys[1..];
      assert Distinct(rest) && Covers(rest, at);
      assert forall i, j :: 0 <= i < j < |rest| && at[rest[i]].Cell? ==> at[rest[i]] != at[rest[j]] by {
        forall i, j | 0 <= i < j < |rest| && at[rest[i]].Cell?
          ensures at[rest[i]] != at[rest[j]]
        {
          assert rest[i] == keys[i + 1] && rest[j] == keys[j + 1];
        }
      }
      if at[k] in s {
        forall q | q in rest ensures at[q] != at[k] {
          var j :| 0 <= j < |rest| && rest[j] == q;
          assert keys[j + 1] == q;
        }
        CountOnRemove(rest, at, s, at[k]);
        CountOnAtMost(rest, at, s - {at[k]});
      } else {
        CountOnAtMost(rest, at, s);
      }
    }
  }

  /** Taking one label off the squares lowers the count by at most one. */
  lemma {:induction false} CountOnMoveOut(keys: seq<Label>, at: map<Label, Loc>, s: set<Loc>, p: Label, v: Loc)
    requires Covers(keys, at) && Distinct(keys) && v !in s && p in at
    ensures Covers(keys, at[p := v])
    ensures CountOn(keys, at, s) <= CountOn(keys, at[p := v], s) + 1
    ensures p !in keys ==> CountOn(keys, at, s) == CountOn(keys, at[p := v], s)
  {
    if keys != [] {
      var rest := keys[1..];
      assert Distinct(rest) && Covers(rest, at);
      if keys[0] == p {
        assert p !in rest;
        CountOnUpdate(rest, at, p, v, s);
      } else {
        CountOnMoveOut(rest, at, s, p, v);
      }
    }
  }

  /** The squares of a list are no more than its length. */
  lemma {:induction false} SquaresAtMost(coords: seq<Loc>)
    ensures |set l | l in coords| <= |coords|
  {
    if coords != [] {
      SquaresAtMost(coords[1..]);
      assert (set l | l in coords) == (set l | l in coords[1..]) + {coords[0]};
    }
  }

  // ----- Slides -----

  /** A slide fires: the pawn ends its steps on a slide entrance off its own colour's line. */
  predicate SlideApplies(c: Color, l: Loc) {
    l.Cell? && OffOwnLine(c, l) && l in SlideEntrances
  }

  /** The first table row with the given key. */
  function SlideEntryFor(key: int, table: seq<SlideEntry>): Option<SlideEntry> {
    if table == [] then None
    else if table[0].key == key then Some(table[0])
    else SlideEntryFor(key, table[1..])
  }

  /** The exit of the slide that starts on l: the x + y of the entrance picks the row. */
  function SlideExit(l: Loc): (r: Loc)
    requires l in SlideEntrances
    ensures OnBorder(r)
  {
    var e := SlideEntryFor(l.x + l.y, SlideTable).value;
    Shift(l, e.axis, e.delta)
  }

  /** The squares from a slide's entrance to its exit, inclusive, along the border line they share. */
  function SlideCells(entrance: Loc, exit: Loc): (r: seq<Loc>)
    requires entrance.Cell? && exit.Cell?
    ensures forall i :: 0 <= i < |r| ==> r[i].Cell?
  {
    if Edge(exit.y) then
      var lo, hi := if exit.x < entrance.x then exit.x else entrance.x, if exit.x < entrance.x then entrance.x else exit.x;
      seq(hi - lo + 1, i => Cell(lo + i, exit.y))
    else
      var lo, hi := if exit.y < entrance.y then exit.y else entrance.y, if exit.y < entrance.y then entrance.y else exit.y;
      seq(hi - lo + 1, i => Cell(exit.x, lo + i))
  }

  /** The slide table in the nested-list form that the binary search reads (key first). */
  function EncodeSlide(e: SlideEntry): Value {
    List([Num(e.key), List([Num(if e.axis == X then 0 else 1), Num(e.delta)])])
  }

  function SlideTableValue(): (r: seq<Value>)
    ensures |r| == |SlideTable|
    ensures forall i :: 0 <= i < |r| ==> r[i] == EncodeSlide(SlideTable[i])
  {
    seq(|SlideTable|, i requires 0 <= i < |SlideTable| => EncodeSlide(SlideTable[i]))
  }

  /** The keys of the slide table strictly increase. */
  predicate KeysIncrease(table: seq<SlideEntry>) {
    forall i, j :: 0 <= i < j < |table| ==> table[i].key < table[j].key
  }

  /** In a table with increasing keys the lookup finds the row that carries the key. */
  lemma {:induction false} SlideEntryForRow(key: int, table: seq<SlideEntry>, k: int)
    requires KeysIncrease(table) && 0 <= k < |table| && table[k].key == key
    ensures SlideEntryFor(key, table) == Some(table[k])
  {
    if k > 0 {
      assert table[0].key < table[k].key;
      assert KeysIncrease(table[1..]) by {
        forall i, j | 0 <= i < j < |table[1..]| ensures table[1..][i].key < table[1..][j].key {
          assert table[1..][i] == table[i + 1] && table[1..][j] == table[j + 1];
        }
      }
      SlideEntryForRow(key, table[1..], k - 1);
    }
  }

  /** The row of the slide table that belongs to a slide entrance. */
  function SlideRow(l: Loc): (k: nat)
    requires l in SlideEntrances
    ensures k < |SlideTable| && SlideTable[k].key == l.x + l.y
  {
    if l == Cell(1, 0) then 0 else if l == Cell(0, 6) then 1
    else if l == Cell(9, 0) then 2 else if l == Cell(0, 14) then 3
    else if l == Cell(15, 1) then 4 else if l == Cell(6, 15) then 5
    else if l == Cell(15, 9) then 6 else 7
  }

  /** The encoded table carries each row's key at path [0]. */
  lemma SlideTableKeyed()
    ensures Keyed(SlideTableValue(), [0])
    ensures forall i :: 0 <= i < |SlideTable| ==> KeyAt(SlideTableValue(), [0], i) == SlideTable[i].key
  {
    var t := SlideTableValue();
    forall i | 0 <= i < |t|
      ensures ElementAt(List(t), [i] + [0]) == Some(Num(SlideTable[i].key))
    {
      var path := [i] + [0];
      assert path[0] == i && path[1..] == [0];
      assert t[i] == EncodeSlide(SlideTable[i]);
      assert ElementAt(t[i], [0]) == ElementAt(Num(SlideTable[i].key), [0][1..]);
    }
  }

  /**
   * Every slide entrance finds its row: the encoded table is keyed and sorted,
   * the entrance's x + y is a key, and the row with that key gives the exit.
   */
  lemma SlideLookup(l: Loc)
    requires l in SlideEntrances
    ensures Keyed(SlideTableValue(), [0]) && StrictlySorted(SlideTableValue(), [0])
    ensures exists k :: 0 <= k < |SlideTable| && KeyAt(SlideTableValue(), [0], k) == l.x + l.y
    ensures forall k :: 0 <= k < |SlideTable| && KeyAt(SlideTableValue(), [0], k) == l.x + l.y ==>
      SlideExit(l) == Shift(l, SlideTable[k].axis, SlideTable[k].delta)
  {
    SlideTableKeyed();
    assert KeysIncrease(SlideTable);
    var k := SlideRow(l);
    assert KeyAt(SlideTableValue(), [0], k) == l.x + l.y;
    forall k' | 0 <= k' < |SlideTable| && KeyAt(SlideTableValue(), [0], k') == l.x + l.y
      ensures SlideExit(l) == Shift(l, SlideTable[k'].axis, SlideTable[k'].delta)
    {
      SlideEntryForRow(l.x + l.y, SlideTable, k');
    }
  }

  /** Both ends of a straight run lie on it. */
  lemma SlideCellsEnds(entrance: Loc, exit: Loc)
    requires entrance.Cell? && exit.Cell?
    requires if Edge(exit.y) then entrance.y == exit.y else entrance.x == exit.x
    ensures entrance in SlideCells(entrance, exit) && exit in SlideCells(entrance, exit)
  {
    var cells := SlideCells(entrance, exit);
    if Edge(exit.y) {
      var lo := if exit.x < entrance.x then exit.x else entrance.x;
      assert cells[entrance.x - lo] == entrance && cells[exit.x - lo] == exit;
    } else {
      var lo := if exit.y < entrance.y then exit.y else entrance.y;
      assert cells[entrance.y - lo] == entrance && cells[exit.y - lo] == exit;
    }
  }

  /** A straight run between two border squares of one border line stays on the border. */
  lemma RunOnBorder(entrance: Loc, exit: Loc)
    requires OnBorder(entrance) && OnBorder(exit)
    requires if Edge(exit.y) then entrance.y == exit.y else entrance.x == exit.x && Edge(exit.x)
    ensures var cells := SlideCells(entrance, exit); forall i :: 0 <= i < |cells| ==> OnBorder(cells[i])
  {
  }

  /** The row of each entrance: a slide along the entrance's own border line, 3 or 4 squares long. */
  lemma SlideRowShape(l: Loc)
    requires l in SlideEntrances
    ensures var e := SlideTable[SlideRow(l)];
      (e.delta == 3 || e.delta == 4 || e.delta == -3 || e.delta == -4) &&
      (e.axis == X ==> Edge(l.y)) && (e.axis == Y ==> Edge(l.x) && !Edge(l.y + e.delta))
    ensures forall c: Color :: l != SafetyEntrance(c) && Shift(l, SlideTable[SlideRow(l)].axis, SlideTable[SlideRow(l)].delta) != SafetyEntrance(c)
  {
  }

  /** A run of 3 or 4 squares along the border line of a border square: 4 or 5 squares, from end to end, all on the border. */
  lemma RunShape(entrance: Loc, a: Axis, delta: int)
    requires OnBorder(entrance) && OnBorder(Shift(entrance, a, delta))
    requires delta == 3 || delta == 4 || delta == -3 || delta == -4
    requires (a == X ==> Edge(entrance.y)) && (a == Y ==> Edge(entrance.x) && !Edge(entrance.y + delta))
    ensures var exit := Shift(entrance, a, delta); var cells := SlideCells(entrance, exit);
      (|cells| == 4 || |cells| == 5) && entrance in cells && exit in cells &&
      forall i :: 0 <= i < |cells| ==> OnBorder(cells[i])
  {
    var exit := Shift(entrance, a, delta);
    SlideCellsEnds(entrance, exit);
    RunOnBorder(entrance, exit);
  }

  /** Each slide carries a pawn 3 or 4 squares along the border line of its entrance. */
  lemma SlideShape(l: Loc)
    requires l in SlideEntrances
    ensures var cells := SlideCells(l, SlideExit(l));
      (|cells| == 4 || |cells| == 5) && l in cells && SlideExit(l) in cells &&
      forall i :: 0 <= i < |cells| ==> OnBorder(cells[i])
  {
    assert KeysIncrease(SlideTable);
    var e := SlideTable[SlideRow(l)];
    SlideEntryForRow(l.x + l.y, SlideTable, SlideRow(l));
    SlideRowShape(l);
    assert SlideExit(l) == Shift(l, e.axis, e.delta);
    RunShape(l, e.axis, e.delta);
  }

  /** Neither end of a slide is a safety entrance. */
  lemma SlideEndsOffSafety(l: Loc)
    requires l in SlideEntrances
    ensures forall c: Color :: l != SafetyEntrance(c) && SlideExit(l) != SafetyEntrance(c)
  {
    assert KeysIncrease(SlideTable);
    SlideEntryForRow(l.x + l.y, SlideTable, SlideRow(l));
    SlideRowShape(l);
  }

  // ----- move_pawn -----

  /** What move_pawn leaves in the dict and what it returns (None when no mover colour is given). */
  datatype Moved = Moved(at: map<Label, Loc>, valid: Option<bool>)

  function Report(mover: Option<Color>, ok: bool): Option<bool> {
    if mover.Some? then Some(ok) else None
  }

  /** No pawn of colour c other than p has changed place. */
  predicate Undisturbed(order: seq<Label>, before: map<Label, Loc>, after: map<Label, Loc>, p: Label, c: Color)
    requires Covers(order, before) && Covers(order, after)
  {
    forall q :: q in order && q.color == c && q != p ==> after[q] == before[q]
  }

  /**
   * move_pawn(n, p, at, mover): the walk; then, ending on a slide entrance off
   * its own line, the slide (every pawn from entrance to exit goes to Start and
   * the mover to the exit, reported valid); otherwise, unless Home, a capture of
   * whatever stands on the landing square, invalid exactly when it displaces
   * another pawn of the mover's colour.
   */
  function Move(order: seq<Label>, at: map<Label, Loc>, n: int, p: Label, mover: Option<Color>): (r: Moved)
    requires WellFormed(order, at) && p in at
    ensures r.at.Keys == at.Keys
  {
    var w := Walk(p.color, at[p], Abs(n), n > 0);
    var at1 := at[p := w.loc];
    if w.aborted then Moved(at1, Report(mover, false))
    else if SlideApplies(p.color, w.loc) then
      var exit := SlideExit(w.loc);
      Moved(Bumped(order, at1, SlideCells(w.loc, exit), 0)[p := exit], Report(mover, true))
    else if w.loc == Home then Moved(at1, Report(mover, true))
    else
      var at2 := Bumped(order, at1, [w.loc], 0);
      Moved(at2[p := w.loc], Report(mover, mover.None? || Undisturbed(order, at1, at2, p, mover.value)))
  }

  /** A pawn at Home cannot move: any nonzero count is rejected and nothing changes. */
  lemma MoveFromHome(order: seq<Label>, at: map<Label, Loc>, n: int, p: Label, mover: Option<Color>)
    requires WellFormed(order, at) && p in at && at[p] == Home && n != 0
    ensures Move(order, at, n, p, mover) == Moved(at, Report(mover, false))
  {
    assert at[p := Home] == at;
  }

  /** A pawn leaving Start lands on its colour's start exit whatever the count, capturing what stands there. */
  lemma MoveFromStart(order: seq<Label>, at: map<Label, Loc>, n: int, p: Label, mover: Option<Color>)
    requires WellFormed(order, at) && p in at && at[p] == Start && n != 0
    ensures Move(order, at, n, p, mover).at[p] == StartExit(p.color)
  {
    StartExitOnOwnLine(p.color);
  }

  /** Apart from the moving pawn, a move only ever sends pawns back to Start. */
  lemma MoveFrame(order: seq<Label>, at: map<Label, Loc>, n: int, p: Label, mover: Option<Color>)
    requires WellFormed(order, at) && p in at
    ensures forall q :: q in at && q != p ==>
      Move(order, at, n, p, mover).at[q] == at[q] || Move(order, at, n, p, mover).at[q] == Start
  {
  }

  /** A move never takes the moving pawn off the squares its colour may occupy. */
  lemma MoveKeepsPlaced(order: seq<Label>, at: map<Label, Loc>, n: int, p: Label, mover: Option<Color>)
    requires WellFormed(order, at) && p in at && Placed(p.color, at[p])
    ensures Placed(p.color, Move(order, at, n, p, mover).at[p])
  {
    WalkKeepsPlaced(p.color, at[p], Abs(n), n > 0);
  }

  /** Under the table p is at v and the rest stay where they were; if they were sparse, they are sparse apart from p. */
  lemma SparseWithout(order: seq<Label>, at: map<Label, Loc>, p: Label)
    requires WellFormed(order, at) && Distinct(order) && Sparse(order, at) && p in at
    ensures forall i, j :: 0 <= i < j < |order| && at[p := Start][order[i]].Cell? ==>
      at[p := Start][order[i]] != at[p := Start][order[j]]
  {
  }

  /** At most one pawn other than p stands on any one square of the grid, so a capture never stops short. */
  lemma CaptureCount(order: seq<Label>, at: map<Label, Loc>, p: Label, s: set<Loc>, v: Loc)
    requires WellFormed(order, at) && Distinct(order) && Sparse(order, at) && p in at
    requires forall l :: l in s ==> l.Cell?
    ensures Covers(order, at[p := v]) && CountOn(order, at[p := v], s) <= |s| + 1
  {
    var bare := at[p := Start];
    SparseWithout(order, at, p);
    assert Covers(order, bare);
    CountOnAtMost(order, bare, s);
    CountOnMoveOut(order, at[p := v], s, p, Start);
    assert at[p := v][p := Start] == bare;
  }

  /**
   * A move that ends on a square of the grid that is not a slide puts the
   * pawn there and sends back to Start exactly the pawn that stood there; it is
   * reported invalid exactly when that pawn was the mover's own.
   */
  lemma MoveLands(order: seq<Label>, at: map<Label, Loc>, n: int, p: Label, mover: Option<Color>)
    requires WellFormed(order, at) && Distinct(order) && Sparse(order, at) && p in at
    requires var w := Walk(p.color, at[p], Abs(n), n > 0);
      !w.aborted && w.loc.Cell? && !SlideApplies(p.color, w.loc)
    ensures var w := Walk(p.color, at[p], Abs(n), n > 0);
      var r := Move(order, at, n, p, mover);
      r.at[p] == w.loc &&
      (forall q :: q in order && q != p ==> r.at[q] == if at[q] == w.loc then Start else at[q]) &&
      r.valid == Report(mover, mover.None? || forall q :: q in order && q != p && q.color == mover.value ==> at[q] != w.loc)
  {
    var w := Walk(p.color, at[p], Abs(n), n > 0);
    CaptureCount(order, at, p, {w.loc}, w.loc);
    assert (set l | l in [w.loc]) == {w.loc};
    BumpedAll(order, at[p := w.loc], [w.loc], 0);
  }

  /**
   * A move that ends on a slide entrance off the pawn's own line carries it to
   * the slide's exit, sends back to Start every other pawn on the slide, and is
   * reported valid.
   */
  lemma MoveSlides(order: seq<Label>, at: map<Label, Loc>, n: int, p: Label, mover: Option<Color>)
    requires WellFormed(order, at) && Distinct(order) && Sparse(order, at) && p in at
    requires var w := Walk(p.color, at[p], Abs(n), n > 0);
      !w.aborted && SlideApplies(p.color, w.loc)
    ensures var w := Walk(p.color, at[p], Abs(n), n > 0);
      var cells := SlideCells(w.loc, SlideExit(w.loc));
      var r := Move(order, at, n, p, mover);
      r.at[p] == SlideExit(w.loc) &&
      (forall q :: q in order && q != p ==> r.at[q] == if at[q] in cells then Start else at[q]) &&
      r.valid == Report(mover, true)
  {
    var w := Walk(p.color, at[p], Abs(n), n > 0);
    var cells := SlideCells(w.loc, SlideExit(w.loc));
    var s := set l | l in cells;
    CaptureCount(order, at, p, s, w.loc);
    SquaresAtMost(cells);
    BumpedAll(order, at[p := w.loc], cells, 0);
  }

  /** A move keeps every square of the grid to at most one pawn. */
  lemma MoveKeepsSparse(order: seq<Label>, at: map<Label, Loc>, n: int, p: Label, mover: Option<Color>)
    requires WellFormed(order, at) && Distinct(order) && Sparse(order, at) && p in at
    ensures Sparse(order, Move(order, at, n, p, mover).at)
  {
    var w := Walk(p.color, at[p], Abs(n), n > 0);
    var r := Move(order, at, n, p, mover).at;
    if w.aborted {
      WalkAbortsOnlyAtHome(p.color, at[p], Abs(n), n > 0);
      SparseAfter(order, at, r, p);
    } else if SlideApplies(p.color, w.loc) {
      MoveSlides(order, at, n, p, mover);
      SlideShape(w.loc);
      SparseAfter(order, at, r, p);
    } else if w.loc.Cell? {
      MoveLands(order, at, n, p, mover);
      SparseAfter(order, at, r, p);
    } else {
      SparseAfter(order, at, r, p);
    }
  }

  /**
   * The new places are sparse when p's square is held by no one else and the
   * others either stayed or went to Start.
   */
  lemma SparseAfter(order: seq<Label>, at: map<Label, Loc>, r: map<Label, Loc>, p: Label)
    requires WellFormed(order, at) && Distinct(order) && Sparse(order, at) && p in at && r.Keys == at.Keys
    requires forall q :: q in order && q != p ==> r[q] == at[q] || r[q] == Start
    requires forall q :: q in order && q != p && r[p].Cell? ==> r[q] != r[p]
    ensures Sparse(order, r)
  {
    forall i, j | 0 <= i < j < |order| && r[order[i]].Cell?
      ensures r[order[i]] != r[order[j]]
    {
      assert order[i] in order && order[j] in order;
    }
  }
}
