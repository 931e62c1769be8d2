/**
 * Board topology of the Sorry! console game: the 16x16 grid whose 60-square
 * border is the shared track, the four colours with their start exits,
 * safety-zone entrances, five-square safety zones and Home squares, the eight
 * slides, and the single-square step that move_pawn repeats.
 */
module Board {

  /** The four sides, in the order the game seats them (blue, yellow, green, red). */
  datatype Color = Blue | Yellow | Green | Red

  /** A pawn label such as B1 or Y4: its colour letter and its number. */
  datatype Label = Label(color: Color, num: nat)

  /**
   * Where a pawn is: not yet entered, finished, or on a square of the grid
   * (x to the right, y downwards, both 0..15 on the board).
   */
  datatype Loc = Start | Home | Cell(x: int, y: int)

  const MinCoord: int := 0
  const MaxCoord: int := 15
  const TrackLength: int := 60

  /** A coordinate on the outer frame of the grid ("in [MIN, MAX]" in the source). */
  predicate Edge(v: int) {
    v == MinCoord || v == MaxCoord
  }

  /** A square of the shared track: on the grid and on its border. */
  predicate OnBorder(l: Loc) {
    l.Cell? && MinCoord <= l.x <= MaxCoord && MinCoord <= l.y <= MaxCoord && (Edge(l.x) || Edge(l.y))
  }

  /** Blue and green are teammates, and so are red and yellow. */
  function Teammate(c: Color): (t: Color)
    ensures t != c
  {
    match c
    case Blue => Green
    case Green => Blue
    case Red => Yellow
    case Yellow => Red
  }

  /** A pawn of colour c belongs to the player's side (their own, or their teammate's when playing in teams). */
  predicate Friendly(player: Color, teams: bool, c: Color) {
    c == player || (teams && c == Teammate(player))
  }

  /** The square a pawn takes when it leaves Start. */
  function StartExit(c: Color): Loc {
    match c
    case Green => Cell(4, 0)
    case Red => Cell(15, 4)
    case Blue => Cell(11, 15)
    case Yellow => Cell(0, 11)
  }

  /** The track square from which a pawn of colour c turns into its safety zone. */
  function SafetyEntrance(c: Color): Loc {
    match c
    case Green => Cell(2, 0)
    case Red => Cell(15, 2)
    case Blue => Cell(13, 15)
    case Yellow => Cell(0, 13)
  }

  /** The four Home squares; stepping onto one turns the pawn's location into Home. */
  const HomeCoordinates: seq<Loc> := [Cell(2, 6), Cell(9, 2), Cell(13, 9), Cell(6, 13)]

  /** The eight slide entrances. */
  const SlideEntrances: seq<Loc> :=
    [Cell(1, 0), Cell(9, 0), Cell(15, 1), Cell(15, 9), Cell(14, 15), Cell(6, 15), Cell(0, 14), Cell(0, 6)]

  /** The coordinate a slide moves a pawn along. */
  datatype Axis = X | Y

  /** A row of move_pawn's slide table: the entrance's x + y, and how far along which axis the slide carries a pawn. */
  datatype SlideEntry = SlideEntry(key: int, axis: Axis, delta: int)

  /** The slide table, sorted by key (the x + y of each entrance is distinct). */
  const SlideTable: seq<SlideEntry> := [
    SlideEntry(1, X, 3), SlideEntry(6, Y, -4), SlideEntry(9, X, 4), SlideEntry(14, Y, -3),
    SlideEntry(16, Y, 3), SlideEntry(21, X, -4), SlideEntry(24, Y, 4), SlideEntry(29, X, -3)]

  /** The square reached by moving l delta squares along axis a. */
  function Shift(l: Loc, a: Axis, delta: int): Loc
    requires l.Cell?
  {
    match a
    case X => Cell(l.x + delta, l.y)
    case Y => Cell(l.x, l.y + delta)
  }

  /**
   * The k-th square (1..5) of colour c's safety zone, counted from its entrance;
   * k = 6 is that colour's Home square.
   */
  function ZoneCell(c: Color, k: int): Loc {
    match c
    case Green => Cell(2, k)
    case Red => Cell(15 - k, 2)
    case Blue => Cell(13, 15 - k)
    case Yellow => Cell(k, 13)
  }

  /** The square lies in colour c's own safety zone. */
  predicate InZone(c: Color, l: Loc) {
    l.Cell? &&
    match c
    case Green => l.x == 2 && 1 <= l.y <= 5
    case Red => l.y == 2 && 10 <= l.x <= 14
    case Blue => l.x == 13 && 10 <= l.y <= 14
    case Yellow => l.y == 13 && 1 <= l.x <= 5
  }

  /** The places a pawn of colour c may legitimately occupy. */
  predicate Placed(c: Color, l: Loc) {
    l == Start || l == Home || OnBorder(l) || InZone(c, l)
  }

  /** The pawn's colour does not own the border line it stands on (slides only fire there). */
  predicate OffOwnLine(c: Color, l: Loc)
    requires l.Cell?
  {
    match c
    case Blue => l.y != MaxCoord
    case Green => l.y != MinCoord
    case Red => l.x != MaxCoord
    case Yellow => l.x != MinCoord
  }

  /**
   * One step from a pawn's own safety-zone entrance. With asWritten the backward
   * step is the one the source takes, which for red and yellow moves along the
   * track in the forward direction; otherwise it is the backward track step.
   */
  function EntranceStep(c: Color, x: int, y: int, forward: bool, asWritten: bool): Loc {
    match c
    case Green => if forward then Cell(x, y + 1) else Cell(x - 1, y)
    case Red => if forward then Cell(x - 1, y) else if asWritten then Cell(x, y + 1) else Cell(x, y - 1)
    case Yellow => if forward then Cell(x + 1, y) else if asWritten then Cell(x, y - 1) else Cell(x, y + 1)
    case Blue => if forward then Cell(x, y - 1) else Cell(x + 1, y)
  }

  /**
   * One iteration of move_pawn's stepping loop for a pawn of colour c on square l:
   * inside a safety zone it moves along the zone (turning into Home on a Home
   * square), at its own safety entrance it turns in (or out), and elsewhere it
   * follows the border clockwise (forward) or anticlockwise (backward).
   */
  function StepVia(c: Color, l: Loc, forward: bool, asWritten: bool): Loc
    requires l.Cell?
  {
    var x, y, d := l.x, l.y, if forward then 1 else -1;
    if !Edge(x) && !Edge(y) then
      var n := match c
        case Green => Cell(x, y + d)
        case Red => Cell(x - d, y)
        case Yellow => Cell(x + d, y)
        case Blue => Cell(x, y - d);
      if n in HomeCoordinates then Home else n
    else if l == SafetyEntrance(c) then EntranceStep(c, x, y, forward, asWritten)
    else if !Edge(x) && y == MinCoord then Cell(x + d, y)
    else if !Edge(x) && y == MaxCoord then Cell(x - d, y)
    else if x == MinCoord && !Edge(y) then Cell(x, y - d)
    else if x == MaxCoord && !Edge(y) then Cell(x, y + d)
    else if x == MinCoord && y == MinCoord then (if forward then Cell(1, 0) else Cell(0, 1))
    else if x == MaxCoord && y == MinCoord then (if forward then Cell(15, 1) else Cell(14, 0))
    else if x == MinCoord && y == MaxCoord then (if forward then Cell(0, 14) else Cell(1, 15))
    else (if forward then Cell(14, 15) else Cell(15, 14))
  }

  /** The step as the source writes it. */
  function StepAsWritten(c: Color, l: Loc, forward: bool): Loc
    requires l.Cell?
  {
    StepVia(c, l, forward, true)
  }

  /** The step with the backward turn out of red's and yellow's safety entrance corrected; the model uses this one. */
  function Step(c: Color, l: Loc, forward: bool): Loc
    requires l.Cell?
  {
    StepVia(c, l, forward, false)
  }

  /**
   * Position of a border square on the 60-square loop, counted clockwise from
   * the top-left corner: the reference against which Step is checked.
   */
  function TrackIndex(l: Loc): (i: int)
    requires OnBorder(l)
    ensures 0 <= i < TrackLength
  {
    if l.y == MinCoord then l.x
    else if l.x == MaxCoord then 15 + l.y
    else if l.y == MaxCoord then 45 - l.x
    else 60 - l.y
  }

  /** The next position clockwise on the loop. */
  function Succ(i: int): int {
    if i == TrackLength - 1 then 0 else i + 1
  }

  /** The next position anticlockwise on the loop. */
  function Pred(i: int): int {
    if i == 0 then TrackLength - 1 else i - 1
  }

  /** Distinct border squares have distinct track positions. */
  lemma TrackIndexInjective(a: Loc, b: Loc)
    requires OnBorder(a) && OnBorder(b) && TrackIndex(a) == TrackIndex(b)
    ensures a == b
  {
  }

  /** Teammates are mutual. */
  lemma TeammateInvolution(c: Color)
    ensures Teammate(Teammate(c)) == c
  {
  }

  /**
   * Off a pawn's own safety entrance a forward step advances one position along
   * the loop, and every backward step from a border square retreats one.
   */
  lemma StepFollowsTrack(c: Color, l: Loc)
    requires OnBorder(l)
    ensures l != SafetyEntrance(c) ==>
      OnBorder(Step(c, l, true)) && TrackIndex(Step(c, l, true)) == Succ(TrackIndex(l))
    ensures OnBorder(Step(c, l, false)) && TrackIndex(Step(c, l, false)) == Pred(TrackIndex(l))
  {
    if l == SafetyEntrance(c) {
      assert Step(c, l, false) == EntranceStep(c, l.x, l.y, false, false);
    } else if l.y == MinCoord {
      if l.x == MinCoord {
      } else if l.x == MaxCoord {
      } else {
        assert Step(c, l, true) == Cell(l.x + 1, l.y);
        assert Step(c, l, false) == Cell(l.x - 1, l.y);
      }
    } else if l.y == MaxCoord {
      if l.x == MinCoord {
      } else if l.x == MaxCoord {
      } else {
        assert Step(c, l, true) == Cell(l.x - 1, l.y);
        assert Step(c, l, false) == Cell(l.x + 1, l.y);
      }
    } else if l.x == MinCoord {
      assert Step(c, l, true) == Cell(l.x, l.y - 1);
      assert Step(c, l, false) == Cell(l.x, l.y + 1);
    } else {
      assert Step(c, l, true) == Cell(l.x, l.y + 1);
      assert Step(c, l, false) == Cell(l.x, l.y - 1);
    }
  }

  /** At its own safety entrance a pawn steps forward into the first square of its safety zone. */
  lemma StepEntersSafetyZone(c: Color)
    ensures Step(c, SafetyEntrance(c), true) == ZoneCell(c, 1)
    ensures InZone(c, ZoneCell(c, 1))
  {
  }

  /**
   * Inside its safety zone a pawn stays in the zone, becomes Home on the step
   * that reaches its colour's Home square, and steps back out to its entrance.
   */
  lemma StepWithinSafetyZone(c: Color, k: int)
    requires 1 <= k <= 5
    ensures Step(c, ZoneCell(c, k), true) == if k == 5 then Home else ZoneCell(c, k + 1)
    ensures ZoneCell(c, k + 1) in HomeCoordinates <==> k == 5
    ensures Step(c, ZoneCell(c, k), false) == if k == 1 then SafetyEntrance(c) else ZoneCell(c, k - 1)
  {
  }

  /** The zone squares are exactly ZoneCell(c, 1..5). */
  lemma InZoneIsZoneCell(c: Color, l: Loc)
    ensures InZone(c, l) <==> exists k :: 1 <= k <= 5 && l == ZoneCell(c, k)
  {
    if InZone(c, l) {
      var k := match c
        case Green => l.y
        case Red => 15 - l.x
        case Blue => 15 - l.y
        case Yellow => l.x;
      assert l == ZoneCell(c, k);
    }
  }

  /** A step never takes a pawn off the squares it may occupy. */
  lemma StepKeepsPlaced(c: Color, l: Loc, forward: bool)
    requires l.Cell? && Placed(c, l)
    ensures Placed(c, Step(c, l, forward))
  {
    if InZone(c, l) {
      InZoneIsZoneCell(c, l);
      var k :| 1 <= k <= 5 && l == ZoneCell(c, k);
      StepWithinSafetyZone(c, k);
      if k < 5 { InZoneIsZoneCell(c, ZoneCell(c, k + 1)); }
      if k > 1 { InZoneIsZoneCell(c, ZoneCell(c, k - 1)); }
    } else if l == SafetyEntrance(c) && forward {
      StepEntersSafetyZone(c);
    } else {
      StepFollowsTrack(c, l);
    }
  }

  /** A single backward step undoes a single forward step that does not reach Home. */
  lemma StepRoundTrip(c: Color, l: Loc)
    requires l.Cell? && Placed(c, l) && Step(c, l, true) != Home
    ensures Step(c, l, true).Cell? && Step(c, Step(c, l, true), false) == l
  {
    if InZone(c, l) {
      InZoneIsZoneCell(c, l);
      var k :| 1 <= k <= 5 && l == ZoneCell(c, k);
      StepWithinSafetyZone(c, k);
      StepWithinSafetyZone(c, k + 1);
    } else if l == SafetyEntrance(c) {
      StepEntersSafetyZone(c);
      StepWithinSafetyZone(c, 1);
    } else {
      StepFollowsTrack(c, l);
      var n := Step(c, l, true);
      StepFollowsTrack(c, n);
      TrackIndexInjective(Step(c, n, false), l);
    }
  }

  /**
   * As written, the backward step of a red pawn standing on its own safety
   * entrance goes one track position forward, so stepping forward onto the
   * entrance and back again does not return the pawn (yellow likewise).
   */
  lemma StepAsWrittenBacksForward()
    ensures StepAsWritten(Red, SafetyEntrance(Red), false) == Cell(15, 3)
    ensures TrackIndex(Cell(15, 3)) == Succ(TrackIndex(SafetyEntrance(Red)))
    ensures StepAsWritten(Red, Cell(15, 1), true) == SafetyEntrance(Red)
    ensures StepAsWritten(Red, StepAsWritten(Red, Cell(15, 1), true), false) != Cell(15, 1)
    ensures StepAsWritten(Yellow, StepAsWritten(Yellow, Cell(0, 14), true), false) == Cell(0, 12)
  {
  }

  /** The corrected step differs from the source's only on red's and yellow's backward turn out of their entrance. */
  lemma StepAsWrittenAgreesElsewhere(c: Color, l: Loc, forward: bool)
    requires l.Cell?
    requires forward || l != SafetyEntrance(c) || c == Green || c == Blue
    ensures StepAsWritten(c, l, forward) == Step(c, l, forward)
  {
  }

  /** The start exits are border squares on their own colour's line. */
  lemma StartExitOnOwnLine(c: Color)
    ensures OnBorder(StartExit(c)) && !OffOwnLine(c, StartExit(c))
    ensures StartExit(c) !in SlideEntrances
  {
  }
}
