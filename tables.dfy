/**
 * The pawn dict as a mutable object, and the two routines that change it in
 * place: bump_pawns_at_coordinates and move_pawn. Each is proved to leave the
 * dict as the matching function of module Movement describes.
 */
module Tables {
  import opened Wrappers
  import opened Board
  import opened Lookup
  import opened Movement

  /** The dict from pawn labels to locations; its keys never change. */
  class PawnTable {
    const order: seq<Label>
    var at: map<Label, Loc>

    ghost predicate Valid()
      reads this
    {
      WellFormed(order, at) && Distinct(order)
    }

    constructor (order: seq<Label>, at: map<Label, Loc>)
      requires WellFormed(order, at) && Distinct(order)
      ensures this.order == order && this.at == at && Valid()
    {
      this.order := order;
      this.at := at;
    }
  }

  /** copy.deepcopy of the dict: a new table with the same entries. */
  method Copy(t: PawnTable) returns (u: PawnTable)
    requires t.Valid()
    ensures fresh(u) && u.Valid() && u.order == t.order && u.at == t.at
  {
    u := new PawnTable(t.order, t.at);
  }

  /** bump_pawns_at_coordinates. */
  method Bump(t: PawnTable, coords: seq<Loc>)
    requires Covers(t.order, t.at)
    modifies t
    ensures t.at == Bumped(t.order, old(t.at), coords, 0)
  {
    var order := t.order;
    ghost var goal := Bumped(order, t.at, coords, 0);
    var count := 0;
    var i := 0;
    while i < |order|
      invariant 0 <= i <= |order|
      invariant Covers(order[i..], t.at)
      invariant Bumped(order[i..], t.at, coords, count) == goal
    {
      var p := order[i];
      BumpedUnfold(order[i..], t.at, coords, count);
      assert order[i..][0] == p && order[i..][1..] == order[i + 1..];
      if t.at[p] in coords {
        t.at := t.at[p := Start];
        count := count + 1;
        if count > |coords| {
          return;
        }
      }
      i := i + 1;
    }
  }

  /** The places of the pawns of colour c other than p, as move_pawn saves them before a capture. */
  method Snapshot(t: PawnTable, p: Label, c: Color) returns (saved: map<Label, Loc>)
    requires t.Valid()
    ensures forall q :: q in saved <==> q in t.order && q.color == c && q != p
    ensures forall q :: q in saved ==> saved[q] == t.at[q]
  {
    saved := map[];
    var i := 0;
    while i < |t.order|
      invariant 0 <= i <= |t.order|
      invariant forall q :: q in saved <==> q in t.order[..i] && q.color == c && q != p
      invariant forall q :: q in saved ==> saved[q] == t.at[q]
    {
      var q := t.order[i];
      assert t.order[..i + 1] == t.order[..i] + [q];
      if q.color == c && q != p {
        saved := saved[q := t.at[q]];
      }
      i := i + 1;
    }
    assert t.order[..i] == t.order;
  }

  /** Whether every saved pawn is still where it was. */
  method Unchanged(t: PawnTable, saved: map<Label, Loc>) returns (ok: bool)
    requires t.Valid()
    requires forall q :: q in saved ==> q in t.order
    ensures ok <==> forall q :: q in saved ==> saved[q] == t.at[q]
  {
    ok := true;
    var i := 0;
    while i < |t.order|
      invariant 0 <= i <= |t.order|
      invariant ok <==> forall q :: q in saved && q in t.order[..i] ==> saved[q] == t.at[q]
    {
      var q := t.order[i];
      assert t.order[..i + 1] == t.order[..i] + [q];
      if q in saved && saved[q] != t.at[q] {
        ok := false;
      }
      i := i + 1;
    }
    assert t.order[..i] == t.order;
  }

  /**
   * move_pawn(n, p, t, mover): the stepping loop, then the slide or the
   * capture; the table ends as Move describes, and the result is Move's
   * verdict.
   */
  method MovePawn(t: PawnTable, n: int, p: Label, mover: Option<Color>) returns (valid: Option<bool>)
    requires t.Valid() && p in t.at
    modifies t
    ensures t.Valid() && Move(t.order, old(t.at), n, p, mover) == Moved(t.at, valid)
  {
    ghost var w := Walk(p.color, t.at[p], Abs(n), n > 0);
    var forward := n > 0;
    var k := n;
    while k != 0
      invariant t.Valid() && p in t.at && t.at == old(t.at)[p := t.at[p]]
      invariant if forward then k >= 0 else k <= 0
      invariant Walk(p.color, t.at[p], Abs(k), forward) == w
      decreases Abs(k)
    {
      if t.at[p] == Home {
        return Report(mover, false);
      } else if t.at[p] == Start {
        t.at := t.at[p := StartExit(p.color)];
        assert Walk(p.color, t.at[p], 0, forward) == w;
        break;
      }
      t.at := t.at[p := Step(p.color, t.at[p], forward)];
      k := k - (if forward then 1 else -1);
    }
    var loc := t.at[p];
    assert loc == w.loc && !w.aborted;
    assert t.at == old(t.at)[p := w.loc];
    if loc != Start && loc != Home && OffOwnLine(p.color, loc) && loc in SlideEntrances {
      valid := SlideFrom(t, p, mover);
    } else if loc != Home {
      valid := Capture(t, p, mover);
    } else {
      valid := Report(mover, true);
    }
  }

  /** The slide branch of move_pawn: the squares from entrance to exit are cleared, and the pawn goes to the exit. */
  method SlideFrom(t: PawnTable, p: Label, mover: Option<Color>) returns (valid: Option<bool>)
    requires t.Valid() && p in t.at && SlideApplies(p.color, t.at[p])
    modifies t
    ensures t.Valid() && valid == Report(mover, true)
    ensures var loc := old(t.at[p]); t.at == Bumped(t.order, old(t.at), SlideCells(loc, SlideExit(loc)), 0)[p := SlideExit(loc)]
  {
    var loc := t.at[p];
    SlideLookup(loc);
    var row := BinarySearch(loc.x + loc.y, SlideTableValue(), [0]);
    var e := SlideTable[row.value];
    var exit := Shift(loc, e.axis, e.delta);
    assert exit == SlideExit(loc);
    Bump(t, SlideCells(loc, exit));
    t.at := t.at[p := exit];
    valid := Report(mover, true);
  }

  /**
   * The capture branch of move_pawn: whatever stands on the pawn's square goes
   * back to Start, and with a mover colour the move is invalid when that
   * displaces another pawn of that colour.
   */
  method Capture(t: PawnTable, p: Label, mover: Option<Color>) returns (valid: Option<bool>)
    requires t.Valid() && p in t.at
    modifies t
    ensures t.Valid()
    ensures var loc := old(t.at[p]); var bumped := Bumped(t.order, old(t.at), [loc], 0);
      t.at == bumped[p := loc] &&
      valid == Report(mover, mover.None? || Undisturbed(t.order, old(t.at), bumped, p, mover.value))
  {
    var loc := t.at[p];
    var ok := true;
    var saved: map<Label, Loc> := map[];
    if mover.Some? {
      saved := Snapshot(t, p, mover.value);
    }
    Bump(t, [loc]);
    if mover.Some? {
      ok := Unchanged(t, saved);
      assert ok == Undisturbed(t.order, old(t.at), t.at, p, mover.value);
    }
    t.at := t.at[p := loc];
    valid := Report(mover, ok);
  }
}
