// The invading formation: six rows of eight aliens that all step together.
// Each move tick either slides the whole formation ten pixels sideways or,
// once an active alien has reached the edge it is heading for, drops it one
// row and turns it round.  Inactive (shot) aliens keep their slot and never move.
module AlienGrids {
  import opened GameConstants
  import opened GameObjects
  import opened Aliens

  /** The distance from either side of the canvas at which the formation turns. */
  const EDGE_MARGIN: real := 20.0
  /** The sideways step of one tick. */
  const MOVE_SPEED: real := ALIEN_BASE_SPEED * 10.0
  const INITIAL_MOVE_INTERVAL: real := 1000.0

  predicate InGrid(r: int, c: int) {
    0 <= r < ALIEN_ROWS && 0 <= c < ALIEN_COLUMNS
  }

  /** The slot's place in row-major order. */
  function Slot(r: int, c: int): int {
    r * ALIEN_COLUMNS + c
  }

  /** An active alien at the edge it is heading for. */
  predicate AtEdge(o: GameObject, direction: int)
    reads o
  {
    o.active &&
    ((direction == 1 && o.x + o.width >= CANVAS_WIDTH - EDGE_MARGIN) ||
     (direction == -1 && o.x <= EDGE_MARGIN))
  }

  /** The displacement a move tick gives every active alien: down one row at
      the edge, otherwise one step right (direction 1) or left (anything else). */
  function Displacement(edge: bool, direction: int): (d: (real, real))
    ensures edge ==> d == (0.0, ALIEN_SPACING_Y)
    ensures !edge ==> d.1 == 0.0 && (d.0 == MOVE_SPEED || d.0 == -MOVE_SPEED)
    ensures !edge ==> (d.0 > 0.0 <==> direction == 1)
  {
    if edge then (0.0, ALIEN_SPACING_Y)
    else if direction == 1 then (MOVE_SPEED, 0.0) else (-MOVE_SPEED, 0.0)
  }

  /** A tick moves the formation down or sideways, never both. */
  lemma {:induction false} DownOrSideways(edge: bool, direction: int)
    ensures Displacement(edge, direction).0 == 0.0 || Displacement(edge, direction).1 == 0.0
    ensures Displacement(edge, direction) != (0.0, 0.0)
  {
  }

  /** The rows one after another. */
  function Flatten(rows: seq<seq<Alien>>): seq<Alien> {
    if rows == [] then [] else Flatten(rows[..|rows| - 1]) + rows[|rows| - 1]
  }

  /** Flattening rows of equal length `n` gives `n` slots per row. */
  lemma {:induction false} FlattenLength(rows: seq<seq<Alien>>, n: nat)
    requires forall r :: 0 <= r < |rows| ==> |rows[r]| == n
    ensures |Flatten(rows)| == |rows| * n
  {
    if rows != [] {
      FlattenLength(rows[..|rows| - 1], n);
      RowsLength(|rows| - 1, n);
    }
  }

  /** Flattening rows of equal length `n` puts slot (r, c) at position r * n + c. */
  lemma {:induction false} FlattenIndex(rows: seq<seq<Alien>>, n: nat, r: int, c: int)
    requires forall r :: 0 <= r < |rows| ==> |rows[r]| == n
    requires 0 <= r < |rows| && 0 <= c < n
    ensures 0 <= r * n + c < |Flatten(rows)| && Flatten(rows)[r * n + c] == rows[r][c]
  {
    var init := rows[..|rows| - 1];
    var last := rows[|rows| - 1];
    var f := Flatten(init);
    assert Flatten(rows) == f + last;
    FlattenLength(init, n);
    RowsLength(|init|, n);
    if r < |init| {
      FlattenIndex(init, n, r, c);
      assert rows[r] == init[r];
    } else {
      assert (f + last)[|init| * n + c] == last[c];
    }
  }

  /** One more row of `n` slots adds `n` to the length. */
  lemma {:induction false} RowsLength(m: int, n: int)
    ensures (m + 1) * n == m * n + n
  {
  }

  /** The number of active aliens in the list. */
  function CountActive(s: seq<Alien>): (n: nat)
    reads set a | a in s :: a.obj
    ensures n <= |s|
  {
    if s == [] then 0 else CountActive(s[..|s| - 1]) + (if s[|s| - 1].obj.active then 1 else 0)
  }

  /** The count is zero exactly when no alien of the list is active. */
  lemma {:induction false} CountActiveZero(s: seq<Alien>)
    ensures CountActive(s) == 0 <==> forall k :: 0 <= k < |s| ==> !s[k].obj.active
  {
    if s != [] {
      var init := s[..|s| - 1];
      CountActiveZero(init);
      assert forall k :: 0 <= k < |init| ==> init[k] == s[k];
    }
  }

  class AlienGrid {
    var aliens: seq<seq<Alien>>
    var movementDirection: int
    var lastMoveTime: int
    var moveInterval: real
    var edgeReached: bool
    /** The aliens' state records. */
    ghost var Repr: set<object>
    /** The slot each state record sits in. */
    ghost var owner: map<GameObject, (int, int)>

    /** A full 6x8 formation whose slots hold distinct aliens. */
    ghost predicate Valid()
      reads this
    {
      this !in Repr && |aliens| == ALIEN_ROWS &&
      (forall r :: 0 <= r < |aliens| ==> |aliens[r]| == ALIEN_COLUMNS) &&
      (forall r, c :: InGrid(r, c) ==>
        aliens[r][c].obj in Repr && aliens[r][c].obj in owner && owner[aliens[r][c].obj] == (r, c) &&
        aliens[r][c].obj.width == ALIEN_WIDTH)
    }

    /** Every slot holds a new, active alien at its starting place for (row, column). */
    ghost predicate StartingLayout()
      requires Valid()
      reads this, Repr
    {
      forall r, c :: InGrid(r, c) ==>
        aliens[r][c].row == r && aliens[r][c].column == c && aliens[r][c].obj.active &&
        aliens[r][c].obj.x == ALIEN_START_X + (c as real) * ALIEN_SPACING_X &&
        aliens[r][c].obj.y == ALIEN_START_Y + (r as real) * ALIEN_SPACING_Y
    }

    /** Position and active flag of every alien. */
    ghost function Snapshot(): map<GameObject, (real, real, bool)>
      reads this, Repr
    {
      map o: GameObject | o in Repr :: (o.x, o.y, o.active)
    }

    /** Against the snapshot, the first `k` slots (row-major) have moved by
        (dx, dy) if they were active, and every other slot is as it was. */
    ghost predicate Progress(snap: map<GameObject, (real, real, bool)>, k: int, dx: real, dy: real)
      requires Valid()
      reads this, Repr
    {
      forall r, c :: InGrid(r, c) ==>
        aliens[r][c].obj in snap &&
        aliens[r][c].obj.active == snap[aliens[r][c].obj].2 &&
        aliens[r][c].obj.x == snap[aliens[r][c].obj].0 + (if Slot(r, c) < k && snap[aliens[r][c].obj].2 then dx else 0.0) &&
        aliens[r][c].obj.y == snap[aliens[r][c].obj].1 + (if Slot(r, c) < k && snap[aliens[r][c].obj].2 then dy else 0.0)
    }

    /** Some active alien is at the edge the formation is heading for. */
    ghost predicate EdgeReached()
      requires Valid()
      reads this, Repr
    {
      exists r, c :: InGrid(r, c) && AtEdge(aliens[r][c].obj, movementDirection)
    }

    constructor ()
      ensures Valid() && fresh(Repr) && StartingLayout()
      ensures movementDirection == 1 && lastMoveTime == 0 && moveInterval == INITIAL_MOVE_INTERVAL && !edgeReached
    {
      movementDirection := 1;
      lastMoveTime := 0;
      moveInterval := INITIAL_MOVE_INTERVAL;
      edgeReached := false;
      new;
      InitializeGrid();
    }

    /** A new formation of 48 aliens in their starting slots. */
    method InitializeGrid()
      modifies this`aliens, this`Repr, this`owner
      ensures Valid() && fresh(Repr) && StartingLayout()
    {
      var grid: seq<seq<Alien>> := [];
      ghost var objs: set<object> := {};
      ghost var owns: map<GameObject, (int, int)> := map[];
      var row := 0;
      while row < ALIEN_ROWS
        invariant 0 <= row <= ALIEN_ROWS && |grid| == row && fresh(objs)
        invariant forall r :: 0 <= r < row ==> |grid[r]| == ALIEN_COLUMNS
        invariant forall r, c :: 0 <= r < row && 0 <= c < ALIEN_COLUMNS ==> Placed(grid[r][c], r, c, objs, owns)
      {
        var line: seq<Alien>;
        line, objs, owns := BuildRow(row, objs, owns);
        grid := grid + [line];
        row := row + 1;
      }
      aliens := grid;
      Repr := objs;
      owner := owns;
    }

    /** Row `row` of the starting formation, left to right. */
    method BuildRow(row: int, ghost objs0: set<object>, ghost owns0: map<GameObject, (int, int)>)
      returns (line: seq<Alien>, ghost objs: set<object>, ghost owns: map<GameObject, (int, int)>)
      requires 0 <= row < ALIEN_ROWS
      ensures |line| == ALIEN_COLUMNS && objs >= objs0 && fresh(objs - objs0)
      ensures forall c :: 0 <= c < ALIEN_COLUMNS ==> Placed(line[c], row, c, objs, owns)
      ensures forall o :: o in owns0 ==> o in owns && owns[o] == owns0[o]
    {
      line := [];
      objs, owns := objs0, owns0;
      var col := 0;
      while col < ALIEN_COLUMNS
        invariant 0 <= col <= ALIEN_COLUMNS && |line| == col && objs >= objs0 && fresh(objs - objs0)
        invariant forall c :: 0 <= c < col ==> Placed(line[c], row, c, objs, owns)
        invariant forall o :: o in owns0 ==> o in owns && owns[o] == owns0[o]
      {
        var x := ALIEN_START_X + (col as real) * ALIEN_SPACING_X;
        var y := ALIEN_START_Y + (row as real) * ALIEN_SPACING_Y;
        var alien := new Alien(x, y, row, col);
        line := line + [alien];
        objs := objs + {alien.obj};
        owns := owns[alien.obj := (row, col)];
        col := col + 1;
      }
    }

    /** One frame: the formation moves only once the move interval has passed
        since the last move, and then the time of this move is recorded. */
    method Update(deltaTime: real, now: int)
      requires Valid()
      modifies this`movementDirection, this`lastMoveTime, this`edgeReached, Repr
      ensures Valid() && Repr == old(Repr) && aliens == old(aliens)
      ensures ((now - old(lastMoveTime)) as real >= old(moveInterval)) ==>
        edgeReached == old(EdgeReached()) && lastMoveTime == now &&
        movementDirection == (if edgeReached then -old(movementDirection) else old(movementDirection)) &&
        Progress(old(Snapshot()), ALIEN_ROWS * ALIEN_COLUMNS,
                 Displacement(edgeReached, old(movementDirection)).0, Displacement(edgeReached, old(movementDirection)).1)
      ensures ((now - old(lastMoveTime)) as real < old(moveInterval)) ==>
        edgeReached == old(edgeReached) && lastMoveTime == old(lastMoveTime) &&
        movementDirection == old(movementDirection) && Progress(old(Snapshot()), 0, 0.0, 0.0)
    {
      if (now - lastMoveTime) as real >= moveInterval {
        MoveAliens();
        lastMoveTime := now;
      } else {
        StartProgress(Snapshot(), 0.0, 0.0);
      }
    }

    /** Down and turn round at the edge, otherwise one step sideways. */
    method MoveAliens()
      requires Valid()
      modifies this`movementDirection, this`edgeReached, Repr
      ensures Valid() && Repr == old(Repr) && aliens == old(aliens)
      ensures edgeReached == old(EdgeReached())
      ensures movementDirection == (if edgeReached then -old(movementDirection) else old(movementDirection))
      ensures Progress(old(Snapshot()), ALIEN_ROWS * ALIEN_COLUMNS,
                       Displacement(edgeReached, old(movementDirection)).0, Displacement(edgeReached, old(movementDirection)).1)
    {
      edgeReached := CheckEdgeCollision();
      if edgeReached {
        MoveAllAliensDown();
        movementDirection := movementDirection * -1;
      } else {
        MoveAllAliensHorizontally();
      }
    }

    /** Looks for an active alien at the edge ahead, row by row. */
    method CheckEdgeCollision() returns (edge: bool)
      requires Valid()
      ensures edge == EdgeReached()
    {
      var row := 0;
      while row < |aliens|
        invariant 0 <= row <= |aliens|
        invariant forall r, c :: 0 <= r < row && 0 <= c < ALIEN_COLUMNS ==> !AtEdge(aliens[r][c].obj, movementDirection)
      {
        var col := 0;
        while col < |aliens[row]|
          invariant 0 <= col <= |aliens[row]|
          invariant forall c :: 0 <= c < col ==> !AtEdge(aliens[row][c].obj, movementDirection)
        {
          var alien := aliens[row][col];
          if alien.obj.active {
            if movementDirection == 1 && alien.obj.x + alien.obj.width >= CANVAS_WIDTH - EDGE_MARGIN {
              return true;
            }
            if movementDirection == -1 && alien.obj.x <= EDGE_MARGIN {
              return true;
            }
          }
          col := col + 1;
        }
        row := row + 1;
      }
      return false;
    }

    /** Every active alien one step in the current direction. */
    method MoveAllAliensHorizontally()
      requires Valid()
      modifies Repr
      ensures Valid()
      ensures Progress(old(Snapshot()), ALIEN_ROWS * ALIEN_COLUMNS, Displacement(false, movementDirection).0, 0.0)
    {
      ghost var snap := Snapshot();
      var dx := Displacement(false, movementDirection).0;
      StartProgress(snap, dx, 0.0);
      var row := 0;
      while row < |aliens|
        invariant 0 <= row <= |aliens| && Valid()
        invariant Progress(snap, Slot(row, 0), dx, 0.0)
      {
        var col := 0;
        while col < |aliens[row]|
          invariant 0 <= row < |aliens| && 0 <= col <= |aliens[row]| && Valid()
          invariant Progress(snap, Slot(row, col), dx, 0.0)
        {
          SideStepAt(row, col, snap);
          col := col + 1;
        }
        row := row + 1;
      }
    }

    /** Every active alien down one row spacing. */
    method MoveAllAliensDown()
      requires Valid()
      modifies Repr
      ensures Valid()
      ensures Progress(old(Snapshot()), ALIEN_ROWS * ALIEN_COLUMNS, 0.0, ALIEN_SPACING_Y)
    {
      ghost var snap := Snapshot();
      StartProgress(snap, 0.0, ALIEN_SPACING_Y);
      var row := 0;
      while row < |aliens|
        invariant 0 <= row <= |aliens| && Valid()
        invariant Progress(snap, Slot(row, 0), 0.0, ALIEN_SPACING_Y)
      {
        var col := 0;
        while col < |aliens[row]|
          invariant 0 <= row < |aliens| && 0 <= col <= |aliens[row]| && Valid()
          invariant Progress(snap, Slot(row, col), 0.0, ALIEN_SPACING_Y)
        {
          DownAt(row, col, snap);
          col := col + 1;
        }
        row := row + 1;
      }
    }

    /** Nothing has moved yet. */
    lemma StartProgress(snap: map<GameObject, (real, real, bool)>, dx: real, dy: real)
      requires Valid() && snap == Snapshot()
      ensures Progress(snap, 0, dx, dy)
    {
      forall r, c | InGrid(r, c) ensures aliens[r][c].obj in snap {
        assert aliens[r][c].obj in Repr;
      }
    }

    /** Moves the alien in slot (row, col) one step sideways, if it is active. */
    method SideStepAt(row: int, col: int, ghost snap: map<GameObject, (real, real, bool)>)
      requires Valid() && InGrid(row, col)
      requires Progress(snap, Slot(row, col), Displacement(false, movementDirection).0, 0.0)
      modifies aliens[row][col].obj`x
      ensures Progress(snap, Slot(row, col) + 1, Displacement(false, movementDirection).0, 0.0)
    {
      var alien := aliens[row][col];
      SideStep(alien);
      forall r, c | InGrid(r, c) && (r, c) != (row, col)
        ensures aliens[r][c].obj != alien.obj
      {
        assert owner[aliens[r][c].obj] == (r, c);
      }
      assert Slot(row, col) + 1 == Slot(row, col + 1);
    }

    /** Moves one alien a step in the current direction, if it is active. */
    method SideStep(alien: Alien)
      modifies alien.obj`x
      ensures alien.obj.x == old(alien.obj.x) + (if alien.obj.active then Displacement(false, movementDirection).0 else 0.0)
    {
      if alien.obj.active {
        if movementDirection == 1 {
          alien.MoveRight(MOVE_SPEED);
        } else {
          alien.MoveLeft(MOVE_SPEED);
        }
      }
    }

    /** Moves the alien in slot (row, col) down one row spacing, if it is active. */
    method DownAt(row: int, col: int, ghost snap: map<GameObject, (real, real, bool)>)
      requires Valid() && InGrid(row, col)
      requires Progress(snap, Slot(row, col), 0.0, ALIEN_SPACING_Y)
      modifies aliens[row][col].obj`y
      ensures Progress(snap, Slot(row, col) + 1, 0.0, ALIEN_SPACING_Y)
    {
      var alien := aliens[row][col];
      if alien.obj.active {
        alien.MoveDown(ALIEN_SPACING_Y);
      }
      forall r, c | InGrid(r, c) && (r, c) != (row, col)
        ensures aliens[r][c].obj != alien.obj
      {
        assert owner[aliens[r][c].obj] == (r, c);
      }
    }

    /** All 48 aliens, row after row, inactive ones included. */
    method GetAliens() returns (all: seq<Alien>)
      ensures all == Flatten(aliens)
    {
      all := [];
      var row := 0;
      while row < |aliens|
        invariant 0 <= row <= |aliens|
        invariant all == Flatten(aliens[..row])
      {
        assert aliens[..row + 1][..row] == aliens[..row];
        all := all + aliens[row];
        row := row + 1;
      }
      assert aliens[..row] == aliens;
    }

    /** A new starting formation heading right, with the movement clock and
        interval back at their initial values. */
    method Reset()
      modifies this
      ensures Valid() && fresh(Repr) && StartingLayout()
      ensures movementDirection == 1 && lastMoveTime == 0 && moveInterval == INITIAL_MOVE_INTERVAL && !edgeReached
    {
      InitializeGrid();
      movementDirection := 1;
      lastMoveTime := 0;
      moveInterval := INITIAL_MOVE_INTERVAL;
      edgeReached := false;
    }

    /** The number of aliens still active; none is exactly when the
        formation is cleared. */
    method GetActiveAlienCount() returns (count: nat)
      ensures count == CountActive(Flatten(aliens))
      ensures Valid() ==> (count == 0 <==> Cleared())
    {
      var all := GetAliens();
      count := CountActive(all);
      if Valid() {
        ClearedCount();
      }
    }

    /** No alien of the formation is active. */
    ghost predicate Cleared()
      requires Valid()
      reads this, Repr
    {
      forall r, c :: InGrid(r, c) ==> !aliens[r][c].obj.active
    }

    /** The count of active aliens is zero exactly when the formation is cleared. */
    lemma {:induction false} ClearedCount()
      requires Valid()
      ensures CountActive(Flatten(aliens)) == 0 <==> Cleared()
    {
      var flat := Flatten(aliens);
      CountActiveZero(flat);
      FlattenLength(aliens, ALIEN_COLUMNS);
      forall r, c | InGrid(r, c) ensures Slot(r, c) < |flat| && flat[Slot(r, c)] == aliens[r][c] {
        FlattenIndex(aliens, ALIEN_COLUMNS, r, c);
      }
      if Cleared() {
        forall k | 0 <= k < |flat| ensures !flat[k].obj.active {
          var r := k / ALIEN_COLUMNS;
          var c := k % ALIEN_COLUMNS;
          assert Slot(r, c) == k && InGrid(r, c);
        }
      }
    }

    /** Every alien of the flattened formation has its record in the footprint. */
    lemma {:induction false} FlatInRepr()
      requires Valid()
      ensures forall k :: 0 <= k < |Flatten(aliens)| ==> Flatten(aliens)[k].obj in Repr
    {
      var flat := Flatten(aliens);
      FlattenLength(aliens, ALIEN_COLUMNS);
      forall k | 0 <= k < |flat| ensures flat[k].obj in Repr {
        var r := k / ALIEN_COLUMNS;
        var c := k % ALIEN_COLUMNS;
        FlattenIndex(aliens, ALIEN_COLUMNS, r, c);
        assert Slot(r, c) == k && InGrid(r, c);
      }
    }

    method SetMovementDirection(direction: int)
      modifies this`movementDirection
      ensures movementDirection == direction
    {
      movementDirection := direction;
    }

    function GetMovementDirection(): int
      reads this
    {
      movementDirection
    }

    method SetMoveInterval(interval: real)
      modifies this`moveInterval
      ensures moveInterval == interval
    {
      moveInterval := interval;
    }

    function GetMoveInterval(): real
      reads this
    {
      moveInterval
    }
  }

  /** Alien `a` is the new alien for slot (r, c), recorded in the footprint and owner map. */
  ghost predicate Placed(a: Alien, r: int, c: int, objs: set<object>, owns: map<GameObject, (int, int)>)
    reads a.obj
  {
    a.obj in objs && a.obj in owns && owns[a.obj] == (r, c) &&
    a.row == r && a.column == c && a.obj.active && a.obj.width == ALIEN_WIDTH &&
    a.obj.x == ALIEN_START_X + (c as real) * ALIEN_SPACING_X &&
    a.obj.y == ALIEN_START_Y + (r as real) * ALIEN_SPACING_Y
  }
}
