// The pool of aliens: 48 pre-warmed aliens, at most 55 in use, laid out as a
// grid by createAlienGrid and recycled by removeAlien and clear.
module AlienPools {
  import opened GameTypes
  import opened GameConstants
  import opened GameObjects
  import opened SeqUtil
  import opened ObjectPools
  import opened Aliens

  function Min(a: int, b: int): int
  {
    if a <= b then a else b
  }

  /** How many cells `rows` by `columns` loops visit (none when a bound is not positive). */
  function GridSize(rows: int, columns: int): nat
  {
    if rows <= 0 || columns <= 0 then 0 else rows * columns
  }

  /** The positions of the cells of grid row `row`, left to right. */
  function RowSlots(row: int, columns: int, startX: real, startY: real): (r: seq<(real, real)>)
    decreases columns
    ensures |r| == if columns <= 0 then 0 else columns
  {
    if columns <= 0 then []
    else RowSlots(row, columns - 1, startX, startY) +
         [(startX + (columns - 1) as real * ALIEN_SPACING_X, startY + row as real * ALIEN_SPACING_Y)]
  }

  /** The positions of every cell of the grid, row by row. */
  function GridSlots(rows: int, columns: int, startX: real, startY: real): (r: seq<(real, real)>)
    decreases rows
    ensures |r| == GridSize(rows, columns)
  {
    if rows <= 0 || columns <= 0 then []
    else
      assert (rows - 1) * columns + columns == rows * columns;
      GridSlots(rows - 1, columns, startX, startY) + RowSlots(rows - 1, columns, startX, startY)
  }

  lemma {:induction false} RowSlotAt(row: int, columns: int, startX: real, startY: real, col: int)
    requires 0 <= col < columns
    ensures RowSlots(row, columns, startX, startY)[col] ==
      (startX + col as real * ALIEN_SPACING_X, startY + row as real * ALIEN_SPACING_Y)
  {
    if col < columns - 1 {
      RowSlotAt(row, columns - 1, startX, startY, col);
    }
  }

  /** Cell (row, col) is entry row * columns + col of the row-major order and
      sits 40 units per column right of and 30 units per row below the start. */
  lemma {:induction false} GridSlotAt(rows: int, columns: int, startX: real, startY: real, row: int, col: int)
    requires 0 <= row < rows && 0 <= col < columns
    ensures 0 <= row * columns + col < GridSize(rows, columns)
    ensures GridSlots(rows, columns, startX, startY)[row * columns + col] ==
      (startX + col as real * ALIEN_SPACING_X, startY + row as real * ALIEN_SPACING_Y)
  {
    var upper := GridSlots(rows - 1, columns, startX, startY);
    var lower := RowSlots(rows - 1, columns, startX, startY);
    assert GridSlots(rows, columns, startX, startY) == upper + lower;
    if row == rows - 1 {
      RowSlotAt(row, columns, startX, startY, col);
      assert |upper| == row * columns;
      assert (upper + lower)[|upper| + col] == lower[col];
    } else {
      GridSlotAt(rows - 1, columns, startX, startY, row, col);
      assert (upper + lower)[row * columns + col] == upper[row * columns + col];
    }
  }

  /** The cell after the first `row` rows and `col` columns, indexed the way
      the loops of CreateAlienGrid count cells. */
  lemma {:induction false} CellAt(rows: int, columns: int, startX: real, startY: real, row: int, col: int)
    requires 0 <= row < rows && 0 <= col < columns
    ensures GridSize(row, columns) + col < |GridSlots(rows, columns, startX, startY)|
    ensures GridSlots(rows, columns, startX, startY)[GridSize(row, columns) + col] ==
      (startX + col as real * ALIEN_SPACING_X, startY + row as real * ALIEN_SPACING_Y)
  {
    GridSlotAt(rows, columns, startX, startY, row, col);
    assert GridSize(row, columns) == row * columns;
  }

  lemma {:induction false} GridSizeStep(row: int, columns: int)
    requires 0 <= row
    ensures GridSize(row + 1, columns) == GridSize(row, columns) + (if columns > 0 then columns else 0)
  {
    if columns > 0 {
      assert row * columns + columns == (row + 1) * columns;
    }
  }

  /** What resetObject leaves: at the origin, facing right, inactive. */
  ghost predicate IsReset(a: Alien)
    reads a, a.obj
  {
    !a.obj.active && a.obj.x == 0.0 && a.obj.y == 0.0 && a.direction == 1
  }

  /** The lists CreateAlienGrid keeps after visiting `done` cells, starting
      from free list `p0` and in-use list `a0` with room for `cap` more: the
      aliens acquired so far, taken from the end of the free list first. */
  predicate GridLists(aliens: seq<Alien>, done: int, p0: seq<Alien>, a0: seq<Alien>, cap: int,
                      active: seq<Alien>, pool: seq<Alien>)
  {
    0 <= done && |p0| <= cap && |aliens| == Min(done, cap) &&
    active == a0 + aliens && pool == p0[..|p0| - Min(|aliens|, |p0|)] &&
    (forall k :: 0 <= k < Min(|aliens|, |p0|) ==> aliens[k] == p0[|p0| - 1 - k])
  }

  /** Each acquired alien stands on its cell. */
  ghost predicate OnCells(aliens: seq<Alien>, slots: seq<(real, real)>)
    reads set b | b in aliens :: b.obj
  {
    |aliens| <= |slots| && forall k :: 0 <= k < |aliens| ==> (aliens[k].obj.x, aliens[k].obj.y) == slots[k]
  }

  /** The aliens past the first `recycled` are active and face right. */
  ghost predicate NewAliensReady(aliens: seq<Alien>, recycled: nat)
    reads set b | b in aliens, set b | b in aliens :: b.obj
  {
    forall k :: recycled <= k < |aliens| ==> aliens[k].obj.active && aliens[k].direction == 1
  }

  /** The outcome of one acquire on a pool of at most 55 aliens that moved
      from free list `pool` and in-use list `active` to `pool'` and `active'`. */
  predicate Acquired(pool: seq<Alien>, active: seq<Alien>, pool': seq<Alien>, active': seq<Alien>, alien: Option<Alien>)
  {
    (|pool| > 0 ==> alien == Some(pool[|pool| - 1]) && pool' == pool[..|pool| - 1]) &&
    (|pool| == 0 && |active| < MAX_ALIENS ==> alien.Some? && pool' == []) &&
    (|pool| == 0 && |active| >= MAX_ALIENS ==> alien.None? && pool' == pool) &&
    (alien.Some? ==> active' == active + [alien.value] && alien.value !in active) &&
    (alien.None? ==> active' == active)
  }

  /** One acquire, as ObjectPool.Acquire describes it, moves the grid's lists
      on by one cell: it succeeds exactly while there is room. */
  lemma {:induction false} GridListsStep(aliens: seq<Alien>, aliens': seq<Alien>, done: int, p0: seq<Alien>, a0: seq<Alien>, cap: int,
                      active: seq<Alien>, pool: seq<Alien>, active': seq<Alien>, pool': seq<Alien>, alien: Option<Alien>)
    requires GridLists(aliens, done, p0, a0, cap, active, pool)
    requires cap == MAX_ALIENS - |a0| && |pool| + |active| <= MAX_ALIENS
    requires Acquired(pool, active, pool', active', alien)
    requires aliens' == if alien.Some? then aliens + [alien.value] else aliens
    ensures GridLists(aliens', done + 1, p0, a0, cap, active', pool')
    ensures aliens'[..|aliens|] == aliens && |aliens| <= |aliens'| <= |aliens| + 1
    ensures forall b :: b in pool' ==> b in pool
    ensures alien.Some? ==> |aliens| == done < cap
    ensures alien.Some? && |aliens| < |p0| ==> pool == pool' + [alien.value] && |pool| == |p0| - |aliens|
    ensures alien.Some? && |aliens| >= |p0| ==> pool == [] && pool' == []
  {
    var n := |aliens|;
    if alien.Some? {
      assert n < cap;
      assert (aliens + [alien.value])[..n] == aliens;
      if n < |p0| {
        assert |pool| == |p0| - n > 0;
        assert pool[|pool| - 1] == p0[|p0| - 1 - n];
        assert pool' == p0[..|p0| - (n + 1)];
        assert pool == pool' + [alien.value];
      } else {
        assert pool == [] && pool' == [];
      }
      assert forall k :: 0 <= k < n ==> aliens'[k] == aliens[k];
    } else {
      assert n == cap && pool == [] && pool' == [];
    }
  }

  class AlienPool {
    const base: ObjectPool<Alien>
    /** The alien each state record belongs to. */
    ghost var owner: map<GameObject, Alien>

    ghost predicate Valid()
      reads this, base
    {
      base.Valid() &&
      base.maxSize == MAX_ALIENS as int && base.initialSize == ALIEN_ROWS * ALIEN_COLUMNS &&
      (forall b :: b in base.pool ==> b.obj in owner && owner[b.obj] == b) &&
      (forall b :: b in base.active ==> b.obj in owner && owner[b.obj] == b)
    }

    /** Pre-warms 48 aliens (six rows of eight), each a new alien at the origin. */
    constructor ()
      ensures Valid()
      ensures base.active == [] && |base.pool| == ALIEN_ROWS * ALIEN_COLUMNS
      ensures forall b :: b in base.pool ==>
        fresh(b) && fresh(b.obj) && b.obj.x == 0.0 && b.obj.y == 0.0 && b.obj.active && b.direction == 1
    {
      var created: seq<Alien> := [];
      ghost var owns: map<GameObject, Alien> := map[];
      while |created| < ALIEN_ROWS * ALIEN_COLUMNS
        invariant |created| <= ALIEN_ROWS * ALIEN_COLUMNS && NoDup(created)
        invariant forall b :: b in created ==>
          fresh(b) && fresh(b.obj) && b.obj in owns && owns[b.obj] == b &&
          b.obj.x == 0.0 && b.obj.y == 0.0 && b.obj.active && b.direction == 1
      {
        var a := new Alien(0.0, 0.0, 0, 0);
        created := created + [a];
        owns := owns[a.obj := a];
      }
      base := new ObjectPool(created, MAX_ALIENS as int);
      owner := owns;
      assert created + [] == created;
    }

    /** Two different aliens of the pool have different state records. */
    lemma {:induction false} Distinct(a: Alien, b: Alien)
      requires Valid() && a in base.pool + base.active && b in base.pool + base.active && a != b
      ensures a.obj != b.obj
    {
    }

    /** acquire with createObject: the most recently freed alien, else a new
        alien at the origin while fewer than 55 are in use, else none.  No
        alien's state changes. */
    method Acquire() returns (alien: Option<Alien>)
      requires Valid()
      modifies this, base
      ensures Valid()
      ensures Acquired(old(base.pool), old(base.active), base.pool, base.active, alien)
      ensures |old(base.pool)| == 0 && alien.Some? ==>
        fresh(alien.value) && fresh(alien.value.obj) &&
        alien.value.obj.x == 0.0 && alien.value.obj.y == 0.0 && alien.value.obj.active && alien.value.direction == 1
    {
      var candidate := new Alien(0.0, 0.0, 0, 0);
      owner := owner[candidate.obj := candidate];
      NoDupSplit(base.pool, base.active);
      alien := base.Acquire(candidate);
    }

    /** Fills a `rows` by `columns` grid in row-major order, placing cell
        (row, col) at (startX + 40 col, startY + 30 row), for as long as the
        pool can hand out aliens: the result is short only once 55 are in
        use.  Only positions change: recycled aliens keep their liveness and
        direction, new ones are active and face right, and aliens already in
        use or left free are not touched. */
    method CreateAlienGrid(rows: int, columns: int, startX: real, startY: real) returns (aliens: seq<Alien>)
      requires Valid()
      modifies this, base, (set b | b in base.pool :: b.obj)`x, (set b | b in base.pool :: b.obj)`y
      ensures Valid()
      ensures |aliens| == Min(GridSize(rows, columns), MAX_ALIENS - |old(base.active)|)
      ensures base.active == old(base.active) + aliens
      ensures forall k :: 0 <= k < |aliens| ==>
        (aliens[k].obj.x, aliens[k].obj.y) == GridSlots(rows, columns, startX, startY)[k]
      ensures base.pool == old(base.pool)[..|old(base.pool)| - Min(|aliens|, |old(base.pool)|)]
      ensures forall k :: 0 <= k < Min(|aliens|, |old(base.pool)|) ==>
        aliens[k] == old(base.pool)[|old(base.pool)| - 1 - k] &&
        aliens[k].obj.active == old(aliens[k].obj.active) && aliens[k].direction == old(aliens[k].direction)
      ensures forall k :: |old(base.pool)| <= k < |aliens| ==>
        aliens[k].obj.active && aliens[k].direction == 1
    {
      ghost var p0 := base.pool;
      ghost var a0 := base.active;
      ghost var slots := GridSlots(rows, columns, startX, startY);
      ghost var cap := MAX_ALIENS - |a0|;
      assert p0[..|p0| - 0] == p0;
      ghost var objs := set b | b in p0 :: b.obj;
      aliens := FillRows(rows, columns, startX, startY, p0, a0, slots, cap, objs);
      assert forall k :: 0 <= k < Min(|aliens|, |p0|) ==> aliens[k] == p0[|p0| - 1 - k];
    }

    /** CreateAlienGrid's state after visiting `done` cells. */
    ghost predicate Filling(aliens: seq<Alien>, done: int, p0: seq<Alien>, a0: seq<Alien>, cap: int,
                            slots: seq<(real, real)>, objs: set<GameObject>)
      reads this, base, set b | b in aliens, set b | b in aliens :: b.obj
    {
      Valid() && GridLists(aliens, done, p0, a0, cap, base.active, base.pool) &&
      OnCells(aliens, slots) && NewAliensReady(aliens, |p0|) &&
      (forall b :: b in base.pool ==> b.obj in objs)
    }

    /** The outer loop of CreateAlienGrid: one PlaceRow per row, top to bottom. */
    method FillRows(rows: int, columns: int, startX: real, startY: real,
                    ghost p0: seq<Alien>, ghost a0: seq<Alien>, ghost slots: seq<(real, real)>, ghost cap: int,
                    ghost objs: set<GameObject>)
      returns (aliens: seq<Alien>)
      requires slots == GridSlots(rows, columns, startX, startY) && cap == MAX_ALIENS - |a0|
      requires Valid() && GridLists([], 0, p0, a0, cap, base.active, base.pool)
      requires forall b :: b in base.pool ==> b.obj in objs
      modifies this, base, objs`x, objs`y
      ensures Filling(aliens, GridSize(rows, columns), p0, a0, cap, slots, objs)
    {
      aliens := [];
      var row := 0;
      while row < rows
        invariant 0 <= row && (rows >= 0 ==> row <= rows)
        invariant Filling(aliens, GridSize(row, columns), p0, a0, cap, slots, objs)
      {
        aliens := PlaceRow(row, rows, columns, startX, startY, aliens, p0, a0, slots, cap, objs);
        row := row + 1;
      }
      assert rows > 0 ==> row == rows;
    }

    /** Row `row` of CreateAlienGrid: one PlaceCell per column, left to right. */
    method PlaceRow(row: int, rows: int, columns: int, startX: real, startY: real, aliens: seq<Alien>,
                    ghost p0: seq<Alien>, ghost a0: seq<Alien>, ghost slots: seq<(real, real)>, ghost cap: int,
                    ghost objs: set<GameObject>)
      returns (aliens': seq<Alien>)
      requires 0 <= row < rows && slots == GridSlots(rows, columns, startX, startY) && cap == MAX_ALIENS - |a0|
      requires Filling(aliens, GridSize(row, columns), p0, a0, cap, slots, objs)
      modifies this, base, objs`x, objs`y
      ensures Filling(aliens', GridSize(row + 1, columns), p0, a0, cap, slots, objs)
    {
      aliens' := aliens;
      ghost var done := GridSize(row, columns);
      var col := 0;
      while col < columns
        invariant 0 <= col && (col <= columns || col == 0) && done == GridSize(row, columns) + col
        invariant Filling(aliens', done, p0, a0, cap, slots, objs)
      {
        CellAt(rows, columns, startX, startY, row, col);
        aliens' := PlaceCell(startX + col as real * ALIEN_SPACING_X, startY + row as real * ALIEN_SPACING_Y,
                             aliens', done, p0, a0, slots, cap, objs);
        done := done + 1;
        col := col + 1;
      }
      GridSizeStep(row, columns);
    }

    /** One cell of CreateAlienGrid: acquires an alien and, if there is one,
        places it at (x, y) and appends it to the result. */
    method PlaceCell(x: real, y: real, aliens: seq<Alien>, ghost done: int, ghost p0: seq<Alien>,
                     ghost a0: seq<Alien>, ghost slots: seq<(real, real)>, ghost cap: int,
                     ghost objs: set<GameObject>)
      returns (aliens': seq<Alien>)
      requires Filling(aliens, done, p0, a0, cap, slots, objs)
      requires done < |slots| && slots[done] == (x, y) && cap == MAX_ALIENS - |a0|
      modifies this, base, objs`x, objs`y
      ensures Filling(aliens', done + 1, p0, a0, cap, slots, objs)
    {
      ghost var pool := base.pool;
      ghost var active := base.active;
      var alien := Acquire();
      aliens' := if alien.Some? then aliens + [alien.value] else aliens;
      GridListsStep(aliens, aliens', done, p0, a0, cap, active, pool, base.active, base.pool, alien);
      if alien.Some? {
        PlaceAcquired(alien.value, x, y, aliens, active, a0, p0, slots);
      }
    }

    /** The second half of PlaceCell: alien `a` was just appended to the
        in-use list, after `aliens`; it moves to cell (x, y). */
    method PlaceAcquired(a: Alien, x: real, y: real, aliens: seq<Alien>, ghost active: seq<Alien>,
                         ghost a0: seq<Alien>, ghost p0: seq<Alien>, ghost slots: seq<(real, real)>)
      requires Valid() && base.active == active + [a] && active == a0 + aliens
      requires OnCells(aliens, slots) && NewAliensReady(aliens, |p0|)
      requires |aliens| < |slots| && slots[|aliens|] == (x, y)
      requires |aliens| >= |p0| ==> a.obj.active && a.direction == 1
      modifies a.obj`x, a.obj`y
      ensures OnCells(aliens + [a], slots) && NewAliensReady(aliens + [a], |p0|)
    {
      Separate(a, active, aliens, a0);
      a.SetPosition(x, y);
      assert (aliens + [a])[|aliens|] == a;
      assert forall k :: 0 <= k < |aliens| ==> (aliens + [a])[k] == aliens[k];
    }

    /** The alien just acquired shares its state record with no other alien
        in use and none still free. */
    lemma {:induction false} Separate(a: Alien, active: seq<Alien>, aliens: seq<Alien>, a0: seq<Alien>)
      requires Valid() && base.active == active + [a] && active == a0 + aliens
      ensures forall b :: (b in active || b in base.pool) ==> b.obj != a.obj
      ensures forall k :: 0 <= k < |aliens| ==> aliens[k].obj != a.obj
    {
      NoDupSplit(base.pool, base.active);
      assert a in base.pool + base.active;
      forall b | b in active || b in base.pool ensures b.obj != a.obj {
        assert b in base.pool + base.active;
        if b in active {
          NoDupSplit(active, [a]);
        }
      }
      forall k | 0 <= k < |aliens| ensures aliens[k].obj != a.obj {
        assert aliens[k] in active;
      }
    }

    /** resetObject: back to the origin, facing right, inactive. */
    method ResetObject(alien: Alien)
      modifies alien`direction, alien.obj`x, alien.obj`y, alien.obj`active
      ensures IsReset(alien)
    {
      alien.SetPosition(0.0, 0.0);
      alien.SetDirection(1);
      alien.Destroy();
    }

    /** removeAlien, which is the inherited release: an in-use alien goes back
        to the free list, reset; any other argument changes nothing. */
    method RemoveAlien(alien: Alien)
      requires Valid()
      modifies base, alien, alien.obj
      ensures Valid()
      ensures alien in old(base.active) ==>
        base.active == RemoveAt(old(base.active), IndexOf(old(base.active), alien)) &&
        base.pool == old(base.pool) + [alien] && IsReset(alien)
      ensures alien !in old(base.active) ==>
        base.active == old(base.active) && base.pool == old(base.pool) && unchanged(alien, alien.obj)
    {
      var found := base.Release(alien);
      if found {
        ResetObject(alien);
      }
    }

    /** A copy of the in-use list, in order. */
    function GetAllAliens(): (r: seq<Alien>)
      reads this, base
      ensures r == base.active
    {
      base.active
    }

    /** The inherited clear: every in-use alien is reset and appended, in
        order, to the free list, which leaves nothing in use. */
    method Clear()
      requires Valid()
      modifies base, set b | b in base.active :: b, set b | b in base.active :: b.obj
      ensures Valid()
      ensures base.active == [] && base.pool == old(base.pool) + old(base.active)
      ensures forall b :: b in old(base.active) ==> IsReset(b)
      ensures forall b :: b in old(base.pool) ==> unchanged(b, b.obj)
    {
      var moved := base.Clear();
      var i := 0;
      while i < |moved|
        invariant 0 <= i <= |moved| && Valid() && base.active == [] && base.pool == old(base.pool) + moved
        invariant forall k :: 0 <= k < i ==> IsReset(moved[k])
        invariant forall b :: b in old(base.pool) ==> unchanged(b, b.obj)
      {
        var a := moved[i];
        assert a in base.pool + base.active;
        NoDupSplit(old(base.pool), moved);
        forall k | 0 <= k < i ensures moved[k] != a && moved[k].obj != a.obj {
          assert moved[k] in base.pool + base.active;
          Distinct(moved[k], a);
        }
        forall b | b in old(base.pool) ensures b != a && b.obj != a.obj {
          assert b in base.pool + base.active;
          Distinct(b, a);
        }
        ResetObject(a);
        i := i + 1;
      }
    }
  }
}
