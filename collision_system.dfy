// Broad-phase collision detection on a uniform grid of 50-pixel cells.
// Every active entity is filed under each cell its edge-inclusive box
// spans; a query looks only at the entities filed under the query's own
// cells and keeps those of another kind whose boxes strictly overlap it.
module Collisions {
  import opened GameTypes
  import opened GameObjects
  import opened SeqUtil

  /** A grid cell (column, row).  The original keys the grid by the text
      "column,row", which is one-to-one on integer pairs. */
  type Cell = (int, int)

  const CELL_SIZE: real := 50.0

  /** The cell index a coordinate falls in (rounding toward minus infinity). */
  function CellIndex(v: real): int {
    (v / CELL_SIZE).Floor
  }

  lemma {:induction false} CellIndexMonotone(u: real, v: real)
    requires u <= v
    ensures CellIndex(u) <= CellIndex(v)
  {
    assert u / CELL_SIZE <= v / CELL_SIZE;
  }

  /** The cell lies in the box's inclusive cell range on both axes. */
  predicate InSpan(r: Rect, c: Cell) {
    CellIndex(r.x) <= c.0 <= CellIndex(r.x + r.width) &&
    CellIndex(r.y) <= c.1 <= CellIndex(r.y + r.height)
  }

  /** Column `cx`, rows `sy` to `ey`, top to bottom. */
  function ColumnCells(cx: int, sy: int, ey: int): seq<Cell>
    decreases ey - sy
  {
    if ey < sy then [] else ColumnCells(cx, sy, ey - 1) + [(cx, ey)]
  }

  /** Columns `sx` to `ex`, each from row `sy` to `ey`, left to right. */
  function BlockCells(sx: int, ex: int, sy: int, ey: int): seq<Cell>
    decreases ex - sx
  {
    if ex < sx then [] else BlockCells(sx, ex - 1, sy, ey) + ColumnCells(ex, sy, ey)
  }

  /** The cells a box is filed under, in the order the original lists them. */
  function CellsOf(r: Rect): seq<Cell> {
    BlockCells(CellIndex(r.x), CellIndex(r.x + r.width), CellIndex(r.y), CellIndex(r.y + r.height))
  }

  lemma {:induction false} ColumnCellsMembers(cx: int, sy: int, ey: int)
    ensures forall c :: c in ColumnCells(cx, sy, ey) <==> c.0 == cx && sy <= c.1 <= ey
    ensures NoDup(ColumnCells(cx, sy, ey))
    decreases ey - sy
  {
    if sy <= ey {
      ColumnCellsMembers(cx, sy, ey - 1);
      NoDupJoin(ColumnCells(cx, sy, ey - 1), [(cx, ey)]);
    }
  }

  lemma {:induction false} BlockCellsMembers(sx: int, ex: int, sy: int, ey: int)
    ensures forall c :: c in BlockCells(sx, ex, sy, ey) <==> sx <= c.0 <= ex && sy <= c.1 <= ey
    ensures NoDup(BlockCells(sx, ex, sy, ey))
    decreases ex - sx
  {
    if sx <= ex {
      BlockCellsMembers(sx, ex - 1, sy, ey);
      ColumnCellsMembers(ex, sy, ey);
      NoDupJoin(BlockCells(sx, ex - 1, sy, ey), ColumnCells(ex, sy, ey));
    }
  }

  /** A box is filed under exactly the cells of its inclusive range, each once. */
  lemma {:induction false} CellsOfExact(r: Rect)
    ensures forall c :: c in CellsOf(r) <==> InSpan(r, c)
    ensures NoDup(CellsOf(r))
  {
    BlockCellsMembers(CellIndex(r.x), CellIndex(r.x + r.width), CellIndex(r.y), CellIndex(r.y + r.height));
  }

  /** A box of non-negative extent, as every entity's is. */
  predicate Sized(r: Rect) {
    r.width >= 0.0 && r.height >= 0.0
  }

  /** Two strictly overlapping boxes always share a cell: the one holding the
      top-left corner of their intersection. */
  lemma {:induction false} OverlapSharesCell(a: Rect, b: Rect) returns (c: Cell)
    requires Overlapping(a, b) && Sized(a) && Sized(b)
    ensures InSpan(a, c) && InSpan(b, c)
  {
    var mx := if a.x < b.x then b.x else a.x;
    var my := if a.y < b.y then b.y else a.y;
    c := (CellIndex(mx), CellIndex(my));
    CellIndexMonotone(a.x, mx);
    CellIndexMonotone(mx, a.x + a.width);
    CellIndexMonotone(b.x, mx);
    CellIndexMonotone(mx, b.x + b.width);
    CellIndexMonotone(a.y, my);
    CellIndexMonotone(my, a.y + a.height);
    CellIndexMonotone(b.y, my);
    CellIndexMonotone(my, b.y + b.height);
  }

  /** The entities filed under `c` after filing `es`: the active ones whose
      range holds the cell, in list order. */
  ghost function Occupants(es: seq<GameObject>, c: Cell): (r: seq<GameObject>)
    reads set o | o in es
    ensures forall o :: o in r ==> o in es
  {
    if es == [] then []
    else
      var e := es[|es| - 1];
      Occupants(es[..|es| - 1], c) + (if e.active && InSpan(e.Bounds(), c) then [e] else [])
  }

  lemma {:induction false} OccupantsMembers(es: seq<GameObject>, c: Cell)
    ensures forall o :: o in Occupants(es, c) <==> o in es && o.active && InSpan(o.Bounds(), c)
  {
    if es != [] {
      OccupantsMembers(es[..|es| - 1], c);
      assert es == es[..|es| - 1] + [es[|es| - 1]];
    }
  }

  /** The list a grid keeps for a cell (none kept reads as empty). */
  function Lookup(grid: map<Cell, seq<GameObject>>, c: Cell): seq<GameObject> {
    if c in grid then grid[c] else []
  }

  /** The grid records exactly the filing of `es`: every cell holds its
      occupants, and no cell is kept with an empty list. */
  ghost predicate Holds(grid: map<Cell, seq<GameObject>>, es: seq<GameObject>)
    reads set o | o in es
  {
    (forall c :: Lookup(grid, c) == Occupants(es, c)) &&
    (forall c :: c in grid ==> grid[c] != [])
  }

  /** Every entity the grid holds under some cell. */
  ghost function Filed(grid: map<Cell, seq<GameObject>>): set<GameObject> {
    set c, o | c in grid && o in grid[c] :: o
  }

  /** Midway through filing `e` after `before`: the cells in `done` already
      list it, and every other cell is as the filing of `before` left it. */
  ghost predicate Filing(grid: map<Cell, seq<GameObject>>, before: seq<GameObject>, e: GameObject, done: seq<Cell>)
    reads set o | o in before
  {
    (forall c :: Lookup(grid, c) == Occupants(before, c) + (if c in done then [e] else [])) &&
    (forall c :: c in grid ==> grid[c] != [])
  }

  lemma {:induction false} OccupantsSkip(before: seq<GameObject>, e: GameObject)
    requires !e.active
    ensures forall c :: Occupants(before + [e], c) == Occupants(before, c)
  {
    assert (before + [e])[..|before|] == before;
  }

  lemma {:induction false} FilingDone(grid: map<Cell, seq<GameObject>>, before: seq<GameObject>, e: GameObject, cells: seq<Cell>)
    requires e.active && Filing(grid, before, e, cells)
    requires forall c :: c in cells <==> InSpan(e.Bounds(), c)
    ensures Holds(grid, before + [e])
  {
    assert (before + [e])[..|before|] == before;
  }

  /** The grid's lists for `cells`, one after another. */
  function Candidates(grid: map<Cell, seq<GameObject>>, cells: seq<Cell>): (r: seq<GameObject>)
    ensures forall o :: o in r ==> o in Filed(grid)
  {
    if cells == [] then [] else Candidates(grid, cells[..|cells| - 1]) + Lookup(grid, cells[|cells| - 1])
  }

  /** The occupants of `cells` after filing `es`, one cell after another. */
  ghost function Near(es: seq<GameObject>, cells: seq<Cell>): (r: seq<GameObject>)
    reads set o | o in es
    ensures forall o :: o in r ==> o in es
  {
    if cells == [] then [] else Near(es, cells[..|cells| - 1]) + Occupants(es, cells[|cells| - 1])
  }

  lemma {:induction false} CandidatesOfHolds(grid: map<Cell, seq<GameObject>>, es: seq<GameObject>, cells: seq<Cell>)
    requires Holds(grid, es)
    ensures Candidates(grid, cells) == Near(es, cells)
  {
    if cells != [] {
      CandidatesOfHolds(grid, es, cells[..|cells| - 1]);
    }
  }

  lemma {:induction false} NearMembers(es: seq<GameObject>, cells: seq<Cell>, o: GameObject)
    ensures o in Near(es, cells) <==> o in es && o.active && exists c :: c in cells && InSpan(o.Bounds(), c)
  {
    if cells != [] {
      var init := cells[..|cells| - 1];
      var last := cells[|cells| - 1];
      NearMembers(es, init, o);
      OccupantsMembers(es, last);
      assert cells == init + [last];
      if o in es && o.active && exists c :: c in cells && InSpan(o.Bounds(), c) {
        var c :| c in cells && InSpan(o.Bounds(), c);
        if c != last {
          assert c in init;
        }
      }
    }
  }

  /** `o` is what a query for `e` reports: another entity of another kind
      whose box strictly overlaps. */
  predicate Hit(e: GameObject, o: GameObject)
    reads e, o
  {
    o != e && o.kind != e.kind && Overlapping(e.Bounds(), o.Bounds())
  }

  /** The query's result over a candidate list: each hit, in order of first
      appearance, once. */
  ghost function Found(e: GameObject, s: seq<GameObject>): seq<GameObject>
    reads e, set o | o in s
  {
    if s == [] then []
    else
      var prev := Found(e, s[..|s| - 1]);
      var o := s[|s| - 1];
      if Hit(e, o) && o !in prev then prev + [o] else prev
  }

  /** A query reports exactly the hits among the candidates, and none twice. */
  lemma {:induction false} FoundExact(e: GameObject, s: seq<GameObject>)
    ensures forall o :: o in Found(e, s) <==> o in s && Hit(e, o)
    ensures NoDup(Found(e, s))
  {
    if s != [] {
      var init := s[..|s| - 1];
      FoundExact(e, init);
      assert s == init + [s[|s| - 1]];
      var o := s[|s| - 1];
      if Hit(e, o) && o !in Found(e, init) {
        NoDupJoin(Found(e, init), [o]);
      }
    }
  }

  /** Some entity of the list is active. */
  predicate SomeActive(s: seq<GameObject>)
    reads set o | o in s
  {
    exists k :: 0 <= k < |s| && s[k].active
  }

  lemma {:induction false} SomeActiveAppend(s: seq<GameObject>, o: GameObject)
    ensures SomeActive(s + [o]) <==> SomeActive(s) || o.active
  {
    if SomeActive(s + [o]) && !o.active {
      var k :| 0 <= k < |s + [o]| && (s + [o])[k].active;
      assert s[k] == (s + [o])[k];
    }
    if SomeActive(s) {
      var k :| 0 <= k < |s| && s[k].active;
      assert (s + [o])[k] == s[k];
    }
    if o.active {
      assert (s + [o])[|s|] == o;
    }
  }

  /** One reported contact: the query entity and what it overlaps. */
  datatype Contact = Contact(entity1: GameObject, entity2: GameObject)

  function Pairs(first: GameObject, others: seq<GameObject>): (r: seq<Contact>)
    ensures |r| == |others| && forall k :: 0 <= k < |others| ==> r[k] == Contact(first, others[k])
  {
    if others == [] then [] else Pairs(first, others[..|others| - 1]) + [Contact(first, others[|others| - 1])]
  }

  /** What a fresh filing of `aliens` reports for each active bullet in turn. */
  ghost function BulletAlienContacts(bullets: seq<GameObject>, aliens: seq<GameObject>): seq<Contact>
    reads (set o | o in bullets), (set o | o in aliens)
  {
    if bullets == [] then []
    else
      var b := bullets[|bullets| - 1];
      BulletAlienContacts(bullets[..|bullets| - 1], aliens) +
      (if b.active then Pairs(b, Found(b, Near(aliens, CellsOf(b.Bounds())))) else [])
  }

  /** What the current grid reports for each active bomb in turn. */
  ghost function BombContacts(bombs: seq<GameObject>, grid: map<Cell, seq<GameObject>>): seq<Contact>
    reads (set o | o in bombs), Filed(grid)
  {
    if bombs == [] then []
    else
      var b := bombs[|bombs| - 1];
      BombContacts(bombs[..|bombs| - 1], grid) +
      (if b.active then Pairs(b, Found(b, Candidates(grid, CellsOf(b.Bounds())))) else [])
  }

  /** Every active bomb that strictly overlaps an active player, in bomb order. */
  function BombPlayerContacts(bombs: seq<GameObject>, player: GameObject): seq<Contact>
    reads player, set o | o in bombs
  {
    if !player.active || bombs == [] then []
    else
      var b := bombs[|bombs| - 1];
      BombPlayerContacts(bombs[..|bombs| - 1], player) +
      (if b.active && Overlapping(b.Bounds(), player.Bounds()) then [Contact(b, player)] else [])
  }

  lemma {:induction false} FoundStep(e: GameObject, s: seq<GameObject>, o: GameObject)
    ensures Found(e, s + [o]) == if Hit(e, o) && o !in Found(e, s) then Found(e, s) + [o] else Found(e, s)
  {
    assert (s + [o])[..|s|] == s;
  }

  lemma {:induction false} CandidatesStep(grid: map<Cell, seq<GameObject>>, cells: seq<Cell>, c: Cell)
    ensures Candidates(grid, cells + [c]) == Candidates(grid, cells) + Lookup(grid, c)
  {
    assert (cells + [c])[..|cells|] == cells;
  }

  lemma {:induction false} BulletAlienContactsStep(bullets: seq<GameObject>, b: GameObject, aliens: seq<GameObject>)
    ensures BulletAlienContacts(bullets + [b], aliens) == BulletAlienContacts(bullets, aliens) +
      (if b.active then Pairs(b, Found(b, Near(aliens, CellsOf(b.Bounds())))) else [])
  {
    assert (bullets + [b])[..|bullets|] == bullets;
  }

  lemma {:induction false} BombContactsStep(bombs: seq<GameObject>, b: GameObject, grid: map<Cell, seq<GameObject>>)
    ensures BombContacts(bombs + [b], grid) == BombContacts(bombs, grid) +
      (if b.active then Pairs(b, Found(b, Candidates(grid, CellsOf(b.Bounds())))) else [])
  {
    assert (bombs + [b])[..|bombs|] == bombs;
  }

  lemma {:induction false} BombPlayerContactsStep(bombs: seq<GameObject>, b: GameObject, player: GameObject)
    requires player.active
    ensures BombPlayerContacts(bombs + [b], player) == BombPlayerContacts(bombs, player) +
      (if b.active && Overlapping(b.Bounds(), player.Bounds()) then [Contact(b, player)] else [])
  {
    assert (bombs + [b])[..|bombs|] == bombs;
  }

  class CollisionSystem {
    var spatialGrid: map<Cell, seq<GameObject>>
    const cellSize: int

    constructor ()
      ensures spatialGrid == map[] && cellSize == 50
    {
      spatialGrid := map[];
      cellSize := 50;
    }

    /** Files the active entities afresh; nothing from an earlier filing remains. */
    method Update(entities: seq<GameObject>)
      modifies this`spatialGrid
      ensures Holds(spatialGrid, entities)
    {
      spatialGrid := map[];
      var i := 0;
      while i < |entities|
        invariant 0 <= i <= |entities|
        invariant Holds(spatialGrid, entities[..i])
      {
        File(entities, i);
        assert entities[..i + 1][..i] == entities[..i];
        i := i + 1;
      }
      assert entities[..i] == entities;
    }

    /** Files the i-th entity under each of its cells, when it is active. */
    method File(entities: seq<GameObject>, i: int)
      requires 0 <= i < |entities| && Holds(spatialGrid, entities[..i])
      modifies this`spatialGrid
      ensures Holds(spatialGrid, entities[..i + 1])
    {
      var e := entities[i];
      ghost var before := entities[..i];
      assert entities[..i + 1] == before + [e];
      if !e.active {
        OccupantsSkip(before, e);
        return;
      }
      var cells := GetCellsForEntity(e);
      CellsOfExact(e.Bounds());
      var j := 0;
      while j < |cells|
        invariant 0 <= j <= |cells|
        invariant Filing(spatialGrid, before, e, cells[..j])
      {
        FileAt(cells, j, e, before);
        j := j + 1;
      }
      assert cells[..j] == cells;
      FilingDone(spatialGrid, before, e, cells);
    }

    /** Files the entity under the j-th of its cells. */
    method FileAt(cells: seq<Cell>, j: int, e: GameObject, ghost before: seq<GameObject>)
      requires 0 <= j < |cells| && NoDup(cells)
      requires Filing(spatialGrid, before, e, cells[..j])
      modifies this`spatialGrid
      ensures Filing(spatialGrid, before, e, cells[..j + 1])
    {
      ghost var prev := spatialGrid;
      var key := cells[j];
      assert key !in cells[..j] by {
        forall k | 0 <= k < j ensures cells[k] != key {
        }
      }
      Push(key, e);
      assert cells[..j + 1] == cells[..j] + [key];
      forall c ensures Lookup(spatialGrid, c) == Occupants(before, c) + (if c in cells[..j + 1] then [e] else []) {
        if c != key {
          assert Lookup(spatialGrid, c) == Lookup(prev, c);
        }
      }
    }

    /** Appends the entity to the list kept for one cell, starting the list if needed. */
    method Push(key: Cell, e: GameObject)
      modifies this`spatialGrid
      ensures spatialGrid == old(spatialGrid)[key := Lookup(old(spatialGrid), key) + [e]]
    {
      if key !in spatialGrid {
        spatialGrid := spatialGrid[key := []];
      }
      spatialGrid := spatialGrid[key := spatialGrid[key] + [e]];
    }

    /** The cells the entity's box spans, column by column (see CellsOfExact). */
    method GetCellsForEntity(entity: GameObject) returns (cells: seq<Cell>)
      ensures cells == CellsOf(entity.Bounds())
    {
      var startX := CellIndex(entity.x);
      var endX := CellIndex(entity.x + entity.width);
      var startY := CellIndex(entity.y);
      var endY := CellIndex(entity.y + entity.height);
      cells := [];
      var x := startX;
      while x <= endX
        invariant startX <= x && (x <= endX + 1 || x == startX)
        invariant cells == BlockCells(startX, x - 1, startY, endY)
        decreases endX + 1 - x
      {
        cells := AppendColumn(cells, x, startY, endY);
        x := x + 1;
      }
    }

    /** Appends column `x`, rows `sy` to `ey`, to the list. */
    method AppendColumn(cells: seq<Cell>, x: int, sy: int, ey: int) returns (out: seq<Cell>)
      ensures out == cells + ColumnCells(x, sy, ey)
    {
      out := cells;
      var y := sy;
      while y <= ey
        invariant sy <= y && (y <= ey + 1 || y == sy)
        invariant out == cells + ColumnCells(x, sy, y - 1)
        decreases ey + 1 - y
      {
        out := out + [(x, y)];
        y := y + 1;
      }
    }

    /** Strict box overlap of two entities: edges that only touch do not count. */
    predicate CheckAABBCollision(a: GameObject, b: GameObject)
      reads a, b
    {
      a.x < b.x + b.width && a.x + a.width > b.x && a.y < b.y + b.height && a.y + a.height > b.y
    }

    /** The entities of another kind filed under the query's cells whose boxes
        strictly overlap it, in order of first appearance, each once.  The
        second argument is accepted and ignored, as in the original. */
    method CheckEntityCollisions(entity: GameObject, entities: seq<GameObject>) returns (found: seq<GameObject>)
      ensures found == Found(entity, Candidates(spatialGrid, CellsOf(entity.Bounds())))
    {
      var cells := GetCellsForEntity(entity);
      found := [];
      var checked: set<GameObject> := {};
      var i := 0;
      while i < |cells|
        invariant 0 <= i <= |cells|
        invariant found == Found(entity, Candidates(spatialGrid, cells[..i]))
        invariant forall o :: o in checked <==> o in found
      {
        ghost var done := Candidates(spatialGrid, cells[..i]);
        found, checked := ScanCell(entity, Lookup(spatialGrid, cells[i]), found, checked, done);
        assert cells[..i + 1] == cells[..i] + [cells[i]];
        CandidatesStep(spatialGrid, cells[..i], cells[i]);
        i := i + 1;
      }
      assert cells[..i] == cells;
    }

    /** Looks through the entities kept for one cell, adding each new hit. */
    method ScanCell(entity: GameObject, cellEntities: seq<GameObject>, found0: seq<GameObject>,
                    checked0: set<GameObject>, ghost done: seq<GameObject>)
      returns (found: seq<GameObject>, checked: set<GameObject>)
      requires found0 == Found(entity, done) && forall o :: o in checked0 <==> o in found0
      ensures found == Found(entity, done + cellEntities) && forall o :: o in checked <==> o in found
    {
      found, checked := found0, checked0;
      assert done + cellEntities[..0] == done;
      var j := 0;
      while j < |cellEntities|
        invariant 0 <= j <= |cellEntities|
        invariant found == Found(entity, done + cellEntities[..j])
        invariant forall o :: o in checked <==> o in found
      {
        PrefixSnoc(done, cellEntities, j);
        found, checked := ScanOne(entity, cellEntities[j], found, checked, done + cellEntities[..j]);
        j := j + 1;
      }
      assert cellEntities[..j] == cellEntities;
    }

    /** One entity of a cell: a new hit is added to the results, anything else is skipped. */
    method ScanOne(entity: GameObject, other: GameObject, found0: seq<GameObject>,
                   checked0: set<GameObject>, ghost seen: seq<GameObject>)
      returns (found: seq<GameObject>, checked: set<GameObject>)
      requires found0 == Found(entity, seen) && forall o :: o in checked0 <==> o in found0
      ensures found == Found(entity, seen + [other]) && forall o :: o in checked <==> o in found
    {
      found, checked := found0, checked0;
      FoundStep(entity, seen, other);
      if other == entity || other.kind == entity.kind || other in checked {
      } else if CheckAABBCollision(entity, other) {
        found := found + [other];
        checked := checked + {other};
      }
    }

    /** For each active bullet, files the aliens afresh and reports one
        contact per alien the bullet overlaps; the grid is left holding the
        aliens when some bullet was active, and as it was otherwise. */
    method CheckBulletAlienCollisions(bullets: seq<GameObject>, aliens: seq<GameObject>) returns (results: seq<Contact>)
      modifies this`spatialGrid
      ensures results == BulletAlienContacts(bullets, aliens)
      ensures SomeActive(bullets) ==> Holds(spatialGrid, aliens)
      ensures !SomeActive(bullets) ==> spatialGrid == old(spatialGrid)
    {
      ghost var grid0 := spatialGrid;
      results := [];
      var i := 0;
      while i < |bullets|
        invariant 0 <= i <= |bullets|
        invariant results == BulletAlienContacts(bullets[..i], aliens)
        invariant SomeActive(bullets[..i]) ==> Holds(spatialGrid, aliens)
        invariant !SomeActive(bullets[..i]) ==> spatialGrid == grid0
      {
        assert bullets[..i + 1] == bullets[..i] + [bullets[i]];
        results := BulletTurn(bullets[i], aliens, results, bullets[..i], grid0);
        i := i + 1;
      }
      assert bullets[..i] == bullets;
    }

    /** One bullet of CheckBulletAlienCollisions: an active bullet refiles the
        aliens and adds its contacts; an inactive one changes nothing. */
    method BulletTurn(bullet: GameObject, aliens: seq<GameObject>, results0: seq<Contact>,
                      ghost seen: seq<GameObject>, ghost grid0: map<Cell, seq<GameObject>>)
      returns (results: seq<Contact>)
      requires results0 == BulletAlienContacts(seen, aliens)
      requires SomeActive(seen) ==> Holds(spatialGrid, aliens)
      requires !SomeActive(seen) ==> spatialGrid == grid0
      modifies this`spatialGrid
      ensures results == BulletAlienContacts(seen + [bullet], aliens)
      ensures SomeActive(seen + [bullet]) ==> Holds(spatialGrid, aliens)
      ensures !SomeActive(seen + [bullet]) ==> spatialGrid == grid0
    {
      SomeActiveAppend(seen, bullet);
      results := results0;
      if bullet.active {
        var pairs := CheckBulletAgainst(bullet, aliens);
        results := results + pairs;
      }
      BulletAlienContactsStep(seen, bullet, aliens);
    }

    /** One active bullet: files the aliens afresh and pairs the bullet with each alien it hits. */
    method CheckBulletAgainst(bullet: GameObject, aliens: seq<GameObject>) returns (pairs: seq<Contact>)
      modifies this`spatialGrid
      ensures pairs == Pairs(bullet, Found(bullet, Near(aliens, CellsOf(bullet.Bounds()))))
      ensures Holds(spatialGrid, aliens)
    {
      Update(aliens);
      var colliding := CheckEntityCollisions(bullet, aliens);
      CandidatesOfHolds(spatialGrid, aliens, CellsOf(bullet.Bounds()));
      pairs := Pairs(bullet, colliding);
    }

    /** For each active bomb, one contact per target the current grid reports;
        the grid is not refiled, so it holds whatever was filed last. */
    method CheckBombCollisions(bombs: seq<GameObject>, targets: seq<GameObject>) returns (results: seq<Contact>)
      ensures results == BombContacts(bombs, spatialGrid)
    {
      ghost var grid := spatialGrid;
      results := [];
      var i := 0;
      while i < |bombs|
        invariant 0 <= i <= |bombs| && spatialGrid == grid
        invariant results == BombContacts(bombs[..i], grid)
      {
        var bomb := bombs[i];
        assert bombs[..i + 1] == bombs[..i] + [bomb];
        if bomb.active {
          ghost var filed := Filed(grid);
          var colliding := CheckEntityCollisions(bomb, targets);
          results := results + Pairs(bomb, colliding);
        }
        BombContactsStep(bombs[..i], bomb, grid);
        i := i + 1;
      }
      assert bombs[..i] == bombs;
    }

    /** Nothing for an inactive player; otherwise one contact per active bomb
        overlapping the player, in bomb order. */
    method CheckBombPlayerCollisions(bombs: seq<GameObject>, player: GameObject) returns (results: seq<Contact>)
      ensures results == BombPlayerContacts(bombs, player)
    {
      results := [];
      if !player.active {
        return;
      }
      var i := 0;
      while i < |bombs|
        invariant 0 <= i <= |bombs|
        invariant results == BombPlayerContacts(bombs[..i], player)
      {
        var bomb := bombs[i];
        assert bombs[..i + 1] == bombs[..i] + [bomb];
        BombPlayerContactsStep(bombs[..i], bomb, player);
        if bomb.active && CheckAABBCollision(bomb, player) {
          results := results + [Contact(bomb, player)];
        }
        i := i + 1;
      }
      assert bombs[..i] == bombs;
    }

    function GetCellSize(): int
      reads this
    {
      cellSize
    }
  }

  /** The grid test is the strict overlap of the two boxes, so it is symmetric
      and two boxes that only share an edge do not collide. */
  lemma {:induction false} CheckAABBCollisionStrict(s: CollisionSystem, a: GameObject, b: GameObject)
    ensures s.CheckAABBCollision(a, b) <==> Overlapping(a.Bounds(), b.Bounds())
    ensures s.CheckAABBCollision(a, b) <==> s.CheckAABBCollision(b, a)
    ensures a.x + a.width == b.x ==> !s.CheckAABBCollision(a, b)
  {
    OverlappingSymmetric(a.Bounds(), b.Bounds());
  }

  /** Over a grid that files `es`, a query reports exactly the active entities
      of `es` it hits, each once: nothing filed is missed, because strictly
      overlapping boxes share a cell. */
  lemma {:induction false} QueryExact(grid: map<Cell, seq<GameObject>>, es: seq<GameObject>, e: GameObject)
    requires Holds(grid, es) && Sized(e.Bounds()) && forall o :: o in es ==> Sized(o.Bounds())
    ensures forall o :: o in Found(e, Candidates(grid, CellsOf(e.Bounds()))) <==> o in es && o.active && Hit(e, o)
    ensures NoDup(Found(e, Candidates(grid, CellsOf(e.Bounds()))))
  {
    var cells := CellsOf(e.Bounds());
    CandidatesOfHolds(grid, es, cells);
    FoundExact(e, Near(es, cells));
    CellsOfExact(e.Bounds());
    forall o | o in es && o.active && Hit(e, o)
      ensures o in Near(es, cells)
    {
      var c := OverlapSharesCell(e.Bounds(), o.Bounds());
      assert c in cells;
      NearMembers(es, cells, o);
    }
    forall o | o in Near(es, cells)
      ensures o in es && o.active
    {
      NearMembers(es, cells, o);
    }
  }

  /** Every bullet-alien contact pairs an active bullet with an active alien it
      overlaps, and every such pair is reported. */
  lemma {:induction false} BulletAlienContactsExact(bullets: seq<GameObject>, aliens: seq<GameObject>)
    requires forall o :: o in bullets + aliens ==> Sized(o.Bounds())
    ensures forall b, a :: Contact(b, a) in BulletAlienContacts(bullets, aliens) <==>
      b in bullets && b.active && a in aliens && a.active && Hit(b, a)
  {
    if bullets != [] {
      var init := bullets[..|bullets| - 1];
      var b := bullets[|bullets| - 1];
      BulletAlienContactsExact(init, aliens);
      assert bullets == init + [b];
      if b.active {
        var found := Found(b, Near(aliens, CellsOf(b.Bounds())));
        assert forall a :: a in found <==> a in aliens && a.active && Hit(b, a) by {
          HoldsNear(aliens, b);
        }
        forall x, a ensures Contact(x, a) in Pairs(b, found) <==> x == b && a in found {
          if Contact(x, a) in Pairs(b, found) {
            var k :| 0 <= k < |found| && Pairs(b, found)[k] == Contact(x, a);
          }
          if x == b && a in found {
            var k :| 0 <= k < |found| && found[k] == a;
            assert Pairs(b, found)[k] == Contact(x, a);
          }
        }
      }
    }
  }

  /** Every bullet-alien contact pairs an active bullet of the list with an
      alien of the list; no cell sizes are needed for this direction. */
  lemma {:induction false} ContactsWithin(bullets: seq<GameObject>, aliens: seq<GameObject>)
    ensures forall c :: c in BulletAlienContacts(bullets, aliens) ==>
      c.entity1 in bullets && c.entity1.active && c.entity2 in aliens
  {
    if bullets != [] {
      var init := bullets[..|bullets| - 1];
      var b := bullets[|bullets| - 1];
      ContactsWithin(init, aliens);
      if b.active {
        var found := Found(b, Near(aliens, CellsOf(b.Bounds())));
        FoundExact(b, Near(aliens, CellsOf(b.Bounds())));
        forall c | c in Pairs(b, found) ensures c.entity1 == b && c.entity2 in aliens {
          var k :| 0 <= k < |found| && Pairs(b, found)[k] == c;
        }
      }
    }
  }

  /** The query over the occupants of a bullet's cells reports exactly the
      active aliens it hits. */
  lemma {:induction false} HoldsNear(aliens: seq<GameObject>, b: GameObject)
    requires Sized(b.Bounds()) && forall o :: o in aliens ==> Sized(o.Bounds())
    ensures forall a :: a in Found(b, Near(aliens, CellsOf(b.Bounds()))) <==> a in aliens && a.active && Hit(b, a)
  {
    var cells := CellsOf(b.Bounds());
    FoundExact(b, Near(aliens, cells));
    CellsOfExact(b.Bounds());
    forall a | a in aliens && a.active && Hit(b, a)
      ensures a in Near(aliens, cells)
    {
      var c := OverlapSharesCell(b.Bounds(), a.Bounds());
      assert c in cells;
      NearMembers(aliens, cells, a);
    }
    forall a | a in Near(aliens, cells)
      ensures a in aliens && a.active
    {
      NearMembers(aliens, cells, a);
    }
  }

  /** Every bomb-player contact pairs an active bomb with the active player it
      overlaps, and every such bomb is reported. */
  lemma {:induction false} BombPlayerContactsExact(bombs: seq<GameObject>, player: GameObject)
    ensures forall b, p :: Contact(b, p) in BombPlayerContacts(bombs, player) <==>
      p == player && player.active && b in bombs && b.active && Overlapping(b.Bounds(), player.Bounds())
  {
    if player.active && bombs != [] {
      var init := bombs[..|bombs| - 1];
      BombPlayerContactsExact(init, player);
      assert bombs == init + [bombs[|bombs| - 1]];
    }
  }
}
