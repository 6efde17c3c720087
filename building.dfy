// A defensive bunker: a 48x36 box with 100 health points and a 4x5 grid of
// damage marks that fills up, in row-major order, as health is lost.
module Buildings {
  import opened GameTypes
  import opened GameConstants
  import opened GameObjects

  const MAX_HEALTH: int := 100
  const SECTION_ROWS: int := 4
  const SECTION_COLUMNS: int := 5
  const SECTION_COUNT: int := 20

  /** Undamaged cells in `s`. */
  function Undamaged(s: seq<bool>): nat {
    if |s| == 0 then 0 else Undamaged(s[..|s| - 1]) + (if s[|s| - 1] then 0 else 1)
  }

  /** Marks the first `k` undamaged cells of `s` in order: a cell ends up
      damaged when it was, or when fewer than `k` undamaged cells precede it. */
  function MarkFirst(s: seq<bool>, k: int): (r: seq<bool>)
    ensures |r| == |s|
  {
    seq(|s|, i requires 0 <= i < |s| => s[i] || Undamaged(s[..i]) < k)
  }

  /** How many damage marks a building at health `h` asks for: 1 - h/100 of the
      twenty cells, rounded down (computed exactly, for health/maximum 100). */
  function SectionsToDestroy(h: int): int {
    (MAX_HEALTH - h) * SECTION_COUNT / MAX_HEALTH
  }

  /** How many cells MarkFirst(s', k) newly marks within the prefix `s` of s'. */
  function Used(s: seq<bool>, k: int): int {
    if k <= 0 then 0 else if Undamaged(s) < k then Undamaged(s) else k
  }

  lemma {:induction false} UndamagedPrefixMonotone(s: seq<bool>, p: nat, q: nat)
    requires p <= q <= |s|
    ensures Undamaged(s[..p]) <= Undamaged(s[..q])
    decreases q - p
  {
    if p < q {
      UndamagedPrefixMonotone(s, p, q - 1);
      assert s[..q][..q - 1] == s[..q - 1];
    }
  }

  lemma {:induction false} UndamagedBounded(s: seq<bool>)
    ensures Undamaged(s) <= |s|
  {
    if |s| > 0 { UndamagedBounded(s[..|s| - 1]); }
  }

  /** Damage is never undone, and at most `k` cells are newly marked: exactly
      min(k, undamaged) of them when k is not negative. */
  lemma {:induction false} MarkFirstCount(s: seq<bool>, k: int)
    ensures forall i :: 0 <= i < |s| && s[i] ==> MarkFirst(s, k)[i]
    ensures Undamaged(MarkFirst(s, k)) == Undamaged(s) - (if k <= 0 then 0 else if k < Undamaged(s) then k else Undamaged(s))
  {
    if |s| > 0 {
      var n := |s| - 1;
      var pre := s[..n];
      MarkFirstCount(pre, k);
      assert MarkFirst(s, k)[..n] == MarkFirst(pre, k) by {
        forall i | 0 <= i < n ensures MarkFirst(s, k)[i] == MarkFirst(pre, k)[i] {
          assert s[..i] == pre[..i];
        }
      }
      assert pre[..n] == pre;
    }
  }

  /** Once the budget `k` is used up within the first `p` cells, the cells from
      `p` on are left as they were. */
  lemma {:induction false} BudgetExhausted(s: seq<bool>, k: int, p: nat, q: nat)
    requires p <= q <= |s| && Used(s[..p], k) >= k
    ensures Used(s[..q], k) == Used(s[..p], k)
    ensures forall j :: p <= j < q ==> MarkFirst(s, k)[j] == s[j]
  {
    UndamagedPrefixMonotone(s, p, q);
    forall j | p <= j < q ensures MarkFirst(s, k)[j] == s[j] {
      UndamagedPrefixMonotone(s, p, j);
    }
  }

  /** Processing cell `p` while budget remains marks it and uses one unit
      exactly when it was undamaged. */
  lemma {:induction false} MarkStep(s: seq<bool>, k: int, p: nat)
    requires p < |s| && Used(s[..p], k) < k
    ensures MarkFirst(s, k)[p]
    ensures Used(s[..p + 1], k) == Used(s[..p], k) + (if s[p] then 0 else 1)
  {
    assert s[..p + 1][..p] == s[..p];
  }

  /** Marking cell `p` extends the marked prefix of the mirror by one cell. */
  lemma {:induction false} MirrorStep(cur: seq<bool>, before: seq<bool>, after: seq<bool>, p: nat)
    requires |cur| == |before| == |after| && p < |cur|
    requires cur[..p] == after[..p] && cur[p..] == before[p..] && after[p]
    ensures cur[p := true][..p + 1] == after[..p + 1]
    ensures cur[p := true][p + 1..] == before[p + 1..]
  {
    assert cur[p := true][..p + 1] == cur[..p] + [true];
    assert after[..p + 1] == after[..p] + [after[p]];
    assert cur[p := true][p + 1..] == cur[p + 1..] == cur[p..][1..];
  }

  /** With the budget used up at `p`, a mirror that is marked before `p` and
      untouched from `p` on already equals the result, up to any `q`. */
  lemma {:induction false} MirrorFinished(cur: seq<bool>, before: seq<bool>, k: int, p: nat, q: nat)
    requires |cur| == |before| && p <= q <= |before|
    requires cur[..p] == MarkFirst(before, k)[..p] && cur[p..] == before[p..]
    requires p == |before| || Used(before[..p], k) >= k
    ensures cur[..q] == MarkFirst(before, k)[..q] && cur[q..] == before[q..]
    ensures q == |before| ==> cur == MarkFirst(before, k)
  {
    var after := MarkFirst(before, k);
    if p < |before| {
      BudgetExhausted(before, k, p, |before|);
    }
    assert after[p..] == before[p..];
    assert cur == cur[..p] + cur[p..] && after == after[..p] + after[p..];
    assert cur == after;
    assert cur[q..] == before[q..] by {
      assert cur[q..] == cur[p..][q - p..];
      assert before[q..] == before[p..][q - p..];
    }
  }

  lemma {:induction false} RowMajor(r: int, c: int)
    requires 0 <= r && 0 <= c < SECTION_COLUMNS
    ensures (r * SECTION_COLUMNS + c) / SECTION_COLUMNS == r
    ensures (r * SECTION_COLUMNS + c) % SECTION_COLUMNS == c
  {
  }

  lemma {:induction false} RowMajorDistinct(r: int, c: int, r2: int, c2: int)
    requires 0 <= c < SECTION_COLUMNS && 0 <= c2 < SECTION_COLUMNS && (r != r2 || c != c2)
    ensures r * SECTION_COLUMNS + c != r2 * SECTION_COLUMNS + c2
  {
    if r == r2 {
    } else if r < r2 {
      assert r * SECTION_COLUMNS + c < (r + 1) * SECTION_COLUMNS <= r2 * SECTION_COLUMNS;
    } else {
      assert r2 * SECTION_COLUMNS + c2 < (r2 + 1) * SECTION_COLUMNS <= r * SECTION_COLUMNS;
    }
  }

  lemma {:induction false} AllUndamaged(s: seq<bool>)
    requires forall i :: 0 <= i < |s| ==> !s[i]
    ensures Undamaged(s) == |s|
  {
    if |s| > 0 { AllUndamaged(s[..|s| - 1]); }
  }

  class Building {
    const obj: GameObject
    var currentHealth: int
    const damageSections: array2<bool>

    /** The damage grid is 4 rows of 5 cells. */
    ghost predicate Shaped() {
      damageSections.Length0 == SECTION_ROWS && damageSections.Length1 == SECTION_COLUMNS
    }

    ghost predicate Valid()
      reads this
    {
      Shaped() && 0 <= currentHealth
    }

    /** The damage grid in row-major order. */
    ghost function Cells(): (c: seq<bool>)
      requires Shaped()
      reads damageSections
      ensures |c| == SECTION_COUNT
    {
      seq(SECTION_COUNT, i requires 0 <= i < SECTION_COUNT reads damageSections =>
        damageSections[i / SECTION_COLUMNS, i % SECTION_COLUMNS])
    }

    constructor (x: real, y: real)
      ensures Valid() && fresh(obj) && fresh(damageSections)
      ensures obj.x == x && obj.y == y && obj.width == BUILDING_WIDTH && obj.height == BUILDING_HEIGHT
      ensures obj.kind == BuildingKind && obj.active && obj.color == COLOR_BUILDING
      ensures currentHealth == MAX_HEALTH && Undamaged(Cells()) == SECTION_COUNT
      ensures forall i :: 0 <= i < SECTION_COUNT ==> !Cells()[i]
    {
      obj := new GameObject(x, y, BUILDING_WIDTH, BUILDING_HEIGHT, BuildingKind);
      currentHealth := MAX_HEALTH;
      damageSections := new bool[SECTION_ROWS, SECTION_COLUMNS]((r, c) => false);
      new;
      obj.SetColor(COLOR_BUILDING);
      AllUndamaged(Cells());
    }

    /** A building whose health has run out stops being active. */
    method Update()
      requires Valid()
      modifies obj`active
      ensures obj.active == (old(obj.active) && currentHealth > 0)
    {
      if currentHealth <= 0 {
        obj.active := false;
      }
    }

    /** Loses `damage` health (never below zero), gains damage marks, and is
        destroyed exactly when its health reaches zero. */
    method TakeDamage(damage: int)
      requires Valid()
      modifies this`currentHealth, obj`active, damageSections
      ensures Valid()
      ensures currentHealth == if old(currentHealth) - damage < 0 then 0 else old(currentHealth) - damage
      ensures damage >= 0 ==> currentHealth <= old(currentHealth)
      ensures obj.active == (old(obj.active) && currentHealth > 0)
      ensures Cells() == MarkFirst(old(Cells()), SectionsToDestroy(currentHealth))
    {
      currentHealth := if currentHealth - damage < 0 then 0 else currentHealth - damage;
      ApplyVisualDamage();
      if currentHealth <= 0 {
        Destroy();
      }
    }

    /** `cur` lists the grid in row-major order. */
    ghost predicate Mirrors(cur: seq<bool>)
      requires Shaped()
      reads damageSections
    {
      |cur| == SECTION_COUNT &&
      forall r, c :: 0 <= r < SECTION_ROWS && 0 <= c < SECTION_COLUMNS ==>
        damageSections[r, c] == cur[r * SECTION_COLUMNS + c]
    }

    lemma {:induction false} MirrorIsCells(cur: seq<bool>)
      requires Shaped() && Mirrors(cur)
      ensures Cells() == cur
    {
      forall i | 0 <= i < SECTION_COUNT ensures Cells()[i] == cur[i] {
        RowMajor(i / SECTION_COLUMNS, i % SECTION_COLUMNS);
      }
    }

    /** Marks the first SectionsToDestroy(health) cells not yet damaged. */
    method ApplyVisualDamage()
      requires Valid()
      modifies damageSections
      ensures Cells() == MarkFirst(old(Cells()), SectionsToDestroy(currentHealth))
    {
      ghost var before := Cells();
      var sectionsToDestroy := SectionsToDestroy(currentHealth);
      ghost var cur := before;
      forall r, c | 0 <= r < SECTION_ROWS && 0 <= c < SECTION_COLUMNS
        ensures damageSections[r, c] == cur[r * SECTION_COLUMNS + c]
      {
        RowMajor(r, c);
      }
      var destroyed := 0;
      var row := 0;
      while row < SECTION_ROWS && destroyed < sectionsToDestroy
        invariant 0 <= row <= SECTION_ROWS && Mirrors(cur)
        invariant cur[..row * SECTION_COLUMNS] == MarkFirst(before, sectionsToDestroy)[..row * SECTION_COLUMNS]
        invariant cur[row * SECTION_COLUMNS..] == before[row * SECTION_COLUMNS..]
        invariant destroyed == Used(before[..row * SECTION_COLUMNS], sectionsToDestroy)
      {
        destroyed, cur := MarkRow(row, sectionsToDestroy, destroyed, before, cur);
        row := row + 1;
      }
      ghost var p := if row < SECTION_ROWS then row * SECTION_COLUMNS else SECTION_COUNT;
      MirrorFinished(cur, before, sectionsToDestroy, p, SECTION_COUNT);
      MirrorIsCells(cur);
    }

    /** The inner loop of ApplyVisualDamage: one row, left to right, while budget remains. */
    method MarkRow(row: int, k: int, destroyedBefore: int, ghost before: seq<bool>, ghost curBefore: seq<bool>)
      returns (destroyed: int, ghost cur: seq<bool>)
      requires Shaped() && 0 <= row < SECTION_ROWS && |before| == SECTION_COUNT && Mirrors(curBefore)
      requires curBefore[..row * SECTION_COLUMNS] == MarkFirst(before, k)[..row * SECTION_COLUMNS]
      requires curBefore[row * SECTION_COLUMNS..] == before[row * SECTION_COLUMNS..]
      requires destroyedBefore == Used(before[..row * SECTION_COLUMNS], k) < k
      modifies damageSections
      ensures Mirrors(cur)
      ensures cur[..(row + 1) * SECTION_COLUMNS] == MarkFirst(before, k)[..(row + 1) * SECTION_COLUMNS]
      ensures cur[(row + 1) * SECTION_COLUMNS..] == before[(row + 1) * SECTION_COLUMNS..]
      ensures destroyed == Used(before[..(row + 1) * SECTION_COLUMNS], k)
    {
      ghost var after := MarkFirst(before, k);
      destroyed := destroyedBefore;
      cur := curBefore;
      var col := 0;
      while col < SECTION_COLUMNS && destroyed < k
        invariant 0 <= col <= SECTION_COLUMNS && Mirrors(cur)
        invariant cur[..row * SECTION_COLUMNS + col] == after[..row * SECTION_COLUMNS + col]
        invariant cur[row * SECTION_COLUMNS + col..] == before[row * SECTION_COLUMNS + col..]
        invariant destroyed == Used(before[..row * SECTION_COLUMNS + col], k)
      {
        ghost var p := row * SECTION_COLUMNS + col;
        MarkStep(before, k, p);
        assert cur[p] == before[p] by { assert cur[p..][0] == before[p..][0]; }
        label BeforeMark:
        if !damageSections[row, col] {
          damageSections[row, col] := true;
          destroyed := destroyed + 1;
        }
        ghost var next := cur[p := true];
        forall r, c | 0 <= r < SECTION_ROWS && 0 <= c < SECTION_COLUMNS
          ensures damageSections[r, c] == next[r * SECTION_COLUMNS + c]
        {
          if r != row || c != col {
            RowMajorDistinct(r, c, row, col);
            assert old@BeforeMark(damageSections[r, c]) == cur[r * SECTION_COLUMNS + c];
          }
        }
        MirrorStep(cur, before, after, p);
        cur := next;
        col := col + 1;
      }
      if col < SECTION_COLUMNS {
        ghost var p := row * SECTION_COLUMNS + col;
        BudgetExhausted(before, k, p, (row + 1) * SECTION_COLUMNS);
        MirrorFinished(cur, before, k, p, (row + 1) * SECTION_COLUMNS);
      }
    }

    function GetHealth(): int
      reads this
    {
      currentHealth
    }

    predicate IsDestroyed()
      reads this
    {
      currentHealth <= 0
    }

    /** Back to full health with every mark cleared; the active flag is left as it was. */
    method Repair()
      requires Valid()
      modifies this`currentHealth, damageSections
      ensures Valid() && currentHealth == MAX_HEALTH
      ensures forall i :: 0 <= i < SECTION_COUNT ==> !Cells()[i]
    {
      var row := 0;
      while row < SECTION_ROWS
        invariant 0 <= row <= SECTION_ROWS
        invariant forall r, c :: 0 <= r < row && 0 <= c < SECTION_COLUMNS ==> !damageSections[r, c]
      {
        var col := 0;
        while col < SECTION_COLUMNS
          invariant 0 <= col <= SECTION_COLUMNS
          invariant forall r, c :: 0 <= r < row && 0 <= c < SECTION_COLUMNS ==> !damageSections[r, c]
          invariant forall c :: 0 <= c < col ==> !damageSections[row, c]
        {
          damageSections[row, col] := false;
          col := col + 1;
        }
        row := row + 1;
      }
      currentHealth := MAX_HEALTH;
      forall i | 0 <= i < SECTION_COUNT ensures !Cells()[i] {
        RowMajor(i / SECTION_COLUMNS, i % SECTION_COLUMNS);
      }
    }

    method Destroy()
      modifies obj`active, this`currentHealth
      ensures !obj.active && currentHealth == 0
    {
      obj.active := false;
      currentHealth := 0;
    }
  }
}
