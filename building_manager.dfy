// The row of protective buildings: five of them, evenly spaced along one
// line; destroyed ones are dropped on the next update, and projectiles are
// checked against the standing ones in order.
module BuildingManagers {
  import opened GameTypes
  import opened GameConstants
  import opened GameObjects
  import opened SeqUtil
  import opened Buildings

  /** Whether each building of `bs` is still standing. */
  function Standing(bs: seq<Building>): (m: seq<bool>)
    reads set i | 0 <= i < |bs| :: bs[i].obj
    ensures |m| == |bs| && forall i :: 0 <= i < |bs| ==> m[i] == bs[i].obj.active
  {
    if bs == [] then [] else Standing(bs[..|bs| - 1]) + [bs[|bs| - 1].obj.active]
  }

  /** The projectile box `r` strictly overlaps the standing building `b`. */
  predicate Hit(b: Building, r: Rect)
    reads b.obj
  {
    b.obj.active && Overlapping(r, b.obj.Bounds())
  }

  /** Building `i` of `bs` is the first that the box `r` hits. */
  predicate FirstHit(bs: seq<Building>, i: int, r: Rect)
    reads set k | 0 <= k < |bs| :: bs[k].obj
  {
    0 <= i < |bs| && Hit(bs[i], r) && forall j :: 0 <= j < i ==> !Hit(bs[j], r)
  }

  /** The point (x, y) lies inside or on the edge of the standing building `b`. */
  predicate Covers(b: Building, x: real, y: real)
    reads b.obj
  {
    b.obj.active &&
    b.obj.x <= x <= b.obj.x + b.obj.width && b.obj.y <= y <= b.obj.y + b.obj.height
  }

  /** Kept keeps every element exactly when every mark is set, and none
      exactly when none is. */
  lemma {:induction false} KeptLength<T>(s: seq<T>, m: seq<bool>)
    requires |s| == |m|
    ensures |Kept(s, m)| == |s| <==> forall i :: 0 <= i < |m| ==> m[i]
    ensures |Kept(s, m)| == 0 <==> forall i :: 0 <= i < |m| ==> !m[i]
  {
    if s != [] {
      KeptLength(s[1..], m[1..]);
      assert forall i :: 0 < i < |m| ==> m[1..][i - 1] == m[i];
    }
  }

  class BuildingManager {
    var buildings: seq<Building>
    ghost var Repr: set<object>

    /** The buildings are distinct, each with its own box and damage grid,
        all owned by the manager, and each is in a consistent state. */
    ghost predicate Valid()
      reads this, Repr
    {
      this in Repr && NoDup(buildings) &&
      (forall i :: 0 <= i < |buildings| ==>
        buildings[i] in Repr && buildings[i].obj in Repr && buildings[i].damageSections in Repr &&
        buildings[i].Valid()) &&
      (forall i, j :: 0 <= i < j < |buildings| ==> buildings[i].obj != buildings[j].obj)
    }

    /** The opening row. */
    ghost predicate StartingRow()
      reads this, buildings, set i | 0 <= i < |buildings| :: buildings[i].obj
    {
      |buildings| == BUILDING_COUNT &&
      forall i :: 0 <= i < |buildings| ==>
        buildings[i].obj.x == BUILDING_START_X + i as real * BUILDING_SPACING_X &&
        buildings[i].obj.y == BUILDING_Y && buildings[i].obj.active &&
        buildings[i].obj.width == BUILDING_WIDTH && buildings[i].obj.height == BUILDING_HEIGHT &&
        buildings[i].currentHealth == MAX_HEALTH
    }

    constructor ()
      ensures Valid() && fresh(Repr) && StartingRow()
    {
      buildings := [];
      Repr := {this};
      new;
      InitializeBuildings();
    }

    /** Builds a new row of five buildings in place of the old one. */
    method InitializeBuildings()
      requires this in Repr
      modifies this`buildings, this`Repr
      ensures Valid() && StartingRow() && fresh(Repr - old(Repr))
      ensures forall i :: 0 <= i < |buildings| ==> fresh(buildings[i]) && fresh(buildings[i].obj)
    {
      buildings := [];
      var i := 0;
      while i < BUILDING_COUNT
        invariant 0 <= i <= BUILDING_COUNT && |buildings| == i && this in Repr
        invariant fresh(Repr - old(Repr))
        invariant Valid()
        invariant forall k :: 0 <= k < i ==>
          fresh(buildings[k]) && fresh(buildings[k].obj) &&
          buildings[k].obj.x == BUILDING_START_X + k as real * BUILDING_SPACING_X &&
          buildings[k].obj.y == BUILDING_Y && buildings[k].obj.active &&
          buildings[k].obj.width == BUILDING_WIDTH && buildings[k].obj.height == BUILDING_HEIGHT &&
          buildings[k].currentHealth == MAX_HEALTH
      {
        var x := BUILDING_START_X + i as real * BUILDING_SPACING_X;
        var y := BUILDING_Y;
        var building := new Building(x, y);
        buildings := buildings + [building];
        Repr := Repr + {building, building.obj, building.damageSections};
        i := i + 1;
      }
    }

    /** Lets every standing building settle its state, then keeps only the
        buildings still standing, in order. */
    method Update()
      requires Valid()
      modifies set i | 0 <= i < |buildings| :: buildings[i].obj
      modifies this`buildings
      ensures Valid() && Repr == old(Repr)
      ensures forall b :: b in old(buildings) ==> b.obj.active == (old(b.obj.active) && b.currentHealth > 0)
      ensures buildings == Kept(old(buildings), Standing(old(buildings)))
    {
      SettleAll();
      DropFallen();
    }

    /** The loop of update: each standing building settles its state. */
    method SettleAll()
      requires Valid()
      modifies set i | 0 <= i < |buildings| :: buildings[i].obj
      ensures Valid()
      ensures forall k :: 0 <= k < |buildings| ==>
        buildings[k].obj.active == (old(buildings[k].obj.active) && buildings[k].currentHealth > 0)
    {
      var i := 0;
      while i < |buildings|
        invariant 0 <= i <= |buildings| && Valid()
        invariant forall k :: 0 <= k < i ==>
          buildings[k].obj.active == (old(buildings[k].obj.active) && buildings[k].currentHealth > 0)
        invariant forall k :: i <= k < |buildings| ==> buildings[k].obj.active == old(buildings[k].obj.active)
      {
        var building := buildings[i];
        if building.obj.active {
          building.Update();
        }
        i := i + 1;
      }
    }

    /** The filter of update: only the standing buildings stay, in order. */
    method DropFallen()
      requires Valid()
      modifies this`buildings
      ensures Valid()
      ensures buildings == Kept(old(buildings), Standing(old(buildings)))
    {
      ghost var all := buildings;
      buildings := Kept(buildings, Standing(buildings));
      forall b | b in buildings
        ensures b in Repr && b.obj in Repr && b.damageSections in Repr && b.Valid()
      {
        KeptMembers(all, Standing(all), b);
      }
      KeptNoDup(all, Standing(all));
      KeptDistinctObjs(all, Standing(all));
    }

    /** The buildings still standing, in order. */
    function GetBuildings(): (r: seq<Building>)
      requires Valid()
      reads this, Repr
      ensures forall k :: 0 <= k < |r| ==> r[k] in buildings && r[k].obj.active
      ensures forall i :: 0 <= i < |buildings| && buildings[i].obj.active ==> buildings[i] in r
    {
      var r := Kept(buildings, Standing(buildings));
      assert forall k :: 0 <= k < |r| ==> r[k] in buildings && r[k].obj.active by {
        forall k | 0 <= k < |r| ensures r[k] in buildings && r[k].obj.active {
          KeptMembers(buildings, Standing(buildings), r[k]);
        }
      }
      assert forall i :: 0 <= i < |buildings| && buildings[i].obj.active ==> buildings[i] in r by {
        forall i | 0 <= i < |buildings| && buildings[i].obj.active ensures buildings[i] in r {
          KeptMembers(buildings, Standing(buildings), buildings[i]);
        }
      }
      r
    }

    function GetAllBuildings(): (r: seq<Building>)
      reads this
      ensures r == buildings
    {
      buildings
    }

    /** The first standing building, in list order, that the box strictly overlaps. */
    method CheckCollisionWithProjectile(x: real, y: real, width: real, height: real) returns (r: Option<Building>)
      requires Valid()
      ensures r.None? <==> forall i :: 0 <= i < |buildings| ==> !Hit(buildings[i], Rect(x, y, width, height))
      ensures r.Some? ==> exists i :: FirstHit(buildings, i, Rect(x, y, width, height)) && buildings[i] == r.value
    {
      var i := 0;
      while i < |buildings|
        invariant 0 <= i <= |buildings|
        invariant forall j :: 0 <= j < i ==> !Hit(buildings[j], Rect(x, y, width, height))
      {
        var building := buildings[i];
        if building.obj.active {
          var bounds := building.obj.Bounds();
          if x < bounds.x + bounds.width && x + width > bounds.x && y < bounds.y + bounds.height && y + height > bounds.y {
            return Some(building);
          }
        }
        i := i + 1;
      }
      return None;
    }

    /** Builds a fresh row. */
    method Reset()
      requires Valid()
      modifies this`buildings, this`Repr
      ensures Valid() && StartingRow() && fresh(Repr - old(Repr))
      ensures forall i :: 0 <= i < |buildings| ==> fresh(buildings[i]) && fresh(buildings[i].obj)
    {
      InitializeBuildings();
    }

    /** How many buildings stand: the number of listed buildings in play,
        so all of them exactly when every listed building is standing and
        none exactly when none is. */
    function GetBuildingCount(): (n: nat)
      reads this, set i | 0 <= i < |buildings| :: buildings[i].obj
      ensures n == |set i | 0 <= i < |buildings| && buildings[i].obj.active|
      ensures n <= |buildings|
      ensures n == |buildings| <==> forall i :: 0 <= i < |buildings| ==> buildings[i].obj.active
      ensures n == 0 <==> forall i :: 0 <= i < |buildings| ==> !buildings[i].obj.active
    {
      var m := Standing(buildings);
      KeptLength(buildings, m);
      KeptCount(buildings, m);
      assert (set i | 0 <= i < |m| && m[i]) == set i | 0 <= i < |buildings| && buildings[i].obj.active;
      |Kept(buildings, m)|
    }

    /** Whether a standing building covers the point, its edges included. */
    method IsAnyBuildingAtPosition(x: real, y: real) returns (r: bool)
      ensures r <==> exists i :: 0 <= i < |buildings| && Covers(buildings[i], x, y)
    {
      var i := 0;
      while i < |buildings|
        invariant 0 <= i <= |buildings|
        invariant forall j :: 0 <= j < i ==> !Covers(buildings[j], x, y)
      {
        var building := buildings[i];
        if building.obj.active {
          var bounds := building.obj.Bounds();
          if x >= bounds.x && x <= bounds.x + bounds.width && y >= bounds.y && y <= bounds.y + bounds.height {
            return true;
          }
        }
        i := i + 1;
      }
      return false;
    }
  }

  /** Kept of a list without repeats has none. */
  lemma {:induction false} KeptNoDup<T>(s: seq<T>, m: seq<bool>)
    requires |s| == |m| && NoDup(s)
    ensures NoDup(Kept(s, m))
  {
    if s != [] {
      NoDupSplit([s[0]], s[1..]);
      assert [s[0]] + s[1..] == s;
      KeptNoDup(s[1..], m[1..]);
      forall x | x in Kept(s[1..], m[1..]) ensures x != s[0] {
        KeptMembers(s[1..], m[1..], x);
      }
      NoDupJoin(if m[0] then [s[0]] else [], Kept(s[1..], m[1..]));
    }
  }

  /** Kept of buildings with distinct boxes keeps them distinct. */
  lemma {:induction false} KeptDistinctObjs(s: seq<Building>, m: seq<bool>)
    requires |s| == |m| && NoDup(s)
    requires forall i, j :: 0 <= i < j < |s| ==> s[i].obj != s[j].obj
    ensures forall i, j :: 0 <= i < j < |Kept(s, m)| ==> Kept(s, m)[i].obj != Kept(s, m)[j].obj
  {
    if s != [] {
      KeptDistinctObjs(s[1..], m[1..]);
      var t := Kept(s[1..], m[1..]);
      forall k | 0 <= k < |t| ensures t[k].obj != s[0].obj {
        KeptMembers(s[1..], m[1..], t[k]);
      }
    }
  }
}
