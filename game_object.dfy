// The state every entity shares: position, fixed extent, velocity, the
// active flag, render layer, colour and kind tag.  Each entity class holds
// one GameObject in place of extending a base class.
module GameObjects {
  import opened GameTypes

  /** Inclusive box contact: boxes that only share an edge count. */
  predicate Touching(a: Rect, b: Rect) {
    !(a.x + a.width < b.x || b.x + b.width < a.x ||
      a.y + a.height < b.y || b.y + b.height < a.y)
  }

  /** Strict box overlap: boxes that only share an edge do not count. */
  predicate Overlapping(a: Rect, b: Rect) {
    a.x < b.x + b.width && a.x + a.width > b.x &&
    a.y < b.y + b.height && a.y + a.height > b.y
  }

  lemma {:induction false} TouchingSymmetric(a: Rect, b: Rect)
    ensures Touching(a, b) <==> Touching(b, a)
  {
  }

  lemma {:induction false} OverlappingSymmetric(a: Rect, b: Rect)
    ensures Overlapping(a, b) <==> Overlapping(b, a)
  {
  }

  /** Strict overlap is the stronger test; the two differ exactly on boxes that only meet at an edge. */
  lemma {:induction false} OverlappingImpliesTouching(a: Rect, b: Rect)
    ensures Overlapping(a, b) ==> Touching(a, b)
    ensures Touching(a, b) && !Overlapping(a, b) ==>
      a.x + a.width == b.x || b.x + b.width == a.x || a.y + a.height == b.y || b.y + b.height == a.y
  {
  }

  /** Two boxes placed side by side touch but do not overlap. */
  lemma {:induction false} SideBySideTouchOnly(a: Rect, b: Rect)
    requires b.x == a.x + a.width && a.width >= 0.0 && b.width >= 0.0
    requires a.y == b.y && a.height > 0.0 && b.height > 0.0
    ensures Touching(a, b) && !Overlapping(a, b)
  {
  }

  class GameObject {
    var x: real
    var y: real
    const width: real
    const height: real
    var vx: real
    var vy: real
    var active: bool
    var layer: int
    var color: string
    const kind: Kind

    constructor (x: real, y: real, width: real, height: real, kind: Kind)
      ensures this.x == x && this.y == y && this.width == width && this.height == height
      ensures this.kind == kind && active && vx == 0.0 && vy == 0.0
      ensures layer == LAYER_BACKGROUND && color == "#ffffff"
    {
      this.x := x;
      this.y := y;
      this.width := width;
      this.height := height;
      vx := 0.0;
      vy := 0.0;
      active := true;
      layer := LAYER_BACKGROUND;
      color := "#ffffff";
      this.kind := kind;
    }

    function Bounds(): Rect
      reads this
    {
      Rect(x, y, width, height)
    }

    method SetPosition(x: real, y: real)
      modifies this`x, this`y
      ensures this.x == x && this.y == y
    {
      this.x := x;
      this.y := y;
    }

    method SetVelocity(vx: real, vy: real)
      modifies this`vx, this`vy
      ensures this.vx == vx && this.vy == vy
    {
      this.vx := vx;
      this.vy := vy;
    }

    /** Contact test with edges included (the entities' own collision test). */
    predicate IsColliding(other: GameObject)
      reads this, other
    {
      Touching(Bounds(), other.Bounds())
    }

    method SetColor(color: string)
      modifies this`color
      ensures this.color == color
    {
      this.color := color;
    }

    method Destroy()
      modifies this`active
      ensures !active
    {
      active := false;
    }

    /** Entirely outside a canvas of the given size. */
    predicate IsOffScreen(canvasWidth: real, canvasHeight: real)
      reads this
    {
      x + width < 0.0 || x > canvasWidth || y + height < 0.0 || y > canvasHeight
    }
  }

  /** The colliding test is symmetric and agrees with the inclusive box test. */
  lemma {:induction false} IsCollidingSymmetric(a: GameObject, b: GameObject)
    ensures a.IsColliding(b) <==> b.IsColliding(a)
  {
  }
}
