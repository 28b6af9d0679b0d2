/** The few value types of the game framework that the sprite bookkeeping uses:
    integer rectangles with their derived edges, 2D positions, colours, texture
    handles, and the integer helpers Clamp, Min and Max; plus the facts about
    Euclidean division that frame wrapping and grid indexing rely on. */
module Framework {

  /** The range of a 32-bit signed integer (C# `int`). */
  const Int32Min: int := -0x8000_0000
  const Int32Max: int := 0x7FFF_FFFF

  predicate IsInt32(v: int) {
    Int32Min <= v <= Int32Max
  }

  /** An axis-aligned integer rectangle; Right and Bottom are exclusive edges. */
  datatype Rect = Rect(x: int, y: int, width: int, height: int) {
    function Left(): int { x }
    function Top(): int { y }
    function Right(): int { x + width }
    function Bottom(): int { y + height }

    /** The rectangle and its right and bottom edges fit in 32-bit integers. */
    predicate IsInt32Rect() {
      IsInt32(x) && IsInt32(y) && IsInt32(width) && IsInt32(height)
      && IsInt32(Right()) && IsInt32(Bottom())
    }

    /** Neither dimension is negative. */
    predicate NonNegativeSize() {
      width >= 0 && height >= 0
    }

    /** This rectangle lies inside `outer` (edges may touch). */
    predicate Within(outer: Rect) {
      outer.Left() <= Left() && Right() <= outer.Right()
      && outer.Top() <= Top() && Bottom() <= outer.Bottom()
    }
  }

  /** A position in screen space. The source uses single-precision floats;
      positions are only copied, so exact reals are enough. */
  datatype Vec2 = Vec2(x: real, y: real)

  /** An RGBA colour; only White is used by the tiles. */
  datatype Color = Color(r: int, g: int, b: int, a: int)

  const White: Color := Color(255, 255, 255, 255)

  /** An opaque handle on a loaded texture, with its pixel size. */
  datatype Texture = Texture(id: nat, width: nat, height: nat)

  /** The integer clamp of the game framework: first cut to `max`, then raise to
      `min`, so `min` wins when the bounds are crossed. */
  function Clamp(value: int, min: int, max: int): (r: int)
    ensures min <= max ==> min <= r <= max
    ensures min <= value <= max ==> r == value
    ensures min > max ==> r == min
  {
    var v := if value > max then max else value;
    if v < min then min else v
  }

  function Min(a: int, b: int): (r: int)
    ensures r <= a && r <= b && (r == a || r == b)
  {
    if a <= b then a else b
  }

  function Max(a: int, b: int): (r: int)
    ensures r >= a && r >= b && (r == a || r == b)
  {
    if a >= b then a else b
  }

  // ---------------------------------------------------------------------
  // Facts about Euclidean division

  /** Euclidean remainder is unique. */
  lemma ModUnique(a: int, n: int, q: int, r: int)
    requires n > 0 && 0 <= r < n && a == q * n + r
    ensures a % n == r
  {
    var q', r' := a / n, a % n;
    assert a == q' * n + r';
    if q > q' {
      MulAtLeast(q - q', n);
      assert false;
    } else if q < q' {
      MulAtLeast(q' - q, n);
      assert false;
    }
  }

  lemma MulAtLeast(d: int, n: int)
    requires d >= 1 && n > 0
    ensures d * n >= n
  {
  }

  /** Stepping to the next index and wrapping to 0 at `n` is the successor
      modulo `n`. */
  lemma ModNext(j: nat, n: int)
    requires n > 0
    ensures (if j % n + 1 >= n then 0 else j % n + 1) == (j + 1) % n
  {
    var q, r := j / n, j % n;
    assert j == q * n + r;
    if r + 1 < n {
      ModUnique(j + 1, n, q, r + 1);
    } else {
      assert j + 1 == (q + 1) * n + 0;
      ModUnique(j + 1, n, q + 1, 0);
    }
  }
}
