/** Atlas regions (`VirtualTexture2D`): a rectangle inside a shared texture,
    with the clamped derivation of child regions and the blit a region issues
    when it is rendered. A region is set once at construction and never
    changed, so it is a value here. */
module VirtualTextures {
  import opened Framework

  /** One atlas region. `width` and `height` are the cached size: for a root
      region they equal the rectangle's, for a derived region they are the
      size that was requested, which may differ from the clamped rectangle. */
  datatype VirtualTexture = VirtualTexture(texture: Texture, source: Rect, width: int, height: int)

  /** The rectangle of the whole texture. */
  function TextureBounds(t: Texture): Rect {
    Rect(0, 0, t.width, t.height)
  }

  /** A region whose rectangle has no negative size, lies inside its texture
      and fits in 32-bit integers: what every region built from a texture by
      the constructors with non-negative offsets satisfies. */
  predicate ValidRegion(v: VirtualTexture) {
    v.source.NonNegativeSize()
    && v.source.Within(TextureBounds(v.texture))
    && v.source.IsInt32Rect()
  }

  /** The root constructor: a region covering the whole texture. */
  function FromTexture(t: Texture): (v: VirtualTexture)
    requires IsInt32(t.width) && IsInt32(t.height)
    ensures v.texture == t
    ensures v.source == TextureBounds(t)
    ensures v.width == v.source.width && v.height == v.source.height
    ensures ValidRegion(v)
  {
    var rect := TextureBounds(t);
    VirtualTexture(t, rect, rect.width, rect.height)
  }

  /** Every intermediate of GetRelativeSourceRectangle stays in the 32-bit
      range, so the source's `int` arithmetic does not wrap. */
  predicate NoOverflow(parent: Rect, x: int, y: int, width: int, height: int) {
    parent.IsInt32Rect()
    && IsInt32(x) && IsInt32(y) && IsInt32(width) && IsInt32(height)
    && IsInt32(parent.x + x) && IsInt32(parent.y + y)
    && IsInt32(parent.x + x + width) && IsInt32(parent.y + y + height)
    && IsInt32(Min(parent.x + x + width, parent.Right()) - (parent.x + x))
    && IsInt32(Min(parent.y + y + height, parent.Bottom()) - (parent.y + y))
  }

  /** The child rectangle at offset (x, y) and size (width, height) relative to
      `parent`. The origin is translated and clamped into the parent, while
      the size is cut against the parent's right and bottom edges measured
      from the UNCLAMPED origin. */
  function RelativeSourceRectangle(parent: Rect, x: int, y: int, width: int, height: int): (r: Rect)
    requires NoOverflow(parent, x, y, width, height)
    ensures IsInt32(r.x) && IsInt32(r.y) && IsInt32(r.width) && IsInt32(r.height)
    ensures r.NonNegativeSize()
    ensures parent.NonNegativeSize() ==>
              parent.Left() <= r.x <= parent.Right() && parent.Top() <= r.y <= parent.Bottom()
  {
    var baseX := parent.x + x;
    var baseY := parent.y + y;
    var relativeX := Clamp(baseX, parent.Left(), parent.Right());
    var relativeY := Clamp(baseY, parent.Top(), parent.Bottom());
    var relativeWidth := Max(0, Min(baseX + width, parent.Right()) - baseX);
    var relativeHeight := Max(0, Min(baseY + height, parent.Bottom()) - baseY);
    Rect(relativeX, relativeY, relativeWidth, relativeHeight)
  }

  /** The derived constructor: shares the parent's texture, takes its
      rectangle from the parent, and caches the REQUESTED size. */
  function Derive(parent: VirtualTexture, x: int, y: int, width: int, height: int): (v: VirtualTexture)
    requires NoOverflow(parent.source, x, y, width, height)
    ensures v.texture == parent.texture
    ensures v.source == RelativeSourceRectangle(parent.source, x, y, width, height)
    ensures v.width == width && v.height == height
  {
    VirtualTexture(parent.texture, RelativeSourceRectangle(parent.source, x, y, width, height), width, height)
  }

  /** The one call a region makes on the rendering backend: draw `texture`'s
      `source` rectangle at `position`, tinted by `color`. */
  datatype Blit = Blit(texture: Texture, source: Rect, position: Vec2, color: Color)

  /** Rendering a region issues one blit of its rectangle at `position`;
      for a valid region the blitted rectangle lies inside the texture drawn
      from, so the backend never reads outside it. */
  function Render(v: VirtualTexture, position: Vec2, color: Color): (b: Blit)
    ensures b.texture == v.texture && b.source == v.source
    ensures b.position == position && b.color == color
    ensures ValidRegion(v) ==> b.source.NonNegativeSize() && b.source.Within(TextureBounds(b.texture))
  {
    Blit(v.texture, v.source, position, color)
  }

  // ---------------------------------------------------------------------
  // Properties of the derivation

  /** With non-negative offsets and a parent of non-negative size, the child
      rectangle lies inside the parent. */
  lemma RelativeWithinParent(parent: Rect, x: int, y: int, width: int, height: int)
    requires NoOverflow(parent, x, y, width, height)
    requires parent.NonNegativeSize() && x >= 0 && y >= 0
    ensures RelativeSourceRectangle(parent, x, y, width, height).Within(parent)
  {
  }

  /** An offset at or beyond the parent's width leaves a zero-wide child whose
      origin sits on the parent's right edge; likewise for the height. */
  lemma OffsetBeyondParent(parent: Rect, x: int, y: int, width: int, height: int)
    requires NoOverflow(parent, x, y, width, height)
    requires parent.NonNegativeSize()
    ensures var r := RelativeSourceRectangle(parent, x, y, width, height);
            (x >= parent.width ==> r.width == 0 && r.x == parent.Right())
            && (y >= parent.height ==> r.height == 0 && r.y == parent.Bottom())
  {
  }

  /** A request that fits inside the parent is translated and not clipped. */
  lemma RelativeWithoutClipping(parent: Rect, x: int, y: int, width: int, height: int)
    requires NoOverflow(parent, x, y, width, height)
    requires 0 <= x && 0 <= width && x + width <= parent.width
    requires 0 <= y && 0 <= height && y + height <= parent.height
    ensures RelativeSourceRectangle(parent, x, y, width, height)
            == Rect(parent.x + x, parent.y + y, width, height)
  {
  }

  /** A negative offset moves the origin to the parent's edge but does not
      shorten the child: the size is measured from the unclamped origin. */
  lemma NegativeOffsetKeepsSize(parent: Rect, x: int, y: int, width: int, height: int)
    requires NoOverflow(parent, x, y, width, height)
    requires parent.NonNegativeSize()
    requires x < 0 && 0 <= width && x + width <= parent.width
    ensures var r := RelativeSourceRectangle(parent, x, y, width, height);
            r.x == parent.Left() && r.width == width
  {
  }

  /** So containment fails for negative offsets: a request starting left of the
      parent and reaching its right edge sticks out past that edge. */
  lemma NegativeOffsetEscapesParent(parent: Rect, x: int, y: int, width: int, height: int)
    requires NoOverflow(parent, x, y, width, height)
    requires parent.NonNegativeSize()
    requires x < 0 && x + width >= parent.width
    ensures var r := RelativeSourceRectangle(parent, x, y, width, height);
            r.Right() > parent.Right() && !r.Within(parent)
  {
  }

  /** Deriving inside a derived rectangle equals one derivation from the
      grandparent when neither request needs clipping. */
  lemma NestedWithoutClipping(parent: Rect, x1: int, y1: int, w1: int, h1: int,
                              x2: int, y2: int, w2: int, h2: int)
    requires NoOverflow(parent, x1, y1, w1, h1)
    requires 0 <= x1 && 0 <= w1 && x1 + w1 <= parent.width
    requires 0 <= y1 && 0 <= h1 && y1 + h1 <= parent.height
    requires 0 <= x2 && 0 <= w2 && x2 + w2 <= w1
    requires 0 <= y2 && 0 <= h2 && y2 + h2 <= h1
    ensures NoOverflow(RelativeSourceRectangle(parent, x1, y1, w1, h1), x2, y2, w2, h2)
    ensures NoOverflow(parent, x1 + x2, y1 + y2, w2, h2)
    ensures RelativeSourceRectangle(RelativeSourceRectangle(parent, x1, y1, w1, h1), x2, y2, w2, h2)
            == RelativeSourceRectangle(parent, x1 + x2, y1 + y2, w2, h2)
  {
    RelativeWithoutClipping(parent, x1, y1, w1, h1);
    var child := Rect(parent.x + x1, parent.y + y1, w1, h1);
    assert NoOverflow(child, x2, y2, w2, h2);
    RelativeWithoutClipping(child, x2, y2, w2, h2);
    assert NoOverflow(parent, x1 + x2, y1 + y2, w2, h2);
    RelativeWithoutClipping(parent, x1 + x2, y1 + y2, w2, h2);
  }

  /** With clipping, nesting and one direct derivation differ: a child cut
      at the parent's left edge, then a grandchild from it, is narrower than
      the equivalent direct request, which is not shortened. */
  lemma NestedClippedDiffers(t: Texture)
    requires t.width == 128 && t.height == 128
    ensures var child := Derive(FromTexture(t), -10, 0, 20, 32);
            child.source == Rect(0, 0, 20, 32)
            && Derive(child, 5, 0, 20, 32).source == Rect(5, 0, 15, 32)
            && Derive(FromTexture(t), -10 + 5, 0 + 0, 20, 32).source == Rect(0, 0, 20, 32)
  {
    var root := FromTexture(t);
    assert root.source == Rect(0, 0, 128, 128);
    assert Derive(root, -10, 0, 20, 32).source == Rect(0, 0, 20, 32);
  }

  // ---------------------------------------------------------------------
  // Properties of the constructors

  /** A region derived with non-negative offsets from a valid region is valid
      and lies inside its parent's rectangle. */
  lemma DeriveKeepsValid(parent: VirtualTexture, x: int, y: int, width: int, height: int)
    requires ValidRegion(parent)
    requires NoOverflow(parent.source, x, y, width, height)
    requires x >= 0 && y >= 0
    ensures ValidRegion(Derive(parent, x, y, width, height))
    ensures Derive(parent, x, y, width, height).source.Within(parent.source)
  {
    RelativeWithinParent(parent.source, x, y, width, height);
  }

  /** A 64x64 request at (96, 96) of a 128x128 texture is clipped to 32x32,
      while the region still reports the requested 64x64. */
  lemma ClippedCornerExample(t: Texture)
    requires t.width == 128 && t.height == 128
    ensures var v := Derive(FromTexture(t), 96, 96, 64, 64);
            v.source == Rect(96, 96, 32, 32) && v.width == 64 && v.height == 64
  {
  }

  /** A 32x32 request at (-10, 0) of a 128x128 texture is moved to the origin
      and keeps its full 32x32 size. */
  lemma NegativeOffsetExample(t: Texture)
    requires t.width == 128 && t.height == 128
    ensures Derive(FromTexture(t), -10, 0, 32, 32).source == Rect(0, 0, 32, 32)
  {
    assert FromTexture(t).source == Rect(0, 0, 128, 128);
  }

  /** A request lying entirely left of the parent is not emptied: a 10x32
      request at (-50, 0) of a 128x128 texture becomes a 10x32 region on the
      left edge, while one entirely right of it has width 0
      (`OffsetBeyondParent`). */
  lemma LeftOfParentExample(t: Texture)
    requires t.width == 128 && t.height == 128
    ensures Derive(FromTexture(t), -50, 0, 10, 32).source == Rect(0, 0, 10, 32)
    ensures Derive(FromTexture(t), 150, 0, 10, 32).source == Rect(128, 0, 0, 32)
  {
    assert FromTexture(t).source == Rect(0, 0, 128, 128);
  }
}
