# Sprite bookkeeping of the 2D lighting example

This project models the CPU-side sprite bookkeeping of Example 04 (simple 2D
lighting) of a MonoGame shader tutorial series, and proves properties of it in
Dafny:

- **Atlas regions** (`VirtualTexture2D`, `virtual_texture.dfy`): an integer
  rectangle inside a shared texture. A root region covers the whole texture.
  A derived region takes its rectangle from its parent's
  `GetRelativeSourceRectangle`: the offset is translated and the origin clamped
  into the parent, and the size is cut against the parent's right and bottom
  edges. The cut is measured from the unclamped origin, as the code does. A
  region is immutable, so it is a datatype; rendering it is one abstract
  `Blit` event (texture, source rectangle, position, colour).
- **Tile objects** (`GameObject`, `Tile`, `AnimatedTile`,
  `game_objects.dfy`): one class `GameObjects.GameObject` whose position is
  updated in place by setters. The constant tag `kind` says whether it is a
  static tile (one region) or an animated tile (frames and a delay). Named
  constructors `Tile` and `AnimatedTile` stand for the two subclasses, and
  `Update`/`Draw` dispatch on the tag as the virtual methods do. The animated
  tile's timer and frame index are fields, and each update is specified by
  the pure state machine `Step`: accumulate time; once the timer reaches the
  delay, reset it to exactly 0 and move to the next frame, wrapping to 0.
- **The tile map** (`Game1.LoadContent` and `Game1.Update`, `tile_map.dfy`):
  - four slicing loops cut 3 wall, 4 ground, 3 top-wall and 4 fire cells of
    32x32 from atlas rows 0, 32, 64 and 96;
  - a nested row/column loop fills the 20x11 grid in row-major order with
    wall, top-wall or ground tiles whose region is picked at random;
  - four animated fire tiles overwrite grid slots 42, 57, 162 and 177 and are
    also kept in the fire list;
  - every frame, only the fire tiles are updated.
- **Framework values** (`framework.dfy`): `Rectangle` (with `Right = X + Width`
  and `Bottom = Y + Height`), `Vector2`, `Color`, texture handles,
  `MathHelper.Clamp`, `Math.Min` and `Math.Max`, as integer functions.
  The framework's own source for `MathHelper.Clamp` is not part of this
  model; the integer clamp is defined the way the framework's integer
  overload behaves: cut to the maximum, then raise to the minimum.

Behaviour of the code worth knowing, which the model keeps:

- Containment. Containment is guaranteed only for non-negative offsets
  (`RelativeWithinParent`). A negative offset moves the origin to the parent's
  edge, but the size is still measured from the unclamped origin. The part
  left of the edge is therefore not cut off, and the region can stick out
  past the right or bottom edge (`NegativeOffsetKeepsSize`,
  `NegativeOffsetEscapesParent`). For example, `(-10, 0, 32, 32)` on a
  128x128 root gives `(0, 0, 32, 32)`, not a narrower rectangle
  (`NegativeOffsetExample`). The clipping is asymmetric: a request lying
  entirely right of or below the parent gets width or height 0
  (`OffsetBeyondParent`), but one lying entirely left of or above it keeps
  its size on the parent's left or top edge; `(-50, 0, 10, 32)` on a 128x128
  root gives `(0, 0, 10, 32)` (`LeftOfParentExample`).
- Cached size. A root region caches its rectangle's width and height. A
  derived region caches the REQUESTED size, which differs from its rectangle's
  when the request was clipped (`ClippedCornerExample`).
- Nesting. Deriving a region from a derived region equals one direct
  derivation with the summed offsets when nothing is clipped
  (`NestedWithoutClipping`); with clipping the two can differ
  (`NestedClippedDiffers`).
- Empty frame lists. The `AnimatedTile` constructor does not check its frame
  list, so it accepts an empty one; `DrawAnimated` requires a non-empty one,
  since the code would index out of range there.

## Model

| member | source | states |
|---|---|---|
| VirtualTextures.FromTexture | source/Example04Simple2DLighting/VirtualTexture2D.cs:14-20 | the root region shares the texture, its rectangle is (0, 0, texture width, texture height), its cached size equals that rectangle's, and it is a valid region |
| VirtualTextures.RelativeSourceRectangle | source/Example04Simple2DLighting/VirtualTexture2D.cs:30-39 | for any inputs in the non-wrapping 32-bit range, the child has non-negative width and height; for a parent of non-negative size, the child's origin lies in [Left, Right] x [Top, Bottom] |
| VirtualTextures.Derive | source/Example04Simple2DLighting/VirtualTexture2D.cs:22-28 | the derived region shares the parent's texture, takes its rectangle from the parent's relative rectangle, and caches the requested width and height even when the rectangle was clipped |
| VirtualTextures.Render | source/Example04Simple2DLighting/VirtualTexture2D.cs:41-49 | rendering issues one blit of the region's own texture and rectangle at the given position and colour; for a valid region that rectangle has no negative size and lies inside the texture |
| VirtualTextures.RelativeWithinParent | source/Example04Simple2DLighting/VirtualTexture2D.cs:32-37 | with non-negative offsets and a parent of non-negative size, the child lies within the parent on all four edges |
| VirtualTextures.OffsetBeyondParent | source/Example04Simple2DLighting/VirtualTexture2D.cs:32-37 | an x offset at or past the parent's width gives width 0 with the origin on the right edge; likewise for y and height |
| VirtualTextures.RelativeWithoutClipping | source/Example04Simple2DLighting/VirtualTexture2D.cs:32-38 | a request that fits inside the parent comes back as the plain translation (parent.X + x, parent.Y + y, w, h) |
| VirtualTextures.NegativeOffsetKeepsSize | source/Example04Simple2DLighting/VirtualTexture2D.cs:32-36 | a negative x offset whose request ends at or before the parent's right edge clamps the origin to the left edge and keeps the requested width, since the width is measured from the unclamped origin |
| VirtualTextures.NegativeOffsetEscapesParent | source/Example04Simple2DLighting/VirtualTexture2D.cs:32-37 | a request with a negative x offset that reaches the parent's right edge sticks out past it, so containment fails for negative offsets |
| VirtualTextures.NestedWithoutClipping | source/Example04Simple2DLighting/VirtualTexture2D.cs:30-39 | deriving from a derived rectangle equals one derivation with the summed offsets when neither request is clipped |
| VirtualTextures.NestedClippedDiffers | source/Example04Simple2DLighting/VirtualTexture2D.cs:30-39 | on a 128x128 texture, a child (-10, 0, 20, 32) clipped at the left edge and then (5, 0, 20, 32) inside it gives (5, 0, 15, 32), while the direct request (-5, 0, 20, 32) gives (0, 0, 20, 32) |
| VirtualTextures.DeriveKeepsValid | source/Example04Simple2DLighting/VirtualTexture2D.cs:22-37 | a region derived with non-negative offsets from a valid region is valid and lies inside its parent's rectangle |
| VirtualTextures.ClippedCornerExample | source/Example04Simple2DLighting/VirtualTexture2D.cs:22-38 | (96, 96, 64, 64) on a 128x128 root gives the rectangle (96, 96, 32, 32) while the region caches 64x64 |
| VirtualTextures.NegativeOffsetExample | source/Example04Simple2DLighting/VirtualTexture2D.cs:22-38 | (-10, 0, 32, 32) on a 128x128 root gives (0, 0, 32, 32): the origin is clamped and the width is not reduced |
| GameObjects.Step | source/Example04Simple2DLighting/GameObjects/AnimatedTile.cs:21-34 | from a valid frame, one update either keeps the frame and adds dt to the timer, or moves to the next frame modulo the frame count and resets the timer to 0 |
| VirtualTextures.LeftOfParentExample | source/Example04Simple2DLighting/VirtualTexture2D.cs:32-37 | on a 128x128 root, (-50, 0, 10, 32), entirely left of the parent, gives the non-empty (0, 0, 10, 32), while (150, 0, 10, 32), entirely right of it, gives (128, 0, 0, 32) |
| GameObjects.StepAccumulates | source/Example04Simple2DLighting/GameObjects/AnimatedTile.cs:23-25 | below the delay an update only adds dt to the timer and keeps the frame |
| GameObjects.StepAdvancesOnce | source/Example04Simple2DLighting/GameObjects/AnimatedTile.cs:25-33 | at or past the delay an update sets the timer to exactly 0 and the frame to (frame + 1) mod frame count, however large dt is |
| GameObjects.StepMovesAtMostOneFrame | source/Example04Simple2DLighting/GameObjects/AnimatedTile.cs:25-33 | one update leaves the frame or moves it exactly one step forward modulo the frame count |
| GameObjects.StepKeepsFrameInRange | source/Example04Simple2DLighting/GameObjects/AnimatedTile.cs:28-32 | with a non-empty frame list, a valid frame index stays valid after an update, for any dt |
| GameObjects.StepKeepsSettled | source/Example04Simple2DLighting/GameObjects/AnimatedTile.cs:23-33 | with delay > 0, dt >= 0 and a non-negative timer, after an update the frame index is valid and 0 <= timer < delay |
| GameObjects.RunKeepsSettled | source/Example04Simple2DLighting/GameObjects/AnimatedTile.cs:21-34 | any sequence of non-negative updates from a settled state ends settled |
| GameObjects.RunWholeDelaysFrom | source/Example04Simple2DLighting/GameObjects/AnimatedTile.cs:23-32 | k updates of exactly the delay, starting on frame j mod n with an empty timer, end on frame (j + k) mod n with an empty timer |
| GameObjects.RunWholeDelays | source/Example04Simple2DLighting/GameObjects/AnimatedTile.cs:23-32 | from a fresh tile, k updates of exactly the delay show frame k mod n |
| GameObjects.ThreeShortUpdatesExample | source/Example04Simple2DLighting/GameObjects/AnimatedTile.cs:23-33 | with 4 frames and delay 0.15, three updates of 0.05 keep frame 0 twice and then move to frame 1 with the timer reset |
| GameObjects.GameObject.Tile | source/Example04Simple2DLighting/GameObjects/Tile.cs:10-14 | the new tile stores the given position and region unchanged |
| GameObjects.GameObject.AnimatedTile | source/Example04Simple2DLighting/GameObjects/AnimatedTile.cs:13-19 | the new animated tile stores the given frames, delay and position and starts on frame 0 with timer 0 |
| GameObjects.GameObject.GetPosition | source/Example04Simple2DLighting/GameObjects/GameObject.cs:11 | returns the stored position, i.e. the last value given to SetPosition |
| GameObjects.GameObject.SetPosition | source/Example04Simple2DLighting/GameObjects/GameObject.cs:12 | the position becomes exactly the given value; the animation state and the kind are unchanged |
| GameObjects.GameObject.GetX | source/Example04Simple2DLighting/GameObjects/GameObject.cs:17 | returns the x component of the position |
| GameObjects.GameObject.SetX | source/Example04Simple2DLighting/GameObjects/GameObject.cs:18 | replaces only the x component of the position; y and the animation state are kept |
| GameObjects.GameObject.GetY | source/Example04Simple2DLighting/GameObjects/GameObject.cs:23 | returns the y component of the position |
| GameObjects.GameObject.SetY | source/Example04Simple2DLighting/GameObjects/GameObject.cs:24 | replaces only the y component of the position; x and the animation state are kept |
| GameObjects.GameObject.BaseUpdate | source/Example04Simple2DLighting/GameObjects/GameObject.cs:27 | the default update changes nothing |
| GameObjects.GameObject.BaseDraw | source/Example04Simple2DLighting/GameObjects/GameObject.cs:28 | the default draw issues no blit |
| GameObjects.GameObject.UpdateAnimated | source/Example04Simple2DLighting/GameObjects/AnimatedTile.cs:21-34 | the new timer and frame are the Step of the old ones; the position is kept and the object invariant is preserved |
| GameObjects.GameObject.Update | source/Example04Simple2DLighting/GameObjects/GameObject.cs:27 | a static tile (which keeps the default update) is left unchanged; an animated tile takes one Step; the position is never touched |
| GameObjects.GameObject.DrawTile | source/Example04Simple2DLighting/GameObjects/Tile.cs:16-19 | issues exactly one blit of the tile's region at the current position in white, changing nothing |
| GameObjects.GameObject.DrawAnimated | source/Example04Simple2DLighting/GameObjects/AnimatedTile.cs:36-39 | with a non-empty frame list the current frame index is in range, and exactly one white blit of that frame at the current position is issued; timer and frame are unchanged |
| GameObjects.GameObject.Draw | source/Example04Simple2DLighting/GameObjects/GameObject.cs:28 | a static tile issues exactly the render of its region, an animated tile exactly the render of its current frame, once, in white at its current position (same texture, rectangle, position and colour) |
| TileMap.Cell | source/Example04Simple2DLighting/Game1.cs:101-130 | the region requested at (i*32, y, 32, 32) shares the atlas texture and caches size 32x32 |
| TileMap.CellUnclipped | source/Example04Simple2DLighting/Game1.cs:101-130 | when the atlas covers the 4 cells of the row, each region is exactly its unclipped 32x32 cell and is valid |
| TileMap.AtlasRow | source/Example04Simple2DLighting/Game1.cs:101-130 | a row of count cells has length count and holds cell i at position i |
| TileMap.SliceRow | source/Example04Simple2DLighting/Game1.cs:101-130 | each slicing loop fills a new array whose contents are exactly the cells of its atlas row |
| TileMap.RandomNext | source/Example04Simple2DLighting/Game1.cs:150-163 | the random pick lies in [0, n), so no region lookup is out of bounds |
| TileMap.NewGridTile | source/Example04Simple2DLighting/Game1.cs:143-166 | the loop body makes a new static tile at (column*32, row*32), starting fresh, whose region is one of the cells of its cell class (wall, top wall or ground) |
| TileMap.Classify | source/Example04Simple2DLighting/Game1.cs:148-164 | inside the grid, a cell is ground exactly when it is interior, top wall exactly when it is in row 0 away from the side columns, and a wall otherwise |
| TileMap.GridIndex | source/Example04Simple2DLighting/Game1.cs:135-171 | tileIndex = row * columnCount + column is inverted by division and remainder, so each index names one cell |
| TileMap.FillRow | source/Example04Simple2DLighting/Game1.cs:141-170 | the column loop of one row fills exactly that row's 20 slots with new tiles placed for their cells, and leaves every other slot as it was |
| TileMap.FillGrid | source/Example04Simple2DLighting/Game1.cs:134-171 | every one of the 20 * 11 slots gets a new static tile at (column*32, row*32) whose region comes from its cell class's array |
| TileMap.FireTilesOnGroundCells | source/Example04Simple2DLighting/Game1.cs:176-179 | slots 42, 57, 162 and 177 are distinct ground cells whose grid positions equal the positions given to the fire tiles |
| TileMap.PlaceFire | source/Example04Simple2DLighting/Game1.cs:176-179 | each fire line stores one new animated tile (fire frames, given delay and position, fresh state) both in its grid slot and in its fire-list slot, and changes no other slot of either |
| TileMap.PlaceFires | source/Example04Simple2DLighting/Game1.cs:173-179 | four new distinct animated tiles share the fire frames and delay 0.15, sit at their positions, are stored in their grid slots and the fire list, and no other slot changes |
| TileMap.Game.LoadContent | source/Example04Simple2DLighting/Game1.cs:100-179 | the grid, the fire list and every tile in the grid are newly allocated; the grid holds a static tile of the right class and position in every non-fire slot, and the four fire tiles are the very objects in slots 42, 57, 162 and 177 |
| TileMap.Game.Update | source/Example04Simple2DLighting/Game1.cs:191-199 | exactly the four fire tiles take one Step each, and every other tile is left unchanged |

## Left out

- The graphics device, render targets, shader parameters, blend states and
  `SpriteBatch.Begin/End`. `SpriteBatch.Draw` is only the abstract `Blit`
  event; pixels are not modelled.
- Example 04's `Draw` (light-mask placement is float vector arithmetic on
  mouse input), the `Game1` constructor (window setup), `Program.Main`, and
  `base.Update`. Examples 01-03 only load content and set shader parameters.
- `Content.Load`: the atlas texture is an input, given as its root region.
  The light-mask texture and the effect are not part of this model.
- `System.Random`: modelled as an arbitrary choice in `[min, max)`
  (`RandomNext`), not as the generator.
- Floating point: positions are pairs of reals and the animation timer and
  delay are reals. Single-precision rounding, and the drift it causes, is not
  modelled. For example, three float additions of 0.05f need not reach 0.15f
  exactly.
- VirtualTextures.RelativeSourceRectangle: C# `int` wrap-around is not
  modelled. The function requires every intermediate sum to stay in the
  32-bit range (`NoOverflow`).
- The four fire tiles share one frame array by reference. Nothing writes to it
  after loading, so the frames are kept as a sequence value.
- Polymorphism: one class with a constant tag stands for the abstract base
  class and its two subclasses. There is no separate instance of the abstract
  base, whose default `Draw` is only kept as `BaseDraw`.
