# Grid raycaster, modelled in Dafny

This project models the core of a small Wolfenstein-style raycaster written in
C (`includes/main.c`). The player stands on a tile map of `'1'` (wall) and
`'0'` (open) cells. For each screen column, `cast_column` casts one ray. The
ray walks the grid cell by cell with a DDA (digital differential analyser)
until it enters a wall. The hit distance becomes a vertical strip. The strip
is drawn with a wall texture, above it is flat sky and below it is flat floor.
`render_frame` does this for every column. `move_and_rotate` moves the player
with axis-separated wall collision and turns the camera.

Floats are modelled as exact reals. C's integer cast, which truncates toward
zero, is `Numeric.Trunc`. C's truncating `/` on negative operands is
`Numeric.CDiv`. Colours are the 32-bit pattern of the C `int` (`bv32`). The
frame and the texture are grids of colours `px[y][x]` instead of byte buffers.
`WIN_W`, `WIN_H`, `MOVE_SPEED` and `ROT_SPEED` are fields of `Session.Config`.

Modules, in dependency order:

- `Numeric`: truncation, C division, powers of two and the bitwise `&`.
- `Geometry`: vectors.
- `Grid`: the map and `is_wall`.
- `Color`: `rgb` and the shade.
- `Image`: the frame, `put_pixel` and the texture.
- `Dda`: the grid walk and the hit distance.
- `Projection`: the strip and the texture indices.
- `Controller`: movement and turning.
- `Session`: the game state and `move_and_rotate`.
- `Column`: `cast_column`, `render_frame` and `loop_hook`.
- `Scenario`: worked cases on the built-in map.

## Model

| member | source | states |
|---|---|---|
| Grid.IsWall | includes/main.c:156-161 | Any cell outside `[0,map_w) x [0,map_h)` is solid. Inside the map, a cell is solid exactly when it holds `'1'`. |
| Grid.FramedAgrees | includes/main.c:156-161 | `is_wall` agrees with a plain lookup in the map surrounded by a one-cell ring of walls, over the whole ring. The ring itself is solid. |
| Grid.SmallMapClosed | includes/main.c:79-88 | The built-in map is a 13 x 7 rectangle whose four edges are all walls. |
| Color.Clamp | includes/main.c:17-19 | A channel is kept when it lies in [0,255], raised to 0 below and lowered to 255 above. |
| Color.Rgb | includes/main.c:15-21 | The packed result is at most 0xFFFFFF. Its red, green and blue bytes are exactly the three inputs clamped to [0,255]. |
| Color.RgbOfChannels | includes/main.c:15-21 | Every 24-bit colour is the `rgb` of its own three bytes, so packing inverts unpacking. |
| Color.Shade | includes/main.c:276-277 | The shaded colour is at most 0x7F7F7F, and each 8-bit channel is the original channel halved, rounding down. |
| Color.ShadeOfRgb | includes/main.c:15-21 | Shading an `rgb` colour gives the `rgb` of the halved clamped channels. |
| Image.PutPixel | includes/main.c:23-29 | A write outside the frame changes nothing. A write inside sets that one pixel and leaves every other pixel and the dimensions unchanged. |
| Numeric.Trunc | includes/main.c:173-174 | The `(int)` cast truncates toward zero: it is the floor for non-negative values and the ceiling for negative ones. |
| Numeric.CDiv | includes/main.c:246 | C's `/` on `int`: the quotient truncates toward zero, and the remainder takes the sign of the dividend. |
| Numeric.MaskIntLowBits | includes/main.c:269 | `v & (2^k - 1)` on the two's-complement 32-bit value of `v` is `v mod 2^k`. |
| Dda.Delta | includes/main.c:177-178 | The crossing length is positive, and its product with a non-zero ray component is 1 in absolute value. A zero component gets the `1e30` sentinel. |
| Dda.StepDir | includes/main.c:185-206 | The walk steps -1 on an axis exactly when the ray component is negative, and +1 otherwise. |
| Dda.Start | includes/main.c:172-206 | The walk starts in the truncated player cell. For a non-negative coordinate, the first side distance lies between 0 and one crossing length. |
| Dda.Step | includes/main.c:211-225 | One iteration moves exactly one coordinate, by its step, and adds one crossing length to that axis. `hit_side` names the axis that moved. Equal side distances move y. |
| Dda.FirstWallUnique | includes/main.c:211-225 | At most one walk length stops on a first wall, so the loop's result is determined. |
| Dda.StepNMoves | includes/main.c:211-225 | After `n` iterations the x moves and the y moves add up to `n`, each in its step direction. For `n > 0`, `hit_side` is 0 exactly when the last iteration changed `map_x`, and 1 exactly when it changed `map_y`. |
| Dda.StepNSideX | includes/main.c:213-218 | After any number of iterations, `side_x` is its start value plus one crossing length per x move. |
| Dda.StepNSideY | includes/main.c:219-224 | After any number of iterations, `side_y` is its start value plus one crossing length per y move. |
| Dda.Walk | includes/main.c:210-225 | The loop stops on the first wall of the walk. From an on-map cell it stops within `map_w + map_h - 1` iterations. From an off-map cell it does not iterate. An axis whose first crossing lies at least `map_w + map_h` crossings of the other axis behind never moves. |
| Dda.AccumulatorBack | includes/main.c:230-239 | After `k + 1` moves on one axis, the closed-form `perp_dist` equals the first side distance plus `k` crossing lengths. |
| Dda.PerpDistance | includes/main.c:230-238 | Going `perp_dist` along the ray from the player reaches the grid line on which the hit cell was entered. For a vertical face this is the cell's low x edge when stepping +x and its high x edge when stepping -x; a horizontal face is the same on y. |
| Dda.PerpIsAccumulatorX | includes/main.c:230-233 | For a hit on a vertical face, at any player position, `perp_dist` equals the walk's `side_x` minus one crossing. For a non-negative x coordinate it is not negative. |
| Dda.PerpIsAccumulatorY | includes/main.c:235-238 | For a hit on a horizontal face, at any player position, `perp_dist` equals the walk's `side_y` minus one crossing. For a non-negative y coordinate it is not negative. |
| Dda.WallX | includes/main.c:240 | `wall_x`, after its integer part is removed, lies in [0,1). |
| Projection.ClampDistance | includes/main.c:242 | The clamped distance is at least `1e-6`. It equals the input when the input is at least `1e-6`, and is `1e-6` otherwise. |
| Projection.ClampDistanceMonotone | includes/main.c:242 | The clamp preserves order. |
| Projection.LineHeight | includes/main.c:245 | `line_h` is the largest whole number whose product with the clamped distance does not exceed `WIN_H`. |
| Projection.LineHeightAntitone | includes/main.c:245 | A farther wall never gets a taller `line_h`. |
| Projection.StripOf | includes/main.c:246-249 | `0 <= draw_start <= WIN_H/2 <= draw_end <= WIN_H-1`. The strip is the band of half-height `line_h/2` around row `WIN_H/2`, clipped to the screen. |
| Projection.StripNested | includes/main.c:246-249 | The strip of a taller `line_h` contains the strip of a shorter one. |
| Projection.FartherWallNarrowerStrip | includes/main.c:242-249 | When the hit distance grows, the drawn rows of the wall can only shrink, nested inside the nearer wall's rows. |
| Projection.TexColumn | includes/main.c:259 | `tex_x` lies in `[0, w)`. It is the cell of width `1/w` that `wall_x` falls in. |
| Projection.Mirror | includes/main.c:260-261 | The mirrored column stays in `[0, w)` and is the same column counted from the other edge. |
| Projection.MirrorInvolution | includes/main.c:260-261 | Mirroring twice gives the original column. |
| Projection.TexStep | includes/main.c:264 | The step is not negative, and `line_h` steps make up exactly `tex_h`. |
| Projection.TexStart | includes/main.c:265 | The starting scan position is not negative. It is 0 when the strip was not clipped at the top. |
| Projection.TexPosAdvance | includes/main.c:270 | Each drawn row advances the scan position by exactly one step. |
| Projection.TexPosFromStripTop | includes/main.c:264-270 | At every row, the scan position is the number of rows below the unclipped strip top, times the step, so clipping does not shift the texture. |
| Projection.TexRow | includes/main.c:269 | `tex_y` always lies in `[0, tex_h)`, whatever the scan position and whether or not `tex_h` is a power of two. |
| Projection.TexRowWraps | includes/main.c:269 | For a power-of-two `tex_h`, `tex_y` is the truncated scan position modulo `tex_h`. |
| Projection.EvenStripLastRowWraps | includes/main.c:246-269 | For an even, unclipped `line_h`, the strip has `line_h + 1` rows. Its last row scans texture row `tex_h`, which a power-of-two mask wraps to row 0. |
| Controller.TryMove | includes/main.c:330-336 | If the player's cell is open before a movement block, it is open after. The x part is taken unless the cell (new x, old y) is a wall. The y part is then taken unless the cell (current x, new y) is a wall. A refused axis keeps its old value. |
| Geometry.RightOf | includes/main.c:326 | The strafe direction is perpendicular to the view direction and as long as it. |
| Controller.Move | includes/main.c:322-357 | The body chains the W, S, A and D blocks in that order. The contract states that they keep `dir` and `plane`, that they keep the player on an open cell if it started on one, and that with no movement key held nothing changes. |
| Controller.ForwardInOpen | includes/main.c:330-336 | With only W held and the cells on the way open, the player advances by exactly `dir * MOVE_SPEED`. |
| Controller.BackwardInOpen | includes/main.c:337-343 | With only S held and the cells on the way open, the player moves back by exactly `dir * MOVE_SPEED`. |
| Controller.StrafeAInOpen | includes/main.c:344-350 | With only A held and the cells on the way open, the player moves by exactly `-right * MOVE_SPEED`, where `right = (dir.y, -dir.x)`. |
| Controller.StrafeDInOpen | includes/main.c:351-357 | With only D held and the cells on the way open, the player moves by exactly `right * MOVE_SPEED`. |
| Controller.StrafeDAgainstPlane | includes/main.c:139-140 | For the camera `setup_player` builds, `plane = (-dir.y, dir.x) * plane_len` with `plane_len > 0`, the D strafe direction `right` has component `-plane_len * (dir · dir)` along `plane`: it points away from the plane. |
| Controller.TurnTowardPlane | includes/main.c:139-140 | For that camera, rotating `dir` by an angle with sine `s` gives a component `s * plane_len * (dir · dir)` along `plane`: a positive angle turns toward the plane, a negative one away from it. |
| Controller.TurnKeepsSetupCamera | includes/main.c:363-369 | A turn keeps the camera in the form `setup_player` builds, with the same `plane_len`. |
| Controller.TurnOf | includes/main.c:360-362 | There is no turn without an arrow key. Left turns by `-ROT_SPEED`, and so does holding both arrows. Right alone turns by `ROT_SPEED`. |
| Controller.Rotated | includes/main.c:359-370 | The position is kept. `dir` and `plane` are both rotated by the chosen angle. |
| Controller.TurnKeepsCamera | includes/main.c:363-369 | With exact trigonometry, a turn keeps the lengths of `dir` and `plane` and their dot product, so the camera plane stays perpendicular to the view. |
| Geometry.RotateScalesDot | includes/main.c:363-369 | Rotating two vectors by the same cosine and sine scales their dot product by `cos^2 + sin^2`. |
| Session.MoveAndRotate | includes/main.c:322-371 | The update keeps the map, the texture, the keys and the configuration. It keeps the player on an open cell. Its position is the result of the movement blocks. |
| Session.UpdateKeepsCamera | includes/main.c:322-371 | With exact trigonometry, a whole update leaves the camera's shape unchanged. |
| Column.CameraX | includes/main.c:166 | Every on-screen column has a camera coordinate in `[-1, 1)`. |
| Column.RayDir | includes/main.c:169-170 | The ray differs from `dir` by `plane` scaled by the camera coordinate. When `plane` is perpendicular to `dir`, every column's ray has the same component along `dir`. |
| Column.MirroredAgainstRight | includes/main.c:260 | The mirror condition holds on a vertical face exactly when the strafe direction `(ray.y, -ray.x)` points toward -y, and on a horizontal face exactly when it points toward -x. |
| Column.CameraXSymmetric | includes/main.c:166 | Columns `x` and `WIN_W - x` have opposite camera coordinates, and column 0 sits at -1. |
| Column.SpanOf | includes/main.c:227-264 | The strip height is that of the clamped hit distance. The texture column lies in `[0, w)`. The face is shaded exactly when `hit_side == 1`. |
| Column.RowsPartition | includes/main.c:253-267 | The sky rows, the wall rows and the floor rows are pairwise disjoint and together are exactly the window's rows. The middle row is always wall. |
| Column.FillRows | includes/main.c:253-256 | A flat loop gives the rows in its range the colour and changes no other pixel. |
| Column.DrawWall | includes/main.c:263-280 | Every wall row gets the texel at the masked scan row and the span's column, shaded on horizontal faces. No other pixel changes. |
| Column.CastColumn | includes/main.c:163-281 | The walk stops on the ray's first wall. Every pixel of column `x` gets its sky, wall or floor reference colour. Every other column is unchanged. |
| Column.RenderFrame | includes/main.c:287-292 | Every column is cast. Each column's walk ends on its first wall, and every pixel of the frame gets its reference colour. |
| Column.RenderedUnique | includes/main.c:287-290 | A rendered frame is determined by the game alone. Nothing of the previous frame survives. |
| Column.ScreenSides | includes/main.c:165-170 | For the camera of `setup_player`, a column's ray differs from `dir` by `-x_cam * plane_len * (dir · dir)` along `right = (dir.y, -dir.x)`. For a non-zero `dir`, that component is positive exactly for columns left of centre (`x_cam < 0`). Every ray's own quarter turn `(ray.y, -ray.x)` points away from `plane`. |
| Column.LoopHook | includes/main.c:373-378 | One tick is the update followed by a full render of the updated game. |
| Scenario.RayAlongRowTwo | includes/main.c:79-88 | On the built-in map, a ray along +x from (2.5, 2.5) stops on the wall cell (4, 2) after two moves. It hits a vertical face at perpendicular distance 1.5, which on a 600-row window gives a 400-row strip. |
| Scenario.RayAlongRowTwoUnique | includes/main.c:211-225 | No other walk length stops on a first wall for that ray. |
| Scenario.SlideAlongLeftWall | includes/main.c:330-336 | Walking diagonally into the left wall from (1.5, 1.5), the player is refused on x but moves on y. |
| Scenario.NegativeCoordinatePerp | includes/main.c:173-238 | From x = -0.5, which truncates into cell 0, a ray along -x moves once and gets `perp_dist` -0.5. |
| Scenario.ZeroComponentMoves | includes/main.c:187-224 | A ray along +x from 1e-35 below the line y = 3 first moves y, into row 3, with `hit_side` 1: the `1e30` sentinel does not hold the y axis there. |
| Scenario.SkyColour | includes/main.c:254 | The sky is 0x78B4FF. |
| Scenario.FloorColour | includes/main.c:256 | The floor is 0x3C783C. |
| Scenario.ShadedSky | includes/main.c:277 | Shading the sky colour gives 0x3C5A7F. |

In the exact-real model, when `line_h` is even and the strip is not clipped,
`draw_end` is inclusive. The strip is then `line_h + 1` rows tall, and its
last row scans texture row `tex_h`. For a power-of-two texture, the mask
wraps that to row 0 (`Projection.EvenStripLastRowWraps`). This is a
statement about the model, not a defect claim about the program.

For the camera `setup_player` builds, the columns right of centre look
toward `plane` (`Column.ScreenSides`). A turn by a positive angle, which the
right arrow applies when `ROT_SPEED` is positive, turns `dir` toward `plane`
(`Controller.TurnTowardPlane`). The D key's direction `right = (dir.y, -dir.x)`
points away from `plane` (`Controller.StrafeDAgainstPlane`). So in the model,
D moves the player toward the side the left half of the screen shows, which
is also the side the left arrow turns toward. By `Column.MirroredAgainstRight`,
`tex_x` grows along a face toward that same side.

## Left out

- The MLX and X11 plumbing is not modelled: window and image creation, XPM loading, destruction, `close_window`, `main`, the key hooks, and `mlx_put_image_to_window` in `render_frame`. It is library I/O with no logic of its own.
- `panic` ends the process and is not modelled.
- Byte addressing of pixels and texels through `addr`, `bpp` and `line_len` is replaced by indexed grids. Bytes per pixel, stride and endianness are not visible to the model.
- `setup_player` is modelled only by the camera form it leaves, `Controller.SetupCamera`: `plane` is `dir` turned to `(-dir.y, dir.x)` and scaled by a positive length. `deg_to_rad` and the values of `cosf`, `sinf` and `tanf` are not modelled. The rotation takes `cos` and `sin` as function parameters, and its properties assume exact trigonometry where stated.
- IEEE float behaviour is not modelled. All ray quantities are exact reals, so rounding is not captured. For example, `wall_x * w` rounding up to `w`, and `(int)(WIN_H / 1e-6f)` overflowing, cannot happen in the model.
- Dda.PerpDistance: a division by a zero ray component gives 0 in the model (`Dda.Quot`), where C produces an infinity or NaN.
- Projection.TexStep: `line_h == 0` gives a step of 0, where C divides by zero. Rows of such a strip are still drawn from row `WIN_H/2`.
- Projection.EvenStripLastRowWraps: holds for exact reals only. The program adds `step` to `tex_pos` in 32-bit floats once per row, and for many even `line_h` values (for example `line_h = 12` with `tex_h = 64`) the sum falls just short of `tex_h`, so the last row reads texture row `tex_h - 1` instead of 0.
- Dda.PerpIsAccumulatorX: the non-negativity half needs a non-negative x coordinate. A player at x in (-1, 0), which the collision test admits on a map whose column 0 is open, can get a negative `perp_dist`; the clamp then raises it to `1e-6`.
- Dda.PerpIsAccumulatorY: the same, for the y coordinate.
- Dda.Walk: the finite `1e30` sentinel does not hold a zero-component axis still for every exact-real position. A position within about `(map_w + map_h) / 1e30` of a grid line on that axis lets the walk move it (`Scenario.ZeroComponentMoves`). A float32 coordinate near the map cannot lie that close to a grid line without lying on it.
- Dda.WallX: it states only the range of the fractional part, not which point along the face it measures.
- `setup_map_small` is not modelled. The map is a given rectangular `Grid.TileMap`, and `Grid.SMALL_MAP` is the built-in literal. Rows shorter than `map_w`, which C would read past their end, are excluded by `Rectangular`.
- `key_press` and `key_release` are not modelled. `Controller.Keys` is the flag state they leave.
- `includes/game.h` is not part of this model. Its declarations describe a different variant, and the constants it would supply are fields of `Session.Config`.
- `src/main.c` is not part of this model. It holds only window set-up and a second map literal.
- The textured floor and sky textures are never sampled by the drawing code, which paints flat colours. They are left out.
- The frame is an explicit parameter and result of `Column.CastColumn` and `Column.RenderFrame`, not a field of the game record. The shared mutable `t_game` is replaced by values.
