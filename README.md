# manamona portfolio — verified model of its interaction logic

This project models, in Dafny, the logic behind the interactive parts of a
Next.js/React portfolio site (three.js scenes, GSAP timelines, Web Audio).
Rendering, audio graphs and the DOM are not modelled. Each core file of the
site has one module:

- **Voxel** (`VoxelFromGLB.jsx`) turns a scene into box proxies and runs a
  per-frame spring/damper/repulsion integrator over flat `array<real>` buffers.
  - `Swarm.Build` fills the buffers in index loops.
  - `Swarm.Step` updates `pos`/`vel` in place.
  - `SampleTextureAverage` accumulates the texture channels in a loop.
- **InfiniteGrid** (`InfiniteWorksGrid.jsx`): wrapped drag grid.
- **WorksStage** (`R3FWorksStage.jsx`): the three.js drag stage with its
  speed-driven zoom and tilt.
- **ThetaRail** (`theta/page.js`): horizontal rail with inertia and keys.
- **MouseTrail**: bounded ASCII trail with scatter and glitch steps.
- **Text effects**:
  - **HeaderTop**: type-once scramble, idle shimmer, Jakarta clock label;
  - **Navbar**: label bursts, once-per-visit reveal;
  - **HomePage** (`app/page.js`): typing, deadline, glitch and reset.
- **HeadlineReveal** and **PixelTransition**: tile grids and stagger timing.
  - HeadlineReveal covers the headline's tile mask.
  - PixelTransition covers the cover → navigate → reveal overlay.
- **Karakter** (`karakter3D.js`): switch sound gates, stepped pixel reveal,
  mouse-follow rig, clip lookup and selection, auto-fit scale.
- **Sfx** (`sfx.js`) and **AudioProvider**: throttle/mute gates, gain
  envelope, persistence, buffer reversal, fades, scratch modulation.
- **SoundToggle**: dot layout, weights and per-frame radius/opacity bounds.
- **Csp** (`middleware.js`): the Content-Security-Policy header.
- **TransitionLink**, **RouteCurtain** and **RevealGate**: link click
  filters, scroll-locking curtain, one-shot reveal gate.

Shared arithmetic lives in **Common**:

- JavaScript's `Math.floor/ceil/round`, `|0` truncation and `%`;
- the clamp and `lerp` helpers;
- the exponential follow step `v += (t - v) * k` (`Approach`).

How the model represents the environment:

- Numbers are reals. Integer counts are `nat`/`int`.
- Randomness, timers, animation frames and DOM events are explicit
  parameters or methods:
  - a `Tick`, `Frame` or `Fire` method per timer, frame or event;
  - a `roll`, pick or `draws` parameter for each `Math.random` call.
- Components whose refs the source updates in place are classes with those
  refs as fields.
- Pure helpers are functions, with lemmas relating them.
- Transcendental functions (`Math.sqrt`, `Math.hypot`, `Math.pow` for the
  sRGB curve, `Math.tan`) are function-valued parameters. Where a proof needs
  it, one of them is constrained by a predicate such as `IsSqrt`.

## Model

| member | source | states |
|---|---|---|
| Voxel.LocalCenter | src/components/VoxelFromGLB.jsx:71-75 | the local centre is equidistant from both faces of the bounding box on every axis, and lies inside a non-inverted box |
| Voxel.AxisSize | src/components/VoxelFromGLB.jsx:86-93 | a size component is at least 1e-6, at least extent × shrink × \|scale\|, and equal to one of the two |
| Voxel.ColorOf | src/components/VoxelFromGLB.jsx:97-108 | with the flag off there is no colour; a flat colour is the first material's `.color`; a texture average is used only when that material has no `.color` |
| Voxel.SrgbToLinear | src/components/VoxelFromGLB.jsx:185 | three.js `convertSRGBToLinear` per channel, the upper segment through the given power function |
| Voxel.TextureColor | src/components/VoxelFromGLB.jsx:287-308 | the linearised average of a drawn 8×8 sample, none when the sample cannot be read; SampleTextureAverage's loop computes it |
| Voxel.InstanceColor | src/components/VoxelFromGLB.jsx:181-192 | the corrected colour rule: a flat or fallback colour is linearised, a texture average (already linear) is kept; InstanceColorLinearisedOnce proves the result |
| Voxel.InstanceColorAsWritten | src/components/VoxelFromGLB.jsx:183-186 | the rule as written: every non-null colour, a texture average included, is linearised; TextureColorLinearisedTwice exhibits the double conversion |
| Voxel.Extract | src/components/VoxelFromGLB.jsx:63-114 | the traversal yields at most one proxy per scene object |
| Voxel.ExtractEmptyIff | src/components/VoxelFromGLB.jsx:63-64 | no proxy at all exactly when no object is a mesh with geometry |
| Voxel.ExtractSizesAtLeastMin | src/components/VoxelFromGLB.jsx:89-93 | every extracted proxy has all three size components ≥ 1e-6 |
| Voxel.ExtractWithoutColors | src/components/VoxelFromGLB.jsx:97-108 | with `useGLBColors` off every proxy falls back to the fallback colour |
| Voxel.ExpandByPoint | src/components/VoxelFromGLB.jsx:110-113 | expanding a box contains the point and the previous box |
| Voxel.Enclose | src/components/VoxelFromGLB.jsx:110-113 | the global box grown by both corners of every proxy in turn; EncloseContains proves it encloses them all |
| Voxel.EncloseContains | src/components/VoxelFromGLB.jsx:110-113 | folding the proxies' corners into an empty box (line 61) yields an ordered box that encloses every proxy, and that grows monotonically |
| Voxel.ReportOf | src/components/VoxelFromGLB.jsx:120-124 | the reported bounds satisfy minY ≤ 0 ≤ maxY and height = maxY − minY, which equals the box height |
| Voxel.TargetsInsideRecentredBounds | src/components/VoxelFromGLB.jsx:120-144 | each rest target (centre minus global centre) lies inside the re-centred global box |
| Voxel.InstanceColorLinearisedOnce | src/components/VoxelFromGLB.jsx:181-192 | corrected colour rule: every instance colour is its source sRGB colour (material, texture average, fallback) linearised exactly once |
| Voxel.TextureColorLinearisedTwice | src/components/VoxelFromGLB.jsx:183-186 | a concrete texture on which the colour as written is linearised twice and differs from the corrected rule |
| Voxel.InstanceColors | src/components/VoxelFromGLB.jsx:180-192 | one colour per proxy under the corrected colour rule, and a proxy without a colour gets the linearised fallback colour |
| Voxel.SampleTextureAverage | src/components/VoxelFromGLB.jsx:287-308 | the accumulation loop returns the linearised channel average of the 8×8 sample, and null when drawing fails |
| Voxel.AverageInUnitRange | src/components/VoxelFromGLB.jsx:296-302 | for byte-valued pixels each averaged channel lies in [0, 1] |
| Voxel.ChannelSumBounds | src/components/VoxelFromGLB.jsx:297-301 | a channel sum over the remaining pixels is between 0 and 255 per pixel |
| Voxel.ClampDt | src/components/VoxelFromGLB.jsx:239 | dt lies in [1/240, 1/30], equals dtRaw inside that range and the nearer bound outside it |
| Voxel.Dist2 | src/components/VoxelFromGLB.jsx:256 | the squared distance is never negative |
| Voxel.Repulsion | src/components/VoxelFromGLB.jsx:252-263 | zero without hover or outside the radius, else the push away from the hover point; RepulsionBounded and PushAway prove its bound and direction |
| Voxel.Accel | src/components/VoxelFromGLB.jsx:248-264 | spring towards the target, damping against the velocity, plus the repulsion; NoRepulsionOutsideRadius and RestIsFixedPoint prove its cases |
| Voxel.Advance | src/components/VoxelFromGLB.jsx:266-267 | one semi-implicit Euler step; AdvanceIsSemiImplicit proves its shape |
| Voxel.AdvanceIsSemiImplicit | src/components/VoxelFromGLB.jsx:266-267 | the velocity changes by a·dt and the position by the NEW velocity × dt |
| Voxel.RestIsFixedPoint | src/components/VoxelFromGLB.jsx:248-267 | a proxy on its target with zero velocity and no hover point stays where it is |
| Voxel.NoRepulsionOutsideRadius | src/components/VoxelFromGLB.jsx:248-264 | without hover, or at dist² ≥ r², the acceleration is exactly −k(pos − tgt) − d·vel |
| Voxel.FalloffInRange | src/components/VoxelFromGLB.jsx:259 | the repulsion strength rep·(1 − dist/r) lies in [0, rep] inside the radius |
| Voxel.PushAway | src/components/VoxelFromGLB.jsx:260-262 | the repulsion points away from the hover point |
| Voxel.FlooredDistWithinRadius | src/components/VoxelFromGLB.jsx:257-258 | inside the radius the floored distance is positive and at most the radius |
| Voxel.RepulsionBounded | src/components/VoxelFromGLB.jsx:252-264 | the repulsion strength is in [0, rep] and the push never points towards the hover point |
| Voxel.JitterWithinOnePercent | src/components/VoxelFromGLB.jsx:146-148 | every initial position is within ±0.01·size of its target on each axis |
| Voxel.FillTargets | src/components/VoxelFromGLB.jsx:134-149 | proxy i's slots [3i, 3i+3) hold its re-centred target and jittered start position |
| Voxel.FillShapes | src/components/VoxelFromGLB.jsx:151-158 | proxy i's slots [3i, 3i+3) of `scale` hold its size, and [4i, 4i+4) of `quat` its rotation |
| Voxel.FillBuffers | src/components/VoxelFromGLB.jsx:127-159 | five fresh, distinct buffers laid out as above, with zero velocity |
| Voxel.Swarm.constructor | src/components/VoxelFromGLB.jsx:36-40 | the swarm starts with no proxies and no instance |
| Voxel.Swarm.Teardown | src/components/VoxelFromGLB.jsx:215 | disposing the instance keeps the buffer invariant |
| Voxel.Swarm.Build | src/components/VoxelFromGLB.jsx:46-216 | with no proxies nothing changes and no bounds are reported; otherwise the bounds are reported, the buffers are rebuilt from the proxies and the instances are coloured by the corrected colour rule |
| Voxel.Swarm.Install | src/components/VoxelFromGLB.jsx:127-213 | the buffers are fresh, laid out for the proxies, and the instance carries the given colours |
| Voxel.Swarm.Step | src/components/VoxelFromGLB.jsx:230-279 | `tgt`/`scale`/`quat` are unchanged, and with no instance or N = 0 nothing changes; otherwise every proxy's motion becomes `Advance` of its old motion with the clamped dt |
| InfiniteGrid.WrapModInRange | src/components/InfiniteWorksGrid.jsx:42 | for m > 0, wrapMod(n, m) is in [0, m) and differs from n by a multiple of m |
| InfiniteGrid.WrapMod | src/components/InfiniteWorksGrid.jsx:42 | `((n % m) + m) % m` with JavaScript's truncating `%`; WrapModInRange proves its range |
| InfiniteGrid.BaseCells | src/components/InfiniteWorksGrid.jsx:66-70 | the base tile has exactly COLS·ROWS cells |
| InfiniteGrid.BaseCellsCycle | src/components/InfiniteWorksGrid.jsx:68-69 | cell i is items[i mod len] (undefined when there are no items) and the cells repeat with period len |
| InfiniteGrid.TileCount | src/components/InfiniteWorksGrid.jsx:73-74 | the tile count is ≥ 1 and equals ceil(viewport/tile) + 3 for a non-negative viewport |
| InfiniteGrid.TileCountCovers | src/components/InfiniteWorksGrid.jsx:72-74 | the counted tiles span the viewport plus three tiles of margin |
| InfiniteGrid.TileRow | src/components/InfiniteWorksGrid.jsx:211 | one row lists tilesX + 2 tile coordinates |
| InfiniteGrid.TileRowsFromIndex | src/components/InfiniteWorksGrid.jsx:210-211 | the rows from j on list (tilesY+2−j)(tilesX+2) coordinates, entry k at column k mod (tilesX+2) − 1 |
| InfiniteGrid.TileCoordsLayout | src/components/InfiniteWorksGrid.jsx:208-214 | (tilesX+2)(tilesY+2) pairs ordered by ty then tx, with tx ∈ [−1, tilesX] and ty ∈ [−1, tilesY] |
| InfiniteGrid.TileCoords | src/components/InfiniteWorksGrid.jsx:208-214 | the nested map's tile coordinates; TileCoordsLayout proves their count, order and ranges |
| InfiniteGrid.CellOriginGrid | src/components/InfiniteWorksGrid.jsx:287-290 | cell i sits at column i mod 6 and row ⌊i/6⌋ of 320-px cells |
| InfiniteGrid.CellOriginInTile | src/components/InfiniteWorksGrid.jsx:287-290 | every cell of the base tile (tile size at lines 49-50) lies inside the tile |
| InfiniteGrid.CellOriginsDistinct | src/components/InfiniteWorksGrid.jsx:286-290 | no two cells of a tile share a position |
| InfiniteGrid.CellOrigin | src/components/InfiniteWorksGrid.jsx:287-290 | cell i's position in the base tile; CellOriginGrid, CellOriginInTile and CellOriginsDistinct prove its layout |
| InfiniteGrid.InertiaDecays | src/components/InfiniteWorksGrid.jsx:96-99 | after k released ticks the velocity is DAMPING^k times the initial one, a factor in (0, 1] |
| InfiniteGrid.Grid.constructor | src/components/InfiniteWorksGrid.jsx:77-84 | all refs start at zero, not dragging and not revealed (the revealed flag is at line 47) |
| InfiniteGrid.Grid.Tick | src/components/InfiniteWorksGrid.jsx:89-108 | while dragging only `off` follows the target; when released target += vel and vel *= DAMPING first; `off` always closes FOLLOW of the gap; the parallax follows the cursor |
| InfiniteGrid.Grid.PointerDown | src/components/InfiniteWorksGrid.jsx:129-137 | sets dragging, records the pointer and time, zeroes the velocity, changes nothing else |
| InfiniteGrid.Grid.PointerMove | src/components/InfiniteWorksGrid.jsx:139-163 | the cursor always updates; only while dragging does the target move by the gained delta and the velocity become the clamped drag velocity |
| InfiniteGrid.Grid.PointerUp | src/components/InfiniteWorksGrid.jsx:165-167 | only clears dragging |
| InfiniteGrid.Grid.Wheel | src/components/InfiniteWorksGrid.jsx:195-201 | the target moves by the gained wheel delta and each velocity component is clamped to [−MAX_V, MAX_V] |
| InfiniteGrid.WheelDelta | src/components/InfiniteWorksGrid.jsx:196-197 | `e.deltaX \|\| 0`: a missing delta counts as 0 |
| InfiniteGrid.Grid.OnRevealed | src/components/InfiniteWorksGrid.jsx:246-249 | once revealed, no tile reveals again |
| WorksStage.Aspect | src/components/R3FWorksStage.jsx:102 | the aspect ratio is ≥ 0.01 and equals width/height when that is larger |
| WorksStage.CameraDistance | src/components/R3FWorksStage.jsx:103 | the distance is ≥ 0.001 and equals z when z is larger |
| WorksStage.ViewportWH | src/components/R3FWorksStage.jsx:100-106 | for a positive half-field tangent the viewport has positive width and height with vW ≥ 0.01·vH |
| WorksStage.CellsAcross | src/components/R3FWorksStage.jsx:116-117 | the count is the larger of the minimum and ceil(extent/pitch) + 6 |
| WorksStage.Cols | src/components/R3FWorksStage.jsx:116 | cols ≥ 5 for any viewport |
| WorksStage.Rows | src/components/R3FWorksStage.jsx:117 | rows ≥ 3 for any viewport |
| WorksStage.CellsAcrossCover | src/components/R3FWorksStage.jsx:115-117 | the cells span the extent even without the six-cell margin |
| WorksStage.Urls | src/components/R3FWorksStage.jsx:120-123 | there is always at least one URL, none empty; no items give only the placeholder, and item k's `bg` or the placeholder otherwise |
| WorksStage.TextureOf | src/components/R3FWorksStage.jsx:143 | a cell's texture is one of the URLs, the idx-th when idx is in range |
| WorksStage.TexturePeriodic | src/components/R3FWorksStage.jsx:143 | textures repeat with period len |
| WorksStage.Cells | src/components/R3FWorksStage.jsx:127-138 | the nested loop yields cols·rows cells, entry k being `CellAt(k)`: idx = k, x = i·cellW, y = −j·cellH |
| WorksStage.OriginCell | src/components/R3FWorksStage.jsx:129-134 | the cell at i = j = 0 exists and sits at the origin |
| WorksStage.CellsDistinct | src/components/R3FWorksStage.jsx:132-134 | no two cells share a position |
| WorksStage.CellAt | src/components/R3FWorksStage.jsx:127-138 | cell k of the centred grid; OriginCell and CellsDistinct prove its placement |
| WorksStage.Speed | src/components/R3FWorksStage.jsx:266 | speed is in [0, 1] and equals \|v\|/MAX_V below MAX_V |
| WorksStage.TargetScale | src/components/R3FWorksStage.jsx:267 | the target scale is in [1 − ZOOM_SCALE_MAX, 1], and 1 at rest |
| WorksStage.TargetTilt | src/components/R3FWorksStage.jsx:268-269 | for velocities within MAX_V the tilt target is within ±TILT_MAX, and 0 at rest |
| WorksStage.Rig.constructor | src/components/R3FWorksStage.jsx:171-177 | refs start at zero with scale 1 and no tilt |
| WorksStage.Rig.PointerDown | src/components/R3FWorksStage.jsx:190-197 | sets dragging, records the pointer, zeroes the velocity |
| WorksStage.Rig.PointerMove | src/components/R3FWorksStage.jsx:199-219 | only while dragging: target.x += dx, target.y −= dy, and the velocity becomes the clamped drag velocity |
| WorksStage.Rig.PointerUp | src/components/R3FWorksStage.jsx:221 | only clears dragging |
| WorksStage.Rig.Wheel | src/components/R3FWorksStage.jsx:223-228 | the target moves by the gained delta (y inverted) and the velocity is clamped to [−MAX_V, MAX_V] |
| WorksStage.Rig.Frame | src/components/R3FWorksStage.jsx:250-273 | inertia applies whatever the drag state; the wrapped offsets are in [0, cellW) and [0, cellH); scale and tilt each move a fixed fraction towards targets derived from the speed |
| WorksStage.DampedStaysBounded | src/components/R3FWorksStage.jsx:254 | damping keeps a clamped velocity within ±MAX_V |
| ThetaRail.WithoutHero | src/app/work/theta/page.js:108-110 | the galleries get the images after the first, in order |
| ThetaRail.PanelWidth | src/app/work/theta/page.js:283-284 | a panel width is one of the six widths |
| ThetaRail.PanelWidthPeriodic | src/app/work/theta/page.js:284 | widths repeat every six panels |
| ThetaRail.Digits | src/app/work/theta/page.js:300 | `String(n)` is a non-empty digit string, one digit exactly when n < 10 |
| ThetaRail.DigitsValue | src/app/work/theta/page.js:300 | the digits read back as n |
| ThetaRail.PadTwo | src/app/work/theta/page.js:300 | `padStart(2, "0")` keeps strings of two or more characters and left-pads shorter ones with zeros |
| ThetaRail.Label | src/app/work/theta/page.js:300 | the label has at least two characters |
| ThetaRail.LabelValue | src/app/work/theta/page.js:300 | the label is all digits and reads back as index + 1 |
| ThetaRail.PointerX | src/app/work/theta/page.js:187-193 | clientX, else the first touch's clientX, else 0 |
| ThetaRail.Rail.constructor | src/app/work/theta/page.js:151-156 | the rail starts at scroll 0, at rest and not dragging |
| ThetaRail.Rail.ScrollTo | src/app/work/theta/page.js:169-170 | assigning scrollLeft leaves it clamped to [0, scrollWidth − clientWidth] |
| ThetaRail.Rail.Wheel | src/app/work/theta/page.js:163-182 | a vertical-dominant wheel scrolls by 0.9·dy and sets vel = 0.9·dy; otherwise vel = dx only when the rail is at neither end, and the scroll is left alone |
| ThetaRail.Rail.Down | src/app/work/theta/page.js:185-190 | dragging starts at the pointer position |
| ThetaRail.Rail.Move | src/app/work/theta/page.js:191-198 | ignored unless dragging; otherwise scrollLeft −= dx and vel = −dx |
| ThetaRail.Rail.Up | src/app/work/theta/page.js:199-203 | dragging stops |
| ThetaRail.Rail.Tick | src/app/work/theta/page.js:206-212 | inertia only when not dragging and \|vel\| > 0.1: scroll by vel, then vel *= 0.92 |
| ThetaRail.Rail.Key | src/app/work/theta/page.js:227-230 | ArrowRight and ArrowLeft shift by +80 and −80; other keys change nothing |
| ThetaRail.DecayedShrinks | src/app/work/theta/page.js:210 | repeated damping never grows the velocity and strictly shrinks a non-zero one |
| MouseTrail.Snap | src/components/MouseTrail.jsx:98-101 | a spawn coordinate is a multiple of 32 within 48 px of the pointer |
| MouseTrail.SpawnSpot | src/components/MouseTrail.jsx:98-109 | a spawned spot is on the grid with a valid glyph and size 32 |
| MouseTrail.KeepRecent | src/components/MouseTrail.jsx:111 | `slice(-80)` keeps min(len, 80) entries, the most recent ones, in order |
| MouseTrail.PushKeepsNewest | src/components/MouseTrail.jsx:111 | after a push the new spot is last, and the oldest is dropped only when the trail was full |
| MouseTrail.Jostle | src/components/MouseTrail.jsx:34-41 | a scatter/glitch step keeps the length and moves each spot by its drawn −1/0/+1 grid steps |
| MouseTrail.JostleKeepsGrid | src/components/MouseTrail.jsx:38-39 | after a step every spot is still on the grid (see also lines 130-131) |
| MouseTrail.Trail.constructor | src/components/MouseTrail.jsx:10-20 | empty, hidden, not hovering, no timers |
| MouseTrail.Trail.Move | src/components/MouseTrail.jsx:92-116 | while hovering nothing spawns; otherwise the spot is appended to the capped queue, the trail shows it and the idle timer is armed |
| MouseTrail.Trail.SetHovering | src/components/MouseTrail.jsx:22-58 | starting to hover with a non-empty trail starts one more scatter interval beside any still running and cancels the idle timer; stopping clears the fade and cancels no interval |
| MouseTrail.Trail.PointerOver | src/components/MouseTrail.jsx:62-65 | entering an interactive element sets hovering |
| MouseTrail.Trail.PointerOut | src/components/MouseTrail.jsx:66-69 | leaving to a non-interactive element clears hovering |
| MouseTrail.Trail.ScatterTick | src/components/MouseTrail.jsx:33-54 | a tick of one scatter interval jostles the trail; after more than 3 of its steps that interval stops, the trail fades and one more clear is scheduled; the other intervals are untouched |
| MouseTrail.Trail.ScatterClear | src/components/MouseTrail.jsx:46-52 | one pending clear runs: the trail is emptied and hidden, so nothing renders, even while a later scatter still runs |
| MouseTrail.RehoverDuringScatter | src/components/MouseTrail.jsx:23-58 | hovering off and on again during a scatter leaves two scatter intervals running |
| MouseTrail.Trail.IdleFire | src/components/MouseTrail.jsx:116-118 | the idle timeout starts the glitch interval and nothing else |
| MouseTrail.Trail.GlitchTick | src/components/MouseTrail.jsx:118-143 | hovering clears and hides at once; otherwise the trail is jostled, and after more than 3 steps the clear is scheduled |
| MouseTrail.Trail.GlitchClear | src/components/MouseTrail.jsx:137-141 | the trail is emptied and hidden |
| HeaderTop.HalfDayApart | src/components/HeaderTop.jsx:33 | day is 6 ≤ h < 18, so hours twelve apart always differ |
| HeaderTop.IndexOf | src/components/HeaderTop.jsx:20 | the index of the first occurrence, or the length when absent |
| HeaderTop.ReplaceFirstDot | src/components/HeaderTop.jsx:20 | `replace(".", ":")` changes only the first dot |
| HeaderTop.FormatTime | src/components/HeaderTop.jsx:13-21 | the label is the formatted time with its first "." as ":", followed by " WIB" |
| HeaderTop.LockedWidth | src/components/HeaderTop.jsx:59-65 | the width is max(wCoord, wTop) + pad, a missing ghost counting as 0 |
| HeaderTop.ScrambleFrame | src/components/HeaderTop.jsx:233-236 | a frame has the final text's length; positions below revealIndex show the text, the rest ASCII glyphs |
| HeaderTop.TypeOnce.constructor | src/components/HeaderTop.jsx:226-229 | revealIndex 0, not stopped, no timers |
| HeaderTop.TypeOnce.Scramble | src/components/HeaderTop.jsx:231-239 | unless stopped, shows a scramble frame and re-arms itself |
| HeaderTop.TypeOnce.Start | src/components/HeaderTop.jsx:254-257 | shows the first frame and arms both timers |
| HeaderTop.TypeOnce.ScrambleTick | src/components/HeaderTop.jsx:238 | the scramble timer shows a new frame |
| HeaderTop.TypeOnce.RevealTick | src/components/HeaderTop.jsx:241-252 | revealIndex rises by one; past the length the text is final, onDone runs exactly once and no timer fires again |
| HeaderTop.TypeOnce.Cancel | src/components/HeaderTop.jsx:262-266 | cancelling stops both timers |
| HeaderTop.IdleIndices | src/components/HeaderTop.jsx:274-278 | the idle indices are exactly the non-whitespace positions, ascending |
| HeaderTop.Idle.constructor | src/components/HeaderTop.jsx:270-274 | the shimmer starts showing the text |
| HeaderTop.Idle.Tick | src/components/HeaderTop.jsx:280-288 | the new output is the text with each picked index set to its drawn glyph, in pick order; only non-whitespace positions change; a restore is scheduled; a text without such positions is left alone |
| HeaderTop.Idle.Restore | src/components/HeaderTop.jsx:288 | the restore shows the text again |
| HeaderTop.Header.constructor | src/components/HeaderTop.jsx:39-40 | the clock label and day flag start from the current time |
| HeaderTop.Header.Kick | src/components/HeaderTop.jsx:89-104 | kicking starts the two typing runs exactly once |
| HeaderTop.Header.ClockTick | src/components/HeaderTop.jsx:128-133 | the clock label and day flag follow the current time |
| HeadlineReveal.GridRows | src/components/HeadlinePixelReveal.jsx:31 | R = rows when given, else at least 6 and round(h/w·cols) when that is larger |
| HeadlineReveal.DefaultGridRows | src/components/HeadlinePixelReveal.jsx:14-16 | the default 1062×348 view box with 30 columns has 10 rows |
| HeadlineReveal.Tiles | src/components/HeadlinePixelReveal.jsx:36-44 | R·cols tiles in row-major order, tile k at (i·tileW, j·tileH) |
| HeadlineReveal.TileContaining | src/components/HeadlinePixelReveal.jsx:32-44 | every point of the view box lies in some tile, so the tiles cover it |
| HeadlineReveal.CellOf | src/components/HeadlinePixelReveal.jsx:32-33 | a coordinate falls in exactly the computed tile column/row |
| HeadlineReveal.TileRefs.constructor | src/components/HeadlinePixelReveal.jsx:27 | the ref array starts empty |
| HeadlineReveal.TileRefs.Sync | src/components/HeadlinePixelReveal.jsx:47-49 | an empty or wrong-length array is replaced by one of null slots; a right-length one is kept |
| HeadlineReveal.TileRefs.SetRef | src/components/HeadlinePixelReveal.jsx:160 | a ref callback writes only its own slot |
| HeadlineReveal.Mounted | src/components/HeadlinePixelReveal.jsx:54 | the node count is zero exactly when every slot is null |
| HeadlineReveal.EachStep | src/components/HeadlinePixelReveal.jsx:58-61 | a positive number `stagger` is used as given; otherwise max(0.001, duration/max(1, n)) |
| HeadlineReveal.TimelinePlan | src/components/HeadlinePixelReveal.jsx:54-74 | no timeline without nodes; totalTime = eachStep·(n−1); the cue exists iff `onCueCanvas` does and sits at totalTime·cueCanvasAt |
| HeadlineReveal.LightTimeInRange | src/components/HeadlinePixelReveal.jsx:62-82 | every tile lights within [0, totalTime] |
| HeadlineReveal.RevealFitsDuration | src/components/HeadlinePixelReveal.jsx:58-62 | without an explicit stagger the reveal fits in `duration` |
| HeadlineReveal.CueInsideReveal | src/components/HeadlinePixelReveal.jsx:74 | a cue fraction in [0, 1] fires inside the reveal |
| PixelTransition.GridDims | src/components/PixelTransition.jsx:15-16 | cols = ceil(W/p) and rows = ceil(H/p): the fewest cells that cover the viewport |
| PixelTransition.MakeCells | src/components/PixelTransition.jsx:11-38 | the grid is rebuilt with rows·cols transparent cells and returns [rows, cols] |
| PixelTransition.Stagger | src/components/PixelTransition.jsx:111-132 | each·max(1, n) = 32·duration, non-negative for a non-negative duration |
| PixelTransition.Overlay.constructor | src/components/PixelTransition.jsx:56-74 | the overlay starts hidden with no run in flight |
| PixelTransition.Overlay.Play | src/components/PixelTransition.jsx:84-102 | corrected `play`: nothing without wrap and grid; otherwise every pending phase of the previous run is cancelled, a fresh transparent grid is shown and a new cover starts |
| PixelTransition.Overlay.PlayAsWritten | src/components/PixelTransition.jsx:84-151 | `play` as written: a new cover starts, but the pending frame wait and reveal of the previous run stay scheduled |
| PixelTransition.Overlay.CoverStep | src/components/PixelTransition.jsx:107-114 | one cover step lights one cell |
| PixelTransition.Overlay.CoverComplete | src/components/PixelTransition.jsx:115-123 | all cells lit, `onCovered` counted once whether or not it throws, and the frame wait starts |
| PixelTransition.Overlay.Frames | src/components/PixelTransition.jsx:122-128 | two frames later the overlay is shown and the reveal starts |
| PixelTransition.Overlay.RevealStep | src/components/PixelTransition.jsx:128-136 | a step of the latest run's reveal darkens one cell; a stale run's step animates cells a later `play` replaced, so the shown grid is unchanged |
| PixelTransition.Overlay.RevealComplete | src/components/PixelTransition.jsx:137-144 | the overlay hides, the grid is emptied and one reveal-done event is dispatched |
| PixelTransition.CoverIsNeverInterrupted | src/components/PixelTransition.jsx:89-93 | with the corrected `play`, a pending cover has no reveal or frame wait of any run beside it and the overlay is shown |
| PixelTransition.StaleRevealScenario | src/components/PixelTransition.jsx:89-93 | as written, replaying during a reveal lets the old reveal hide the overlay and empty the grid mid-cover (see also lines 137-140) |
| PixelTransition.CorrectedScenario | src/components/PixelTransition.jsx:89-93 | the same events with the corrected `play` cancel the old reveal and keep the cover shown |
| Karakter.DegToRad | backup/newbackup/karakter3D.js:68-70 | r·180 = d·π, with 0 ↦ 0 and 180 ↦ π |
| Karakter.Deg | backup/newbackup/karakter3D.js:68-70 | each component is converted with degToRad |
| Karakter.BaseRotationIsHalfTurn | backup/newbackup/karakter3D.js:18 | the base rotation [0, 180, 0]° is a half turn about y |
| Karakter.SfxGain | backup/newbackup/karakter3D.js:101-106 | gain = clamp(volume ?? 1, 0, 1)·baseVolume, within [0, baseVolume] |
| Karakter.SwitchSfx.constructor | backup/newbackup/karakter3D.js:75-88 | context and gain exist, no buffer yet, no play yet |
| Karakter.SwitchSfx.BufferDecoded | backup/newbackup/karakter3D.js:91-95 | the decoded buffer becomes available |
| Karakter.SwitchSfx.Play | backup/newbackup/karakter3D.js:109-126 | muted plays nothing and does not touch the throttle; within 120 ms nothing plays; an accepted call plays only with context and buffer, at a rate in [minR, maxR] |
| Karakter.Progress | backup/newbackup/karakter3D.js:146 | u = min(t/REVEAL_DURATION, 1) is ≤ 1, non-negative for t ≥ 0, and 1 from the duration on |
| Karakter.RevealEnds | backup/newbackup/karakter3D.js:146-163 | from 0.7 s on the progress is 1 and the granularity is END_PIXELS |
| Karakter.Granularity | backup/newbackup/karakter3D.js:148-155 | the granularity lies between END and START pixels, START at u = 0 and END at u = 1 |
| Karakter.GranularityLevels | backup/newbackup/karakter3D.js:149-152 | with 4 steps the granularity takes only four values |
| Karakter.GranularityMonotone | backup/newbackup/karakter3D.js:148-155 | the granularity never increases as the reveal progresses |
| Karakter.GranularityAt | backup/newbackup/karakter3D.js:150-152 | the stepped granularity is lerp(START, END, ⌊u(steps−1)⌋/(steps−1)) |
| Karakter.RevealFx.constructor | backup/newbackup/karakter3D.js:131-141 | enabled at START pixels and CA_START, timed from now |
| Karakter.RevealFx.Trigger | backup/newbackup/karakter3D.js:136-141 | a trigger restarts the reveal |
| Karakter.RevealFx.Frame | backup/newbackup/karakter3D.js:143-164 | while enabled a frame sets the stepped granularity and lerped chroma for the elapsed time, and disables itself once u ≥ 1 |
| Karakter.MouseNdc | backup/newbackup/karakter3D.js:342-345 | pointer coordinates inside the window map into [−1, 1] |
| Karakter.FollowRig.constructor | backup/newbackup/karakter3D.js:177-178 | the rig starts unrotated |
| Karakter.FollowRig.Frame | backup/newbackup/karakter3D.js:179-187 | x/y close ROT_DAMPING of their gap to base + mouse·tilt; z is pinned to its base |
| Karakter.Lower | backup/newbackup/karakter3D.js:212 | lower-casing shifts A–Z down to a–z and keeps every other character |
| Karakter.NameMapKeys | backup/newbackup/karakter3D.js:210-214 | the keys are exactly the lower-cased clip names |
| Karakter.NameMapLastWins | backup/newbackup/karakter3D.js:210-214 | a key maps to the last clip name that lower-cases to it |
| Karakter.NameMap | backup/newbackup/karakter3D.js:210-214 | the lower-cased clip name map; NameMapKeys and NameMapLastWins prove its keys and values |
| Karakter.BuildNameMap | backup/newbackup/karakter3D.js:210-214 | the `forEach` loop builds exactly `NameMap(names)` |
| Karakter.InitialClip | backup/newbackup/karakter3D.js:278 | the case-insensitive match of `initialClip`, else names[0], else none |
| Karakter.Candidates | backup/newbackup/karakter3D.js:293 | the candidates are exactly the allowed clips that have a non-empty name |
| Karakter.PickNext | backup/newbackup/karakter3D.js:296-300 | the pick is a candidate, and differs from the current clip when there is more than one |
| Karakter.ClipPlayer.constructor | backup/newbackup/karakter3D.js:274 | the current clip is the initial clip; no switch and no hover sound yet (see also lines 281, 314) |
| Karakter.ClipPlayer.Click | backup/newbackup/karakter3D.js:287-311 | with no animations or no candidates nothing switches, whatever the draws; otherwise a switch makes a candidate with an action current, a different one when there are several |
| Karakter.ClipPlayer.PointerOver | backup/newbackup/karakter3D.js:315-318 | the hover sound plays once per hover |
| Karakter.ClipPlayer.PointerOut | backup/newbackup/karakter3D.js:319-322 | leaving re-arms the hover sound |
| Karakter.FittedScale | backup/newbackup/karakter3D.js:267 | for a height ≥ 1e-6 the fitted model is targetH·multiplier tall |
| Karakter.WorldHeight | backup/newbackup/karakter3D.js:264-265 | the view height 2·tan(fov/2)·distance; FitFillsView proves the fit against it |
| Karakter.GroundY | backup/newbackup/karakter3D.js:270 | the ground offset −0.5·height·scale; FitFillsView proves it is half the fitted height below the centre |
| Karakter.FitFillsView | backup/newbackup/karakter3D.js:264-271 | the model fills FIT_HEIGHT_RATIO of the visible height, and groundY is half that height below the centre |
| Sfx.GlobalBus | src/lib/sfx.js:7-11 | the bus only when a window exists and the bus has both ctx and busGain |
| Sfx.PickRate | src/lib/sfx.js:77-83 | a number is returned as is; a range yields a rate between its ends |
| Sfx.Level | src/lib/sfx.js:109 | level = (master ?? 1)·volume, within [0, volume] for a master in [0, 1] |
| Sfx.EnvelopeFor | src/lib/sfx.js:112-117 | 0 at now, the level after attackMs, back to 0 after (attack + release)/1000 + duration |
| Sfx.GainAt | src/lib/sfx.js:113-117 | the envelope stays in [0, peak], is 0 outside it and reaches the peak at the attack time |
| Sfx.AttackRises | src/lib/sfx.js:116 | the gain rises during the attack |
| Sfx.Player.constructor | src/lib/sfx.js:41-62 | uses the bus iff one exists; otherwise its own context; no buffer yet, nothing scheduled on the gain node |
| Sfx.Player.Decoded | src/lib/sfx.js:64-72 | a decoded buffer is kept only while mounted |
| Sfx.Player.Unmount | src/lib/sfx.js:74 | unmounting stops later decodes from being kept |
| Sfx.Player.Call | src/lib/sfx.js:85-130 | a throttled call does nothing; an accepted one updates the throttle BEFORE the mute check, and plays only when unmuted and ready; a sound that starts replaces the shared gain node's schedule with its own envelope |
| Sfx.OverlapCutsEarlierSound | src/lib/sfx.js:113-117 | a second sound 100 ms after a first one resets the shared gain node to 0 while the first sound's own envelope would still be positive; both sounds keep playing |
| Sfx.MutedCallThrottles | src/lib/sfx.js:86-91 | a muted call still uses up the throttle window, so an immediate unmuted call is dropped |
| AudioProvider.MutedString | src/components/AudioProvider.jsx:139 | "1" iff muted, "0" iff not |
| AudioProvider.Persist | src/components/AudioProvider.jsx:133-141 | what is written to storage: the muted string and the volume; PersistRoundTrip proves Hydrate reads it back |
| AudioProvider.Hydrate | src/components/AudioProvider.jsx:45-52 | a stored flag mutes iff it is "1"; a stored volume is clamped into [0, 1]; what is absent keeps its value |
| AudioProvider.PersistRoundTrip | src/components/AudioProvider.jsx:47-50 | hydrating what was persisted gives back the flag and any volume in [0, 1] (see also lines 133-141) |
| AudioProvider.Reverse | src/components/AudioProvider.jsx:118 | reversal keeps the length |
| AudioProvider.ReverseAt | src/components/AudioProvider.jsx:118 | rev[i] = fwd[len−1−i] |
| AudioProvider.ReverseTwice | src/components/AudioProvider.jsx:113-119 | reversing twice gives the buffer back |
| AudioProvider.ReverseChannel | src/components/AudioProvider.jsx:116-118 | the in-place loop fills a fresh channel of the same length with the reversed samples |
| AudioProvider.ReverseBuffer | src/components/AudioProvider.jsx:114-119 | same channel count, each channel fresh, of equal length and reversed |
| AudioProvider.TimeConstant | src/components/AudioProvider.jsx:175 | the time constant is ≥ 0.01 s and equals ms/5000 above 50 ms |
| AudioProvider.DefaultFadeConstant | src/components/AudioProvider.jsx:164-175 | the default 220 ms fade has a 0.044 s time constant |
| AudioProvider.Speed | src/components/AudioProvider.jsx:246 | speed = min(1, \|v\|/12) lies in [0, 1] |
| AudioProvider.Sign | src/components/AudioProvider.jsx:247 | `Math.sign(vx) \|\| 0` is −1, 0 or 1 with the sign of vx |
| AudioProvider.TargetRate | src/components/AudioProvider.jsx:250 | the target rate is in [0.5, 1.7]: 1 at rest, above 1 for positive vx and below for negative |
| AudioProvider.CutoffHz | src/components/AudioProvider.jsx:254 | the cutoff lies in [2000, 18000], 18000 at rest and 2000 at full speed |
| AudioProvider.GrainOffset | src/components/AudioProvider.jsx:271-274 | the grain offset is ≥ 0 and mirrors the playhead into the reversed buffer |
| AudioProvider.Provider.constructor | src/components/AudioProvider.jsx:40-52 | state hydrated from storage and persisted back; not playing; nothing faded or broadcast (see also lines 133-141) |
| AudioProvider.Provider.Decoded | src/components/AudioProvider.jsx:106-121 | the decoded forward and reversed buffers become available |
| AudioProvider.Provider.Play | src/components/AudioProvider.jsx:150-157 | playing starts when the element exists and play succeeds |
| AudioProvider.Provider.Pause | src/components/AudioProvider.jsx:159-161 | pausing the element stops playback through its pause listener (lines 65-67); without an element playing is unchanged |
| AudioProvider.Provider.FadeBusTo | src/components/AudioProvider.jsx:164-181 | with a graph, one fade towards the target with the fade time constant is scheduled |
| AudioProvider.Provider.ToggleMuted | src/components/AudioProvider.jsx:190-204 | the flag flips and is persisted; muting fades to 0; unmuting plays then fades to 1; the new state is broadcast |
| AudioProvider.Provider.SetVolume | src/components/AudioProvider.jsx:133-136 | the volume is set and persisted (see also line 312) |
| AudioProvider.Provider.TryPlay | src/components/AudioProvider.jsx:226 | the start events play only when not muted |
| AudioProvider.Provider.ReactSimple | src/components/AudioProvider.jsx:241-258 | without element or filter nothing changes; otherwise the rate moves 20% towards the target and the cutoff follows the speed |
| AudioProvider.Provider.ReverseBurst | src/components/AudioProvider.jsx:261-292 | no-op when disabled, muted, unloaded or within 140 ms; otherwise one grain at a non-negative offset is started |
| AudioProvider.Provider.Velocity | src/components/AudioProvider.jsx:295-300 | a velocity event tries to play when unmuted, modulates, and bursts only for vx < −4 |
| SoundToggle.IsOn | src/components/SoundToggle.jsx:25 | on iff the provider exists, is playing and is not muted |
| SoundToggle.SpacingEven | src/components/SoundToggle.jsx:43-48 | x runs evenly from mx to W−mx and y from my to H−my |
| SoundToggle.Centrality | src/components/SoundToggle.jsx:58-60 | the column centrality lies in [0, 1] |
| SoundToggle.RowPreference | src/components/SoundToggle.jsx:59-61 | the row preference lies in [0.1, 1] |
| SoundToggle.WeightBounds | src/components/SoundToggle.jsx:58-62 | every dot weight lies in [0.5, 1] |
| SoundToggle.DotAt | src/components/SoundToggle.jsx:39-68 | dot k of the row-major grid with its position, phase and weight; SpacingEven and WeightBounds prove its ranges |
| SoundToggle.Dots | src/components/SoundToggle.jsx:39-68 | rows·cols dots in row-major order, dot k being `DotAt(k)` |
| SoundToggle.Radius | src/components/SoundToggle.jsx:110-124 | the radius is ≥ 0.2 and bounded by the base plus the amplitude |
| SoundToggle.Opacity | src/components/SoundToggle.jsx:115-125 | the opacity lies in [0.12, 1] |
| SoundToggle.Wave.constructor | src/components/SoundToggle.jsx:99-101 | the phase starts at 0 and the effect captures the current `isOn` |
| SoundToggle.Wave.Restart | src/components/SoundToggle.jsx:99-134 | a change of `isOn` or of the dots re-runs the effect: the phase restarts at 0 with the new `isOn` |
| SoundToggle.Wave.Tick | src/components/SoundToggle.jsx:105-130 | the phase advances 0.20 when the captured `isOn` is on and 0.06 when off, and every dot gets its radius and opacity |
| SoundToggle.ToggleRestartsPhase | src/components/SoundToggle.jsx:99-134 | after two frames off, a toggle and one frame, the phase is one "on" step: a toggle discards the accumulated phase |
| Csp.Directives | middleware.js:7-17 | eight directives, starting with `default-src 'self'`, with script-src and connect-src depending on the mode |
| Csp.ScriptSrc | middleware.js:10 | `script-src 'self'`, with 'unsafe-eval' added in development; EvalOnlyInDevelopment proves the iff |
| Csp.ConnectSrc | middleware.js:14 | `connect-src 'self'` with ws:, localhost and https: in development and https: only in production; WebSocketsOnlyInDevelopment proves the iff |
| Csp.Join | middleware.js:18 | `join("; ")`; JoinContains proves every part occurs in the result |
| Csp.Policy | middleware.js:5-18 | the header value for NODE_ENV; PolicyCarriesDirectives proves its content |
| Csp.ModesDifferOnlyInScriptAndConnect | middleware.js:7-17 | the two modes differ only in script-src and connect-src |
| Csp.EvalOnlyInDevelopment | middleware.js:5-10 | script-src contains 'unsafe-eval' iff not in production |
| Csp.WebSocketsOnlyInDevelopment | middleware.js:5-14 | connect-src allows ws: iff not in production |
| Csp.JoinContains | middleware.js:18 | the joined policy contains every directive and starts with the first |
| Csp.PolicyCarriesDirectives | middleware.js:5-18 | the policy starts with `default-src 'self'` and contains every directive of its mode |
| Csp.Middleware | middleware.js:20-22 | the pass-through response carries exactly the Content-Security-Policy header, set to the policy |
| TransitionLink.OnClick | src/components/TransitionLink.jsx:5-21 | the default is prevented iff not already prevented, left button, no modifier and no `_blank` target; exactly then navigation to href is dispatched |
| TransitionLink.DecisionIgnoresHref | src/components/TransitionLink.jsx:7-13 | the decision never depends on href |
| TransitionLink.Attributes | src/components/TransitionLink.jsx:4-29 | the anchor always carries the given href and className, since the rest props never hold those keys; the caller's props can override only onClick and the hover marker, and every prop appears as given |
| RouteCurtain.AnnouncesLeaving | src/components/RouteCurtainClient.jsx:42-49 | `route:leaving` iff inside an `a[href]` whose href is non-empty and not http/mailto, with the primary button and no modifier |
| RouteCurtain.ExternalNeverLeaves | src/components/RouteCurtainClient.jsx:46 | http… and mailto:… links never raise the curtain |
| RouteCurtain.LinkAndCurtainAgree | src/components/RouteCurtainClient.jsx:42-49 | a plain click on an internal link raises the curtain, and the link handles it unless its target is `_blank` |
| RouteCurtain.Curtain.constructor | src/components/RouteCurtainClient.jsx:9-11 | transparent, unlocked and listening (see also lines 38-52) |
| RouteCurtain.Curtain.Show | src/components/RouteCurtainClient.jsx:13-19 | the previous tween is replaced by a fade-in and scrolling is locked |
| RouteCurtain.Curtain.Hide | src/components/RouteCurtainClient.jsx:21-32 | the previous tween is replaced by a fade-out; the lock stays until it completes |
| RouteCurtain.Curtain.Complete | src/components/RouteCurtainClient.jsx:27-30 | only a completing fade-out restores the overflow styles |
| RouteCurtain.Curtain.Leaving | src/components/RouteCurtainClient.jsx:35-38 | while listening, `route:leaving` shows the curtain |
| RouteCurtain.Curtain.Ready | src/components/RouteCurtainClient.jsx:36-39 | while listening, `route:ready` hides it |
| RouteCurtain.Curtain.PointerDown | src/components/RouteCurtainClient.jsx:42-50 | a pointerdown that announces leaving shows the curtain; any other changes nothing |
| RouteCurtain.Curtain.Unmount | src/components/RouteCurtainClient.jsx:54-58 | the listeners are removed |
| RouteCurtain.LeaveDuringFade | src/components/RouteCurtainClient.jsx:13-31 | leaving during a fade-out kills it, so scrolling stays locked; a completed fade-out unlocks |
| Navbar.ActiveButtons | src/components/Navbar.js:12-14 | at most one of home/work/about holds, and "/work…" and "/about…" paths are work and about |
| Navbar.Pieces | src/components/Navbar.js:28 | a label shown unburst is one piece per character |
| Navbar.Burst | src/components/Navbar.js:21-22 | a burst keeps one piece per character: the character itself for rolls ≥ 0.45, else the drawn ASCII glyph |
| Navbar.BurstLength | src/components/Navbar.js:8-22 | a burst label is between \|t\| and 2\|t\| code units long, since one glyph is two units |
| Navbar.FlattenPieces | src/components/Navbar.js:28 | an unburst label spells the original |
| Navbar.Flatten | src/components/Navbar.js:28 | the rendered label: its pieces concatenated; FlattenPieces proves an unburst label spells the original |
| Navbar.Labels.constructor | src/components/Navbar.js:17-19 | every label shows its original, with no timers |
| Navbar.Labels.Stop | src/components/Navbar.js:24-29 | both timers of k are cleared and its original label restored |
| Navbar.Labels.Start | src/components/Navbar.js:31-37 | k is stopped first, then its burst interval and a stop after d ms are scheduled |
| Navbar.Labels.BurstTick | src/components/Navbar.js:33-35 | the interval shows a new burst of k's original |
| Navbar.Labels.StopTimeout | src/components/Navbar.js:36 | the timeout stops k |
| Navbar.Labels.Unmount | src/components/Navbar.js:39-44 | unmounting clears every timer |
| Navbar.HoverInAndOut | src/components/Navbar.js:31-37 | after a hover, a burst and the timeout, "[WORKS]" shows again with no timer left |
| Navbar.Reveal.Enter | src/components/Navbar.js:55-63 | on home the buttons are hidden and the event and fallback armed; elsewhere they are shown and the played flag is reset (see also lines 86-88) |
| Navbar.Reveal.constructor | src/components/Navbar.js:53-63 | the first layout follows the route, nothing played |
| Navbar.Reveal.Route | src/components/Navbar.js:55-63 | a route change re-enters; the same route changes nothing (see also lines 90-94) |
| Navbar.Reveal.Play | src/components/Navbar.js:68-84 | the reveal starts only when not yet played and all five refs exist |
| Navbar.Reveal.RevealEvent | src/components/Navbar.js:86-87 | the reveal event plays while listening |
| Navbar.Reveal.Fallback | src/components/Navbar.js:88 | the 2200 ms fallback plays, and is then spent |
| Navbar.Reveal.TimelineEnd | src/components/Navbar.js:80-83 | the end of the timeline marks the reveal played |
| Navbar.Reveal.Unmount | src/components/Navbar.js:90-94 | cleanup removes the listener, the fallback and the timeline |
| Navbar.PlayedOncePerVisit | src/components/Navbar.js:57-69 | the reveal plays once per home visit, and again after leaving and returning |
| Navbar.FallbackDuringReveal | src/components/Navbar.js:69-88 | a fallback firing while the reveal runs restarts it, since `played` is set only at its end |
| RevealGate.Gate.constructor | src/components/RevealGate.jsx:22-42 | ready starts as !enabled, and the listener and timer exist iff enabled |
| RevealGate.Gate.Render | src/components/RevealGate.jsx:50-51 | the children render iff ready |
| RevealGate.Gate.Event | src/components/RevealGate.jsx:29-33 | the event sets ready and cancels the timer |
| RevealGate.Gate.Timeout | src/components/RevealGate.jsx:39-42 | the timeout sets ready and removes the listener |
| RevealGate.Gate.Unmount | src/components/RevealGate.jsx:44-47 | cleanup removes both |
| RevealGate.FirstWins | src/components/RevealGate.jsx:29-42 | closed before, open after whichever comes first, still open after both |
| RevealGate.UnmountedEarly | src/components/RevealGate.jsx:44-51 | unmounting before either leaves the gate closed |
| HomePage.TypingFrame | src/app/page.js:32-38 | while i < len, i+1 glyphs; from i = len on, the text itself |
| HomePage.TextsNotGlyphs | src/app/page.js:11-14 | every text has a character that is not a glyph |
| HomePage.FrameIsTextWhenDone | src/app/page.js:32-38 | a frame equals the text exactly when i ≥ len |
| HomePage.DeadlineBoundsFinish | src/app/page.js:47 | no text finishes typing after the deadline |
| HomePage.DeadlineIsAFinish | src/app/page.js:47 | the deadline is some text's finishing time |
| HomePage.Deadline | src/app/page.js:47 | the latest finishing time of the texts; DeadlineBoundsFinish and DeadlineIsAFinish prove it is their maximum |
| HomePage.HomeDeadline | src/app/page.js:47 | for the three texts the deadline is 1500 ms, set by "INDONESIA" |
| HomePage.Glitch | src/app/page.js:67-69 | the glitch keeps each character for rolls ≤ 0.9 and swaps in the drawn glyph otherwise |
| HomePage.Shown | src/app/page.js:128-130 | a non-empty glitch text is shown, otherwise the typed one |
| HomePage.Home.constructor | src/app/page.js:15-17 | nothing typed; three typing intervals and the completion timeout at the deadline (see also lines 26-50) |
| HomePage.Home.TypeTick | src/app/page.js:28-43 | text idx shows the frame for the counter as its updater reads it: before `i++` when React runs the updater at once, after it when the updater is deferred to the next render; the counter advances and the interval stops once i > len |
| HomePage.DeferredTypingRunsAhead | src/app/page.js:28-43 | with every update after the first deferred past `i++`, "MANAMONA" shows three glyphs on the second tick and its real text on the eighth (800 ms), a period before the 900 ms that `(len + 1)·period` gives |
| HomePage.Home.CompleteTimeout | src/app/page.js:48-50 | typing is marked complete |
| HomePage.Home.GlitchTick | src/app/page.js:59-77 | fully typed texts get a glitch of the original; the others mirror the typed text |
| HomePage.Home.ResetTick | src/app/page.js:86-97 | fully typed texts show their original again; the others are untouched |
| HomePage.Home.Unmount | src/app/page.js:52 | the completion timeout and both glitch intervals are cleared (see also lines 79, 99) |
| Common.Floor | backup/newbackup/karakter3D.js:150 | `Math.floor` gives the integer r with r ≤ x < r + 1 |
| Common.Ceil | src/components/InfiniteWorksGrid.jsx:73-74 | `Math.ceil` gives the integer r with r − 1 < x ≤ r |
| Common.Round | src/components/HeadlinePixelReveal.jsx:31 | `Math.round` gives the integer within half a unit, halves rounding up |
| Common.Trunc | src/components/InfiniteWorksGrid.jsx:288 | `\|0` truncation rounds towards zero from either side |
| Common.JsRemBounds | src/components/InfiniteWorksGrid.jsx:42 | JavaScript's `%` by a positive m stays strictly within (−m, m), is non-negative for a non-negative dividend, and differs from the dividend by a multiple of m |
| Common.Clamp | src/components/R3FWorksStage.jsx:215-216 | `clamp` is in [lo, hi], the identity inside it and the nearer bound outside |
| Common.Approach | src/components/InfiniteWorksGrid.jsx:93-101 | the follow step shrinks the gap by the factor (1 − k) and never overshoots |
| Common.DragVelocity | src/components/InfiniteWorksGrid.jsx:157-162 | the drag velocity with elapsed time floored at 1 ms is clamped to ±MAX_V |
| Common.Lerp | backup/newbackup/karakter3D.js:152-160 | lerp gives a at 0 and b at 1 and stays between them |

## Left out

- Rendering is not modelled: three.js meshes, `InstancedMesh` creation and
  disposal, matrix composition, GLTF loading and raycasting. The per-mesh
  bounding box, world matrix, decomposed rotation/scale and the hover point
  are inputs.
- Float32 storage and floating-point rounding: all arithmetic is over reals.
- The middleware's route matcher (`/:path*`, every route) is framework
  configuration. `Csp.Middleware` is the handler for any one request.
- `Math.sqrt`, `Math.hypot`, `Math.tan`, `Math.sin`, `Math.pow` and the
  sRGB curve are function parameters. `Math.sqrt(hoverRadius²)` is modelled
  as |hoverRadius|, its value over the reals.
- Spring convergence is not claimed: it depends on k, d and dt in ways the
  code does not constrain.
- GSAP is left out:
  - easing curves and tween interpolation;
  - `autoAlpha` intermediate values;
  - the random `from: "random"` order of staggers, since only per-step
    effects and completion are modelled.
- The Web Audio graph, fetch/decode, the `<audio>` element, `localStorage`
  access errors and `window` event dispatch are out. Only gates, clamps,
  envelopes, persistence strings and buffer reversal are modelled.
- `Intl.DateTimeFormat` is replaced by its output: the formatted time string
  and the hour are inputs.
- Shader code is out: the GLSL of the CRT overlay and the pincushion/RGB
  split effect.
- Presentational and wiring files are out: intro overlay, custom cursor,
  shape button, animated model, the backup knob/toggle, pixel spot,
  CenterCube, the 3D model and canvas wrappers, layout and the about/work
  pages, the transition shell and the route-ready ping.
- The older canvas backup duplicates the reveal and follow-rig code modelled
  from `karakter3D.js`, so it is not modelled separately.
- The older pixel-glitch button backup is mostly random CSS transforms, and
  is not modelled.
- AudioProvider's `safeSetMuted` passes an async updater to React's state
  setter. The resulting state is a promise, which is React-specific and not
  modelled.
- AudioProvider.Hydrate: `parseFloat` of a non-numeric stored string gives
  NaN, and the clamp passes NaN through. The model stores a number, so the
  NaN case is not represented.
- AudioProvider.Provider.SetVolume: the context setter accepts any number
  without clamping, and the model stores it as given. Only hydration clamps.
- AudioProvider.Provider.ReactSimple: the filter's `setTargetAtTime`
  smoothing and its `catch` fallback both land on the same target. Only the
  target cutoff is modelled.
- Voxel.InstanceColors: colours the instances with the corrected rule (see Findings), so a texture-average colour is linearised once, while the source linearises it a second time at line 185. Voxel.InstanceColorAsWritten models the source's rule.
- Voxel.Swarm.Build: installs the colours of Voxel.InstanceColors, so it shares that line's correction; every other part of the build follows the source.
- Sfx.EnvelopeFor: the `catch` fallback that sets the gain directly is not
  modelled. It only fires when scheduling throws.
- SoundToggle.Dots: requires cols ≥ 2 and rows ≥ 2. Lines 44 and 47 divide
  by cols − 1 and rows − 1, so one column or row yields NaN coordinates,
  which reals cannot represent.
- Karakter.PickNext: requires that the draws contain a candidate different
  from the current clip when there is more than one. The source's
  `do … while` re-draw terminates only with probability 1, and the draws are
  the random values it happens to use.
- Karakter.Lower: lower-cases ASCII letters only. JavaScript's
  `toLowerCase` also folds non-ASCII letters.
- ThetaRail.Rail.ScrollTo: the browser clamps `scrollLeft`. Its rounding to
  device pixels is not modelled.
- ThetaRail.Rail.Wheel: in the horizontal-dominant branch the handler does
  not call `preventDefault`, so the browser also scrolls the rail natively
  by an amount of its own choosing. That native scroll is not modelled;
  only the velocity the handler sets is.
- HeaderTop.TypeOnce.Start: the optional start delay is a timer that calls
  `Start`. It is not a separate state.
- HeaderTop.Idle.Tick: `Math.random() < 0.6` chooses one or two picks, and
  the picks are inputs. Two picks may hit the same position.
- MouseTrail.Trail.Move: the random spot id is omitted; spots are compared
  by position, glyph and size.
- MouseTrail.Trail.SetHovering: the 80 ms interval timing is not modelled;
  which running scatter ticks next is the caller's choice. The scatter's
  state-updater closure reads the latest trail. Each scatter step is modelled as applying to the current
  trail, and the trail ref is updated only by moves and clears.
- RevealGate.Gate.constructor: the event name, timeout and `enabled` are
  fixed at mount. Re-running the effect on a prop change is not modelled.
- HomePage.Home.TypeTick: whether React runs a typing updater at once or
  during the next render is React's scheduling, so it is an input
  (`deferred`). In practice only the first update of the page runs at once.
- HomePage.Home.Unmount: the typing intervals are not cleared on unmount,
  because the cleanup at line 52 clears only the completion timeout. The
  model keeps them as they are.
- Navbar.Reveal.Play: the GSAP tween values (y offset, opacity, delays) are
  not modelled. Only the start/played flags are.
- RouteCurtain.Curtain.Ready: nothing in this code base dispatches
  `route:ready`, so the hide path is modelled as an event the component
  accepts.
- Voxel.Swarm.Step: hover is an input per frame. Writing the instance
  matrices (lines 269-276) is rendering.

## Findings

| source | as written | input that shows it | evidently intended | confidence | as-written member | corrected member |
|---|---|---|---|---|---|---|
| src/components/VoxelFromGLB.jsx:183-186 | a colour sampled from a texture is converted sRGB→linear in `sampleTextureAverage` (line 304), and then again when the instances are coloured (line 185) | a texture whose 8×8 sample is uniform (10, 10, 10): its average is linearised twice and comes out darker than the once-linearised average | every instance colour is its source colour linearised exactly once | not executed | Voxel.TextureColorLinearisedTwice | Voxel.InstanceColorLinearisedOnce |
| src/components/PixelTransition.jsx:89-93 | `play` kills only the cover timeline held in `tlRef`; the double-`requestAnimationFrame` wait and the reveal tween of a previous run are not tracked, so they survive | play, let the cover complete and the reveal start, then play again: the first reveal's completion hides the overlay and empties the grid while the second cover is running | a new `play` cancels every pending phase of the previous run, so a cover is never interrupted | not executed | PixelTransition.StaleRevealScenario | PixelTransition.CoverIsNeverInterrupted |
