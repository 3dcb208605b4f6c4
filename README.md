# Cursor particle trail

A model of the `CursorParticles` component, the glowing trail of small
particles that follows the mouse pointer across the page. The component
keeps three pieces of state. The first is a list of particle records, each
with a position, a size, a velocity, a life in (0, 1] and a colour. The
other two are the current and the previous pointer positions. Two callbacks
change that state:

- **pointer move** (`handleMouseMove` with `createParticle`). It records
  the new pointer position. It spawns `min(3, ceil(dist / 10))` particles
  at random points of the segment from the previous position to the new
  one, each with up to 2 pixels of jitter. Then it makes the new position
  the previous one.
- **frame** (`animate`). It clears the canvas and sets a red glow. Then it
  walks the list forward. Each particle loses 0.04 to 0.07 of life, moves
  by its velocity and shrinks by 8 %. It is drawn if it still has life and
  is larger than 0.1 px. Otherwise it is spliced out of the list, and the
  index steps back (`splice(i, 1); i--`).

The files:

- `particles.dfy` (module `Particles`) holds the values: points,
  particles, the colour palette, the spawn-count rule, the particle
  constructor and the spawn positions along a move.
- `frame.dfy` (module `Frame`) gives the specification of a frame. `Tick`
  updates every particle, then keeps the visible ones, in order. Lemmas
  about a frame and about runs of frames go with it.
- `canvas.dfy` (module `Canvas`) is the 2D context, as far as the trail
  uses it. It keeps the drawing state the trail sets and a log of the
  drawing calls made so far.
- `cursor_particles.dfy` (module `CursorParticles`) holds the component
  itself. It is a class with the particle list and the two pointer
  positions as fields, and the pointer-move handler and the frame callback
  as methods with loops.

The main result is about the frame callback's forward loop with in-place
removal. `ParticleTrail.Pass` (and through it `Animate`) leaves the list
equal to `Tick` of the list before. It also draws exactly the survivors,
in order. So the loop neither skips a particle nor visits one twice, even
across consecutive removals and removal of the last particle.

Every `Math.random()` draw is a parameter in [0, 1). The pointer-move
handler takes the seven draws it spends on each spawned particle as one
`SpawnDraws` value, in the order the source makes them. The frame takes
one draw per particle it visits. `Math.hypot` is a parameter `dist`,
known as the non-negative number whose square is dx² + dy² (`IsHypot`).
Numbers are exact reals.

## Model

| member | source | states |
|---|---|---|
| Particles.Ceil | components/CursorParticles.tsx:41 | `Math.ceil`: the result is the least integer not below its argument |
| Particles.SpawnCount | components/CursorParticles.tsx:39-41 | the count is at most 3; it is 0 exactly when the distance is 0, 3 exactly when the distance exceeds 20, and otherwise the number of started 10-pixel steps |
| Particles.HypotBounds | components/CursorParticles.tsx:39 | the Euclidean length of a move is at least the larger of its horizontal and vertical extents and at most their sum |
| Particles.SpawnCountOfMove | components/CursorParticles.tsx:39-41 | a move spawns nothing exactly when the pointer did not move, between 1 and 3 particles whenever it did, and 3 exactly when dx² + dy² > 400, that is when it moved more than 20 px |
| Particles.Lerp | components/CursorParticles.tsx:46-47 | the spawn coordinate `a + (b - a)·t`; for a fraction t in [0, 1] it lies between the previous and the current pointer coordinate |
| Particles.PickColor | components/CursorParticles.tsx:55-70 | the colour index is `floor(4r)`, always one of the four palette entries |
| Particles.NewParticle | components/CursorParticles.tsx:62-72 | a created particle has life 1.0, size in [0.5, 2.0), speedX in [-0.4, 0.4), speedY in (-2.0, -0.5] (so it always floats up), and lies within 2 px per axis of the spawn point |
| Particles.SpawnAt | components/CursorParticles.tsx:45-48 | a spawned particle is a newborn lying within 2 px per axis of a point of the segment from the previous pointer position towards the current one |
| Particles.SpawnAlong | components/CursorParticles.tsx:43-49 | a move spawns one particle per group of draws, each a newborn near the segment of the move |
| Particles.VerticalSwipe | components/CursorParticles.tsx:39-49 | a 100 px move straight down from the origin spawns 3 particles, each with x in [-2, 2) and y in [-2, 102) |
| Frame.Decay | components/CursorParticles.tsx:85 | the life lost in a frame is at least 0.04 and below 0.07 |
| Frame.Update | components/CursorParticles.tsx:84-88 | one frame's update of a particle: life drops by [0.04, 0.07), x and y advance by exactly speedX and speedY, size is multiplied by 0.92 and so strictly decreases, and velocity and colour are unchanged |
| Frame.Visible | components/CursorParticles.tsx:91 | the keep-and-draw test: life above 0 and size above 0.1 |
| Frame.UpdateAll | components/CursorParticles.tsx:81-88 | every particle is updated, one result per particle |
| Frame.Tick | components/CursorParticles.tsx:81-101 | the list after one frame: every particle updated with its own draw, then the visible ones kept in order; it never grows and holds only visible particles |
| Frame.Survivors | components/CursorParticles.tsx:91-100 | the filter never adds particles, and every particle it keeps is visible (life > 0 and size > 0.1) |
| Frame.SurvivorsSnoc | components/CursorParticles.tsx:91-100 | filtering one more particle at the end appends it exactly when it is visible |
| Frame.SurvivorsAppend | components/CursorParticles.tsx:91-100 | filtering a concatenation filters each part and concatenates the results |
| Frame.TickAppend | components/CursorParticles.tsx:62-101 | particles appended at the end of the list do not change what a frame does to the particles before them |
| Frame.TickSnoc | components/CursorParticles.tsx:81-101 | processing the next particle of a frame appends its updated self when it survives, and nothing otherwise |
| Frame.SurvivorsMembership | components/CursorParticles.tsx:91-100 | a particle is kept if and only if it was in the list and is visible |
| Frame.SurvivorsKeepsAll | components/CursorParticles.tsx:91-100 | the filter removes nothing if and only if every particle is visible |
| Frame.SurvivorsInOrder | components/CursorParticles.tsx:97-100 | the survivors keep their original relative order |
| Frame.TickOrigin | components/CursorParticles.tsx:81-101 | every particle left after a frame is visible and is the update of some particle that was there before |
| Frame.TickKeepsVelocityAndColor | components/CursorParticles.tsx:81-101 | a frame never increases the count, and each survivor keeps its original's speedX, speedY and colour, has at least 0.04 less life and is smaller (when its size was positive, as every live particle's is) |
| Frame.NewbornsAreLive | components/CursorParticles.tsx:62-72 | newly created particles satisfy the live-list invariant |
| Frame.TickKeepsLive | components/CursorParticles.tsx:81-101 | a frame preserves the live-list invariant: visible, life at most 1, size below 2, newborn velocity |
| Frame.TickLowersLife | components/CursorParticles.tsx:85 | a frame lowers the maximum life in the list by at least 0.04 |
| Frame.Run | components/CursorParticles.tsx:106 | repeated frames never increase the number of particles |
| Frame.RunLowersLife | components/CursorParticles.tsx:85 | if every particle's life is at most b, after n frames every remaining particle's life is at most b − 0.04·n |
| Frame.RunOrigin | components/CursorParticles.tsx:81-106 | every particle left after n frames descends from a particle of the starting list: same speedX, speedY and colour, and at least 0.04·n less life |
| Frame.RunLeavesVisible | components/CursorParticles.tsx:91 | after at least one frame every remaining particle is visible |
| Frame.ExpiresWithin25Frames | components/CursorParticles.tsx:69-91 | particles with life at most 1.0 are all gone after 25 frames |
| CursorParticles.Dot | components/CursorParticles.tsx:92-96 | the circle drawn for a particle: centred at its position, its size as radius, its life as opacity, its palette colour as fill, blur 2 and the red glow |
| CursorParticles.DrawAll | components/CursorParticles.tsx:91-96 | one circle is drawn per surviving particle |
| CursorParticles.DrawAllAppend | components/CursorParticles.tsx:81-101 | drawing two lists one after the other draws their concatenation |
| CursorParticles.LastFill | components/CursorParticles.tsx:93 | the fill style after drawing a list: the palette colour of the last particle drawn, or the previous style when none was drawn |
| CursorParticles.FrameDrawsOnlyVisible | components/CursorParticles.tsx:91-96 | every circle a frame draws has radius above 0.1, opacity equal to a life in (0, 1], blur 2 and the red glow |
| Canvas.Context2D.constructor | components/CursorParticles.tsx:22 | a fresh context has the given size, the default drawing state and no calls yet |
| Canvas.Context2D.Resize | components/CursorParticles.tsx:27-28 | the surface takes the given width and height |
| Canvas.Context2D.Clear | components/CursorParticles.tsx:75 | `clearRect` over the whole surface is appended to the call log |
| Canvas.Context2D.FillCircle | components/CursorParticles.tsx:94-96 | one filled circle is appended to the log, with the current fill style, opacity and shadow |
| CursorParticles.ParticleTrail.constructor | components/CursorParticles.tsx:15-17 | at mount the list is empty and both pointer positions are the origin |
| CursorParticles.ParticleTrail.Resize | components/CursorParticles.tsx:26-29 | the canvas takes the viewport size and the particles are untouched |
| CursorParticles.ParticleTrail.CreateParticle | components/CursorParticles.tsx:62-72 | exactly one particle, the one built from the draws, is pushed at the end of the list |
| CursorParticles.ParticleTrail.HandleMouseMove | components/CursorParticles.tsx:34-52 | given `dist` as the Euclidean length of the move, the pointer position is recorded and copied to the previous position; exactly `SpawnCount(dist)` newborns near the move's segment are appended after the unchanged old particles; the live-list invariant is kept |
| CursorParticles.ParticleTrail.Visit | components/CursorParticles.tsx:82-100 | the particle at `i` is updated in place, then drawn with opacity equal to its life if it is visible and spliced out otherwise; nothing else in the list changes; the fill style becomes its colour when drawn and is unchanged otherwise |
| CursorParticles.ParticleTrail.Pass | components/CursorParticles.tsx:81-101 | the forward loop with `splice(i, 1); i--` leaves exactly `Tick` of the old list, that is every particle updated once and the visible ones kept in order, and it draws exactly those, in order, leaving the fill style of the last one drawn |
| CursorParticles.ParticleTrail.Animate | components/CursorParticles.tsx:74-107 | a frame clears the surface, leaves the list equal to `Tick` of the old one, draws exactly its survivors with glow, resets opacity to 1 and blur to 0, leaves the fill style of the last particle drawn (or the old one if none was), and keeps the live-list invariant |

## Left out

- `requestAnimationFrame` rescheduling and the window listeners for
  `resize` and `mousemove` (lines 30-31, 53, 106, 109) are host lifecycle.
  `Animate` models one frame, `Frame.Run` models a sequence of frames, and
  `HandleMouseMove` models one event.
- Teardown (lines 111-115) is not modelled. The cleanup cancels only the
  first frame's id, and every later frame schedules itself under a new id,
  so no guarantee that frames stop at unmount is claimed.
- Canvas pixels are not modelled. Drawing is a log of `ClearRect` and
  `FillCircle` calls; `beginPath`, `arc` and `fill` together are one
  `FillCircle`.
- Canvas.Context2D.Resize: a browser also resets the context's drawing
  state and clears the pixels when the canvas is resized; the model changes
  only the width and height.
- `Math.random()` draws are parameters in [0, 1), supplied by the caller.
- IEEE double rounding is not modelled; all numbers are exact reals.
- `Math.hypot` is a parameter: the caller supplies `dist` with the fact
  that it is the non-negative square root of dx² + dy² (`IsHypot`).
- The mount-time guards (lines 21 and 23) are not modelled. When the
  canvas element or its 2D context is missing, the source returns early
  and registers no listeners, never sizes the canvas and schedules no
  frames. A `ParticleTrail` here always has its `Context2D`, so the model
  covers only the mount that finds both.
- The particle record in the source is a mutable object updated through
  the local `p`. Here it is a value that is written back into the list.
  No other reference to a particle exists, so nothing observable is lost.
- Frame.ExpiresWithin25Frames: states the bound for runs of frames with
  no pointer moves in between. A move only appends particles, and
  `Frame.TickAppend` proves that appended particles do not change what a
  frame does to the particles before them.
- The other components (`Hero`, `PortalSection`, `InfoSection`), `App` and
  the prop interfaces in `types.ts` are not part of this model. They hold
  animation-library configuration and markup, with no logic of their own.
