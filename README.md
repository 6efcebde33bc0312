# Birthday page effects, modelled in Dafny

This project models the state logic behind the animated birthday page. It has
five effect components, all switched on together by one `isActive` flag.

- **Four particle effects** (confetti, balloons, floating emojis, stars):
  - While active, a spawn interval appends new particles to the end of the
    component's list.
  - Each spawn schedules a one-shot timeout. The timeout later filters those
    particles out by id.
  - Turning the flag off clears the list at once and cancels the interval.
- **The memory grid** (`FlyingMedia`):
  - On activation, it shuffles a catalog of eight photos and four videos.
  - It places each entry in a cell of a responsive grid.
  - It adds the cells to its list one timeout at a time, 70 ms apart.
  - It declares itself settled `n * 70 + 4500` ms after activation, for `n`
    cells (5340 ms for the twelve).
  - After that, a click opens a lightbox. Previous, next and the arrow keys
    step through the list with wrap-around. Close and Escape dismiss it.

How the source is modelled:

- **State as classes.** State the source keeps in React `useState` hooks
  becomes a class, and each hook update becomes a method with a `modifies`
  clause:
  - `Particles.ParticleList` for the particle effects.
  - `FlyingMedia.MediaGrid` for the grid.
- **Spec functions.** Each method is proved against a function on values:
  - `Particles.Without` for the id filter.
  - `FlyingMedia.Step` for the grid's events.
  - `FlyingMedia.Shuffled` for the in-place Fisher-Yates loop. That loop works
    on an `array`, as the source works on a copied JavaScript array.
- **Randomness.** `Math.random()` becomes a supplied draw:
  - A draw that the source floors into an index or a count is an integer with
    the source's range as a precondition.
  - Real-valued attributes (positions, sizes, rotations) are carried as
    opaque `real` payload.
- **Ids.** The `Date.now() + Math.random()` ids are supplied too. Only
  `Timeline.AfterStepIsKept` assumes they are unique across batches. The size
  bounds hold without that assumption.
- **Time.** Timers are modelled by a discrete clock (module `Timeline`):
  - Spawn tick `s` fires at `(s + 1) * period`.
  - A removal timeout comes due at the first tick not earlier than its
    deadline.
  - A removal due at exactly a tick's time is taken to fire before that
    tick's append. The browser does not fix the order of two timers with
    different delays, so this is a choice of the model.
  - On top of this clock, the project proves that the list after any tick is
    exactly the batches not yet due, in spawn order, when ids are unique.
  - With or without unique ids, no particle is live more often than the
    not-yet-due batches hold it.
  - This gives each effect's peak size: at most 4 bursts and 236 confetti
    pieces, 9 balloons, 10 emojis and 6 stars. If a removal that ties with a
    tick may fire after it, the balloon and emoji peaks become 10 and 11. The
    star and confetti peaks do not change.

## Model

| member | source | states |
|---|---|---|
| Particles.IdsOf | src/components/Confetti.tsx:54 | the ids of a burst, one per piece, in order |
| Particles.Without | src/components/Confetti.tsx:53-55 | a particle survives the removal filter exactly when it was there and its id is not named; the list never grows |
| Particles.WithoutAppend | src/components/Confetti.tsx:54 | filtering distributes over concatenation, so survivors keep their relative order |
| Particles.WithoutCounts | src/components/Balloons.tsx:38-40 | a removal deletes every copy of a named particle and keeps every copy of any other: nothing else changes |
| Particles.WithoutAbsent | src/components/Stars.tsx:38-40 | a removal whose ids no live particle carries leaves the list unchanged |
| Particles.WithoutIdempotent | src/components/FloatingEmojis.tsx:38-40 | applying the same removal twice is the same as once |
| Particles.WithoutOwnIds | src/components/Confetti.tsx:53-55 | a burst filtered by its own ids is gone completely |
| Particles.WithoutExtraIds | src/components/Confetti.tsx:54 | ids carried by no particle can be added to a removal without changing its result |
| Particles.ParticleList.constructor | src/components/Confetti.tsx:30 | a component mounts with an empty list and no interval |
| Particles.ParticleList.Activate | src/components/Confetti.tsx:38-58 | activation registers the interval and leaves the list untouched |
| Particles.ParticleList.Deactivate | src/components/Confetti.tsx:33-36 | the flag going off empties the list at once and stops spawning |
| Particles.ParticleList.Spawn | src/components/Confetti.tsx:51 | a tick appends its batch to the end of the list |
| Particles.ParticleList.RemoveIds | src/components/Confetti.tsx:53-55 | a removal timeout leaves exactly `Without` of the old list |
| Timeline.CeilDiv | src/components/Confetti.tsx:53-56 | the least multiple count of the period that covers a lifetime |
| Timeline.DueStep | src/components/Confetti.tsx:53-56 | the first tick at or after a batch's removal deadline; it is strictly later than the batch's own tick |
| Timeline.AfterStepIsKept | src/components/Confetti.tsx:38-56 | `AfterStep`, the list after s ticks built only from `Spawn` and `RemoveIds` updates, is, with ids unique across batches, the concatenation in spawn order of exactly the batches whose removal has not come due |
| Timeline.KeptStep | src/components/Confetti.tsx:53-55 | a particle whose id is not removed at tick `lo` is kept past `lo` as often as at `lo` |
| Timeline.AfterStepWithin | src/components/Confetti.tsx:38-56 | for any ids, shared or not, the list after s ticks (`AfterStep`) is a sub-multiset of the batches whose removal has not come due |
| Timeline.LiveBound | src/components/Confetti.tsx:38-56 | for any ids, if every batch is removed within w ticks and has at most m particles, at most w batches are not yet due and at most w*m particles are live after a tick |
| Confetti.BurstCount | src/components/Confetti.tsx:39 | a burst has between 35 and 59 pieces |
| Confetti.NewPiece | src/components/Confetti.tsx:40-49 | a piece keeps its draw's id and takes its color and shape from the palettes |
| Confetti.Burst | src/components/Confetti.tsx:40-49 | one piece per draw, in order, 35 to 59 of them, all in palette |
| Confetti.Tick | src/components/Confetti.tsx:38-51 | one interval tick appends the whole burst to the list |
| Confetti.Expire | src/components/Confetti.tsx:53-55 | the burst's timeout removes every piece whose id is among the burst's |
| Confetti.BurstDue | src/components/Confetti.tsx:53-56 | a burst is gone by the fourth tick after its own |
| Confetti.LiveBursts | src/components/Confetti.tsx:38-56 | at most 4 bursts and 236 pieces are live at once |
| Balloons.NewBalloon | src/components/Balloons.tsx:26-34 | a balloon keeps its id, takes its glyph from the palette and has delay 0 |
| Balloons.Tick | src/components/Balloons.tsx:25-36 | one tick appends exactly one balloon |
| Balloons.Expire | src/components/Balloons.tsx:38-40 | the balloon's timeout removes every balloon with its id |
| Balloons.BalloonDue | src/components/Balloons.tsx:38-41 | a balloon is gone by the ninth tick after its own |
| Balloons.LiveBalloons | src/components/Balloons.tsx:25-41 | at most 9 balloons are live at once, when a removal that ties with a tick fires first |
| Balloons.LiveBalloonsEitherOrder | src/components/Balloons.tsx:25-41 | at most 10 balloons are live at once whichever of a tied removal and tick fires first |
| FloatingEmojis.NewEmoji | src/components/FloatingEmojis.tsx:26-34 | an emoji keeps its id and its glyph is one of the eight |
| FloatingEmojis.Tick | src/components/FloatingEmojis.tsx:25-36 | one tick appends exactly one emoji |
| FloatingEmojis.Expire | src/components/FloatingEmojis.tsx:38-40 | the emoji's timeout removes every emoji with its id |
| FloatingEmojis.EmojiDue | src/components/FloatingEmojis.tsx:38-41 | an emoji is gone by the tenth tick after its own |
| FloatingEmojis.LiveEmojis | src/components/FloatingEmojis.tsx:25-41 | at most 10 emojis are live at once, when a removal that ties with a tick fires first |
| FloatingEmojis.LiveEmojisEitherOrder | src/components/FloatingEmojis.tsx:25-41 | at most 11 emojis are live at once whichever of a tied removal and tick fires first |
| Stars.NewStar | src/components/Stars.tsx:26-34 | a star keeps its id, its glyph is one of the five, its duration is in [1500, 3000) ms and its delay in [0, 200) ms |
| Stars.Lifetime | src/components/Stars.tsx:40 | a star's removal delay is in [1500, 3200) ms |
| Stars.Tick | src/components/Stars.tsx:25-36 | one tick appends exactly one star |
| Stars.Expire | src/components/Stars.tsx:38-40 | the star's timeout removes every star with its id |
| Stars.StarDue | src/components/Stars.tsx:38-41 | a star outlives the next two ticks and is gone by the sixth tick after its own; by the fifth when its removal lands exactly on a tick |
| Stars.LiveStars | src/components/Stars.tsx:25-41 | at most 6 stars are live at once, whichever of a tied removal and tick fires first |
| FlyingMedia.Swap | src/components/FlyingMedia.tsx:40 | the two positions trade elements and every other position is unchanged |
| FlyingMedia.SwapPermutes | src/components/FlyingMedia.tsx:40 | a swap keeps the multiset of elements |
| FlyingMedia.SwapDown | src/components/FlyingMedia.tsx:38-41 | the swap loop from index i down to 1 keeps the length |
| FlyingMedia.SwapDownPermutes | src/components/FlyingMedia.tsx:36-43 | the shuffle is a permutation of its input |
| FlyingMedia.SwapDownFixesAbove | src/components/FlyingMedia.tsx:38-41 | positions above the current loop index are never touched again |
| FlyingMedia.ShuffleLastSlot | src/components/FlyingMedia.tsx:38-40 | the last slot holds the element chosen by the first draw |
| FlyingMedia.SwapDownInjective | src/components/FlyingMedia.tsx:38-41 | over distinct elements, two draw sequences that give the same order agree at every used step |
| FlyingMedia.Shuffle | src/components/FlyingMedia.tsx:36-43 | the in-place loop on a copy returns `Shuffled`, the swap loop from the top index down to 1 written as a function, and that result is a permutation of the input of the same length |
| FlyingMedia.Columns | src/components/FlyingMedia.tsx:50 | 2 columns exactly below 480 px, 4 exactly from 768 px, otherwise 3 |
| FlyingMedia.Layout | src/components/FlyingMedia.tsx:157-161 | columns, gap, padding and cell size for a viewport width, with cell size 40*(cols+1) |
| FlyingMedia.LayoutMonotone | src/components/FlyingMedia.tsx:157-161 | a wider viewport never gets fewer columns, smaller cells or smaller spacing |
| FlyingMedia.GridPosition | src/components/FlyingMedia.tsx:50-52 | the column is below the column count and row*cols+col is the index |
| FlyingMedia.GridPositionUnique | src/components/FlyingMedia.tsx:51-52 | those two facts determine the cell, so no two indices share a cell |
| FlyingMedia.GridNext | src/components/FlyingMedia.tsx:51-52 | the next index is the next column, or the first column of the next row |
| FlyingMedia.MediaFor | src/components/FlyingMedia.tsx:55 | the entry comes from the catalog and is the indexed one when the index is in range |
| FlyingMedia.GenerateMediaItem | src/components/FlyingMedia.tsx:45-67 | a cell keeps its id and delay, has layer 0-2, sits at its index's grid cell and shows a catalog entry |
| FlyingMedia.BuildItems | src/components/FlyingMedia.tsx:85-87 | the cells show the shuffled entries in order, at consecutive grid cells, with strictly increasing entrance delays |
| FlyingMedia.PrevIndex | src/components/FlyingMedia.tsx:116-118 | a closed lightbox stays closed; an open one stays in range and wraps from the first cell to the last |
| FlyingMedia.NextIndex | src/components/FlyingMedia.tsx:126-128 | a closed lightbox stays closed; an open one stays in range and wraps from the last cell to the first |
| FlyingMedia.KeyFocus | src/components/FlyingMedia.tsx:133-147 | keys do nothing when closed, Escape closes, other keys change nothing |
| FlyingMedia.Step | src/components/FlyingMedia.tsx:78-147 | an insert appends its cell; settle sets the flag; deactivation empties the list and clears the flag; none of these three moves the focus. A click focuses its index on a settled grid and is ignored before. Previous, next and keys set the focus to `PrevIndex`, `NextIndex` and `KeyFocus` and leave the list and flag alone. Close and Escape close |
| FlyingMedia.StepKeepsFocusValid | src/components/FlyingMedia.tsx:104-147 | every event the page can deliver keeps an open lightbox on a rendered cell |
| FlyingMedia.NavigationSteps | src/components/FlyingMedia.tsx:113-131 | without the modulo: next is k+1 or wraps to 0, previous is k-1 or wraps to the last cell |
| FlyingMedia.NextUndoesPrevious | src/components/FlyingMedia.tsx:113-131 | next after previous, and previous after next, restore the state |
| FlyingMedia.KeysMatchButtons | src/components/FlyingMedia.tsx:133-147 | the left and right arrows act like the previous and next buttons, Escape like close, any other key does nothing |
| FlyingMedia.AdvanceRotates | src/components/FlyingMedia.tsx:123-131 | m presses of next move the focus from k to (k+m) mod n |
| FlyingMedia.FullCycle | src/components/FlyingMedia.tsx:123-131 | n presses of next return to the starting cell |
| FlyingMedia.StaggerPlan | src/components/FlyingMedia.tsx:89-96 | cell i is inserted at i*70 ms, the settle fires at len*70+4500 ms, and firing times strictly increase |
| FlyingMedia.Activate | src/components/FlyingMedia.tsx:76-96 | activation builds the cells from the shuffled catalog, a permutation of all twelve entries, and registers the stagger plan, settling at 5340 ms |
| FlyingMedia.ReplayInserts | src/components/FlyingMedia.tsx:90-94 | each insert timer appends its own cell, so k more timers extend the list by the next k cells |
| FlyingMedia.StaggerPrefix | src/components/FlyingMedia.tsx:89-107 | during the entrance, `Replay` of the first k timers, fired in order from an empty grid, shows the first k cells and leaves the grid unsettled, so clicks are ignored |
| FlyingMedia.StaggerComplete | src/components/FlyingMedia.tsx:89-96 | once all timers fire (`Replay` of the whole plan), the list is every cell in shuffle order and the grid is settled, focus unchanged |
| FlyingMedia.ReplayConcat | src/components/FlyingMedia.tsx:90-96 | firing two runs of timers one after the other is firing their concatenation |
| FlyingMedia.MediaGrid.constructor | src/components/FlyingMedia.tsx:70-72 | the grid mounts empty, unsettled, with the lightbox closed |
| FlyingMedia.MediaGrid.StaggerInsert | src/components/FlyingMedia.tsx:91-93 | an insert timeout is the `Insert` step |
| FlyingMedia.MediaGrid.MarkSettled | src/components/FlyingMedia.tsx:96 | the settle timeout is the `Settle` step |
| FlyingMedia.MediaGrid.Deactivate | src/components/FlyingMedia.tsx:79-83 | deactivation is the `Deactivate` step: it empties the list and unsettles without touching the focus |
| FlyingMedia.MediaGrid.HandleMediaClick | src/components/FlyingMedia.tsx:104-109 | a click is the `Click` step |
| FlyingMedia.MediaGrid.HandleClose | src/components/FlyingMedia.tsx:111 | close is the `Close` step |
| FlyingMedia.MediaGrid.HandlePrevious | src/components/FlyingMedia.tsx:113-121 | the previous button is the `Previous` step |
| FlyingMedia.MediaGrid.HandleNext | src/components/FlyingMedia.tsx:123-131 | the next button is the `Next` step |
| FlyingMedia.MediaGrid.HandleKeyDown | src/components/FlyingMedia.tsx:133-147 | a key press is the `KeyDown` step |

## Left out

- Rendering, animation and styling (framer-motion props, the lightbox's
  image and video elements, card hover effects). `hoveredIndex` is only read
  by rendering, so it is not modelled.
- Real time. Timers and intervals are replaced by the discrete clock in
  `Timeline` and by the grid's timer plan, `FlyingMedia.StaggerPlan`.
  - The clock assumes the interval and the timeouts fire at their nominal
    times.
  - Browser timer drift and clamping are not modelled.
- Registering and removing the window `keydown` listener
  (src/components/FlyingMedia.tsx:149-152). Key presses are delivered to
  `HandleKeyDown` directly.
- The page component src/pages/Index.tsx is not part of this model. It holds
  the background music, the mute toggle and the delayed birthday message.
  - It sets the effects' flag from `isStarted`, which only ever goes from
    false to true.
  - So the effects are deactivated only on mount, while the lightbox is
    closed. `FlyingMedia.StepKeepsFocusValid` asks for exactly that.
- The grid's activation cleanup (src/components/FlyingMedia.tsx:98-101) does
  not cancel the stagger and settle timeouts it registered.
  - The model replays one activation's timers from an empty, unsettled grid.
  - It does not model timers left over from an earlier activation.
  - That case cannot arise on this page, because the flag never turns off
    again.
- FlyingMedia.MediaGrid.Deactivate: the source leaves `focusedIndex` as it
  is, and so does the model. Focus validity is proved only for the
  deactivation the page performs, with the lightbox closed.
- FlyingMedia.PrevIndex, FlyingMedia.NextIndex and FlyingMedia.KeyFocus
  require a non-empty list whenever the lightbox is open.
  - With an empty list the source computes `NaN`.
  - An open lightbox always points at a rendered cell
    (`FlyingMedia.StepKeepsFocusValid`), so the list is never empty then.
- Stars.Lifetime: star durations and delays are whole milliseconds in the
  model. The source draws real-valued seconds.
  - The removal tick depends only on which 600 ms slot the deadline falls in.
  - The proved bounds (removal 3 to 6 ticks after the star's own) hold for
    any real value in the same ranges.
- Timeline.AfterStepIsKept assumes ids are unique across batches, which
  the source never checks (`Date.now() + Math.random()`).
  - With a shared id, one batch's removal also takes particles of another
    batch, so the list can be strictly smaller than the not-yet-due batches.
  - `Timeline.AfterStepWithin` covers that case as an inclusion, and all the
    size bounds rest on it.
- Balloons.LiveBalloons: the bound of 9 assumes a removal firing at the same
  instant as a tick (18000 ms is exactly nine 2000 ms periods) fires first.
  - The browser does not fix that order.
  - `Balloons.LiveBalloonsEitherOrder` gives the bound of 10 that holds in
    either order.
- FloatingEmojis.LiveEmojis: the bound of 10 makes the same assumption
  (12000 ms is exactly ten 1200 ms periods).
  - `FloatingEmojis.LiveEmojisEitherOrder` gives the bound of 11 that holds in
    either order.
- Confetti.Expire: the source drops a piece if any id in the burst matches,
  using `find` with `===`. The model is the same. JavaScript number
  precision is not modelled.
- The floating-emoji glyphs appear garbled in the source text. The model uses
  the intended code points: birthday cake, wrapped gift, sparkling heart,
  confetti ball, party popper, partying face, balloon and glowing star.
- Image and video assets are named by their file names. Real asset URLs are
  not modelled.
- Uniform randomness of the shuffle is not proved. `FlyingMedia.SwapDownInjective`
  proves the injective half: distinct draw sequences give distinct orders.
  The counting argument that makes the shuffle uniform is not carried out.
