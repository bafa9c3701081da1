# Outrun game loop, modelled in Dafny

The Outrun handheld runs a lane-dodging game with a rotary encoder, its push
button, a small display and a 12-lamp LED strip. All of its logic is the body of
the infinite loop in `main.go`. The loop is a state machine over MENU, INFO,
LOOP (playing) and LOSE. It keeps a handful of package-level integers, a 4×3
obstacle grid (row 0 farthest away, row 3 beside the car) and a 12-word colour
buffer that mirrors the grid on the strip.

The model has three files:

- `outrun.dfy` (module `Outrun`) describes the globals as values. `Snapshot`
  holds every session global plus the loop-local `menuOption`, which is the menu
  cursor in MENU and the scroll offset in INFO. For each case of the loop there
  is a function that follows the code's own branches: `MenuTurn`/`MenuConfirm`,
  `InfoTurn`/`Confirm`, and `Tick`, `Advance` (`Shift`, `Spawn`, `Mirror`,
  `Ramp`) and `PlayTurn` for the play loop. `Next` is one full iteration and
  `Run` is several. `Inv` is the invariant that holds between iterations.
- `properties.dfy` (module `OutrunProperties`) proves what the game promises
  about `Next` and `Run`: bounds, the invariant, the shift and spawn, the LED
  mirror, the difficulty ramp, collisions, scrolling and the confirm latch.
- `game.dfy` (module `OutrunGame`) is the program as it runs. Class `Game` has
  the globals as fields. The grid is an `array2<bool>` and the colour buffer an
  `array<uint32>`, and the nested `for` loops of the source overwrite them cell
  by cell. `Game.Step(encPos, btnLow, r)` is one iteration of the loop. It is
  proved to keep `Valid()` and to leave the fields equal to
  `Next(old(Snap()), encPos, btnLow, r)`, so every lemma about `Next` also holds
  of the class.

Inputs of one iteration:

- `encPos` is `enc.Position()`.
- `btnLow` is `!rotaryBtn.Get()` (the button is pulled up, so low means held).
- `r` is the value of `rand.Int31n(6)`, required to be in [0, 6).

Behaviour the model keeps exactly as the code has it:

- An advance fires when the incremented `frame` exceeds `framesLoop`, which is
  every `framesLoop + 1` ticks. From power-on the first advance comes on tick
  181 (`FirstAdvanceAfterPowerOn`, `FirstAdvanceTick`).
- Starting a game resets the grid, the colours, the lane and the score. It does
  not reset `framesLoop` or `frame`, so a second game starts at the speed where
  the first one ended (`StartGame`).
- `framesLoop` shrinks to `98 * framesLoop / 100` on each advance and has no
  floor. It reaches 0 within at most as many advances as its starting value
  (`RampReachesZero`), and from then on every tick advances
  (`ZeroPeriodAlwaysDue`). It is never negative.
- A collision during an advance sets LOSE but does not set `pressed`, and the
  rest of the tick still runs: the new row, the ramp and the encoder. A
  collision caused by a lane move sets `pressed` (`PlayCollision`).
- Each encoder change in INFO scrolls by exactly 4 pixels within [-112, 0]. Five
  changes from the top reach -20, and it takes 28 to reach -112
  (`ScrollToFloor`).

Further consequences of the code as written:

- The tick threshold is not always positive: `98 * 1 / 100` is 0, so it
  reaches 0 and stays there.
- The threshold is set to 180 only at power-on, never at a new game.
- The loop starts in MENU. The boot-splash case can never be entered.

## Model

| member | source | states |
|---|---|---|
| OutrunGame.Game.constructor | main.go:40-65 | the globals at power-on: MENU, lane 1, `framesLoop` 180, `frame` 0, empty grid, all lamps black (main.go:138-143), score 0, latch down, cursor 0; the invariant holds |
| OutrunGame.Game.Step | main.go:147-325 | one loop iteration over the fields and arrays keeps `Valid()` and leaves the state equal to `Next` of the old state |
| OutrunGame.Game.MenuTick | main.go:163-207 | the MENU case in place: the encoder picks the cursor, then the button starts a game or opens INFO as `MenuConfirm(MenuTurn(..))` |
| OutrunGame.Game.ClearField | main.go:186-192 | the nested loop empties all 12 grid cells, blackens all 12 lamps and leaves the car in lane 1 |
| OutrunGame.Game.InfoTick | main.go:208-246 | the INFO case in place: scroll by 4 clamped to [-112, 0], then the button returns to MENU |
| OutrunGame.Game.ConfirmTick | main.go:236-244 | the latched confirm of INFO and LOSE: low and unlatched goes to MENU with cursor 0 and the latch up; released lowers the latch |
| OutrunGame.Game.LoseTick | main.go:306-319 | the LOSE case in place reads only the button |
| OutrunGame.Game.PlayTick | main.go:247-305 | the LOOP case in place: frame and score up by one, an advance when `frame > framesLoop`, then the encoder |
| OutrunGame.Game.AdvanceField | main.go:251-279 | the advance in place: counter to 0, shift, collision test, spawn, repaint, ramp, as `Advance` |
| OutrunGame.Game.ShiftRows | main.go:253-260 | the downward loop makes rows 1..3 the old rows 0..2 and clears row 0 |
| OutrunGame.Game.SpawnRow | main.go:264-267 | a draw below 3 sets that lane of row 0 and nothing else |
| OutrunGame.Game.Repaint | main.go:268-277 | the nested loop writes green or black per cell, then red at `9 + carLane`; the buffer equals `Mirror` of the grid |
| OutrunGame.Game.MoveCar | main.go:282-295 | the old car lamp goes black, the lane moves one step toward where the encoder turned, the reading is stored, the lane is clamped to [0, 2] and the new car lamp goes red |
| OutrunGame.Game.SteerTick | main.go:281-300 | an encoder change in LOOP moves the car, stores the reading, and sets LOSE and the latch if row 3 has an obstacle in the new lane |
| Outrun.Initial | main.go:40-65 | the power-on globals: MENU, lane 1, empty grid, score 0, latch down, and all 12 lamps black (main.go:138-143) |
| Outrun.MenuTurn | main.go:165-172 | stores the reading; turned up the cursor becomes 1, turned down 0, unchanged it stays; nothing else changes |
| Outrun.NewGame | main.go:186-197 | LOOP with an empty grid, lane 1, score 0, lamp `9 + 1` red and the other 11 black; `framesLoop`, `frame` and the latch are kept |
| Outrun.MenuConfirm | main.go:182-206 | released lowers the latch and changes nothing else; held with the latch up changes nothing; held with the latch down goes to LOOP for cursor 0 and INFO otherwise |
| Outrun.InfoTurn | main.go:209-223 | stores the reading; a change scrolls the offset by one `Scroll` step, no change keeps it; nothing else changes |
| Outrun.Confirm | main.go:236-244 | released lowers the latch only; held with the latch up changes nothing; held with the latch down gives MENU, cursor 0, latch up; score and grid are kept (also main.go:310-318) |
| Outrun.Tick | main.go:249-250 | `frame` and `score` go up by one and nothing else changes |
| Outrun.Mirror | main.go:268-277 | the drawn buffer has 12 words; the colour of each lamp is stated by `MirrorCell` |
| Outrun.Steer | main.go:283-294 | the new lane is in [0, 2]; turned up it is the lane or one below, turned down the lane or one above |
| Outrun.PlayTurn | main.go:281-300 | stores the reading and keeps the shape; an unchanged reading changes nothing else; the state becomes LOSE exactly when the reading changed and the new lane's row-3 cell holds an obstacle; grid, score and `frame` are kept |
| Outrun.PlayStep | main.go:247-300 | a LOOP tick adds 1 to the score and stores the reading; a due tick restarts `frame` and ramps the period; any other tick adds 1 to `frame` and keeps the period and the grid |
| Outrun.Run | main.go:147 | a run of iterations keeps the shape, and no inputs change nothing |
| Outrun.Next | main.go:152-320 | one iteration keeps both buffers at their sizes and the lane in [0, 2] |
| Outrun.Scroll | main.go:209-223 | a scroll step keeps the offset in [-112, 0] and a multiple of 4 |
| Outrun.Shift | main.go:253-260 | after the shift rows 1..3 are the old rows 0..2 and row 0 is empty |
| Outrun.Spawn | main.go:264-267 | the spawn adds an obstacle in row 0 at lane `r` exactly when `r < 3` and leaves rows 1..3 alone |
| Outrun.Ramp | main.go:278 | `98 * f / 100` (truncating) is never negative, never more than `f`, and strictly less than `f` when `f > 0` |
| Outrun.Advance | main.go:251-279 | an advance keeps the grid 4×3, the buffer at 12 words and the lane in range |
| OutrunProperties.InitialInv | main.go:40-65 | the power-on state satisfies the invariant and starts in MENU with the car in lane 1 |
| OutrunProperties.NextInv | main.go:152-320 | every iteration keeps the invariant: lane in {0,1,2}; at most one obstacle per row; `0 <= frame <= framesLoop <= 180`; score at least 0; cursor in {0,1} in MENU; offset a multiple of 4 in [-112, 0] in INFO; in LOOP the latch is down, no obstacle is beside the car and the buffer mirrors the grid |
| OutrunProperties.RunInv | main.go:147-325 | the invariant holds after any number of iterations |
| OutrunProperties.MirrorCell | main.go:268-277 | lamp `3*i+j` is red at the car's cell in row 3, otherwise green exactly when cell (i, j) holds an obstacle, otherwise black |
| OutrunProperties.MirrorMove | main.go:282-295 | blackening the old car lamp and reddening the new one gives the mirror for the new lane, when the old lane's row-3 cell is empty |
| OutrunProperties.NewGameMirrors | main.go:186-194 | the buffer a new game starts with is the mirror of the empty grid with the car in lane 1 |
| OutrunProperties.NewGameInv | main.go:186-197 | starting a game from MENU yields a state satisfying the invariant |
| OutrunProperties.AdvanceInv | main.go:253-277 | an advance keeps at most one obstacle per row, leaves the buffer equal to the mirror of the new grid, and ends in LOSE exactly when the shifted row 3 holds an obstacle in the car's lane (otherwise the state is kept) |
| OutrunProperties.PlayInv | main.go:247-300 | a LOOP tick keeps the invariant, including the mirror after a lane move |
| OutrunProperties.SteerClamps | main.go:283-294 | a lane change moves by exactly one lane, or stays at the edge it is pushed against; the result is in {0,1,2} and never wraps |
| OutrunProperties.PlaySteers | main.go:281-294 | in LOOP a change of reading moves the car as `Steer` says (up toward lane 0), no change keeps it, and the reading is stored |
| OutrunProperties.LaneMoveLeds | main.go:282-295 | a lane move makes the new car lamp red and the old one black when the lane changed, and no other lamp changes |
| OutrunProperties.AdvanceShiftsAndSpawns | main.go:251-278 | on a due tick rows 1..3 become the old rows 0..2, row 0 holds exactly one obstacle at lane `r` if `r < 3` and none otherwise, `frame` is 0 and `framesLoop` is ramped |
| OutrunProperties.QuietTick | main.go:249-251 | on a tick that is not due the grid and `framesLoop` are unchanged and `frame` goes up by one |
| OutrunProperties.AdvanceRepaints | main.go:268-277 | after an advance with no encoder change every lamp mirrors its grid cell and the car is red, also when the advance collided |
| OutrunProperties.PlayCollision | main.go:261-299 | a LOOP tick ends in LOSE exactly when the shifted row 3 has an obstacle at the car's lane or the lane moved onto a row-3 obstacle; the latch is up exactly in the second case |
| OutrunProperties.RampNeverGrows | main.go:278 | `framesLoop` stays at least 0 and never grows; it strictly shrinks on an advance while positive; once 0 it stays 0 |
| OutrunProperties.ZeroPeriodAlwaysDue | main.go:251-278 | in LOOP with period 0 every tick is due, resets `frame` to 0 and keeps the period 0, so the next LOOP tick is due again |
| OutrunProperties.RunRampNeverGrows | main.go:278 | over any run `framesLoop` stays between 0 and its starting value |
| OutrunProperties.RampReachesZero | main.go:278 | after `k` advances the period is at most its start and is either 0 or at most `start - k` |
| OutrunProperties.ScoreCounts | main.go:195-250 | the score goes up by exactly 1 on every LOOP tick, is 0 when a game starts, and is unchanged otherwise |
| OutrunProperties.QuietUntilAdvance | main.go:249-251 | while `frame` has not passed `framesLoop`, LOOP ticks with no encoder change only count frames and score |
| OutrunProperties.FirstAdvanceAfterPowerOn | main.go:249-252 | after power-on and a new game, 180 quiet ticks leave the grid empty, score and `frame` at 180, `framesLoop` still 180 and the stored reading 0, so no advance has happened and the 181st tick is due |
| OutrunProperties.AdvanceOverEmpty | main.go:251-278 | an advance over an empty field keeps LOOP, leaves row 3 empty and row 0 holding only the drawn lane, adds 1 to the score, counts from 0 and ramps the period |
| OutrunProperties.FirstAdvanceTick | main.go:249-278 | the 181st quiet tick of the first game advances: still LOOP, row 3 empty, row 0 the new draw, score 181, `frame` 0, period 176 |
| OutrunProperties.ScrollExact | main.go:209-222 | from a multiple of 4 in [-112, 0] a scroll step moves exactly 4 pixels, or stays at the end it is pushed against |
| OutrunProperties.CursorFollowsEncoder | main.go:165-172 | with the button released, MENU and INFO keep their screen and store the reading; a change in MENU sets the cursor to 1 when turned up and 0 when turned down, in INFO it scrolls one step; an unchanged reading leaves the cursor or offset as it was |
| OutrunProperties.BurstIsOneStep | main.go:165-172 | any two readings on the same side of the stored one give the same state apart from the stored reading, so a burst of detents is one step (also in INFO and LOOP) |
| OutrunProperties.LoseIgnoresEncoder | main.go:306-319 | LOSE neither reads nor stores the encoder |
| OutrunProperties.ScrollToFloor | main.go:209-223 | `n` upward ticks in INFO with the button released scroll to `max(offset - 4n, -112)` and stay in INFO |
| OutrunProperties.LatchGatesTransitions | main.go:182-206 | outside LOOP the screen changes if and only if the button is low and the latch is down |
| OutrunProperties.ReleaseClearsLatch | main.go:204-206 | outside LOOP a released button lowers the latch and keeps the screen |
| OutrunProperties.LoopIgnoresButton | main.go:247-305 | a LOOP tick does not depend on the button |
| OutrunProperties.StartGame | main.go:184-197 | confirming cursor 0 gives LOOP with an empty grid, the 1-lane mirror on the strip, lane 1, score 0 and the latch down, and keeps `framesLoop` and `frame` |
| OutrunProperties.OpenInfo | main.go:198-202 | confirming cursor 1 gives INFO at offset 0 with the latch up |
| OutrunProperties.BackToMenu | main.go:236-244 | confirming in INFO or LOSE gives MENU with cursor 0 and the latch up, and keeps the score |
| OutrunProperties.HoldKeepsScreen | main.go:310-318 | while the button stays held with the latch up, MENU, INFO or LOSE stay where they are for any number of ticks |
| OutrunProperties.HoldAfterOpeningInfo | main.go:198-202 | holding the button after opening INFO stays in INFO for any number of ticks |

## Left out

- Peripheral set-up (I2C, display, encoder, button and key-matrix pins) is hardware configuration and holds no game logic.
- `getMatrixState` strobes GPIO pins with sleeps. The game never reads `matrixBtn`.
- All text drawing, `display.ClearBuffer` and `display.Display` go to a rendering library outside this model. Only the game state they read is modelled.
- The WS2812B wrapper and `ws.WriteRaw` are driver calls (PIO and DMA). The model keeps the `colors` words they would send.
- The LOAD case (bitmap, two-second sleep) is unreachable, since the state starts at MENU and nothing assigns LOAD. The unused START constant is also absent from `Mode`.
- `time.Sleep` only sets the pace of the loop.
- The random draw `rand.Int31n(6)` is the parameter `r`. The encoder reading is `encPos` and the button level is `btnLow`.
- `score`, `frame` and the encoder readings are unbounded integers. The board's 32-bit `int` would wrap `score` only after 2^31 ticks of play. `frame` stays in [0, 180] and `menuOption` in [-112, 1] (proved in `Inv`), so neither can overflow. The int16 type of `menuOption` therefore needs no modelling.
- OutrunGame.Game.Step splits the switch into one method per case, and the advance and lane move into helper methods. The statements and their order are those of the source, with the encoder store between the lane step and the clamp as at main.go:288.
