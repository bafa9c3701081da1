/** The game state machine of the Outrun handheld: the values of the session
    globals, and what one iteration of the main loop does to them.

    Every function here is a value-level description of one block of the loop
    body; the class in game.dfy runs the same blocks in place, on arrays, and is
    proved to agree with `Next`. */
module Outrun {

  /** A colour word as the LED strip takes it. */
  newtype uint32 = x: int | 0 <= x < 0x1_0000_0000

  // Colour words, in the strip's green-red-blue byte order.
  const White: uint32 := 0x3F3F3FFF
  const Red: uint32 := 0x00FF00FF
  const Green: uint32 := 0xFF0000FF
  const Blue: uint32 := 0x0000FFFF
  const Black: uint32 := 0x000000FF

  /** Depth rows of the obstacle grid (row 0 is farthest, row 3 is beside the car). */
  const Depth := 4
  /** Lanes the car can drive in. */
  const Lanes := 3
  /** Words in the LED buffer: one per grid cell, at index 3 * row + lane. */
  const Leds := 12
  /** The car's lane at power-on and at the start of every game. */
  const StartLane := 1
  /** Ticks between two advances at power-on (plus one, see `PlayStep`). */
  const StartFramesLoop := 180
  /** Lowest scroll offset of the info text, in pixels. */
  const InfoFloor := -14 * 8
  /** Pixels the info text moves per encoder change. */
  const ScrollStep := 4

  /** The screens the loop can be in. The source also declares START, which
      nothing uses, and LOAD, which nothing assigns. */
  datatype Mode = Menu | Loop | Lose | Info

  /** `obstacles[row][lane]`. */
  type Grid = seq<seq<bool>>

  /** The session globals and the loop-local `menuOption`, which is the menu
      cursor in MENU and the scroll offset in INFO. */
  datatype Snapshot = Snapshot(
    state: Mode,
    rotaryOldValue: int,
    rotaryNewValue: int,
    carLane: int,
    framesLoop: int,
    frame: int,
    obstacles: Grid,
    pressed: bool,
    score: int,
    colors: seq<uint32>,
    menuOption: int)

  /** What one tick reads: the encoder position, whether the encoder's push
      button reads low (it is pulled up, so low means held), and the random
      draw in [0, 6). */
  datatype Input = Input(encPos: int, btnLow: bool, draw: int)

  predicate IsGrid(g: Grid) {
    |g| == Depth && forall i :: 0 <= i < Depth ==> |g[i]| == Lanes
  }

  /** The sizes the Go types fix, and a lane that indexes them. */
  predicate Shaped(s: Snapshot) {
    IsGrid(s.obstacles) && |s.colors| == Leds && 0 <= s.carLane < Lanes
  }

  predicate Draws(ins: seq<Input>) {
    forall k :: 0 <= k < |ins| ==> 0 <= ins[k].draw < 6
  }

  /** No row holds obstacles in two lanes. */
  predicate AtMostOnePerRow(g: Grid)
    requires IsGrid(g)
  {
    forall i, a, b :: 0 <= i < Depth && 0 <= a < b < Lanes ==> !(g[i][a] && g[i][b])
  }

  const NoRow: seq<bool> := [false, false, false]
  const EmptyGrid: Grid := [NoRow, NoRow, NoRow, NoRow]
  /** The LED buffer with every lamp off. */
  const Dark: seq<uint32> := [
    Black, Black, Black,
    Black, Black, Black,
    Black, Black, Black,
    Black, Black, Black]

  /** The globals at power-on. */
  function Initial(): (s: Snapshot)
    ensures Shaped(s) && s.state == Menu && s.carLane == StartLane
    ensures s.obstacles == EmptyGrid && s.score == 0 && !s.pressed
    ensures forall k :: 0 <= k < Leds ==> s.colors[k] == Black
  {
    Snapshot(Menu, 0, 0, StartLane, StartFramesLoop, 0, EmptyGrid, false, 0, Dark, 0)
  }

  // ---------------------------------------------------------------- MENU

  /** The encoder in MENU: turning up selects INFO (1), turning down selects
      START GAME (0). Only a change of position is seen, not its size. */
  function MenuTurn(s: Snapshot, pos: int): (t: Snapshot)
    ensures t.rotaryOldValue == pos && t.rotaryNewValue == pos
    ensures pos == s.rotaryOldValue ==> t.menuOption == s.menuOption
    ensures pos > s.rotaryOldValue ==> t.menuOption == 1
    ensures pos < s.rotaryOldValue ==> t.menuOption == 0
    ensures t.(rotaryOldValue := s.rotaryOldValue, rotaryNewValue := s.rotaryNewValue, menuOption := s.menuOption) == s
  {
    if pos != s.rotaryOldValue then
      s.(rotaryNewValue := pos, menuOption := if pos > s.rotaryOldValue then 1 else 0, rotaryOldValue := pos)
    else
      s.(rotaryNewValue := pos)
  }

  /** Clear the grid and the LED buffer, put the car in its start lane, light
      it and zero the score. `framesLoop` and `frame` are kept. */
  function NewGame(s: Snapshot): (t: Snapshot)
    ensures Shaped(t) && t.state == Loop && t.carLane == StartLane && t.score == 0
    ensures t.obstacles == EmptyGrid && t.colors[9 + StartLane] == Red
    ensures forall k :: 0 <= k < Leds && k != 9 + StartLane ==> t.colors[k] == Black
    ensures t.framesLoop == s.framesLoop && t.frame == s.frame && t.pressed == s.pressed
  {
    s.(obstacles := EmptyGrid, colors := Dark[3 * (Depth - 1) + StartLane := Red],
       carLane := StartLane, score := 0, state := Loop)
  }

  /** The button in MENU. */
  function MenuConfirm(s: Snapshot, btnLow: bool): (t: Snapshot)
    ensures !btnLow ==> t == s.(pressed := false)
    ensures btnLow && s.pressed ==> t == s
    ensures btnLow && !s.pressed ==> t.state == (if s.menuOption == 0 then Loop else Info)
  {
    if btnLow then
      if !s.pressed then
        if s.menuOption == 0 then NewGame(s)
        else s.(pressed := true, menuOption := 0, state := Info)
      else s
    else
      s.(pressed := false)
  }

  // ---------------------------------------------------------------- INFO and LOSE

  /** The scroll offset after one encoder change: up scrolls the text up. */
  function Scroll(offset: int, up: bool): (r: int)
    ensures InfoFloor <= offset <= 0 ==> InfoFloor <= r <= 0
    ensures offset % ScrollStep == 0 ==> r % ScrollStep == 0
  {
    if up then
      if offset - ScrollStep < InfoFloor then InfoFloor else offset - ScrollStep
    else
      if offset + ScrollStep > 0 then 0 else offset + ScrollStep
  }

  /** The encoder in INFO. */
  function InfoTurn(s: Snapshot, pos: int): (t: Snapshot)
    ensures t.rotaryOldValue == pos && t.rotaryNewValue == pos
    ensures pos == s.rotaryOldValue ==> t.menuOption == s.menuOption
    ensures pos != s.rotaryOldValue ==> t.menuOption == Scroll(s.menuOption, pos > s.rotaryOldValue)
    ensures t.(rotaryOldValue := s.rotaryOldValue, rotaryNewValue := s.rotaryNewValue, menuOption := s.menuOption) == s
  {
    if pos != s.rotaryOldValue then
      s.(rotaryNewValue := pos, menuOption := Scroll(s.menuOption, pos > s.rotaryOldValue), rotaryOldValue := pos)
    else
      s.(rotaryNewValue := pos)
  }

  /** The button in INFO and in LOSE: back to MENU with the cursor on START GAME. */
  function Confirm(s: Snapshot, btnLow: bool): (t: Snapshot)
    ensures !btnLow ==> t == s.(pressed := false)
    ensures btnLow && s.pressed ==> t == s
    ensures btnLow && !s.pressed ==> t.state == Menu && t.menuOption == 0 && t.pressed
    ensures t.score == s.score && t.obstacles == s.obstacles
  {
    if btnLow then
      if !s.pressed then s.(pressed := true, menuOption := 0, state := Menu)
      else s
    else
      s.(pressed := false)
  }

  // ---------------------------------------------------------------- LOOP

  /** Every LOOP tick counts a frame and a point. */
  function Tick(s: Snapshot): (t: Snapshot)
    ensures t.frame == s.frame + 1 && t.score == s.score + 1
    ensures t.(frame := s.frame, score := s.score) == s
  {
    s.(frame := s.frame + 1, score := s.score + 1)
  }

  /** Rows move one step toward the car; the farthest row is cleared. */
  function Shift(g: Grid): (h: Grid)
    requires IsGrid(g)
    ensures IsGrid(h)
    ensures h[0] == NoRow
    ensures forall i :: 1 <= i < Depth ==> h[i] == g[i - 1]
  {
    [NoRow] + g[..Depth - 1]
  }

  /** A draw below 3 puts an obstacle in that lane of the farthest row. */
  function Spawn(g: Grid, r: int): (h: Grid)
    requires IsGrid(g) && 0 <= r < 6
    ensures IsGrid(h)
    ensures forall i :: 1 <= i < Depth ==> h[i] == g[i]
    ensures forall j :: 0 <= j < Lanes ==> (h[0][j] <==> g[0][j] || j == r)
  {
    if r < Lanes then g[0 := g[0][r := true]] else g
  }

  /** The LED buffer drawn from the grid: green where an obstacle is, black
      elsewhere, and red at the car. */
  function Mirror(g: Grid, lane: int): (c: seq<uint32>)
    requires IsGrid(g) && 0 <= lane < Lanes
    ensures |c| == Leds
  {
    seq(Leds, k requires 0 <= k < Leds =>
      if k == 9 + lane then Red
      else if g[k / 3][k % 3] then Green
      else Black)
  }

  /** Go's `/` on `int` truncates toward zero. */
  function GoQuo(a: int, b: int): int
    requires b > 0
  {
    if a >= 0 then a / b else -((-a) / b)
  }

  /** The difficulty ramp: the advance period shrinks to 98%, rounded down. */
  function Ramp(framesLoop: int): (f: int)
    ensures framesLoop >= 0 ==> 0 <= f <= framesLoop
    ensures framesLoop > 0 ==> f < framesLoop
  {
    GoQuo(98 * framesLoop, 100)
  }

  /** One advance of the obstacle field. The collision test looks at the row
      beside the car after the shift and before the new row is drawn. */
  function Advance(s: Snapshot, r: int): (a: Snapshot)
    requires Shaped(s) && 0 <= r < 6
    ensures Shaped(a)
  {
    var shifted := Shift(s.obstacles);
    var hit := shifted[Depth - 1][s.carLane];
    var g := Spawn(shifted, r);
    s.(frame := 0, obstacles := g, state := if hit then Lose else s.state,
       colors := Mirror(g, s.carLane), framesLoop := Ramp(s.framesLoop))
  }

  /** A lane change: up moves toward lane 0, down toward lane 2, clamped. */
  function Steer(lane: int, up: bool): (l: int)
    ensures 0 <= l < Lanes
    ensures 0 <= lane < Lanes ==> (if up then lane - 1 <= l <= lane else lane <= l <= lane + 1)
  {
    var moved := if up then lane - 1 else lane + 1;
    var low := if moved < 0 then 0 else moved;
    if low >= Lanes - 1 then Lanes - 1 else low
  }

  /** The encoder in LOOP: move the car, repaint its LED, and lose at once if
      the car lands on an obstacle beside it. */
  function PlayTurn(s: Snapshot, pos: int): (t: Snapshot)
    requires Shaped(s)
    ensures Shaped(t) && t.rotaryOldValue == pos && t.rotaryNewValue == pos
    ensures pos == s.rotaryOldValue ==> t == s.(rotaryNewValue := pos)
    ensures t.state == (if pos != s.rotaryOldValue && s.obstacles[Depth - 1][t.carLane] then Lose else s.state)
    ensures t.obstacles == s.obstacles && t.score == s.score && t.frame == s.frame
  {
    if pos != s.rotaryOldValue then
      var lane := Steer(s.carLane, pos > s.rotaryOldValue);
      var hit := s.obstacles[Depth - 1][lane];
      s.(rotaryNewValue := pos, rotaryOldValue := pos, carLane := lane,
         colors := s.colors[9 + s.carLane := Black][9 + lane := Red],
         pressed := if hit then true else s.pressed, state := if hit then Lose else s.state)
    else
      s.(rotaryNewValue := pos)
  }

  /** Whether this LOOP tick advances the field: once the frame counter,
      already incremented, exceeds `framesLoop`. */
  predicate AdvanceDue(s: Snapshot) {
    s.frame + 1 > s.framesLoop
  }

  /** A whole LOOP tick. A collision during the advance does not end the tick:
      the new row, the ramp and the encoder still run. */
  function PlayStep(s: Snapshot, pos: int, r: int): (t: Snapshot)
    requires Shaped(s) && 0 <= r < 6
    ensures Shaped(t) && t.score == s.score + 1 && t.rotaryOldValue == pos
    ensures AdvanceDue(s) ==> t.frame == 0 && t.framesLoop == Ramp(s.framesLoop)
    ensures !AdvanceDue(s) ==> t.frame == s.frame + 1 && t.framesLoop == s.framesLoop && t.obstacles == s.obstacles
  {
    var t := Tick(s);
    PlayTurn(if AdvanceDue(s) then Advance(t, r) else t, pos)
  }

  // ---------------------------------------------------------------- the loop

  /** One iteration of the main loop. */
  function Next(s: Snapshot, pos: int, btnLow: bool, r: int): (n: Snapshot)
    requires Shaped(s) && 0 <= r < 6
    ensures Shaped(n)
  {
    match s.state
    case Menu => MenuConfirm(MenuTurn(s, pos), btnLow)
    case Info => Confirm(InfoTurn(s, pos), btnLow)
    case Loop => PlayStep(s, pos, r)
    case Lose => Confirm(s, btnLow)
  }

  /** Several iterations of the main loop, one per input. */
  function Run(s: Snapshot, ins: seq<Input>): (e: Snapshot)
    requires Shaped(s) && Draws(ins)
    ensures Shaped(e)
    ensures ins == [] ==> e == s
    decreases |ins|
  {
    if ins == [] then s
    else Run(Next(s, ins[0].encPos, ins[0].btnLow, ins[0].draw), ins[1..])
  }

  /** What holds of the globals between two iterations. */
  predicate Inv(s: Snapshot) {
    && Shaped(s)
    && AtMostOnePerRow(s.obstacles)
    && 0 <= s.frame <= s.framesLoop <= StartFramesLoop
    && s.score >= 0
    && (s.state == Menu ==> s.menuOption == 0 || s.menuOption == 1)
    && (s.state == Info ==> InfoFloor <= s.menuOption <= 0 && s.menuOption % ScrollStep == 0)
    && (s.state == Loop || s.state == Lose ==> s.menuOption == 0)
    && (s.state == Loop ==> !s.pressed)
    && (s.state == Loop ==> !s.obstacles[Depth - 1][s.carLane] && s.colors == Mirror(s.obstacles, s.carLane))
  }
}
