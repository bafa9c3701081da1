/** What the loop of the Outrun handheld guarantees, stated about the
    transition function `Next` and about runs of it. */
module OutrunProperties {
  import opened Outrun

  // ---------------------------------------------------------------- the invariant

  lemma InitialInv()
    ensures Inv(Initial())
    ensures Initial().state == Menu && Initial().carLane == StartLane
  {
  }

  /** Lamp 3 * i + j of the buffer shows cell (i, j) of the grid: red for the
      car, green for an obstacle, black otherwise. */
  lemma MirrorCell(g: Grid, lane: int, i: int, j: int)
    requires IsGrid(g) && 0 <= lane < Lanes && 0 <= i < Depth && 0 <= j < Lanes
    ensures Mirror(g, lane)[3 * i + j] == if i == Depth - 1 && j == lane then Red else if g[i][j] then Green else Black
  {
    var k := 3 * i + j;
    assert k / 3 == i && k % 3 == j;
  }

  /** Moving the car's red lamp from one lane to another redraws the buffer
      for the new lane, provided no obstacle stood beside the old one. */
  lemma MirrorMove(g: Grid, from: int, to: int)
    requires IsGrid(g) && 0 <= from < Lanes && 0 <= to < Lanes
    requires !g[Depth - 1][from]
    ensures Mirror(g, from)[9 + from := Black][9 + to := Red] == Mirror(g, to)
  {
    var c := Mirror(g, from)[9 + from := Black][9 + to := Red];
    forall k | 0 <= k < Leds
      ensures c[k] == Mirror(g, to)[k]
    {
      var i, j := k / 3, k % 3;
      assert k == 3 * i + j;
    }
  }

  /** The buffer a new game starts with is the one drawn from its empty grid. */
  lemma NewGameMirrors()
    ensures Dark[9 + StartLane := Red] == Mirror(EmptyGrid, StartLane)
  {
    var c := Dark[9 + StartLane := Red];
    forall k | 0 <= k < Leds
      ensures c[k] == Mirror(EmptyGrid, StartLane)[k]
    {
      var i, j := k / 3, k % 3;
      assert k == 3 * i + j;
    }
  }

  /** A new game started from any menu state satisfies the invariant. */
  lemma NewGameInv(s: Snapshot)
    requires Inv(s) && s.state == Menu && s.menuOption == 0 && !s.pressed
    ensures Inv(NewGame(s))
  {
    NewGameMirrors();
  }

  /** An advance keeps at most one obstacle per row, leaves the buffer
      mirroring the grid, and loses exactly when the shifted row beside the
      car holds an obstacle in its lane. */
  lemma AdvanceInv(s: Snapshot, r: int)
    requires Shaped(s) && AtMostOnePerRow(s.obstacles) && 0 <= r < 6
    ensures AtMostOnePerRow(Advance(s, r).obstacles)
    ensures Advance(s, r).colors == Mirror(Advance(s, r).obstacles, s.carLane)
    ensures Advance(s, r).state == (if Shift(s.obstacles)[Depth - 1][s.carLane] then Lose else s.state)
  {
    var h := Shift(s.obstacles);
    var g := Spawn(h, r);
    forall i, a, b | 0 <= i < Depth && 0 <= a < b < Lanes
      ensures !(g[i][a] && g[i][b])
    {
      if i > 0 {
        assert g[i] == s.obstacles[i - 1];
      } else {
        assert h[0] == NoRow;
      }
    }
  }

  lemma PlayInv(s: Snapshot, pos: int, r: int)
    requires Inv(s) && s.state == Loop && 0 <= r < 6
    ensures Inv(PlayStep(s, pos, r))
  {
    var t := Tick(s);
    var a := if AdvanceDue(s) then Advance(t, r) else t;
    if AdvanceDue(s) {
      AdvanceInv(t, r);
      assert a.obstacles[Depth - 1] == t.obstacles[Depth - 2];
    }
    assert a.state == Loop ==> !a.obstacles[Depth - 1][a.carLane] && a.colors == Mirror(a.obstacles, a.carLane);
    var n := PlayTurn(a, pos);
    if pos != a.rotaryOldValue && a.state == Loop {
      MirrorMove(a.obstacles, a.carLane, n.carLane);
    }
  }

  /** Every iteration keeps the invariant. */
  lemma NextInv(s: Snapshot, pos: int, btnLow: bool, r: int)
    requires Inv(s) && 0 <= r < 6
    ensures Inv(Next(s, pos, btnLow, r))
  {
    match s.state
    case Menu =>
      NewGameMirrors();
    case Info =>
    case Loop =>
      PlayInv(s, pos, r);
    case Lose =>
  }

  lemma {:induction false} RunInv(s: Snapshot, ins: seq<Input>)
    requires Inv(s) && Draws(ins)
    ensures Inv(Run(s, ins))
    decreases |ins|
  {
    if ins != [] {
      NextInv(s, ins[0].encPos, ins[0].btnLow, ins[0].draw);
      RunInv(Next(s, ins[0].encPos, ins[0].btnLow, ins[0].draw), ins[1..]);
    }
  }

  // ---------------------------------------------------------------- lanes

  /** A lane change moves the car by exactly one lane, except that it stays
      put at the edge it is pushed against; it never wraps. */
  lemma SteerClamps(lane: int, up: bool)
    requires 0 <= lane < Lanes
    ensures 0 <= Steer(lane, up) < Lanes
    ensures up && lane > 0 ==> Steer(lane, up) == lane - 1
    ensures up && lane == 0 ==> Steer(lane, up) == 0
    ensures !up && lane < Lanes - 1 ==> Steer(lane, up) == lane + 1
    ensures !up && lane == Lanes - 1 ==> Steer(lane, up) == Lanes - 1
  {
  }

  /** In LOOP an encoder change moves the car as `Steer` says (turning up
      toward lane 0), whatever the size of the change; otherwise the car stays. */
  lemma PlaySteers(s: Snapshot, pos: int, btnLow: bool, r: int)
    requires Inv(s) && s.state == Loop && 0 <= r < 6
    ensures var n := Next(s, pos, btnLow, r);
      && (pos != s.rotaryOldValue ==> n.carLane == Steer(s.carLane, pos > s.rotaryOldValue))
      && (pos == s.rotaryOldValue ==> n.carLane == s.carLane)
      && n.rotaryOldValue == pos
  {
  }

  /** A lane change darkens the lamp the car leaves, lights the one it reaches,
      and touches no other lamp. */
  lemma LaneMoveLeds(s: Snapshot, pos: int)
    requires Shaped(s) && pos != s.rotaryOldValue
    ensures var t := PlayTurn(s, pos);
      && t.colors[9 + t.carLane] == Red
      && (t.carLane != s.carLane ==> t.colors[9 + s.carLane] == Black)
      && forall k :: 0 <= k < Leds && k != 9 + s.carLane && k != 9 + t.carLane ==>
           t.colors[k] == s.colors[k]
  {
  }

  // ---------------------------------------------------------------- the obstacle field

  /** On a tick whose frame counter exceeds `framesLoop`, the rows move one
      step toward the car, the farthest row holds exactly the obstacle the
      draw names (none for a draw of 3 or more), the counter restarts and the
      period shrinks. */
  lemma AdvanceShiftsAndSpawns(s: Snapshot, pos: int, btnLow: bool, r: int)
    requires Inv(s) && s.state == Loop && AdvanceDue(s) && 0 <= r < 6
    ensures var n := Next(s, pos, btnLow, r);
      && (forall i :: 1 <= i < Depth ==> n.obstacles[i] == s.obstacles[i - 1])
      && n.obstacles[0] == (if r < Lanes then NoRow[r := true] else NoRow)
      && n.frame == 0
      && n.framesLoop == Ramp(s.framesLoop)
  {
    var g := Spawn(Shift(s.obstacles), r);
    assert g[0] == (if r < Lanes then NoRow[r := true] else NoRow);
  }

  /** On any other LOOP tick the field stands still and only the counters move. */
  lemma QuietTick(s: Snapshot, pos: int, btnLow: bool, r: int)
    requires Inv(s) && s.state == Loop && !AdvanceDue(s) && 0 <= r < 6
    ensures var n := Next(s, pos, btnLow, r);
      && n.obstacles == s.obstacles
      && n.frame == s.frame + 1
      && n.framesLoop == s.framesLoop
  {
  }

  /** After an advance that leaves the encoder alone, the LED buffer is the
      grid drawn lamp for lamp, the car red, even when the advance collided. */
  lemma AdvanceRepaints(s: Snapshot, btnLow: bool, r: int)
    requires Inv(s) && s.state == Loop && AdvanceDue(s) && 0 <= r < 6
    ensures var n := Next(s, s.rotaryOldValue, btnLow, r);
      |n.colors| == Leds && forall i, j :: 0 <= i < Depth && 0 <= j < Lanes ==>
        n.colors[3 * i + j] == (if i == Depth - 1 && j == n.carLane then Red else if n.obstacles[i][j] then Green else Black)
  {
  }

  // ---------------------------------------------------------------- collisions

  /** A LOOP tick ends in LOSE exactly when the advance brings an obstacle
      beside the car, or the encoder steers the car next to one; and only
      the second raises the button latch. */
  lemma PlayCollision(s: Snapshot, pos: int, btnLow: bool, r: int)
    requires Inv(s) && s.state == Loop && 0 <= r < 6
    ensures var n := Next(s, pos, btnLow, r);
      var near := if AdvanceDue(s) then s.obstacles[Depth - 2] else s.obstacles[Depth - 1];
      var advanceHit := AdvanceDue(s) && near[s.carLane];
      var steerHit := pos != s.rotaryOldValue && near[Steer(s.carLane, pos > s.rotaryOldValue)];
      && (n.state == Lose <==> advanceHit || steerHit)
      && (n.state == Loop <==> !(advanceHit || steerHit))
      && (n.pressed <==> steerHit)
  {
    var t := Tick(s);
    if AdvanceDue(s) {
      assert Advance(t, r).obstacles[Depth - 1] == s.obstacles[Depth - 2];
    }
  }

  // ---------------------------------------------------------------- difficulty and score

  /** The advance period never grows, shrinks on every advance while it is
      positive, and stays at 0 once there. */
  lemma RampNeverGrows(s: Snapshot, pos: int, btnLow: bool, r: int)
    requires Inv(s) && 0 <= r < 6
    ensures var n := Next(s, pos, btnLow, r);
      && 0 <= n.framesLoop <= s.framesLoop
      && (s.state == Loop && AdvanceDue(s) && s.framesLoop > 0 ==> n.framesLoop < s.framesLoop)
      && (s.framesLoop == 0 ==> n.framesLoop == 0)
  {
  }

  /** Once the period is 0, every LOOP tick advances and the period stays 0. */
  lemma ZeroPeriodAlwaysDue(s: Snapshot, pos: int, btnLow: bool, r: int)
    requires Inv(s) && s.state == Loop && s.framesLoop == 0 && 0 <= r < 6
    ensures AdvanceDue(s)
    ensures var n := Next(s, pos, btnLow, r);
      n.framesLoop == 0 && n.frame == 0 && (n.state == Loop ==> AdvanceDue(n))
  {
  }

  lemma {:induction false} RunRampNeverGrows(s: Snapshot, ins: seq<Input>)
    requires Inv(s) && Draws(ins)
    ensures 0 <= Run(s, ins).framesLoop <= s.framesLoop
    decreases |ins|
  {
    if ins != [] {
      var n := Next(s, ins[0].encPos, ins[0].btnLow, ins[0].draw);
      RampNeverGrows(s, ins[0].encPos, ins[0].btnLow, ins[0].draw);
      NextInv(s, ins[0].encPos, ins[0].btnLow, ins[0].draw);
      RunRampNeverGrows(n, ins[1..]);
    }
  }

  /** `framesLoop` after `k` advances. */
  function RampTimes(f: int, k: nat): int
    decreases k
  {
    if k == 0 then f else RampTimes(Ramp(f), k - 1)
  }

  /** Each advance takes at least one off a positive period, so the period
      reaches 0, and advances then fire on every tick, after at most as many
      advances as the period started with. */
  lemma {:induction false} RampReachesZero(f: int, k: nat)
    requires f >= 0
    ensures 0 <= RampTimes(f, k) <= f
    ensures RampTimes(f, k) == 0 || RampTimes(f, k) <= f - k
  {
    if k > 0 {
      RampReachesZero(Ramp(f), k - 1);
    }
  }

  /** The score counts LOOP ticks: one more on each of them, zero at the start
      of a game, unchanged otherwise. */
  lemma ScoreCounts(s: Snapshot, pos: int, btnLow: bool, r: int)
    requires Inv(s) && 0 <= r < 6
    ensures var n := Next(s, pos, btnLow, r);
      && (s.state == Loop ==> n.score == s.score + 1)
      && (s.state == Menu && n.state == Loop ==> n.score == 0)
      && (s.state != Loop && !(s.state == Menu && n.state == Loop) ==> n.score == s.score)
  {
  }

  /** Predicate: every input leaves the encoder at `pos`. */
  predicate Still(pos: int, ins: seq<Input>) {
    forall k :: 0 <= k < |ins| ==> ins[k].encPos == pos
  }

  /** Until the frame counter passes `framesLoop`, LOOP ticks without encoder
      changes move nothing but the counters and the score. */
  lemma {:induction false} QuietUntilAdvance(s: Snapshot, ins: seq<Input>)
    requires Inv(s) && s.state == Loop && Draws(ins) && Still(s.rotaryOldValue, ins)
    requires |ins| <= s.framesLoop - s.frame
    ensures var e := Run(s, ins);
      && e.state == Loop && e.obstacles == s.obstacles && e.colors == s.colors && e.carLane == s.carLane
      && e.frame == s.frame + |ins| && e.score == s.score + |ins| && e.framesLoop == s.framesLoop
      && e.rotaryOldValue == s.rotaryOldValue
    decreases |ins|
  {
    if ins != [] {
      var n := Next(s, ins[0].encPos, ins[0].btnLow, ins[0].draw);
      NextInv(s, ins[0].encPos, ins[0].btnLow, ins[0].draw);
      assert Still(n.rotaryOldValue, ins[1..]) by {
        forall k | 0 <= k < |ins[1..]| ensures ins[1..][k].encPos == n.rotaryOldValue {
          assert ins[1..][k] == ins[k + 1];
        }
      }
      QuietUntilAdvance(n, ins[1..]);
    }
  }

  /** The first game after power-on: 180 ticks without turning the encoder
      leave the field empty with the score at 180, and the 181st tick is the
      first to advance. */
  lemma FirstAdvanceAfterPowerOn(ins: seq<Input>)
    requires Draws(ins) && Still(0, ins) && |ins| == StartFramesLoop
    ensures var e := Run(NewGame(Initial()), ins);
      && e.state == Loop && e.obstacles == EmptyGrid && e.score == StartFramesLoop
      && e.frame == StartFramesLoop && e.framesLoop == StartFramesLoop
      && e.rotaryOldValue == 0 && AdvanceDue(e)
  {
    NewGameInv(Initial());
    QuietUntilAdvance(NewGame(Initial()), ins);
  }

  /** An advance over an empty field cannot collide and leaves only the new
      row's obstacle. */
  lemma AdvanceOverEmpty(e: Snapshot, btnLow: bool, r: int)
    requires Inv(e) && e.state == Loop && e.obstacles == EmptyGrid && AdvanceDue(e) && 0 <= r < 6
    ensures var n := Next(e, e.rotaryOldValue, btnLow, r);
      && n.state == Loop && n.obstacles[Depth - 1] == NoRow && n.obstacles[0] == (if r < Lanes then NoRow[r := true] else NoRow)
      && n.score == e.score + 1 && n.frame == 0 && n.framesLoop == Ramp(e.framesLoop)
  {
    AdvanceShiftsAndSpawns(e, e.rotaryOldValue, btnLow, r);
    PlayCollision(e, e.rotaryOldValue, btnLow, r);
  }

  /** The 181st tick of that game is its first advance: it cannot collide,
      since the field was empty, and it brings the period down to 176. */
  lemma FirstAdvanceTick(ins: seq<Input>, btnLow: bool, r: int)
    requires Draws(ins) && Still(0, ins) && |ins| == StartFramesLoop && 0 <= r < 6
    ensures var n := Next(Run(NewGame(Initial()), ins), 0, btnLow, r);
      && n.state == Loop && n.obstacles[Depth - 1] == NoRow && n.obstacles[0] == (if r < Lanes then NoRow[r := true] else NoRow)
      && n.score == StartFramesLoop + 1 && n.frame == 0 && n.framesLoop == 176
  {
    var e := Run(NewGame(Initial()), ins);
    NewGameInv(Initial());
    RunInv(NewGame(Initial()), ins);
    FirstAdvanceAfterPowerOn(ins);
    AdvanceOverEmpty(e, btnLow, r);
  }

  // ---------------------------------------------------------------- the encoder in MENU and INFO

  /** A scroll step moves the text by exactly four pixels unless it is already
      at that end of [-112, 0], where it stays. */
  lemma ScrollExact(offset: int, up: bool)
    requires InfoFloor <= offset <= 0 && offset % ScrollStep == 0
    ensures up ==> Scroll(offset, up) == if offset == InfoFloor then InfoFloor else offset - ScrollStep
    ensures !up ==> Scroll(offset, up) == if offset == 0 then 0 else offset + ScrollStep
  {
  }

  /** In MENU an encoder change selects INFO when turned up and START GAME
      when turned down; in INFO it scrolls by one step. A reading equal to
      the stored one leaves the cursor and the offset alone. */
  lemma CursorFollowsEncoder(s: Snapshot, pos: int, r: int)
    requires Inv(s) && (s.state == Menu || s.state == Info) && 0 <= r < 6
    ensures var n := Next(s, pos, false, r);
      && n.state == s.state
      && n.rotaryOldValue == pos
      && (pos == s.rotaryOldValue ==> n.menuOption == s.menuOption)
      && (pos != s.rotaryOldValue && s.state == Menu ==> n.menuOption == if pos > s.rotaryOldValue then 1 else 0)
      && (pos != s.rotaryOldValue && s.state == Info ==> n.menuOption == Scroll(s.menuOption, pos > s.rotaryOldValue))
  {
  }

  /** Several detents within one tick count as one: two readings on the same
      side of the previous one lead to the same state, save the stored reading. */
  lemma BurstIsOneStep(s: Snapshot, p1: int, p2: int, btnLow: bool, r: int)
    requires Shaped(s) && s.state != Lose && 0 <= r < 6
    requires (p1 > s.rotaryOldValue && p2 > s.rotaryOldValue) || (p1 < s.rotaryOldValue && p2 < s.rotaryOldValue)
    ensures Next(s, p1, btnLow, r).(rotaryOldValue := p2, rotaryNewValue := p2) == Next(s, p2, btnLow, r)
  {
  }

  /** LOSE does not read the encoder at all. */
  lemma LoseIgnoresEncoder(s: Snapshot, p1: int, p2: int, btnLow: bool, r: int)
    requires Shaped(s) && s.state == Lose && 0 <= r < 6
    ensures Next(s, p1, btnLow, r) == Next(s, p2, btnLow, r)
    ensures Next(s, p1, btnLow, r).rotaryOldValue == s.rotaryOldValue
  {
  }

  /** Predicate: each input turns the encoder up from the one before, with the
      button released. */
  predicate TurnsUp(from: int, ins: seq<Input>)
    decreases |ins|
  {
    ins == [] || (ins[0].encPos > from && !ins[0].btnLow && TurnsUp(ins[0].encPos, ins[1..]))
  }

  lemma {:induction false} DrawsTail(ins: seq<Input>)
    requires Draws(ins) && ins != []
    ensures Draws(ins[1..]) && 0 <= ins[0].draw < 6
  {
    assert forall k :: 0 <= k < |ins[1..]| ==> ins[1..][k] == ins[k + 1];
  }

  /** Turning the encoder up on `n` ticks in INFO scrolls the text up by 4n
      pixels, stopping at -112: five turns from the top reach -20, and 28 reach
      the floor. */
  lemma {:induction false} ScrollToFloor(s: Snapshot, ins: seq<Input>)
    requires Inv(s) && s.state == Info && Draws(ins) && TurnsUp(s.rotaryOldValue, ins)
    ensures var e := Run(s, ins);
      && e.state == Info
      && e.menuOption == if s.menuOption - ScrollStep * |ins| < InfoFloor then InfoFloor else s.menuOption - ScrollStep * |ins|
    decreases |ins|
  {
    if ins != [] {
      DrawsTail(ins);
      var n := Next(s, ins[0].encPos, ins[0].btnLow, ins[0].draw);
      NextInv(s, ins[0].encPos, ins[0].btnLow, ins[0].draw);
      ScrollExact(s.menuOption, true);
      ScrollToFloor(n, ins[1..]);
    }
  }

  // ---------------------------------------------------------------- the confirm latch

  /** Outside LOOP the screen changes exactly when the button reads low and
      the latch is down. */
  lemma LatchGatesTransitions(s: Snapshot, pos: int, btnLow: bool, r: int)
    requires Inv(s) && s.state != Loop && 0 <= r < 6
    ensures Next(s, pos, btnLow, r).state != s.state <==> btnLow && !s.pressed
  {
  }

  /** Outside LOOP a released button lowers the latch and keeps the screen. */
  lemma ReleaseClearsLatch(s: Snapshot, pos: int, r: int)
    requires Inv(s) && s.state != Loop && 0 <= r < 6
    ensures !Next(s, pos, false, r).pressed && Next(s, pos, false, r).state == s.state
  {
  }

  /** LOOP never reads the button. */
  lemma LoopIgnoresButton(s: Snapshot, pos: int, r: int)
    requires Inv(s) && s.state == Loop && 0 <= r < 6
    ensures Next(s, pos, true, r) == Next(s, pos, false, r)
  {
  }

  /** Confirming START GAME starts a game: an empty field, dark lamps but the
      car's, the car in lane 1 and a zero score, in LOOP with the latch still
      down; the advance period and the frame counter are not reset. */
  lemma StartGame(s: Snapshot, pos: int, r: int)
    requires Inv(s) && s.state == Menu && !s.pressed && 0 <= r < 6
    requires MenuTurn(s, pos).menuOption == 0
    ensures var n := Next(s, pos, true, r);
      && n.state == Loop && n.obstacles == EmptyGrid && n.colors == Mirror(EmptyGrid, StartLane)
      && n.carLane == StartLane && n.score == 0 && !n.pressed
      && n.framesLoop == s.framesLoop && n.frame == s.frame
  {
    NewGameMirrors();
  }

  /** Confirming INFO opens it at the top with the latch up. */
  lemma OpenInfo(s: Snapshot, pos: int, r: int)
    requires Inv(s) && s.state == Menu && !s.pressed && 0 <= r < 6
    requires MenuTurn(s, pos).menuOption == 1
    ensures var n := Next(s, pos, true, r);
      n.state == Info && n.menuOption == 0 && n.pressed
  {
  }

  /** Confirming in INFO or LOSE returns to MENU on START GAME with the latch up. */
  lemma BackToMenu(s: Snapshot, pos: int, r: int)
    requires Inv(s) && (s.state == Info || s.state == Lose) && !s.pressed && 0 <= r < 6
    ensures var n := Next(s, pos, true, r);
      n.state == Menu && n.menuOption == 0 && n.pressed && n.score == s.score
  {
  }

  /** Predicate: the button reads low on every input. */
  predicate Held(ins: seq<Input>) {
    forall k :: 0 <= k < |ins| ==> ins[k].btnLow
  }

  /** While the button stays held after a transition, no further transition
      happens: the screen stays and so does the latch. */
  lemma {:induction false} HoldKeepsScreen(s: Snapshot, ins: seq<Input>)
    requires Shaped(s) && s.state != Loop && s.pressed && Draws(ins) && Held(ins)
    ensures Run(s, ins).state == s.state && Run(s, ins).pressed
    decreases |ins|
  {
    if ins != [] {
      DrawsTail(ins);
      var n := Next(s, ins[0].encPos, ins[0].btnLow, ins[0].draw);
      assert Held(ins[1..]) by {
        forall k | 0 <= k < |ins[1..]| ensures ins[1..][k].btnLow {
          assert ins[1..][k] == ins[k + 1];
        }
      }
      HoldKeepsScreen(n, ins[1..]);
    }
  }

  /** Opening INFO and then holding the button on for any number of ticks
      stays in INFO. */
  lemma HoldAfterOpeningInfo(s: Snapshot, pos: int, r: int, ins: seq<Input>)
    requires Inv(s) && s.state == Menu && !s.pressed && 0 <= r < 6
    requires MenuTurn(s, pos).menuOption == 1 && Draws(ins) && Held(ins)
    ensures Run(Next(s, pos, true, r), ins).state == Info
  {
    HoldKeepsScreen(Next(s, pos, true, r), ins);
  }
}
