/** The main loop of the Outrun handheld as the program runs it: the session
    globals are fields, the obstacle grid and the LED buffer are arrays that the
    loop overwrites cell by cell, and `Step` is one iteration of the loop body.
    Each method is proved to do to the fields what `Outrun.Next` says. */
module OutrunGame {
  import opened Outrun
  import OutrunProperties

  class Game {
    var state: Mode
    var rotaryOldValue: int
    var rotaryNewValue: int
    var carLane: int
    var framesLoop: int
    var frame: int
    /** `obstacles[row, lane]`: row 0 is farthest, row 3 beside the car. */
    const obstacles: array2<bool>
    var pressed: bool
    var score: int
    /** The LED strip's words, index 3 * row + lane. */
    const colors: array<uint32>
    /** Menu cursor in MENU, scroll offset in INFO. */
    var menuOption: int

    /** The array sizes the Go types fix. */
    ghost predicate Fits()
    {
      obstacles.Length0 == Depth && obstacles.Length1 == Lanes && colors.Length == Leds
    }

    /** Row `i` of the grid as a value. */
    ghost function Row(i: int): seq<bool>
      requires Fits() && 0 <= i < Depth
      reads obstacles
    {
      [obstacles[i, 0], obstacles[i, 1], obstacles[i, 2]]
    }

    /** The grid as a value. */
    ghost function Board(): Grid
      requires Fits()
      reads obstacles
    {
      [Row(0), Row(1), Row(2), Row(3)]
    }

    /** All globals as a value. */
    ghost function Snap(): Snapshot
      requires Fits()
      reads this, obstacles, colors
    {
      Snapshot(state, rotaryOldValue, rotaryNewValue, carLane, framesLoop, frame,
               Board(), pressed, score, colors[..], menuOption)
    }

    ghost predicate Valid()
      reads this, obstacles, colors
    {
      Fits() && Inv(Snap())
    }

    /** The globals at power-on. */
    constructor ()
      ensures Valid() && Snap() == Initial()
      ensures fresh(obstacles) && fresh(colors)
    {
      state := Menu;
      rotaryOldValue, rotaryNewValue := 0, 0;
      carLane := StartLane;
      framesLoop := StartFramesLoop;
      frame := 0;
      obstacles := new bool[Depth, Lanes]((i, j) => false);
      pressed := false;
      score := 0;
      colors := new uint32[Leds](_ => Black);
      menuOption := 0;
      new;
      BoardIs(EmptyGrid);
      assert colors[..] == Dark;
      OutrunProperties.InitialInv();
    }

    /** The grid equals `g` when every cell does. */
    lemma BoardIs(g: Grid)
      requires Fits() && IsGrid(g)
      requires forall i, j :: 0 <= i < Depth && 0 <= j < Lanes ==> obstacles[i, j] == g[i][j]
      ensures Board() == g
    {
      forall i | 0 <= i < Depth
        ensures Board()[i] == g[i]
      {
      }
    }

    /** The LED buffer is the grid's mirror when every lamp is. */
    lemma ColorsAre(lane: int)
      requires Fits() && 0 <= lane < Lanes
      requires forall k, j :: 0 <= k < Depth && 0 <= j < Lanes ==>
        colors[3 * k + j] == if k == Depth - 1 && j == lane then Red else if obstacles[k, j] then Green else Black
      ensures colors[..] == Mirror(Board(), lane)
    {
      forall m | 0 <= m < Leds
        ensures colors[m] == Mirror(Board(), lane)[m]
      {
        var i, j := m / 3, m % 3;
        assert m == 3 * i + j;
        OutrunProperties.MirrorCell(Board(), lane, i, j);
      }
    }

    /** One iteration of the main loop: `encPos` is the encoder's position,
        `btnLow` that its push button reads low, `r` the random draw. */
    method Step(encPos: int, btnLow: bool, r: int)
      requires Valid() && 0 <= r < 6
      modifies this, obstacles, colors
      ensures Valid()
      ensures Snap() == Next(old(Snap()), encPos, btnLow, r)
    {
      ghost var s := Snap();
      OutrunProperties.NextInv(s, encPos, btnLow, r);
      match state
      case Menu => MenuTick(encPos, btnLow);
      case Info => InfoTick(encPos, btnLow);
      case Loop => PlayTick(encPos, r);
      case Lose => LoseTick(btnLow);
    }

    /** Empty the grid and darken every lamp; the car's lane is set along the way. */
    method ClearField()
      requires Fits()
      modifies this`carLane, obstacles, colors
      ensures Board() == EmptyGrid && colors[..] == Dark && carLane == StartLane
    {
      for i := 0 to Depth
        invariant forall k, j :: 0 <= k < i && 0 <= j < Lanes ==> !obstacles[k, j]
        invariant forall m :: 0 <= m < 3 * i ==> colors[m] == Black
        invariant i > 0 ==> carLane == StartLane
      {
        for j := 0 to Lanes
          invariant forall k, j' :: 0 <= k < i && 0 <= j' < Lanes ==> !obstacles[k, j']
          invariant forall j' :: 0 <= j' < j ==> !obstacles[i, j']
          invariant forall m :: 0 <= m < 3 * i + j ==> colors[m] == Black
          invariant i > 0 || j > 0 ==> carLane == StartLane
        {
          obstacles[i, j] := false;
          colors[3 * i + j] := Black;
          carLane := StartLane;
        }
      }
      BoardIs(EmptyGrid);
      assert colors[..] == Dark;
    }

    method MenuTick(encPos: int, btnLow: bool)
      requires Fits() && state == Menu
      modifies this, obstacles, colors
      ensures Snap() == MenuConfirm(MenuTurn(old(Snap()), encPos), btnLow)
    {
      ghost var s := Snap();
      rotaryNewValue := encPos;
      if rotaryNewValue != rotaryOldValue {
        if rotaryNewValue > rotaryOldValue {
          menuOption := 1;
        } else {
          menuOption := 0;
        }
        rotaryOldValue := rotaryNewValue;
      }
      assert Snap() == MenuTurn(s, encPos);
      if btnLow {
        if !pressed {
          if menuOption == 0 {
            ClearField();
            colors[9 + carLane] := Red;
            score := 0;
            state := Loop;
          } else {
            pressed := true;
            menuOption := 0;
            state := Info;
          }
        }
      } else {
        pressed := false;
      }
    }

    method InfoTick(encPos: int, btnLow: bool)
      requires Fits() && state == Info
      modifies this
      ensures Snap() == Confirm(InfoTurn(old(Snap()), encPos), btnLow)
    {
      rotaryNewValue := encPos;
      if rotaryNewValue != rotaryOldValue {
        if rotaryNewValue > rotaryOldValue {
          menuOption := menuOption - ScrollStep;
          if menuOption < InfoFloor {
            menuOption := InfoFloor;
          }
        } else {
          menuOption := menuOption + ScrollStep;
          if menuOption > 0 {
            menuOption := 0;
          }
        }
        rotaryOldValue := rotaryNewValue;
      }
      ConfirmTick(btnLow);
    }

    method LoseTick(btnLow: bool)
      requires Fits() && state == Lose
      modifies this
      ensures Snap() == Confirm(old(Snap()), btnLow)
    {
      ConfirmTick(btnLow);
    }

    /** The button in INFO and LOSE. */
    method ConfirmTick(btnLow: bool)
      requires Fits()
      modifies this
      ensures Snap() == Confirm(old(Snap()), btnLow)
    {
      if btnLow {
        if !pressed {
          pressed := true;
          menuOption := 0;
          state := Menu;
        }
      } else {
        pressed := false;
      }
    }

    /** Rows 3..1 take the rows before them; then row 0 is cleared. */
    method ShiftRows()
      requires Fits()
      modifies obstacles
      ensures Board() == Shift(old(Board()))
    {
      var i := Depth - 1;
      while i > 0
        invariant 0 <= i <= Depth - 1
        invariant forall k, j :: 0 <= k <= i && 0 <= j < Lanes ==> obstacles[k, j] == old(obstacles[k, j])
        invariant forall k, j :: i < k < Depth && 0 <= j < Lanes ==> obstacles[k, j] == old(obstacles[k - 1, j])
      {
        for j := 0 to Lanes
          invariant forall k, j' :: 0 <= k < i && 0 <= j' < Lanes ==> obstacles[k, j'] == old(obstacles[k, j'])
          invariant forall j' :: j <= j' < Lanes ==> obstacles[i, j'] == old(obstacles[i, j'])
          invariant forall j' :: 0 <= j' < j ==> obstacles[i, j'] == old(obstacles[i - 1, j'])
          invariant forall k, j' :: i < k < Depth && 0 <= j' < Lanes ==> obstacles[k, j'] == old(obstacles[k - 1, j'])
        {
          obstacles[i, j] := obstacles[i - 1, j];
        }
        i := i - 1;
      }
      obstacles[0, 0] := false;
      obstacles[0, 1] := false;
      obstacles[0, 2] := false;
      BoardIs(Shift(old(Board())));
    }

    /** Draw the LED buffer from the grid, then light the car. */
    method Repaint()
      requires Fits() && 0 <= carLane < Lanes
      modifies colors
      ensures colors[..] == Mirror(Board(), carLane)
    {
      for i := 0 to Depth
        invariant forall k, j :: 0 <= k < i && 0 <= j < Lanes ==> colors[3 * k + j] == if obstacles[k, j] then Green else Black
      {
        for j := 0 to Lanes
          invariant forall k, j' :: 0 <= k < i && 0 <= j' < Lanes ==> colors[3 * k + j'] == if obstacles[k, j'] then Green else Black
          invariant forall j' :: 0 <= j' < j ==> colors[3 * i + j'] == if obstacles[i, j'] then Green else Black
        {
          if obstacles[i, j] {
            colors[3 * i + j] := Green;
          } else {
            colors[3 * i + j] := Black;
          }
        }
      }
      colors[9 + carLane] := Red;
      ColorsAre(carLane);
    }

    /** An advance of the obstacle field. */
    method AdvanceField(r: int)
      requires Fits() && 0 <= carLane < Lanes && 0 <= r < 6
      modifies this, obstacles, colors
      ensures Snap() == Advance(old(Snap()), r)
    {
      frame := 0;
      ShiftRows();
      if obstacles[Depth - 1, carLane] {
        state := Lose;
      }
      SpawnRow(r);
      Repaint();
      framesLoop := GoQuo(98 * framesLoop, 100);
    }

    /** A draw below 3 places an obstacle in that lane of row 0. */
    method SpawnRow(r: int)
      requires Fits() && 0 <= r < 6
      modifies obstacles
      ensures Board() == Spawn(old(Board()), r)
    {
      if r < Lanes {
        obstacles[0, r] := true;
      }
      BoardIs(Spawn(old(Board()), r));
    }

    /** Darken the car's lamp, move the car one lane the way the encoder
        turned, store the reading, clamp the lane and light its lamp. */
    method MoveCar()
      requires Fits() && 0 <= carLane < Lanes
      modifies this`carLane, this`rotaryOldValue, colors
      ensures carLane == Steer(old(carLane), old(rotaryNewValue) > old(rotaryOldValue))
      ensures rotaryOldValue == rotaryNewValue
      ensures colors[..] == old(colors[..])[9 + old(carLane) := Black][9 + carLane := Red]
    {
      colors[9 + carLane] := Black;
      if rotaryNewValue > rotaryOldValue {
        carLane := carLane - 1;
      } else {
        carLane := carLane + 1;
      }
      rotaryOldValue := rotaryNewValue;
      if carLane < 0 {
        carLane := 0;
      }
      if carLane >= Lanes - 1 {
        carLane := Lanes - 1;
      }
      colors[9 + carLane] := Red;
    }

    /** The encoder in LOOP. */
    method SteerTick(encPos: int)
      requires Fits() && 0 <= carLane < Lanes
      modifies this, colors
      ensures Snap() == PlayTurn(old(Snap()), encPos)
    {
      rotaryNewValue := encPos;
      if rotaryNewValue != rotaryOldValue {
        MoveCar();
        if obstacles[Depth - 1, carLane] {
          pressed := true;
          state := Lose;
        }
      }
    }

    /** One LOOP tick. */
    method PlayTick(encPos: int, r: int)
      requires Fits() && state == Loop && 0 <= carLane < Lanes && 0 <= r < 6
      modifies this, obstacles, colors
      ensures Snap() == PlayStep(old(Snap()), encPos, r)
    {
      frame := frame + 1;
      score := score + 1;
      if frame > framesLoop {
        AdvanceField(r);
      }
      SteerTick(encPos);
    }
  }
}
