/** The bird's vertical physics and the two-state game machine of the flappy bird
    clone, as values. Positions are the y coordinate of the bird's top edge, in
    pixels, growing downwards; velocities are pixels per frame. Numbers are exact
    reals, so the game's floating-point rounding is not modelled. */
module Physics {

  const BOARD_HEIGHT: real := 640.0
  const BIRD_HEIGHT: real := 24.0
  /** Gravity added to the velocity on every running frame. */
  const GRAV: real := 0.45
  /** The velocity a flap sets (negative is upwards). */
  const JUMP: real := -7.0
  /** The fastest the bird may fall. */
  const MAX_FALL: real := 12.0
  /** The lowest position of the bird: its bottom edge on the board's bottom edge. */
  const FLOOR: real := BOARD_HEIGHT - BIRD_HEIGHT
  /** Where the bird starts, and where a reset puts it back. */
  const START_Y: real := BOARD_HEIGHT / 2.0

  datatype GameState = Running | GameOver

  /** The game's three mutable variables: the bird's position, its velocity and the state. */
  datatype Snapshot = Snapshot(birdY: real, vy: real, state: GameState)

  /** The bird is on the board and its velocity lies between a flap and the fastest fall. */
  predicate Inv(s: Snapshot) {
    0.0 <= s.birdY <= FLOOR && JUMP <= s.vy <= MAX_FALL
  }

  predicate OutOfBounds(y: real) {
    y < 0.0 || y > FLOOR
  }

  /** The state at page load, which is also the state a reset restores. */
  function Initial(): (r: Snapshot)
    ensures Inv(r) && r.state == Running
    ensures r.birdY == BOARD_HEIGHT / 2.0 && r.vy == 0.0
  {
    Snapshot(START_Y, 0.0, Running)
  }

  function Min(a: real, b: real): real {
    if a <= b then a else b
  }

  /** The velocity after one frame of gravity: the old one plus GRAV, cut back to
      MAX_FALL when it would exceed it. There is no cap on upward speed. */
  function Fall(vy: real): (r: real)
    ensures r <= MAX_FALL && r <= vy + GRAV
    ensures r == vy + GRAV || r == MAX_FALL
  {
    var v := vy + GRAV;
    if v > MAX_FALL then MAX_FALL else v
  }

  /** Where one frame would put the bird if there were no ceiling and no floor. */
  function Unclamped(s: Snapshot): real {
    s.birdY + Fall(s.vy)
  }

  /** The position put back on the board: above the top edge becomes 0, below the floor FLOOR. */
  function Clamp(y: real): (r: real)
    ensures 0.0 <= r <= FLOOR
    ensures !OutOfBounds(y) <==> r == y
    ensures y < 0.0 ==> r == 0.0
    ensures y > FLOOR ==> r == FLOOR
  {
    if y < 0.0 then 0.0 else if y > FLOOR then FLOOR else y
  }

  /** A flap replaces the velocity by JUMP, whatever it was; nothing else changes. */
  function Flap(s: Snapshot): (r: Snapshot)
    ensures r.vy == JUMP
    ensures r.birdY == s.birdY && r.state == s.state
    ensures Inv(s) ==> Inv(r)
  {
    s.(vy := JUMP)
  }

  /** One animation frame. A running game takes a gravity step; a bird that would leave
      the board is put back on its edge and the game is over. A game that is over does
      not move. */
  function Update(s: Snapshot): (r: Snapshot)
    ensures s.state == GameOver ==> r == s
    ensures s.state == Running ==> r.vy == Min(s.vy + GRAV, MAX_FALL)
    ensures s.state == Running ==> r.birdY == Clamp(Unclamped(s))
    ensures s.state == Running ==> (r.state == GameOver <==> OutOfBounds(Unclamped(s)))
    ensures Inv(s) ==> Inv(r)
  {
    if s.state == GameOver then s
    else
      var v := Fall(s.vy);
      var y := s.birdY + v;
      if y < 0.0 then Snapshot(0.0, v, GameOver)
      else if y > FLOOR then Snapshot(FLOOR, v, GameOver)
      else Snapshot(y, v, Running)
  }

  /** A bird at the top edge moving up at 5 pixels per frame hits the ceiling. */
  lemma CeilingHit()
    ensures Update(Snapshot(0.0, -5.0, Running)) == Snapshot(0.0, -4.55, GameOver)
  {
  }

  /** A bird falling at full speed just above the floor hits the floor; its velocity stays capped. */
  lemma FloorHit()
    ensures Update(Snapshot(610.0, 12.0, Running)) == Snapshot(FLOOR, MAX_FALL, GameOver)
  {
  }

  /** The state after n frames without input. Frames alone never bring back a game
      that is over. */
  function Iterate(s: Snapshot, n: nat): (r: Snapshot)
    ensures r.state == Running ==> s.state == Running
    decreases n
  {
    if n == 0 then s else Iterate(Update(s), n - 1)
  }

  lemma {:induction false} IterateInv(s: Snapshot, n: nat)
    requires Inv(s)
    ensures Inv(Iterate(s, n))
    decreases n
  {
    if n > 0 {
      IterateInv(Update(s), n - 1);
    }
  }

  /** A game that is over stays exactly as it is, frame after frame. */
  lemma {:induction false} IterateFrozen(s: Snapshot, n: nat)
    requires s.state == GameOver
    ensures Iterate(s, n) == s
    decreases n
  {
    if n > 0 {
      IterateFrozen(Update(s), n - 1);
    }
  }

  lemma {:induction false} IterateLast(s: Snapshot, n: nat)
    ensures Iterate(s, n + 1) == Update(Iterate(s, n))
    decreases n
  {
    if n > 0 {
      IterateLast(Update(s), n - 1);
    }
  }

  lemma {:induction false} IterateAdd(s: Snapshot, a: nat, b: nat)
    ensures Iterate(s, a + b) == Iterate(Iterate(s, a), b)
    decreases a
  {
    if a > 0 {
      IterateAdd(Update(s), a - 1, b);
    }
  }

  /** While the game runs, every frame adds GRAV to the velocity until it reaches MAX_FALL. */
  lemma {:induction false} VelocityRises(s: Snapshot, n: nat)
    requires s.state == Running
    ensures Iterate(s, n).state == GameOver || Iterate(s, n).vy >= Min(s.vy + GRAV * n as real, MAX_FALL)
    decreases n
  {
    if n > 0 {
      var u := Update(s);
      if u.state == GameOver {
        IterateFrozen(u, n - 1);
      } else {
        VelocityRises(u, n - 1);
      }
    }
  }

  /** Once the bird is not rising, every running frame lowers it by at least GRAV. */
  lemma {:induction false} Descends(s: Snapshot, n: nat)
    requires s.state == Running && s.vy >= 0.0
    ensures Iterate(s, n).state == GameOver || Iterate(s, n).birdY >= s.birdY + GRAV * n as real
    decreases n
  {
    if n > 0 {
      var u := Update(s);
      if u.state == GameOver {
        IterateFrozen(u, n - 1);
      } else {
        Descends(u, n - 1);
      }
    }
  }

  /** Nobody can hover: a running game without input is over within 1385 frames. */
  lemma NoInputEndsGame(s: Snapshot)
    requires Inv(s) && s.state == Running
    ensures Iterate(s, 1385).state == GameOver
  {
    IterateAdd(s, 16, 1369);
    var m := Iterate(s, 16);
    if m.state == GameOver {
      IterateFrozen(m, 1369);
    } else {
      VelocityRises(s, 16);
      IterateInv(s, 16);
      Descends(m, 1369);
      IterateInv(m, 1369);
    }
  }
}
