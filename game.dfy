/** The game's mutable state and the functions that update it in place. */
module Session {
  import opened Physics
  import opened Controls
  import opened Trace

  class Game {
    var birdY: real
    var vy: real
    var state: GameState

    /** The three variables as a value. */
    function View(): Snapshot
      reads this
    {
      Snapshot(birdY, vy, state)
    }

    /** The bird is on the board, 0 <= birdY <= 616, and its velocity between JUMP and MAX_FALL. */
    predicate Valid()
      reads this
    {
      Inv(View())
    }

    /** The state at page load: the bird in the middle of the board, at rest, running. */
    constructor ()
      ensures Valid() && View() == Initial()
    {
      birdY := BOARD_HEIGHT / 2.0;
      vy := 0.0;
      state := Running;
    }

    method Flap()
      requires Valid()
      modifies this`vy
      ensures Valid() && View() == Physics.Flap(old(View()))
    {
      vy := JUMP;
    }

    method GameOver()
      requires Valid()
      modifies this`state
      ensures Valid() && View() == old(View()).(state := GameState.GameOver)
    {
      state := GameState.GameOver;
    }

    /** Back to the initial state, from any state: a second reset changes nothing more. */
    method Reset()
      modifies this
      ensures Valid() && View() == Initial()
    {
      birdY := BOARD_HEIGHT / 2.0;
      vy := 0.0;
      state := Running;
    }

    /** The physics part of one animation frame. */
    method Step()
      requires Valid()
      modifies this
      ensures Valid() && View() == Update(old(View()))
    {
      if state == Running {
        vy := vy + GRAV;
        if vy > MAX_FALL {
          vy := MAX_FALL;
        }
        birdY := birdY + vy;
        if birdY < 0.0 {
          birdY := 0.0;
          GameOver();
        }
        if birdY > BOARD_HEIGHT - BIRD_HEIGHT {
          birdY := BOARD_HEIGHT - BIRD_HEIGHT;
          GameOver();
        }
      }
    }

    /** The key and pointer handlers. */
    method HandleInput(i: Input)
      requires Valid()
      modifies this
      ensures Valid() && View() == Apply(old(View()), i)
    {
      match i
      case KeyDown(code) =>
        if code == "Space" {
          if state == Running {
            Flap();
          } else {
            Reset();
          }
        }
        if code == "KeyR" {
          Reset();
        }
      case PointerDown =>
        if state == Running {
          Flap();
        } else {
          Reset();
        }
    }

    /** The frame loop, n frames long, with no input in between. */
    method Animate(n: nat)
      requires Valid()
      modifies this
      ensures Valid() && View() == Iterate(old(View()), n)
    {
      var k := 0;
      while k < n
        invariant k <= n
        invariant Valid() && View() == Iterate(old(View()), k)
      {
        IterateLast(old(View()), k);
        Step();
        k := k + 1;
      }
    }

    /** A whole game as the browser drives it: frames and inputs, one at a time, in order. */
    method Play(es: seq<Event>)
      requires Valid()
      modifies this
      ensures Valid() && View() == Run(old(View()), es)
    {
      for k := 0 to |es|
        invariant Valid() && View() == Run(old(View()), es[..k])
      {
        RunAppend(old(View()), es[..k], [es[k]]);
        assert es[..k] + [es[k]] == es[..k + 1];
        match es[k]
        case Frame => Step();
        case Press(i) => HandleInput(i);
      }
      assert es[..|es|] == es;
    }
  }
}
