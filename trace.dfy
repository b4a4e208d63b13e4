/** Whole games: any interleaving of animation frames and inputs, starting from any state. */
module Trace {
  import opened Physics
  import opened Controls

  /** What reaches the game between two states: an animation frame or an input. */
  datatype Event = Frame | Press(input: Input)

  /** An input that takes a game that is over back to running. */
  predicate Restarts(e: Event) {
    e.Press? && Dispatch(GameOver, e.input) == DoReset
  }

  /** One event. Only a frame can end a running game, and only when the bird would leave
      the board; only a restarting input can leave a game that is over, and it leaves it
      for the initial state. */
  function Next(s: Snapshot, e: Event): (r: Snapshot)
    ensures s.state == Running && r.state == GameOver ==> e == Frame && OutOfBounds(Unclamped(s))
    ensures s.state == GameOver && !Restarts(e) ==> r == s
    ensures s.state == GameOver && Restarts(e) ==> r == Initial()
    ensures Inv(s) ==> Inv(r)
  {
    match e
    case Frame => Update(s)
    case Press(i) => Apply(s, i)
  }

  /** The state after the events es, in order. Inputs alone never end a running game. */
  function Run(s: Snapshot, es: seq<Event>): (r: Snapshot)
    ensures s.state == Running && r.state == GameOver ==> Frame in es
    decreases |es|
  {
    if es == [] then s
    else
      var r := Run(Next(s, es[0]), es[1..]);
      assert Frame in es[1..] ==> Frame in es;
      r
  }

  function Frames(n: nat): (es: seq<Event>)
    ensures |es| == n && forall k :: 0 <= k < n ==> es[k] == Frame
  {
    seq(n, _ => Frame)
  }

  /** From a valid state, every sequence of frames, flaps and resets keeps the bird on the
      board and its velocity between JUMP and MAX_FALL. */
  lemma {:induction false} RunInv(s: Snapshot, es: seq<Event>)
    requires Inv(s)
    ensures Inv(Run(s, es))
    decreases |es|
  {
    if es != [] {
      RunInv(Next(s, es[0]), es[1..]);
    }
  }

  /** Running two event sequences one after the other is running their concatenation. */
  lemma {:induction false} RunAppend(s: Snapshot, a: seq<Event>, b: seq<Event>)
    ensures Run(s, a + b) == Run(Run(s, a), b)
    decreases |a|
  {
    if a != [] {
      assert (a + b)[0] == a[0];
      assert (a + b)[1..] == a[1..] + b;
      RunAppend(Next(s, a[0]), a[1..], b);
    } else {
      assert a + b == b;
    }
  }

  /** A game that is over stays frozen, position and velocity included, until an input
      restarts it. */
  lemma {:induction false} StaysOver(s: Snapshot, es: seq<Event>)
    requires s.state == GameOver
    requires forall k :: 0 <= k < |es| ==> !Restarts(es[k])
    ensures Run(s, es) == s
    decreases |es|
  {
    if es != [] {
      assert !Restarts(es[0]);
      StaysOver(Next(s, es[0]), es[1..]);
    }
  }

  /** A running game ends only on a frame that would carry the bird off the board. */
  lemma {:induction false} EndsOnlyByClamp(s: Snapshot, es: seq<Event>)
    requires s.state == Running && Run(s, es).state == GameOver
    ensures exists k :: 0 <= k < |es| && es[k] == Frame && Run(s, es[..k]).state == Running
                        && OutOfBounds(Unclamped(Run(s, es[..k])))
    decreases |es|
  {
    var u := Next(s, es[0]);
    if u.state == GameOver {
      assert es[..0] == [];
      assert es[0] == Frame && Run(s, es[..0]) == s;
    } else {
      EndsOnlyByClamp(u, es[1..]);
      var j :| 0 <= j < |es[1..]| && es[1..][j] == Frame && Run(u, es[1..][..j]).state == Running
               && OutOfBounds(Unclamped(Run(u, es[1..][..j])));
      assert es[..j + 1][0] == es[0] && es[..j + 1][1..] == es[1..][..j];
      assert Run(s, es[..j + 1]) == Run(u, es[1..][..j]);
      assert es[j + 1] == Frame;
    }
  }

  /** Frames alone are the frame loop. */
  lemma {:induction false} RunFrames(s: Snapshot, n: nat)
    ensures Run(s, Frames(n)) == Iterate(s, n)
    decreases n
  {
    if n > 0 {
      assert Frames(n)[1..] == Frames(n - 1);
      RunFrames(Update(s), n - 1);
    }
  }

  /** A running game that receives no input is over within 1385 frames. */
  lemma NobodyHovers(s: Snapshot)
    requires Inv(s) && s.state == Running
    ensures Run(s, Frames(1385)).state == GameOver
  {
    RunFrames(s, 1385);
    NoInputEndsGame(s);
  }
}
