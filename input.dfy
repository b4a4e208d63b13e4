/** The decisions taken by the keyboard and pointer handlers. */
module Controls {
  import opened Physics

  /** A browser event the game listens to: a key press with its key code, or a pointer press. */
  datatype Input = KeyDown(code: string) | PointerDown

  /** What a handler does with the game. */
  datatype Action = DoFlap | DoReset | Ignore

  /** Space and a pointer press are the same "flap or restart" command. */
  predicate IsFlapOrRestart(i: Input) {
    i == PointerDown || i == KeyDown("Space")
  }

  /** The handlers' decision: Space and a pointer press flap a running game and restart
      one that is over; R restarts in either state; every other key is ignored. */
  function Dispatch(state: GameState, i: Input): (a: Action)
    ensures a == DoFlap <==> state == Running && IsFlapOrRestart(i)
    ensures a == DoReset <==> i == KeyDown("KeyR") || (state == GameOver && IsFlapOrRestart(i))
    ensures a == Ignore <==> !IsFlapOrRestart(i) && i != KeyDown("KeyR")
  {
    match i
    case PointerDown => if state.Running? then DoFlap else DoReset
    case KeyDown(code) =>
      if code == "Space" then (if state.Running? then DoFlap else DoReset)
      else if code == "KeyR" then DoReset
      else Ignore
  }

  /** The effect of one input on the game. */
  function Apply(s: Snapshot, i: Input): (r: Snapshot)
    ensures s.state == Running && IsFlapOrRestart(i) ==> r == Flap(s) && r.state == Running
    ensures s.state == GameOver && IsFlapOrRestart(i) ==> r == Initial()
    ensures i == KeyDown("KeyR") ==> r == Initial()
    ensures !IsFlapOrRestart(i) && i != KeyDown("KeyR") ==> r == s
    ensures r.state == GameOver ==> r == s
    ensures Inv(s) ==> Inv(r)
  {
    match Dispatch(s.state, i)
    case DoFlap => Flap(s)
    case DoReset => Initial()
    case Ignore => s
  }

  /** R twice is R once. */
  lemma ResetIdempotent(s: Snapshot)
    ensures Apply(Apply(s, KeyDown("KeyR")), KeyDown("KeyR")) == Apply(s, KeyDown("KeyR"))
  {
  }
}
