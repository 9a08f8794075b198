/**
 Keyboard input: which key codes the game reacts to, and the four movement
 intents (forward, backward, left, right) that a key press sets and a key
 release clears. The arrow keys and W, S, A, D are two names for the same
 intents; Space is the jump key.
 */
module Input {

  /** What a key code means to the game. */
  datatype Control = Forward | Backward | Left | Right | JumpKey | Unbound

  /** The four movement intents, each set while its key is held. */
  datatype Intent = Intent(forward: bool, backward: bool, left: bool, right: bool)

  const Idle := Intent(false, false, false, false)

  /** The control a key code is bound to. */
  function ControlOf(code: string): Control {
    if code == "ArrowUp" || code == "KeyW" then Forward
    else if code == "ArrowDown" || code == "KeyS" then Backward
    else if code == "ArrowLeft" || code == "KeyA" then Left
    else if code == "ArrowRight" || code == "KeyD" then Right
    else if code == "Space" then JumpKey
    else Unbound
  }

  /**
   The key bindings: each control is reached from exactly its two key codes
   (one code for the jump key), and every other code is unbound.
   */
  lemma Bindings(code: string)
    ensures ControlOf(code) == Forward <==> code == "ArrowUp" || code == "KeyW"
    ensures ControlOf(code) == Backward <==> code == "ArrowDown" || code == "KeyS"
    ensures ControlOf(code) == Left <==> code == "ArrowLeft" || code == "KeyA"
    ensures ControlOf(code) == Right <==> code == "ArrowRight" || code == "KeyD"
    ensures ControlOf(code) == JumpKey <==> code == "Space"
  {
  }

  /** Whether the intent of a movement control is set; the jump key and unbound codes carry no intent. */
  function IsHeld(i: Intent, c: Control): bool {
    match c
    case Forward => i.forward
    case Backward => i.backward
    case Left => i.left
    case Right => i.right
    case JumpKey => false
    case Unbound => false
  }

  /** Sets the intent of a movement control to `v`; other controls change nothing. */
  function SetIntent(i: Intent, c: Control, v: bool): Intent {
    match c
    case Forward => i.(forward := v)
    case Backward => i.(backward := v)
    case Left => i.(left := v)
    case Right => i.(right := v)
    case JumpKey => i
    case Unbound => i
  }

  /** The intents after a key press. */
  function Pressed(i: Intent, c: Control): Intent {
    SetIntent(i, c, true)
  }

  /** The intents after a key release. */
  function Released(i: Intent, c: Control): Intent {
    SetIntent(i, c, false)
  }

  /** A movement control is one that carries an intent. */
  predicate IsMovement(c: Control) {
    c != JumpKey && c != Unbound
  }

  /**
   A press sets exactly the intent of its own control and a release clears
   exactly that one; every other intent keeps its value, and the jump key and
   unbound keys change no intent at all.
   */
  lemma PressAndReleaseTouchOneIntent(i: Intent, c: Control, d: Control)
    ensures IsMovement(c) ==> IsHeld(Pressed(i, c), c) && !IsHeld(Released(i, c), c)
    ensures d != c ==> IsHeld(Pressed(i, c), d) == IsHeld(i, d) && IsHeld(Released(i, c), d) == IsHeld(i, d)
    ensures !IsMovement(c) ==> Pressed(i, c) == i && Released(i, c) == i
  {
  }

  /**
   Pressing and then releasing a key leaves the intents as a release alone
   would; in particular a key that was not held before is back to not held,
   and nothing else has changed.
   */
  lemma ReleaseUndoesPress(i: Intent, c: Control)
    ensures Released(Pressed(i, c), c) == Released(i, c)
    ensures !IsHeld(i, c) ==> Released(Pressed(i, c), c) == i
  {
  }
}
