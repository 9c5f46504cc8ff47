/** Keyboard input: the keys the game listens to and the map of keys currently held. */
module Input {

  datatype Option<T> = None | Some(value: T)

  /** The logical keys of the game; SHOOT is bound to the letter 'A'. */
  datatype Key = Left | Right | Down | Up | Space | Shoot

  /** The browser key code bound to each logical key. */
  function KeyCode(k: Key): int {
    match k
    case Left => 37
    case Right => 39
    case Down => 40
    case Up => 38
    case Space => 32
    case Shoot => 65
  }

  /** The logical key a raw key code stands for; `None` for a code the game does not use. */
  function KeyOf(code: int): (r: Option<Key>)
    ensures r.Some? ==> KeyCode(r.value) == code
    ensures r.None? <==> forall k :: KeyCode(k) != code
  {
    if code == 37 then Some(Left)
    else if code == 39 then Some(Right)
    else if code == 40 then Some(Down)
    else if code == 38 then Some(Up)
    else if code == 32 then Some(Space)
    else if code == 65 then Some(Shoot)
    else None
  }

  /** Keys pressed so far: a key maps to true while held, false once released. */
  type KeyMap = map<Key, bool>

  /** A key that was never pressed is absent from the map and reads as not held. */
  predicate Held(keys: KeyMap, k: Key) {
    k in keys && keys[k]
  }
}
