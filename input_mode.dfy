/** The two input modes of the IME (crates/client/src/engine/input_mode.rs). */
module InputModes {

  datatype InputMode = Latin | Kana

  /** `#[default]` is Latin. */
  const DefaultMode: InputMode := Latin

  /** The other mode: what a toggle key or a language-bar click switches to. */
  function Toggled(m: InputMode): (r: InputMode)
    ensures r != m
  {
    match m
    case Latin => Kana
    case Kana => Latin
  }

  lemma ToggledTwice(m: InputMode)
    ensures Toggled(Toggled(m)) == m
  {
  }
}
