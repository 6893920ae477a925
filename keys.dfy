/** The `KeyboardEvent.key` values the components react to. */
module Keys {

  /** Commits a draft or adds the typed to-do. */
  const EnterKey: string := "Enter"

  /** Discards the search draft. */
  const EscapeKey: string := "Escape"
}
