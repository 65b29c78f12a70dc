/** Presence or absence of an optional field (a JavaScript `undefined`). */
module Options {
  datatype Option<+T> = None | Some(value: T)
}
