/** Values the extension receives from the editor host and passes through
    without looking inside them. */
module Host {

  /** An optional value; `None` plays the part of TypeScript's `undefined`. */
  datatype Option<T> = None | Some(value: T)

  /** The carried value of `o`, or `fallback` when there is none. */
  function ValueOr<T>(o: Option<T>, fallback: T): T {
    if o.Some? then o.value else fallback
  }

  /** A document identity. Its structure is irrelevant to the model: only
      equality of two identities is ever used. */
  datatype Uri = Uri(fsPath: string)
}
