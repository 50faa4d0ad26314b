/** Small value types shared by the hook and the store. */
module Wrappers {

  /** The conventional optional value. */
  datatype Option<+T> = None | Some(value: T)

  /** How a JavaScript promise settles: it resolves, or it rejects (throws at the `await`). */
  datatype Settlement = Fulfilled | Rejected
}
