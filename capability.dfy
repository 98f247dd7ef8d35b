/**
 * What the capability composer of src/tray.rs resolves a protocol method to. The functions a
 * caller supplies (the arguments of `tray()` and the handlers given to `with_<capability>`)
 * are opaque: each is known only by a `HandlerId`.
 */
module Capability {
  /** Identifies one caller-supplied function or value. */
  type HandlerId = nat

  /**
   * Who answers a method call:
   * - `Handler(h, wrapsOk)`: the handler `h` given to a `with_<capability>` wrapper;
   *   `wrapsOk` says that the wrapper returns `Ok(h(..))` rather than `h`'s own result;
   * - `BaseArg(h)`: the argument `h` given to `tray()`;
   * - `TraitDefault(of)`: the interface trait's default body of method `of`.
   */
  datatype Source<M> = Handler(h: HandlerId, wrapsOk: bool) | BaseArg(arg: HandlerId) | TraitDefault(of: M)
}
