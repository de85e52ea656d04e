/** Optional values and the three ways an asynchronous step of an adapter can end. */
module Wrappers {

  datatype Option<+T> = None | Some(value: T)

  /**
   * How a promise chain ends: resolved with a value, rejected with a reason,
   * or never settled. The last case arises where a request fails inside a
   * hand-written `new Promise` wrapper that has no rejection handler: the
   * wrapper's own promise then neither resolves nor rejects.
   */
  datatype Outcome<+T> = Done(value: T) | Failed(reason: string) | Stalled
}
