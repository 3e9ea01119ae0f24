/** The channel to the card: a log of the messages it has accepted. What the
    environment decides is counted, so that callers can tell why they failed. */
module Channel {
  class Chan<M> {
    var log: seq<M>
    // Failed writes and other failed requests to the device.
    ghost var failures: nat
    // Tests that found the context broken.
    ghost var refusals: nat

    constructor ()
      ensures log == []
    {
      log, failures, refusals := [], 0, 0;
    }

    /** A write may fail, and then nothing is sent. */
    method Write(m: M) returns (ok: bool)
      modifies this
      ensures log == old(log) + if ok then [m] else []
      ensures failures == old(failures) + (if ok then 0 else 1) && refusals == old(refusals)
    {
      ok := *;
      if ok {
        log := log + [m];
      } else {
        failures := failures + 1;
      }
    }

    /** A request to the device that sends nothing to the card. */
    method Request() returns (ok: bool)
      modifies this`failures
      ensures failures == old(failures) + if ok then 0 else 1
    {
      ok := *;
      if !ok {
        failures := failures + 1;
      }
    }

    /** Whether the context is fit for use. */
    method Fit() returns (ok: bool)
      modifies this`refusals
      ensures refusals == old(refusals) + if ok then 0 else 1
    {
      ok := *;
      if !ok {
        refusals := refusals + 1;
      }
    }
  }
}
