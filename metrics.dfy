/** The Prometheus counters the core increments (internal/metrics/metrics.go),
    as plain natural numbers updated in place. */
module Metrics {

  class AppMetrics {
    var channelFullEvents: nat
    var fileSendCount: nat
    var fileSendErrors: nat
    var fileSendSuccess: nat

    constructor ()
      ensures channelFullEvents == 0 && fileSendCount == 0
      ensures fileSendErrors == 0 && fileSendSuccess == 0
    {
      channelFullEvents, fileSendCount := 0, 0;
      fileSendErrors, fileSendSuccess := 0, 0;
    }
  }
}
