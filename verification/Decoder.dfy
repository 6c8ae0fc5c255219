/** The shapes every RabbitMQ reply is reduced to, whatever its transfer format. */
module Decoder {
  type Metrics = map<string, real>

  // The metric map that the parsers receive by reference and update in place.
  class MetricMap {
    var entries: Metrics

    constructor ()
      ensures entries == map[]
    {
      entries := map[];
    }
  }

  // One named RabbitMQ object: its label values and its flat metrics.
  datatype StatsInfo = StatsInfo(labels: map<string, string>, metrics: Metrics)

  // A string result with Go's "found" flag.
  datatype Found = Found(text: string, ok: bool)

  const NOT_FOUND := Found("", false)
}
