/** A provider's overall health, as the monitor computes it and the fallback chain reads it. */
module HealthStatus {

  datatype Status = Healthy | Degraded | Down
}
