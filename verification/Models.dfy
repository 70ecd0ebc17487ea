/** The names and enumerations every part of the runtime shares. */
module Models {

  /** Names are compared and used as keys; nothing here looks inside them. */
  type ModelId(!new, ==)
  type Version(!new, ==)

  /** A model version's qualified id, "model:version". */
  type QualifiedId(!new, ==)

  datatype LoadState =
    | Discovered
    | Validating
    | Loading
    | Ready
    | Invalid
    | Failed
    | Error
    | Unloading
    | Unloaded
    | Disabled

  datatype HealthStatus = Healthy | Degraded | Unhealthy | Unknown
}
