/** The closed families of delegation signing keys. */
module Signing {
  import opened Wrappers

  const GATEWAY_SIGNING_INTENT := "gateway.probe-signing-key"

  /** `delegation_signing_intent_for`: the one intent of an admitted purpose. */
  function IntentFor(purpose: string): Option<string>
  {
    if purpose == "gateway-probe" then Some(GATEWAY_SIGNING_INTENT)
    else if purpose == "gateway-node-control-transit" then Some("gateway.node-control-transit-signing-key")
    else if purpose == "workload-node-control" then Some("workload.node-control-signing-key")
    else if purpose == "workload-node-control-surface-read" then Some(GATEWAY_SIGNING_INTENT)
    else if purpose == "gateway-node-health-read-transit" then Some("gateway.node-health-read-transit-signing-key")
    else if purpose == "workload-node-health-read" then Some("workload.node-health-read-signing-key")
    else None
  }
}
