// The facts of one measured flow.
module Throughput {
  import opened Common

  datatype FlowThroughput = FlowThroughput(
    port: int, mbps: real, minRtt: Option<real>, meanRtt: Option<real>, retransmits: Option<int>)

  // The round-trip times of a session log come as a pair or not at all.
  function WithRtt(port: int, mbps: real, rtt: Option<(real, real)>, retransmits: Option<int>): FlowThroughput {
    match rtt
    case Some((minimum, mean)) => FlowThroughput(port, mbps, Some(minimum), Some(mean), retransmits)
    case None => FlowThroughput(port, mbps, None, None, retransmits)
  }
}
