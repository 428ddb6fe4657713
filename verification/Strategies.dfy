/** The tiers a host can be scanned by. */
module Strategies {

  datatype TargetStrategy = Execute | Probe | LocalOnly
}
