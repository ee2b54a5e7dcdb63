/** Errors as the connection actor sees them. Only the sentinels that
    errors.Is looks for matter, so an error value is the set of sentinels it
    wraps: nil is the empty set, errors.Join is union, errors.Is is membership. */
module Faults {
  datatype Sentinel =
    | StaleGeneration
    | SharedInfrastructure
    | ProviderAuthorization
    | PermanentConfig
    | PermanentProtocol
    | ProviderUnavailable
    | JoinTimeout
    | Canceled
    | Unclassified

  type Fault = set<Sentinel>

  const NIL: Fault := {}

  /** terminalProviderError. */
  predicate Terminal(fault: Fault) {
    || StaleGeneration in fault || SharedInfrastructure in fault || ProviderAuthorization in fault
    || PermanentConfig in fault || PermanentProtocol in fault
  }
}
