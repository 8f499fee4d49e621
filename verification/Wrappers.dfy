/** Results, options and the reasons the engine gives for refusing an input. */
module Wrappers {
  datatype Option<+T> = None | Some(value: T)

  datatype Result<+T> = Ok(value: T) | Err(why: Failure) {
    predicate IsFailure() { Err? }
    function PropagateFailure<U>(): Result<U> requires Err? { Err(why) }
    function Extract(): T requires Ok? { value }
  }

  /** Why an operation of the engine refuses its input. */
  datatype Failure =
    | BadPorts | NoPorts
    | BadAddress | BadAction | UnknownSpecial | UnknownService | UnknownPeer | UnknownGroup | UnknownPolicy
    | OverrideOnNonPeer | IPv6Member | MarkerMember | NameTooLong
    | EmptyIpInternet | IPv6Internet | IngressFromInternet | MarkerLeak
}
