/** `Result` and `Option`, with the refusals that the risk crate distinguishes. */
module Outcomes {

  datatype Option<+T> = None | Some(value: T)

  datatype Result<+T> = Ok(value: T) | Err(fault: Fault)

  datatype Fault =
    | Storage
    | BrokerDisconnected
    | IncompleteSnapshot
    | PredatesInvalidation
    | InconsistentAccount
    | StaleQuote
    | MissingDayBoundary
    | CursorRegressed
    | DayMovedBackwards
    | DayReferenceChanged
    | UnresolvedRequest
    | InvalidExposure
    | RuleFailed
    | RiskBlocked
    | WrongAccount
    | AuthorizationMissing
    | ReservationMismatch
    | OrderTermsChanged
    | RiskIncreased
    | AlreadySubmitted
    | MissingIdentity
    | ConflictingExecution
    | LateExecution
    | LiveMembers
    | IncompleteSetup
    | SetupNotClosed
    | ConflictingOutcome
    | InvalidEnrollment
    | InvalidRiskPolicy
    | PolicyChanged
}
