/** The 13 states of a host/role association and the transitions between them. */
module RoleStates {

  datatype RoleState =
    | NotApplied
    | StartApply
    | PreAuth
    | AuthConverging
    | AuthConverged
    | AuthError
    | Applied
    | StartEdit
    | StartDeauth
    | PreDeauth
    | DeauthConverging
    | DeauthConverged
    | DeauthError

  function ValidNext(s: RoleState): set<RoleState> {
    match s
    case NotApplied => {StartApply}
    case StartApply => {NotApplied, PreAuth}
    case PreAuth => {AuthConverging}
    case AuthConverging => {AuthConverged, AuthError}
    case AuthConverged => {Applied, AuthError}
    case AuthError => {StartApply, StartDeauth}
    case Applied => {StartEdit, StartDeauth}
    case StartEdit => {PreAuth, Applied}
    case StartDeauth => {PreDeauth, Applied}
    case PreDeauth => {DeauthConverging}
    case DeauthConverging => {DeauthConverged, DeauthError}
    case DeauthConverged => {DeauthError, NotApplied}
    case DeauthError => {StartDeauth}
  }

  predicate LegalTransition(from: RoleState, to: RoleState) {
    to in ValidNext(from)
  }

  /** The states from which the poller alone makes no further progress: terminal, failed, or
      waiting for a report from the host. */
  predicate Settled(s: RoleState) {
    s in {NotApplied, Applied, AuthConverging, DeauthConverging, AuthError, DeauthError}
  }
}
