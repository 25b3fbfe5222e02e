/**
 * The client-side authentication store: six fields and the seven actions
 * that set them before and after a call to the back end. The call itself is
 * an abstract outcome: either the HTTP client resolved with a response body,
 * or it threw (a non-2xx status or no response at all).
 */
module ClientAuth {
  import opened Wrappers
  import opened Text

  /** The user object the back end sends back, as far as the client reads it. */
  datatype ClientUser = ClientUser(name: Option<string>, role: Option<string>, isVerified: bool)

  datatype ApiOutcome =
    | Answered(success: bool, data: Option<ClientUser>, message: Option<string>)
    | Failed(serverMessage: Option<string>, transportMessage: Option<string>)

  /**
   * `error.response?.data.message || error.message || fallback`: the server's
   * message first, then the transport's, never empty with a non-empty fallback.
   */
  function FailureText(o: ApiOutcome, fallback: string): (r: string)
    requires o.Failed?
    ensures Truthy(o.serverMessage) ==> r == o.serverMessage.value
    ensures !Truthy(o.serverMessage) && Truthy(o.transportMessage) ==> r == o.transportMessage.value
    ensures !Truthy(o.serverMessage) && !Truthy(o.transportMessage) ==> r == fallback
    ensures fallback != "" ==> r != ""
  {
    FirstTruthy(o.serverMessage, o.transportMessage, fallback)
  }

  class AuthStore {
    var user: Option<ClientUser>
    var isAuthenticated: bool
    var error: Option<string>
    var isLoading: bool
    var isCheckingAuth: bool
    var message: Option<string>

    constructor ()
      ensures user.None? && !isAuthenticated && error.None? && !isLoading && !isCheckingAuth && message.None?
    {
      user, isAuthenticated, error, isLoading, isCheckingAuth, message := None, false, None, false, false, None;
    }

    /**
     * Starts loading and clears the error; a successful answer signs the user
     * in; an unsuccessful one changes nothing more (loading stays on); a
     * failure records the error and keeps the user as it was.
     */
    method Signup(outcome: ApiOutcome) returns (threw: bool)
      modifies this
      ensures threw <==> outcome.Failed?
      ensures isCheckingAuth == old(isCheckingAuth) && message == old(message)
      ensures outcome.Answered? && outcome.success ==>
                user == outcome.data && isAuthenticated && !isLoading && error.None?
      ensures outcome.Answered? && !outcome.success ==>
                user == old(user) && isAuthenticated == old(isAuthenticated) && isLoading && error.None?
      ensures outcome.Failed? ==>
                user == old(user) && isAuthenticated == old(isAuthenticated) && !isLoading &&
                error == Some(FailureText(outcome, "Error signing up"))
    {
      isLoading, error := true, None;
      match outcome
      case Answered(success, data, _) =>
        if success {
          user, isAuthenticated, isLoading := data, true, false;
        }
        threw := false;
      case Failed(_, _) =>
        error, isLoading := Some(FailureText(outcome, "Error signing up")), false;
        threw := true;
    }

    /** As signup, except that a failure also marks the store unauthenticated. */
    method Login(outcome: ApiOutcome) returns (threw: bool)
      modifies this
      ensures threw <==> outcome.Failed?
      ensures isCheckingAuth == old(isCheckingAuth) && message == old(message)
      ensures outcome.Answered? && outcome.success ==>
                user == outcome.data && isAuthenticated && !isLoading && error.None?
      ensures outcome.Answered? && !outcome.success ==>
                user == old(user) && isAuthenticated == old(isAuthenticated) && isLoading && error.None?
      ensures outcome.Failed? ==>
                user == old(user) && !isAuthenticated && !isLoading &&
                error == Some(FailureText(outcome, "Error logging in"))
    {
      isLoading, error := true, None;
      match outcome
      case Answered(success, data, _) =>
        if success {
          user, isAuthenticated, isLoading := data, true, false;
        }
        threw := false;
      case Failed(_, _) =>
        isAuthenticated, error, isLoading := false, Some(FailureText(outcome, "Error logging in")), false;
        threw := true;
    }

    /** A successful answer forgets the user; a failure keeps the session fields as they were. */
    method Logout(outcome: ApiOutcome) returns (threw: bool)
      modifies this
      ensures threw <==> outcome.Failed?
      ensures isCheckingAuth == old(isCheckingAuth) && message == old(message)
      ensures outcome.Answered? && outcome.success ==>
                user.None? && !isAuthenticated && !isLoading && error.None?
      ensures outcome.Answered? && !outcome.success ==>
                user == old(user) && isAuthenticated == old(isAuthenticated) && isLoading && error.None?
      ensures outcome.Failed? ==>
                user == old(user) && isAuthenticated == old(isAuthenticated) && !isLoading &&
                error == Some(FailureText(outcome, "Error logging out"))
    {
      isLoading, error := true, None;
      match outcome
      case Answered(success, _, _) =>
        if success {
          user, isAuthenticated, isLoading := None, false, false;
        }
        threw := false;
      case Failed(_, _) =>
        error, isLoading := Some(FailureText(outcome, "Error logging out")), false;
        threw := true;
    }

    /** Any answer, successful or not, signs the user in with whatever data came back. */
    method VerifyEmail(outcome: ApiOutcome) returns (threw: bool)
      modifies this
      ensures threw <==> outcome.Failed?
      ensures isCheckingAuth == old(isCheckingAuth) && message == old(message)
      ensures outcome.Answered? ==>
                user == outcome.data && isAuthenticated && !isLoading && error.None?
      ensures outcome.Failed? ==>
                user == old(user) && isAuthenticated == old(isAuthenticated) && !isLoading &&
                error == Some(FailureText(outcome, "Error verifying email"))
    {
      isLoading, error := true, None;
      match outcome
      case Answered(_, data, _) =>
        user, isAuthenticated, isLoading := data, true, false;
        threw := false;
      case Failed(_, _) =>
        error, isLoading := Some(FailureText(outcome, "Error verifying email")), false;
        threw := true;
    }

    /**
     * Asks for the current user without touching `isLoading` or `error`; a
     * failure signs the user out. `isCheckingAuth` is only ever set to false.
     */
    method CheckAuth(outcome: ApiOutcome)
      modifies this
      ensures isLoading == old(isLoading) && error == old(error) && message == old(message)
      ensures outcome.Answered? && outcome.success ==>
                user == outcome.data && isAuthenticated && !isCheckingAuth
      ensures outcome.Answered? && !outcome.success ==>
                user == old(user) && isAuthenticated == old(isAuthenticated) && isCheckingAuth == old(isCheckingAuth)
      ensures outcome.Failed? ==> user.None? && !isAuthenticated && !isCheckingAuth
    {
      match outcome
      case Answered(success, data, _) =>
        if success {
          user, isAuthenticated, isCheckingAuth := data, true, false;
        }
      case Failed(_, _) =>
        user, isAuthenticated, isCheckingAuth := None, false, false;
    }

    /** Any answer only records its message; the session fields are never touched. */
    method ForgotPassword(outcome: ApiOutcome) returns (threw: bool)
      modifies this
      ensures threw <==> outcome.Failed?
      ensures user == old(user) && isAuthenticated == old(isAuthenticated) && isCheckingAuth == old(isCheckingAuth)
      ensures outcome.Answered? ==> message == outcome.message && !isLoading && error.None?
      ensures outcome.Failed? ==>
                message == old(message) && !isLoading && error == Some(FailureText(outcome, "Error sending reset email"))
    {
      isLoading, error := true, None;
      match outcome
      case Answered(_, _, msg) =>
        message, isLoading := msg, false;
        threw := false;
      case Failed(_, _) =>
        error, isLoading := Some(FailureText(outcome, "Error sending reset email")), false;
        threw := true;
    }

    /** As forgotPassword, with its own default error text. */
    method ResetPassword(outcome: ApiOutcome) returns (threw: bool)
      modifies this
      ensures threw <==> outcome.Failed?
      ensures user == old(user) && isAuthenticated == old(isAuthenticated) && isCheckingAuth == old(isCheckingAuth)
      ensures outcome.Answered? ==> message == outcome.message && !isLoading && error.None?
      ensures outcome.Failed? ==>
                message == old(message) && !isLoading && error == Some(FailureText(outcome, "Error resetting password"))
    {
      isLoading, error := true, None;
      match outcome
      case Answered(_, _, msg) =>
        message, isLoading := msg, false;
        threw := false;
      case Failed(_, _) =>
        error, isLoading := Some(FailureText(outcome, "Error resetting password")), false;
        threw := true;
    }
  }
}
