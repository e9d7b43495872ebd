/** The client's authentication state and its two transitions. */
module Auth {
  import opened Base
  import opened Domain
  import opened Guards
  import Server

  /** The body of a successful login answer. */
  datatype LoginReply = LoginReply(success: bool, userType: Option<Role>)

  /** What `api.login` yields for a pair of credentials: the server's body for
      a 2xx answer, or the error `handleResponse` throws for the 401. */
  function LoginAnswer(user: string, pass: string): (r: Result<LoginReply, string>)
    ensures r.Ok? <==> Server.Login(user, pass).Some?
    ensures r.Ok? ==> r.value == LoginReply(true, Server.Login(user, pass))
  {
    match Server.Login(user, pass)
    case Some(role) => Ok(LoginReply(true, Some(role)))
    case None => Err("HTTP error! status: 401")
  }

  class AuthState {
    var isAuthenticated: bool
    var userType: Option<Role>
    var isLoading: bool

    constructor()
      ensures !isAuthenticated && userType.None? && !isLoading
    {
      isAuthenticated := false;
      userType := None;
      isLoading := false;
    }

    /** `login`: a successful answer authenticates with the server's role and
        yields true; an unsuccessful one yields false; a thrown error is passed
        on. The state changes only on success, and loading ends false. */
    method Login(answer: Result<LoginReply, string>) returns (outcome: Result<bool, string>)
      modifies this
      ensures !isLoading
      ensures answer.Err? ==> outcome == Err(answer.error)
      ensures answer.Ok? && answer.value.success ==>
                outcome == Ok(true) && isAuthenticated && userType == answer.value.userType
      ensures answer.Ok? && !answer.value.success ==> outcome == Ok(false)
      ensures !(answer.Ok? && answer.value.success) ==>
                isAuthenticated == old(isAuthenticated) && userType == old(userType)
    {
      isLoading := true;
      match answer {
        case Err(e) =>
          outcome := Err(e);
        case Ok(reply) =>
          if reply.success {
            isAuthenticated := true;
            userType := reply.userType;
            outcome := Ok(true);
          } else {
            outcome := Ok(false);
          }
      }
      isLoading := false;
    }

    /** `logout`: whatever the state, the user is signed out. */
    method Logout()
      modifies this
      ensures !isAuthenticated && userType.None? && isLoading == old(isLoading)
    {
      isAuthenticated := false;
      userType := None;
    }
  }

  /** Signing in from the signed-out state against the server: only the two
      pairs of the credential table open the admin pages, and only the second
      opens the super-admin page. */
  method SignIn(auth: AuthState, user: string, pass: string) returns (outcome: Result<bool, string>)
    requires !auth.isAuthenticated && auth.userType.None?
    modifies auth
    ensures outcome == Ok(true) <==> Server.Login(user, pass).Some?
    ensures AdminRoute(auth.isAuthenticated, auth.userType).Children?
            <==> (user == "admin" && pass == "password") || (user == "superadmin" && pass == "superpassword")
    ensures SuperAdminRoute(auth.isAuthenticated, auth.userType).Children?
            <==> user == "superadmin" && pass == "superpassword"
  {
    outcome := auth.Login(LoginAnswer(user, pass));
  }

  /** Signing out twice leaves the same state as signing out once. */
  method LogoutTwice(auth: AuthState)
    modifies auth
    ensures !auth.isAuthenticated && auth.userType.None? && auth.isLoading == old(auth.isLoading)
  {
    auth.Logout();
    auth.Logout();
  }
}
