/**
 * The login form: the payload and endpoint chosen by role, the session it
 * stores on success, and the dashboard it redirects to.
 */
module Login {
  import opened JsValues

  datatype LoginPayload =
    | StudentLogin(enrollmentNumber: string, password: string)
    | MentorLogin(mentorId: string, password: string)

  /** `{ enrollment_number, password }` for a student, `{ mentor_id, password }` for anyone else. */
  function LoginPayloadFor(userType: string, loginId: string, password: string): (p: LoginPayload)
    ensures p.StudentLogin? <==> userType == "student"
    ensures p.password == password
    ensures p.StudentLogin? ==> p.enrollmentNumber == loginId
    ensures p.MentorLogin? ==> p.mentorId == loginId
  {
    if userType == "student" then StudentLogin(loginId, password) else MentorLogin(loginId, password)
  }

  /** The endpoint under the API base. */
  function LoginPath(userType: string): (path: string)
    ensures path == "/login/student" <==> userType == "student"
    ensures path == "/login/mentor" <==> userType != "student"
  {
    if userType == "student" then "/login/student" else "/login/mentor"
  }

  /** Where a successful login goes. */
  function RedirectTarget(userType: string): (path: string)
    ensures path == "/student-dashboard" <==> userType == "student"
    ensures path == "/mentor-dashboard" <==> userType != "student"
  {
    if userType == "student" then "/student-dashboard" else "/mentor-dashboard"
  }

  /** The body of a login reply. */
  datatype LoginBody = LoginBody(token: Option<string>, error: Option<string>)

  /** `localStorage.setItem("token", data.token)`: storage keeps strings, so a missing token is stored as "undefined". */
  function StoredToken(token: Option<string>): (stored: string)
    ensures token.Some? ==> stored == token.value
    ensures token.None? ==> stored == "undefined"
    ensures token.None? || token.value != "" ==> stored != ""
  {
    if token.Some? then token.value else "undefined"
  }

  /** The storage after a successful login. */
  function SessionAfterLogin(storage: map<string, string>, token: Option<string>, userType: string): (s: map<string, string>)
    ensures s.Keys == storage.Keys + {"token", "role"}
    ensures s["token"] == StoredToken(token) && s["role"] == userType
    ensures forall k :: k in storage && k != "token" && k != "role" ==> s[k] == storage[k]
  {
    storage["token" := StoredToken(token)]["role" := userType]
  }

  class LoginForm {
    var userType: string
    var loginId: string
    var password: string
    var storage: map<string, string>
    var location: Option<string>
    var toasts: seq<Toast>

    constructor (storage: map<string, string>)
      ensures userType == "student" && loginId == "" && password == ""
      ensures this.storage == storage && location.None? && toasts == []
    {
      userType := "student";
      loginId := "";
      password := "";
      this.storage := storage;
      location := None;
      toasts := [];
    }

    /** The role buttons and the two inputs. */
    method SetUserType(t: string)
      modifies this`userType
      ensures userType == t
    {
      userType := t;
    }

    method SetCredentials(id: string, pw: string)
      modifies this`loginId, this`password
      ensures loginId == id && password == pw
    {
      loginId := id;
      password := pw;
    }

    /**
     * `handleLogin`, given the reply. The request goes to the role's
     * endpoint with the role's payload. A 2xx reply stores the token and
     * the role and moves to the role's dashboard; anything else leaves
     * storage and location alone.
     */
    method HandleLogin(reply: Reply<LoginBody>) returns (path: string, payload: LoginPayload)
      modifies this`storage, this`location, this`toasts
      ensures path == LoginPath(userType) && payload == LoginPayloadFor(userType, loginId, password)
      ensures reply.Response? && IsOk(reply.status) ==>
        && storage == SessionAfterLogin(old(storage), reply.body.token, userType)
        && location == Some(RedirectTarget(userType))
        && toasts == old(toasts) + [SuccessToast("Welcome, " + userType + "!")]
      ensures !(reply.Response? && IsOk(reply.status)) ==>
        && storage == old(storage) && location == old(location)
        && toasts == old(toasts) + [ErrorToast(
             if reply.Thrown? then "Network error. Please try again." else OrElse(reply.body.error, "Login failed"))]
    {
      path := LoginPath(userType);
      payload := LoginPayloadFor(userType, loginId, password);
      if reply.Thrown? {
        toasts := toasts + [ErrorToast("Network error. Please try again.")];
      } else if IsOk(reply.status) {
        toasts := toasts + [SuccessToast("Welcome, " + userType + "!")];
        storage := storage["token" := StoredToken(reply.body.token)];
        storage := storage["role" := userType];
        location := Some(RedirectTarget(userType));
      } else {
        toasts := toasts + [ErrorToast(OrElse(reply.body.error, "Login failed"))];
      }
    }
  }
}
