/**
 * Sign-in: the form rules, the trimmed request, the check of the server's answer, the
 * routing by role, the session keys written or removed, and the choice of error message.
 */
module LoginScreen {
  import opened Wrappers
  import opened JsValue
  import JsText
  import opened Http
  import opened Session
  import opened FormRules

  /** The form's rules; the request is sent only when no message is shown. */
  function ValidateLogin(username: Input, password: Input): (errors: seq<string>)
    ensures errors == [] <==> Filled(username) && Filled(password)
  {
    var es := [RequiredError(username, "Username wajib diisi"), RequiredError(password, "Password wajib diisi")];
    assert es[0].None? <==> Filled(username);
    assert es[1].None? <==> Filled(password);
    Messages(es)
  }

  datatype LoginRequest = LoginRequest(username: string, password: string)

  /** Both fields are sent trimmed. */
  function MakeRequest(username: string, password: string): (r: LoginRequest)
    ensures r.username == JsText.Trim(username) && r.password == JsText.Trim(password)
    ensures JsText.NoOuterSpace(r.username)
    ensures r.password == "" <==> JsText.AllSpace(password)
  {
    var u, p := JsText.Trim(username), JsText.Trim(password);
    LoginRequest(u, p)
  }

  /** `response.data && response.data.token && response.data.role` */
  predicate ValidLoginResponse(data: Value): (b: bool)
    ensures b <==> data.Obj? && Truthy(Field(data, "token")) && Truthy(Field(data, "role"))
  {
    Truthy(data) && Truthy(OptProp(data, "token")) && Truthy(OptProp(data, "role"))
  }

  datatype Route = ToAdminHome | ToHome

  const AdminRoles := [SuperAdmin, AdminInventori, AdminResep, AdminUser]

  /** `adminRoles.includes(role)`: the four administrator roles go to the dashboard, everyone else home. */
  function RouteFor(role: Value): (r: Route)
    ensures r == ToAdminHome <==> role == Str(SuperAdmin) || role == Str(AdminInventori)
                                  || role == Str(AdminResep) || role == Str(AdminUser)
  {
    if role.Str? && role.s in AdminRoles then ToAdminHome else ToHome
  }

  const TimeoutMessage := "Koneksi timeout. Pastikan server berjalan."
  const NetworkMessage := "Tidak dapat terhubung ke server. Pastikan server berjalan dan alamat benar."
  const DefaultLoginError := "Username atau password salah."
  const InvalidResponse := "Invalid response format: missing token or role"

  /**
   * The error message, first match wins: a timeout, an unreachable server, the server's own
   * `error` field, the error's message, and only then the default.
   */
  function LoginErrorMessage(f: Failure): (m: Message)
    ensures f.code == Some("ECONNABORTED") ==> m == Text(TimeoutMessage)
    ensures f.code == Some("ERR_NETWORK") ==> m == Text(NetworkMessage)
    ensures f.code != Some("ECONNABORTED") && f.code != Some("ERR_NETWORK") ==>
      && (Truthy(ServerError(f)) ==> m == FromServer(ServerError(f)))
      && (!Truthy(ServerError(f)) && f.message != "" ==> m == Text(f.message))
      && (!Truthy(ServerError(f)) && f.message == "" ==> m == Text(DefaultLoginError))
  {
    if f.code == Some("ECONNABORTED") then Text(TimeoutMessage)
    else if f.code == Some("ERR_NETWORK") then Text(NetworkMessage)
    else if Truthy(ServerError(f)) then FromServer(ServerError(f))
    else if f.message != "" then Text(f.message)
    else Text(DefaultLoginError)
  }

  /** The keys `multiRemove` clears on every failure. */
  const SessionKeys := {"userToken", "userRole", "username"}

  datatype Login =
    | LoggedIn(token: Value, role: Value, username: string, route: Route)
    | LoginFailed(message: Message)

  /**
   * `onSubmit` after the request: success needs a token and a role in the answer; an answer
   * without them is thrown as an error and reported through the same message chain.
   */
  function SubmitLogin(username: string, reply: Reply): (r: Login)
    ensures r.LoggedIn? <==> reply.Answered? && ValidLoginResponse(reply.response.data)
    ensures r.LoggedIn? ==>
      && r.token == OptProp(reply.response.data, "token")
      && r.role == OptProp(reply.response.data, "role")
      && r.username == JsText.Trim(username)
      && r.route == RouteFor(r.role)
    ensures reply.Answered? && !ValidLoginResponse(reply.response.data) ==> r == LoginFailed(Text(InvalidResponse))
    ensures reply.Failed? ==> r == LoginFailed(LoginErrorMessage(reply.failure))
  {
    match reply
    case Failed(f) => LoginFailed(LoginErrorMessage(f))
    case Answered(response) =>
      if ValidLoginResponse(response.data) then
        var role := OptProp(response.data, "role");
        LoggedIn(OptProp(response.data, "token"), role, JsText.Trim(username), RouteFor(role))
      else LoginFailed(LoginErrorMessage(TypeError(InvalidResponse)))
  }

  /** The device's key-value session store. */
  class Store {
    var items: map<string, Value>

    constructor (items: map<string, Value>)
      ensures this.items == items
    {
      this.items := items;
    }

    /**
     * `onSubmit` from the trimmed request on: on success the token, role and username are
     * stored; on any failure the three session keys are removed.
     */
    method OnSubmit(username: string, reply: Reply) returns (r: Login)
      modifies this
      ensures r == SubmitLogin(username, reply)
      ensures r.LoggedIn? ==>
                items == old(items)["userToken" := r.token]["userRole" := r.role]["username" := Str(r.username)]
      ensures r.LoginFailed? ==> items == old(items) - SessionKeys
    {
      r := SubmitLogin(username, reply);
      if r.LoggedIn? {
        items := items["userToken" := r.token]["userRole" := r.role]["username" := Str(r.username)];
      } else {
        items := items - SessionKeys;
      }
    }

    /** After a failed sign-in no session key is left. */
    method FailureLeavesNoSession(username: string, reply: Reply)
      requires !(reply.Answered? && ValidLoginResponse(reply.response.data))
      modifies this
      ensures forall k :: k in SessionKeys ==> k !in items
    {
      var r := OnSubmit(username, reply);
    }
  }
}
