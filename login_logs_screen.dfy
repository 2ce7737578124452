/**
 * The login-log screen: who may open it, the envelope the log list arrives in, and the
 * normalisation of each log entry to strings with "" for missing fields.
 */
module LoginLogsScreen {
  import opened Wrappers
  import opened JsValue
  import JsArray
  import opened Http
  import opened Session

  /**
   * A normalised log. `id` is None where the code falls back to `Math.random()`; every other
   * field is the server's value when truthy and "" otherwise.
   */
  datatype LoginLog = LoginLog(id: Option<Value>, username: Value, email: Value, role: Value, loginTime: Value, ipAddress: Value)

  /** `log.key || ''` */
  function OrEmpty(log: Value, key: string): (r: Value)
    ensures Truthy(OptProp(log, key)) ==> r == OptProp(log, key)
    ensures !Truthy(OptProp(log, key)) ==> r == Str("")
  {
    Or(OptProp(log, key), Str(""))
  }

  /** A field as normalisation leaves it: a truthy value or "". */
  predicate Normal(v: Value) {
    Truthy(v) || v == Str("")
  }

  /** One step of the `map`: a TypeError (None) on a `null` or `undefined` entry. */
  function NormaliseLog(log: Value): (r: Option<LoginLog>)
    ensures r.None? <==> log == Null || log == Undefined
    ensures r.Some? ==>
      && (r.value.id.Some? <==> Truthy(OptProp(log, "id")))
      && (r.value.id.Some? ==> r.value.id.value == OptProp(log, "id"))
      && r.value.username == OrEmpty(log, "username")
      && r.value.email == OrEmpty(log, "email")
      && r.value.role == OrEmpty(log, "role")
      && r.value.loginTime == OrEmpty(log, "login_time")
      && r.value.ipAddress == OrEmpty(log, "ip_address")
  {
    if log == Null || log == Undefined then None
    else
      var id := if Truthy(OptProp(log, "id")) then Some(OptProp(log, "id")) else None;
      Some(LoginLog(id, OrEmpty(log, "username"), OrEmpty(log, "email"), OrEmpty(log, "role"),
                    OrEmpty(log, "login_time"), OrEmpty(log, "ip_address")))
  }

  /** Every string field of a log is normal, whatever the server sent. */
  lemma NormalisedFieldsAreNormal(log: Value)
    requires NormaliseLog(log).Some?
    ensures var l := NormaliseLog(log).value;
      Normal(l.username) && Normal(l.email) && Normal(l.role) && Normal(l.loginTime) && Normal(l.ipAddress)
  {
  }

  /** A log written back as an object with its fields under the server's names (a missing id left out). */
  function LogValue(l: LoginLog): Value {
    var fields := map["username" := l.username, "email" := l.email, "role" := l.role,
                      "login_time" := l.loginTime, "ip_address" := l.ipAddress];
    Obj(if l.id.Some? then fields["id" := l.id.value] else fields)
  }

  /** Normalisation is a projection: a log that is already normal comes back unchanged. */
  lemma NormaliseIsProjection(l: LoginLog)
    requires l.id.Some? ==> Truthy(l.id.value)
    requires Normal(l.username) && Normal(l.email) && Normal(l.role) && Normal(l.loginTime) && Normal(l.ipAddress)
    ensures NormaliseLog(LogValue(l)) == Some(l)
  {
  }

  const LoadError := "Gagal mengambil data log login"

  /** The outcome of `fetchLogs` once a request was sent. */
  datatype Fetch =
    | Logs(logs: seq<LoginLog>)
    | Forbidden           // "Akses Ditolak" and back, on a 403
    | FetchFailed(message: Message)

  /** The catch block: a 403 is reported as forbidden, anything else with the server's message or the default. */
  function Caught(f: Failure): (r: Fetch)
    ensures r == Forbidden <==> IsForbidden(f)
    ensures !IsForbidden(f) ==> r == FetchFailed(ServerErrorOr(f, LoadError))
  {
    if IsForbidden(f) then Forbidden else FetchFailed(ServerErrorOr(f, LoadError))
  }

  /** The payload array, else `.logs`, else `.data`; anything that is not an array means no logs. */
  function FetchLogs(reply: Reply): (r: Fetch)
    ensures reply.Failed? ==> r == Caught(reply.failure)
    ensures reply.Answered? && !Unwrap(reply.response.data, "logs").Arr? ==> r == Logs([])
    ensures reply.Answered? && Unwrap(reply.response.data, "logs").Arr? ==>
      var entries := Unwrap(reply.response.data, "logs").items;
      && (r.Logs? <==> JsArray.AllDefined(entries, NormaliseLog))
      && (r.Logs? ==> |r.logs| == |entries| && forall i :: 0 <= i < |entries| ==> NormaliseLog(entries[i]) == Some(r.logs[i]))
      && (r.FetchFailed? ==> r.message == Text(LoadError))
  {
    match reply
    case Failed(f) => Caught(f)
    case Answered(response) =>
      var payload := Unwrap(response.data, "logs");
      if !payload.Arr? then Logs([])
      else
        match JsArray.MapChecked(payload.items, NormaliseLog)
        case None => Caught(TypeError("Cannot read properties of null"))
        case Some(logs) => Logs(logs)
  }

  /** A 403 is reported as forbidden, never as the generic error. */
  lemma ForbiddenIsNotAnError(f: Failure)
    requires IsForbidden(f)
    ensures FetchLogs(Failed(f)) == Forbidden
  {
  }

  /** Every envelope shape yields one log per entry, when no entry is null. */
  lemma EnvelopesGiveEveryLog(xs: seq<Value>, status: int)
    requires forall i :: 0 <= i < |xs| ==> xs[i] != Null && xs[i] != Undefined
    ensures var r := FetchLogs(Answered(Response(status, Arr(xs)))); r.Logs? && |r.logs| == |xs|
    ensures var r := FetchLogs(Answered(Response(status, Wrap("logs", Arr(xs))))); r.Logs? && |r.logs| == |xs|
    ensures var r := FetchLogs(Answered(Response(status, Wrap("data", Arr(xs))))); r.Logs? && |r.logs| == |xs|
  {
    UnwrapEnvelopes(xs, "logs");
    assert JsArray.AllDefined(xs, NormaliseLog);
  }

  /** The screen's state: the list shown and the loading spinner. */
  class LogList {
    var logs: seq<LoginLog>
    var loading: bool

    constructor ()
      ensures logs == [] && loading
    {
      logs := [];
      loading := true;
    }

    /**
     * Opening the screen: the access check, then `fetchLogs` with its token guard. A denied
     * role sends nothing and leaves the spinner on; otherwise it stops whatever happens.
     */
    method Open(role: Option<string>, token: Option<string>, reply: Reply)
      returns (access: Access, start: Option<Start>, fetch: Option<Fetch>)
      modifies this
      ensures access == UserAdminAccess(role)
      ensures access == Denied ==> start.None? && fetch.None? && logs == old(logs) && loading == old(loading)
      ensures access == Granted ==> start == Some(TokenGuard(token)) && !loading
      ensures access == Granted && TokenGuard(token) == ToLogin ==> fetch.None? && logs == old(logs)
      ensures access == Granted && TokenGuard(token) == Proceed ==> fetch == Some(FetchLogs(reply))
      ensures access == Granted && TokenGuard(token) == Proceed && FetchLogs(reply).Logs? ==> logs == FetchLogs(reply).logs
      ensures access == Granted && TokenGuard(token) == Proceed && !FetchLogs(reply).Logs? ==> logs == old(logs)
    {
      access := UserAdminAccess(role);
      if access == Denied {
        return access, None, None;
      }
      var s := TokenGuard(token);
      start := Some(s);
      if s == Proceed {
        var f := FetchLogs(reply);
        fetch := Some(f);
        if f.Logs? {
          logs := f.logs;
        }
      } else {
        fetch := None;
      }
      loading := false;
    }
  }
}
