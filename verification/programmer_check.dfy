/**
 * The programmer-role check: whether the signed-in user holds the
 * "programmer" role, as decided from the role RPC's answer.
 */
module ProgrammerCheck {
  import opened Wrappers

  /** A JSON value as the RPC may return it. */
  datatype Json =
    | JNull
    | JBool(b: bool)
    | JNumber(n: int)
    | JString(s: string)
    | JArray(items: seq<Json>)
    | JObject(fields: seq<(string, Json)>)

  /** JavaScript truthiness of a JSON value. */
  predicate Truthy(v: Json) {
    match v
    case JNull => false
    case JBool(b) => b
    case JNumber(n) => n != 0
    case JString(s) => s != ""
    case _ => true
  }

  /** The RPC's answer: an error, or data. */
  datatype RpcAnswer = RpcError | RpcData(data: Json)

  /** The role query the hook sends. */
  datatype RoleQuery = RoleQuery(userId: string, role: string)

  datatype CheckState = CheckState(isProgrammer: bool, loading: bool)

  const InitialState := CheckState(false, true)

  /**
   * `checkProgrammerRole` for the current user: the query it sends (none
   * without a user) and the state after the answer.
   */
  function CheckRole(user: Option<string>, answer: RpcAnswer): (r: (Option<RoleQuery>, CheckState))
    ensures !r.1.loading
    ensures user.None? ==> r.0.None? && !r.1.isProgrammer
    ensures user.Some? ==> r.0 == Some(RoleQuery(user.value, "programmer"))
    ensures r.1.isProgrammer <==> user.Some? && answer == RpcData(JBool(true))
  {
    match user
    case None => (None, CheckState(false, false))
    case Some(id) =>
      var isProgrammer := match answer
        case RpcError => false
        case RpcData(d) => d == JBool(true);
      (Some(RoleQuery(id, "programmer")), CheckState(isProgrammer, false))
  }

  /** Examples of the role rule: the truthy answers 1 and "true", not being the boolean `true`, do not grant the role. */
  lemma TruthyIsNotEnough(id: string)
    ensures Truthy(JNumber(1)) && !CheckRole(Some(id), RpcData(JNumber(1))).1.isProgrammer
    ensures Truthy(JString("true")) && !CheckRole(Some(id), RpcData(JString("true"))).1.isProgrammer
  {
  }

  /** An RPC error never grants the role. */
  lemma ErrorDenies(user: Option<string>)
    ensures !CheckRole(user, RpcError).1.isProgrammer
  {
  }
}
