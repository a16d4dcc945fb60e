/**
 * middleware/isJudge.js: the gate in front of every judge route. It lets a request
 * through only for the three category judge roles, none of which the User schema's
 * role enum contains.
 */
module RoleGate {
  import opened Common
  import opened Models
  import opened Store

  /** The roles the gate accepts. */
  const JudgeRoles: seq<string> := ["literal_judge", "visual_judge", "vocal_judge"]

  /**
   * The gate on `req.user`, of which only the role matters; None is a request without
   * a user. Ok stands for `next()`.
   */
  function IsJudge(user: Option<string>): (s: Status)
    ensures s == Ok <==> user.Some? && user.value in JudgeRoles
    ensures s == Ok || s == Forbidden
  {
    if user.Some? && (user.value == "literal_judge" || user.value == "visual_judge" || user.value == "vocal_judge")
    then Ok
    else Forbidden
  }

  /** The schema's roles, including the 'judge' that assignJudge sets, are all refused. */
  lemma SchemaRolesRefused(role: string)
    requires role in UserRoles
    ensures IsJudge(Some(role)) == Forbidden
  {
  }

  /**
   * No user the store can hold passes the gate: every stored role comes from the
   * schema's enum. So no account can reach the judge routes.
   */
  lemma NoStoredUserIsJudge(t: Tables)
    requires Consistent(t)
    ensures forall i :: 0 <= i < |t.users| ==> IsJudge(Some(t.users[i].role)) == Forbidden
  {
    forall i | 0 <= i < |t.users| ensures IsJudge(Some(t.users[i].role)) == Forbidden {
      SchemaRolesRefused(t.users[i].role);
    }
  }
}
