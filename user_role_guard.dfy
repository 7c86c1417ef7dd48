/**
 * `UserRoleGuard.canActivate` of the project-management API: the roles the
 * handler's metadata allows, if any, against the role of the request's user.
 */
module UserRoleGuard {
  import opened Wrappers
  import opened HttpErrors

  /** The authenticated user, as far as the guard reads it. */
  datatype User = User(role: string)

  /** `roles.includes(role)`, scanning from the front. */
  function Includes(roles: seq<string>, role: string): (b: bool)
    ensures b <==> role in roles
  {
    if roles == [] then false
    else roles[0] == role || Includes(roles[1..], role)
  }

  /**
   * The guard's decision. With no role metadata the request passes without
   * looking at the user; with metadata, a missing user is a bad request with
   * the `notFoundUser` message, and a present user passes exactly when the
   * list holds the user's role. An empty list is metadata too, and admits nobody.
   */
  function CanActivate(validRole: Option<seq<string>>, user: Option<User>): (r: Result<bool, HttpException>)
    ensures validRole.None? ==> r == Success(true)
    ensures validRole.Some? && user.None? ==> r == Failure(BadRequest(Text(NotFoundUser.description)))
    ensures validRole.Some? && user.Some? ==> r.Success? && (r.value <==> user.value.role in validRole.value)
    ensures validRole == Some([]) && user.Some? ==> r == Success(false)
  {
    if validRole.None? then Success(true)
    else if user.None? then Failure(BadRequest(Text(NotFoundUser.description)))
    else Success(Includes(validRole.value, user.value.role))
  }

  /** Allowing more roles never turns an admitted user away. */
  lemma MoreRolesAdmitMore(roles: seq<string>, more: seq<string>, user: User)
    requires forall r :: r in roles ==> r in more
    requires CanActivate(Some(roles), Some(user)) == Success(true)
    ensures CanActivate(Some(more), Some(user)) == Success(true)
  {
  }

  /** Without metadata the user is never inspected: the decision is the same for every user, or none. */
  lemma NoMetadataIgnoresUser(u1: Option<User>, u2: Option<User>)
    ensures CanActivate(None, u1) == CanActivate(None, u2) == Success(true)
  {
  }
}
