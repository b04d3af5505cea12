/**
 * RoleGuard: role-based access control.  The role a route requires is the
 * `role` metadata of its handler, or failing that of its controller class.
 */
module RoleGuard {
  import opened Exceptions
  import opened Entities

  /** What reading `user.role` off a request without a user throws. */
  const MissingUserMessage := "Cannot read properties of undefined (reading 'role')"

  /** reflector.getAllAndOverride(ROLE_KEY, [handler, class]): the first target that defines the key wins. */
  function RequiredRole(handlerRole: Option<UserRole>, classRole: Option<UserRole>): (required: Option<UserRole>)
    ensures handlerRole.Some? ==> required == handlerRole
    ensures handlerRole.None? ==> required == classRole
  {
    if handlerRole.Some? then handlerRole else classRole
  }

  /**
   * canActivate: with no role required every request passes, the unauthenticated
   * one included; otherwise the request's user must hold exactly the required role.
   */
  function CanActivate(handlerRole: Option<UserRole>, classRole: Option<UserRole>, user: Option<User>): (r: Result<bool>)
    ensures RequiredRole(handlerRole, classRole).None? ==> r == Ok(true)
    ensures RequiredRole(handlerRole, classRole).Some? && user.None? ==> r == Err(TypeError(MissingUserMessage))
    ensures RequiredRole(handlerRole, classRole).Some? && user.Some? ==>
              r == Ok(user.value.role == RequiredRole(handlerRole, classRole).value)
  {
    var requiredRole := if handlerRole.Some? then handlerRole else classRole;
    if requiredRole.None? then Ok(true)
    else match user
      case None => Err(TypeError(MissingUserMessage))
      case Some(u) => Ok(u.role == requiredRole.value)
  }

  /**
   * A route is granted exactly to the users holding the role its handler asks
   * for, whatever role its class asks for; when only the class asks, exactly to
   * those holding the class's role.
   */
  lemma HandlerRoleOverridesClassRole(handlerRole: Option<UserRole>, classRole: Option<UserRole>, u: User)
    ensures handlerRole.Some? ==> (CanActivate(handlerRole, classRole, Some(u)) == Ok(true) <==> u.role == handlerRole.value)
    ensures handlerRole.None? && classRole.Some? ==> (CanActivate(handlerRole, classRole, Some(u)) == Ok(true) <==> u.role == classRole.value)
  {
  }

  /** Holding a role grants no route that requires the other: an ADMIN-only route refuses USER and vice versa. */
  lemma RolesAreNotHierarchical(handlerRole: Option<UserRole>, classRole: Option<UserRole>, u: User)
    requires RequiredRole(handlerRole, classRole).Some?
    requires u.role != RequiredRole(handlerRole, classRole).value
    ensures CanActivate(handlerRole, classRole, Some(u)) == Ok(false)
  {
  }
}
