/**
 * IsCreatorGuard: lets a request through only when the authenticated user is
 * the owner named by the route's `id` parameter, and marks the request so.
 */
module IsCreatorGuard {
  import opened Exceptions
  import opened Entities

  const NotCreatorMessage := "Content not found or access unauthorized."

  /**
   * The parts of an HTTP request the guard touches: the user the access-token
   * strategy attached (None when it attached none), the route parameter `id`
   * after numeric coercion (None when `+params.id` is NaN or not an integer),
   * and the `isCreator` flag the guard sets.
   */
  class Request {
    const user: Option<User>
    const ownerId: Option<int>
    var isCreator: Option<bool>

    constructor (user: Option<User>, ownerId: Option<int>)
      ensures this.user == user && this.ownerId == ownerId && isCreator.None?
    {
      this.user := user;
      this.ownerId := ownerId;
      isCreator := None;
    }
  }

  /** `user && user.userId === +params.id`, truthy exactly when a user is attached and its id is the owner id. */
  predicate IsCreator(user: Option<User>, ownerId: Option<int>) {
    user.Some? && ownerId.Some? && user.value.userId == ownerId.value
  }

  /** Without an authenticated user, or with an id that is not a number, the guard never lets the request through. */
  lemma AnonymousOrMalformedRefused(user: Option<User>, ownerId: Option<int>)
    requires user.None? || ownerId.None?
    ensures !IsCreator(user, ownerId)
  {
  }

  /**
   * canActivate: true with the request flagged as the creator's, or a
   * NotFoundException (hiding whether the content exists) with the request
   * left as it was.
   */
  method CanActivate(request: Request) returns (r: Result<bool>)
    modifies request
    ensures IsCreator(request.user, request.ownerId) ==> r == Ok(true) && request.isCreator == Some(true)
    ensures !IsCreator(request.user, request.ownerId) ==>
              r == Err(NotFound(NotCreatorMessage)) && request.isCreator == old(request.isCreator)
  {
    var user := request.user;
    var contentOwnerId := request.ownerId;
    var isCreator := user.Some? && contentOwnerId.Some? && user.value.userId == contentOwnerId.value;
    if !isCreator {
      return Err(NotFound(NotCreatorMessage));
    }
    request.isCreator := Some(isCreator);
    return Ok(true);
  }
}
