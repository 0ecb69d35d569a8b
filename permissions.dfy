/** Who may do what: the owner-or-read-only object rule, and how the posts and comments
    handlers combine it with "authenticated or read-only". */
module Permissions {
  import opened Common

  /** The request methods that only read. */
  const SafeMethods: set<string> := {"GET", "HEAD", "OPTIONS"}

  predicate IsSafe(httpMethod: string) {
    httpMethod in SafeMethods
  }

  /** `IsOwnerOrReadOnly.has_object_permission`: a safe method is allowed on any object;
      any other method only when the acting user is the object's author. */
  predicate IsOwnerOrReadOnly(httpMethod: string, author: UserId, principal: Principal) {
    if IsSafe(httpMethod) then true else principal == User(author)
  }

  /** `IsAuthenticatedOrReadOnly.has_permission`: a safe method is allowed to anyone,
      any other method only to an authenticated user. */
  predicate IsAuthenticatedOrReadOnly(httpMethod: string, principal: Principal) {
    IsSafe(httpMethod) || principal.User?
  }

  datatype Decision = Allow | DenyNotAuthenticated | DenyPermission

  /** The permission list of the posts and comments handlers applied to an object written by
      `author`: the view-level check first (its failure means "not authenticated"), then the
      object-level check (its failure means "not the owner"). */
  function ObjectAccess(httpMethod: string, principal: Principal, author: UserId): (d: Decision)
    ensures d == Allow <==> IsSafe(httpMethod) || principal == User(author)
    ensures d == DenyNotAuthenticated <==> !IsSafe(httpMethod) && principal.Anonymous?
    ensures d == DenyPermission <==> !IsSafe(httpMethod) && principal.User? && principal.id != author
  {
    if !IsAuthenticatedOrReadOnly(httpMethod, principal) then DenyNotAuthenticated
    else if !IsOwnerOrReadOnly(httpMethod, author, principal) then DenyPermission
    else Allow
  }

  /** A safe method is allowed whoever asks and whoever wrote the object. */
  lemma SafeMethodAlwaysAllowed(httpMethod: string, author: UserId, principal: Principal)
    requires httpMethod in {"GET", "HEAD", "OPTIONS"}
    ensures IsOwnerOrReadOnly(httpMethod, author, principal)
  {
  }

  /** Any other method is allowed exactly when the acting user is the author. */
  lemma UnsafeMethodNeedsOwnership(httpMethod: string, author: UserId, principal: Principal)
    requires !IsSafe(httpMethod)
    ensures IsOwnerOrReadOnly(httpMethod, author, principal) <==> principal.User? && principal.id == author
  {
  }

  /** The author is allowed every method, safe or not. */
  lemma AuthorAlwaysAllowed(httpMethod: string, author: UserId)
    ensures IsOwnerOrReadOnly(httpMethod, author, User(author))
  {
  }

  /** The anonymous user is refused every method that is not safe, whatever the object. */
  lemma AnonymousRefusedUnsafe(httpMethod: string, author: UserId)
    requires !IsSafe(httpMethod)
    ensures !IsOwnerOrReadOnly(httpMethod, author, Anonymous)
    ensures !IsAuthenticatedOrReadOnly(httpMethod, Anonymous)
  {
  }
}
