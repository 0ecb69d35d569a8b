/** Identifiers, request inputs, the acting principal and the result kinds shared by the whole model. */
module Common {

  type UserId = nat
  type GroupId = nat
  type PostId = nat
  type CommentId = nat
  type FollowId = nat

  /** A clock reading taken when a row is created; the model never inspects its value. */
  type Timestamp = nat

  datatype Option<+T> = None | Some(value: T)

  /** One field of a request body: left out, sent as null, or sent with a value. */
  datatype Input<+T> = Absent | Null | Given(value: T)

  /** `request.user`: the anonymous user, or the authenticated user with this id. */
  datatype Principal = Anonymous | User(id: UserId)

  /** What a handler answers. The error kinds are the ones the HTTP layer renders as
      401 (not authenticated), 403 (authenticated but not the owner), 404 and 400. */
  datatype Outcome<+T> =
    | Ok(value: T)
    | NotAuthenticated
    | PermissionDenied
    | NotFound
    | ValidationError(msg: string)
}
