# Yatube API: access control and relationship integrity

This project is a Dafny model of the decision logic of the Yatube blog API, a Django REST
Framework service. In the API, users write posts (optionally in a group), comment on posts and
follow each other. The model covers four things:

- **who may write what** (`Permissions`): the owner-or-read-only object rule, and how the posts
  and comments handlers put it after "authenticated or read-only". An anonymous writer gets
  *not authenticated*. An authenticated user who is not the author gets *permission denied*.
- **request validation** (`Serializers`):
  - a post needs its text and may name a group;
  - a comment needs its text;
  - a follow names an existing user by username, is not a self-follow and is not a duplicate.
  - Read-only fields in the body are ignored: a post's or comment's `author`, `pub_date`,
    `created` and a comment's `post`, and a follow's `user`.
- **the tables and their constraints** (`Models`): Group, Post, Comment and Follow rows; the
  database's check and unique constraints; foreign keys that always resolve; and what deleting a
  group (SET_NULL), a post or a user (CASCADE) does to the other tables.
- **the handlers** (`Views.Store`): a class holding the tables (a `Models.Tables` value of maps,
  in the field `db`) and the next id of each table. Handlers that write are methods. Each keeps the
  constraints and says exactly what the tables become. Handlers that only read are functions. Every
  API handler that can fail answers with a typed outcome: `Ok`, `NotAuthenticated`,
  `PermissionDenied`, `NotFound` or `ValidationError(msg)`. The group and post lists cannot fail
  and return the rows themselves.

`Store.RegisterUser` and `Store.CreateGroup` stand for the auth user table and the admin site.
Both lie outside the API. They exist so that a store can be populated while keeping its
invariants (unique usernames, unique group slugs). `Store.DeleteGroup` and `Store.DeleteUser` are
not endpoints either and return nothing: they stand for the database's `on_delete` rules, applied
when a group or a user is deleted outside the API.

Files: `common.dfy` (ids, inputs, principal, outcomes), `models.dfy`, `permissions.dfy`,
`serializers.dfy`, `views.dfy`, and `scenarios.dfy`. The last holds client methods that drive a
store through the behaviours the API promises, and lets the verifier check them against the
handlers' contracts.

Two behaviours of the code worth noting:

- Creating a comment under a post that does not exist. The framework validates the body before
  `perform_create` looks the post up (yatube_api/api/views.py:58-65). So an invalid body under a
  missing post is a validation error, and a valid one is not-found; in both cases nothing is stored.
- `FollowViewSet` names no permission classes, so it uses the project-wide default; the settings
  module is not part of this model. The model takes that default to require authentication:
  `get_queryset` dereferences `request.user.follower`, which only an authenticated user has.

## Model

| member | source | states |
|---|---|---|
| `Permissions.SafeMethodAlwaysAllowed` | yatube_api/api/permissions.py:12-13 | GET, HEAD and OPTIONS are allowed on any object, whoever asks |
| `Permissions.UnsafeMethodNeedsOwnership` | yatube_api/api/permissions.py:14 | any other method is allowed exactly when the acting user is the object's author |
| `Permissions.AuthorAlwaysAllowed` | yatube_api/api/permissions.py:10-14 | the author is allowed every method, safe or not |
| `Permissions.AnonymousRefusedUnsafe` | yatube_api/api/permissions.py:14 | the anonymous user fails both the object rule and "authenticated or read-only" for every unsafe method |
| `Permissions.ObjectAccess` | yatube_api/api/views.py:28-31 | the handlers' permission list on an object: allowed iff the method is safe or the user is the author; not-authenticated iff unsafe and anonymous; permission-denied iff unsafe and another user |
| `Serializers.ValidateText` | yatube_api/posts/models.py:24 | a text field succeeds iff it is sent, non-blank and free of null characters, or left out of a partial update; a value it returns is the one sent; a non-blank text with a null character fails with the null-character message |
| `Serializers.ValidateComment` | yatube_api/api/serializers.py:28-41 | a comment body is valid iff its text is (only `text` is writable); an accepted created comment always has text, and the text returned is the one sent |
| `Serializers.ValidatePost` | yatube_api/api/serializers.py:13-25 | a post body is valid iff its text is valid and any group it names exists; a created post always has text; an absent group stays unchanged, null clears it |
| `Serializers.NewPost` | yatube_api/api/views.py:34-36 | a saved post's author is the acting user and its `pub_date` the creation time |
| `Serializers.UpdatedComment` | yatube_api/api/serializers.py:31-41 | saving a comment change replaces its text only when text was sent, and never its author, post or `created` |
| `Serializers.UpdatedPost` | yatube_api/api/serializers.py:16-24 | an update replaces only the fields sent and never the author or `pub_date` |
| `Serializers.PostReadOnlyFieldsIgnored` | yatube_api/api/serializers.py:16-19 | `author` and `pub_date` in a post body do not affect validation |
| `Serializers.CommentReadOnlyFieldsIgnored` | yatube_api/api/serializers.py:31-41 | `author`, `post` and `created` in a comment body do not affect validation |
| `Serializers.ResolveUsername` | yatube_api/api/serializers.py:62-65 | a username resolves to the user that has it, and fails only when nobody has it |
| `Serializers.ValidateFollowing` | yatube_api/api/serializers.py:80-86 | fails with the self-follow message iff the user to follow is the acting user, else returns it unchanged |
| `Serializers.ValidateFollow` | yatube_api/api/serializers.py:54-86 | an accepted Follow has the acting user as follower, names the user the payload names, and is admissible to the store; for an existing user it is accepted iff admissible |
| `Serializers.SelfFollowRejected` | yatube_api/api/serializers.py:80-85 | following oneself fails with 'Нельзя подписаться на самого себя' |
| `Serializers.DuplicateFollowRejected` | yatube_api/api/serializers.py:72-78 | following an already followed user fails with 'Нельзя подписаться еще раз на пользователя' |
| `Serializers.AdmissibleFollowAccepted` | yatube_api/api/serializers.py:54-86 | following another existing user not yet followed is accepted, with the acting user as follower |
| `Serializers.UnknownUsernameRejected` | yatube_api/api/serializers.py:62-65 | a username nobody has fails with the does-not-exist message |
| `Serializers.FollowUserFieldIgnored` | yatube_api/api/serializers.py:57-61 | a `user` sent in a follow body never changes the outcome |
| `Models.DeleteGroupRows` | yatube_api/posts/models.py:28-33 | deleting a group removes no post; afterwards no post names the group, and each post differs at most in a cleared group |
| `Models.DeletePostRows` | yatube_api/posts/models.py:47-48 | deleting a post deletes exactly the comments on it and leaves the rest unchanged |
| `Models.DeleteUserRows` | yatube_api/posts/models.py:26-70 | deleting a user deletes exactly their posts, their comments and the comments on their posts, and every Follow with them on either side |
| `Models.DeleteGroupKeepsConsistent` | yatube_api/posts/models.py:28-33 | clearing a deleted group keeps every constraint and foreign key intact |
| `Models.DeletePostKeepsConsistent` | yatube_api/posts/models.py:47-48 | the post cascade leaves no comment pointing at a missing post |
| `Models.DeleteUserKeepsConsistent` | yatube_api/posts/models.py:63-70 | after the user cascade no row refers to the user and all constraints still hold |
| `Models.DeleteUserKeepsReferences` | yatube_api/posts/models.py:26-70 | after the user cascade every remaining post, comment and Follow still names existing rows |
| `Models.ReplaceCommentKeepsConsistent` | yatube_api/posts/models.py:45-48 | a comment changed without changing its author or post keeps every constraint |
| `Models.InsertFollowKeepsConsistent` | yatube_api/posts/models.py:75-84 | a Follow that is not a self-follow and not a duplicate, between existing users, keeps the constraints |
| `Models.StoredPairHasOneRow` | yatube_api/posts/models.py:80-83 | under the unique constraint a stored (following, user) pair is held by exactly one row |
| `Models.FollowRowsNameDistinctUsers` | yatube_api/posts/models.py:80-83 | a user's Follow rows are as many as the distinct users they follow |
| `Views.Store.CreateGroup` | yatube_api/posts/models.py:13 | a group is added iff its slug is absent or unused; no two groups share a slug |
| `Views.Store.ListGroups` | yatube_api/api/views.py:68-75 | anyone may list the groups; the list holds exactly the groups that can be retrieved, each as retrieved |
| `Views.Store.RetrieveGroup` | yatube_api/api/views.py:68-75 | anyone may read a group; a missing one is not-found |
| `Views.Store.ListPosts` | yatube_api/api/views.py:23-26 | anyone may list the posts; the list holds exactly the posts that can be retrieved, each as retrieved |
| `Views.Store.RetrievePost` | yatube_api/api/views.py:23-26 | anyone may read a post; a missing one is not-found |
| `Views.Store.CreatePost` | yatube_api/api/views.py:34-36 | anonymous is refused; an invalid body changes nothing; otherwise exactly one post is added, authored by the acting user and stamped now |
| `Views.Store.UpdatePost` | yatube_api/api/views.py:28-31 | not-authenticated, then not-found, then permission-denied for a non-author, then validation; only the author's valid update changes the post, and never its author or `pub_date` |
| `Views.Store.DeletePost` | yatube_api/api/views.py:28-31 | same checks as an update; the author's delete removes the post and exactly its comments |
| `Views.Store.ListComments` | yatube_api/api/views.py:49-56 | not-found iff the post is missing; otherwise exactly the comments on that post |
| `Views.Store.RetrieveComment` | yatube_api/api/views.py:49-56 | a comment is found only under the post it belongs to |
| `Views.Store.CreateComment` | yatube_api/api/views.py:58-65 | anonymous is refused, then the body is validated, then a missing post is not-found; the new comment's author is the acting user and its post the path's post |
| `Views.Store.UpdateComment` | yatube_api/api/views.py:44-47 | only the author may change a comment's text; its author, post and `created` never change |
| `Views.Store.DeleteComment` | yatube_api/api/views.py:44-47 | only the author may delete a comment, and only that comment goes |
| `Views.Store.ListFollows` | yatube_api/api/views.py:90-92 | anonymous is refused; otherwise exactly the Follow rows whose follower is the acting user |
| `Views.Store.CreateFollow` | yatube_api/api/views.py:86-88 | anonymous is refused; a rejected body changes nothing; otherwise exactly one Follow is added, with the acting user as follower |
| `Views.Store.DeleteGroup` | yatube_api/posts/models.py:28-33 | the store becomes the set-null result of deleting the group, and stays valid |
| `Views.Store.DeleteUser` | yatube_api/posts/models.py:26-70 | the store becomes the cascade result of deleting the user, and stays valid |

## Left out

- Images: the `image` field, base64 data-URI decoding and file storage. Their behaviour lives in the framework and the storage backend.
- Limit/offset pagination of the post list, and the search filter on `following__username` (yatube_api/api/views.py:83-84). Both are framework behaviour. `ListFollows` returns the unfiltered set.
- URL routing and the JWT token endpoints (yatube_api/api/urls.py). How a request becomes a principal is outside the model; `Known` only says an authenticated principal is an existing user.
- The mixin composition of `FollowViewSet` (yatube_api/api/viewsets.py). It is reflected only in the follow handlers that exist: list and create.
- Migrations. The final model declarations are modelled instead.
- Clock values. `pub_date` and `created` are a `Timestamp` passed in by the caller.
- Transactions, concurrent duplicate follows, and mapping database integrity errors to responses. The model is sequential, and the constraints hold after every method.
- HTTP status codes, JSON rendering, HEAD and OPTIONS responses, and bodies that are not objects.
- The `__str__` methods appear as `ToString` members. Each returns the title or the text and has no contract.
- `Serializers.ValidatePost`: reports only the first failing field (text before group), where the framework collects an error for every field.
- `Serializers.ValidateText`: does not trim surrounding whitespace, which the framework's text field does before its blank check. Its check against lone surrogate characters has no counterpart: a Dafny `char` is a Unicode scalar value, so such text cannot be written as a `string`.
