/** Request-body validation: the post, comment and follow serializers. Read-only fields
    (`author`, `pub_date`, `created`, a comment's `post`, a follow's `user`) are carried in the
    payloads only so that the model can show they are ignored. */
module Serializers {
  import opened Common
  import opened Models

  const SelfFollowMessage := "Нельзя подписаться на самого себя"
  const DuplicateFollowMessage := "Нельзя подписаться еще раз на пользователя"
  const RequiredMessage := "This field is required."
  const NullMessage := "This field may not be null."
  const BlankMessage := "This field may not be blank."
  const NullCharacterMessage := "Null characters are not allowed."

  /** The error of a relation field given by username that names nobody. */
  function NoSuchUsernameMessage(name: string): string {
    "Object with username=" + name + " does not exist."
  }

  /** The error of a relation field given by primary key that names no row. */
  function NoSuchPkMessage(pk: nat): string {
    "Invalid pk \"" + NatToString(pk) + "\" - object does not exist."
  }

  function NatToString(n: nat): string
    decreases n
  {
    if n < 10 then ["0123456789"[n]] else NatToString(n / 10) + ["0123456789"[n % 10]]
  }

  datatype PostPayload = PostPayload(
    text: Input<string>, group: Input<GroupId>, author: Input<string>, pubDate: Input<Timestamp>)

  datatype CommentPayload = CommentPayload(
    text: Input<string>, author: Input<string>, post: Input<PostId>, created: Input<Timestamp>)

  datatype FollowPayload = FollowPayload(user: Input<string>, following: Input<string>)

  /** The validated fields of a post body; `None` means the field was not sent. */
  datatype PostChanges = PostChanges(text: Option<string>, group: Option<Option<GroupId>>)

  // ---------------------------------------------------------------- text fields

  /** A required, non-blank text field without null characters (the blank check comes first). In a
      partial update an absent field is simply not changed. */
  function ValidateText(text: Input<string>, partial: bool): (r: Outcome<Option<string>>)
    ensures r.Ok? || r.ValidationError?
    ensures r.Ok? && r.value.Some? ==> text == Given(r.value.value) && r.value.value != ""
    ensures r.Ok? && r.value.None? ==> text.Absent? && partial
    ensures r.Ok? <==> (text.Absent? && partial) || (text.Given? && text.value != "" && '\0' !in text.value)
    ensures text.Given? && text.value != "" && '\0' in text.value ==> r == ValidationError(NullCharacterMessage)
  {
    match text
    case Absent => if partial then Ok(None) else ValidationError(RequiredMessage)
    case Null => ValidationError(NullMessage)
    case Given(s) =>
      if s == "" then ValidationError(BlankMessage)
      else if '\0' in s then ValidationError(NullCharacterMessage)
      else Ok(Some(s))
  }

  // ---------------------------------------------------------------- posts

  /** `PostSerializer`: `text` is required, `group` is optional, may be null, and must name an
      existing group; `author` and `pub_date` are read-only. The first failing field is reported. */
  function ValidatePost(groups: map<GroupId, Group>, payload: PostPayload, partial: bool): (r: Outcome<PostChanges>)
    ensures r.Ok? || r.ValidationError?
    ensures r.Ok? ==> r.value.text.Some? || partial
    ensures r.Ok? && r.value.group == Some(None) ==> payload.group.Null?
    ensures r.Ok? && r.value.group.Some? && r.value.group.value.Some? ==>
      payload.group == Given(r.value.group.value.value) && r.value.group.value.value in groups
    ensures r.Ok? && r.value.group.None? ==> payload.group.Absent?
    ensures r.Ok? <==>
      ValidateText(payload.text, partial).Ok? && (payload.group.Given? ==> payload.group.value in groups)
  {
    match ValidateText(payload.text, partial)
    case Ok(text) =>
      (match payload.group
       case Absent => Ok(PostChanges(text, None))
       case Null => Ok(PostChanges(text, Some(None)))
       case Given(g) =>
         if g in groups then Ok(PostChanges(text, Some(Some(g))))
         else ValidationError(NoSuchPkMessage(g)))
    case ValidationError(msg) => ValidationError(msg)
    case _ => assert false; ValidationError(RequiredMessage)
  }

  /** Saving a new post: the author and the publication time come from the handler, never the body. */
  function NewPost(c: PostChanges, author: UserId, now: Timestamp): (p: Post)
    requires c.text.Some?
    ensures p.author == author && p.pubDate == now && p.text == c.text.value
    ensures p.group == if c.group.Some? then c.group.value else None
  {
    Post(c.text.value, now, author, if c.group.Some? then c.group.value else None)
  }

  /** Saving changes to a post: only the fields sent are replaced. */
  function UpdatedPost(p: Post, c: PostChanges): (q: Post)
    ensures q.author == p.author && q.pubDate == p.pubDate
    ensures q.text == if c.text.Some? then c.text.value else p.text
    ensures q.group == if c.group.Some? then c.group.value else p.group
  {
    p.(text := if c.text.Some? then c.text.value else p.text,
       group := if c.group.Some? then c.group.value else p.group)
  }

  /** Read-only fields of a post body never influence validation. */
  lemma PostReadOnlyFieldsIgnored(groups: map<GroupId, Group>, payload: PostPayload, partial: bool,
                                  author: Input<string>, pubDate: Input<Timestamp>)
    ensures ValidatePost(groups, payload, partial)
         == ValidatePost(groups, payload.(author := author, pubDate := pubDate), partial)
  {
  }

  // ---------------------------------------------------------------- comments

  /** `CommentSerializer`: only `text` is writable; `author`, `post` and `created` are read-only. */
  function ValidateComment(payload: CommentPayload, partial: bool): (r: Outcome<Option<string>>)
    ensures r.Ok? || r.ValidationError?
    ensures r.Ok? && r.value.Some? ==> payload.text == Given(r.value.value)
    ensures r.Ok? && !partial ==> r.value.Some?
    ensures r.Ok? <==> (payload.text.Absent? && partial) || (payload.text.Given? && payload.text.value != "" && '\0' !in payload.text.value)
  {
    ValidateText(payload.text, partial)
  }

  /** Saving changes to a comment: only its text can change, and only when it was sent. */
  function UpdatedComment(c: Comment, text: Option<string>): (d: Comment)
    ensures d.author == c.author && d.post == c.post && d.created == c.created
    ensures d.text == if text.Some? then text.value else c.text
  {
    if text.Some? then c.(text := text.value) else c
  }

  /** Read-only fields of a comment body never influence validation. */
  lemma CommentReadOnlyFieldsIgnored(payload: CommentPayload, partial: bool,
                                     author: Input<string>, post: Input<PostId>, created: Input<Timestamp>)
    ensures ValidateComment(payload, partial)
         == ValidateComment(payload.(author := author, post := post, created := created), partial)
  {
  }

  // ---------------------------------------------------------------- follows

  /** The user a username names, if any. */
  function ResolveUsername(users: map<UserId, string>, name: string): (r: Option<UserId>)
    requires UniqueUsernames(users)
    ensures r.Some? ==> r.value in users && users[r.value] == name
    ensures r.None? ==> name !in users.Values
  {
    if name in users.Values then
      var id :| id in users && users[id] == name; Some(id)
    else None
  }

  /** `validate_following`: the user to follow must not be the acting user. */
  function ValidateFollowing(value: UserId, acting: UserId): (r: Outcome<UserId>)
    ensures r.Ok? <==> value != acting
    ensures r.Ok? ==> r.value == value
    ensures !r.Ok? ==> r == ValidationError(SelfFollowMessage)
  {
    if value == acting then ValidationError(SelfFollowMessage) else Ok(value)
  }

  /** `FollowSerializer`: `following` must name an existing user and pass `validate_following`;
      then the unique-together check on (following, user) runs with `user` filled in from the acting
      user, since the `user` field is read-only and defaults to the current user. */
  function ValidateFollow(users: map<UserId, string>, follows: map<FollowId, Follow>,
                          acting: UserId, payload: FollowPayload): (r: Outcome<Follow>)
    requires UniqueUsernames(users)
    ensures r.Ok? || r.ValidationError?
    ensures r.Ok? ==> r.value.user == acting
    ensures r.Ok? ==> r.value.following in users && payload.following == Given(users[r.value.following])
    ensures r.Ok? ==> FollowAdmissible(follows, r.value)
    ensures forall v | v in users && users[v] != "" && payload.following == Given(users[v]) ::
      r.Ok? <==> FollowAdmissible(follows, Follow(v, acting))
  {
    match payload.following
    case Absent => ValidationError(RequiredMessage)
    case Null => ValidationError(NullMessage)
    case Given(name) =>
      if name == "" then ValidationError(NullMessage)
      else
        match ResolveUsername(users, name)
        case None => ValidationError(NoSuchUsernameMessage(name))
        case Some(v) =>
          match ValidateFollowing(v, acting)
          case Ok(following) =>
            if Follow(following, acting) in follows.Values then ValidationError(DuplicateFollowMessage)
            else Ok(Follow(following, acting))
          case _ => ValidationError(SelfFollowMessage)
  }

  /** Following oneself fails with the self-follow message. */
  lemma SelfFollowRejected(users: map<UserId, string>, follows: map<FollowId, Follow>,
                           acting: UserId, payload: FollowPayload)
    requires UniqueUsernames(users) && acting in users && users[acting] != ""
    requires payload.following == Given(users[acting])
    ensures ValidateFollow(users, follows, acting, payload) == ValidationError(SelfFollowMessage)
  {
  }

  /** Following someone twice fails with the duplicate message. */
  lemma DuplicateFollowRejected(users: map<UserId, string>, follows: map<FollowId, Follow>,
                                acting: UserId, payload: FollowPayload, v: UserId)
    requires UniqueUsernames(users) && v in users && users[v] != "" && v != acting
    requires payload.following == Given(users[v])
    requires Follow(v, acting) in follows.Values
    ensures ValidateFollow(users, follows, acting, payload) == ValidationError(DuplicateFollowMessage)
  {
  }

  /** Following another existing user not yet followed succeeds, with the acting user as follower. */
  lemma AdmissibleFollowAccepted(users: map<UserId, string>, follows: map<FollowId, Follow>,
                                 acting: UserId, payload: FollowPayload, v: UserId)
    requires UniqueUsernames(users) && v in users && users[v] != "" && v != acting
    requires payload.following == Given(users[v])
    requires Follow(v, acting) !in follows.Values
    ensures ValidateFollow(users, follows, acting, payload) == Ok(Follow(v, acting))
  {
  }

  /** A username that names nobody fails with the does-not-exist message. */
  lemma UnknownUsernameRejected(users: map<UserId, string>, follows: map<FollowId, Follow>,
                                acting: UserId, name: string, user: Input<string>)
    requires UniqueUsernames(users) && name != "" && name !in users.Values
    ensures ValidateFollow(users, follows, acting, FollowPayload(user, Given(name)))
         == ValidationError(NoSuchUsernameMessage(name))
  {
  }

  /** A `user` sent in the body never influences the outcome. */
  lemma FollowUserFieldIgnored(users: map<UserId, string>, follows: map<FollowId, Follow>,
                               acting: UserId, payload: FollowPayload, user: Input<string>)
    requires UniqueUsernames(users)
    ensures ValidateFollow(users, follows, acting, payload)
         == ValidateFollow(users, follows, acting, payload.(user := user))
  {
  }
}
