/** The request handlers over the blog's store. `Store` holds the tables; its methods are the
    handlers that write, its functions the handlers that only read. Every method keeps the
    store's constraints (`Valid`). */
module Views {
  import opened Common
  import opened Models
  import opened Permissions
  import opened Serializers

  const UsernameTakenMessage := "A user with that username already exists."
  const SlugTakenMessage := "Group with this Slug already exists."

  /** Every id in `ids` was handed out before the counter reached `next`. */
  ghost predicate AllBelow(ids: set<nat>, next: nat) {
    forall id | id in ids :: id < next
  }

  lemma AllBelowSubset(sub: set<nat>, ids: set<nat>, next: nat)
    requires sub <= ids && AllBelow(ids, next)
    ensures AllBelow(sub, next)
  {
  }

  /** The store's invariant on its tables and counters: the database constraints hold, every user
      has a username, and no row has an id its table has not handed out yet. */
  ghost predicate ValidTables(t: Tables, nextUser: nat, nextGroup: nat, nextPost: nat,
                              nextComment: nat, nextFollow: nat) {
    && Consistent(t)
    && "" !in t.users.Values
    && AllBelow(t.users.Keys, nextUser)
    && AllBelow(t.groups.Keys, nextGroup)
    && AllBelow(t.posts.Keys, nextPost)
    && AllBelow(t.comments.Keys, nextComment)
    && AllBelow(t.follows.Keys, nextFollow)
  }

  /** The user cascade keeps the store's invariant. */
  lemma DeleteUserKeepsValid(t: Tables, u: UserId, nextUser: nat, nextGroup: nat, nextPost: nat,
                             nextComment: nat, nextFollow: nat)
    requires ValidTables(t, nextUser, nextGroup, nextPost, nextComment, nextFollow)
    ensures ValidTables(DeleteUserRows(t, u), nextUser, nextGroup, nextPost, nextComment, nextFollow)
  {
    var r := DeleteUserRows(t, u);
    DeleteUserKeepsConsistent(t, u);
    DeleteUserShrinks(t, u);
    AllBelowSubset(r.users.Keys, t.users.Keys, nextUser);
    AllBelowSubset(r.posts.Keys, t.posts.Keys, nextPost);
    AllBelowSubset(r.comments.Keys, t.comments.Keys, nextComment);
    AllBelowSubset(r.follows.Keys, t.follows.Keys, nextFollow);
  }

  class Store {
    /** The tables: the auth users, groups, posts, comments and follows. */
    var db: Tables

    /** The next id each table hands out; ids are never reused. */
    var nextUser: nat
    var nextGroup: nat
    var nextPost: nat
    var nextComment: nat
    var nextFollow: nat

    ghost predicate Valid()
      reads this
    {
      ValidTables(db, nextUser, nextGroup, nextPost, nextComment, nextFollow)
    }

    /** The authentication layer only ever yields users that exist. */
    predicate Known(principal: Principal)
      reads this
    {
      principal.User? ==> principal.id in db.users
    }

    constructor ()
      ensures Valid()
      ensures db == Tables(map[], map[], map[], map[], map[])
    {
      db := Tables(map[], map[], map[], map[], map[]);
      nextUser, nextGroup, nextPost, nextComment, nextFollow := 0, 0, 0, 0, 0;
    }

    // ------------------------------------------------------------ users and groups (outside the API)

    /** Adds a user to the auth user table; usernames are required and unique. */
    method RegisterUser(username: string) returns (r: Outcome<UserId>)
      requires Valid()
      modifies this
      ensures Valid()
      ensures r.Ok? <==> username != "" && username !in old(db.users).Values
      ensures r.Ok? ==> r.value !in old(db.users) && db == old(db).(users := old(db.users)[r.value := username])
      ensures username == "" ==> r == ValidationError(RequiredMessage)
      ensures username != "" && username in old(db.users).Values ==> r == ValidationError(UsernameTakenMessage)
      ensures !r.Ok? ==> db == old(db)
    {
      if username == "" {
        return ValidationError(RequiredMessage);
      }
      if username in db.users.Values {
        return ValidationError(UsernameTakenMessage);
      }
      var id := nextUser;
      db := db.(users := db.users[id := username]);
      nextUser := nextUser + 1;
      r := Ok(id);
    }

    /** Adds a group (groups are managed outside the API); a slug, when present, is unique. */
    method CreateGroup(title: string, slug: Option<string>, description: Option<string>) returns (r: Outcome<GroupId>)
      requires Valid()
      modifies this
      ensures Valid()
      ensures r.Ok? <==> slug.None? || forall g | g in old(db.groups) :: old(db.groups)[g].slug != slug
      ensures r.Ok? ==>
        && r.value !in old(db.groups)
        && db == old(db).(groups := old(db.groups)[r.value := Group(title, slug, description)])
      ensures !r.Ok? ==> r == ValidationError(SlugTakenMessage) && db == old(db)
    {
      if slug.Some? && exists g | g in db.groups :: db.groups[g].slug == slug {
        return ValidationError(SlugTakenMessage);
      }
      var id := nextGroup;
      db := db.(groups := db.groups[id := Group(title, slug, description)]);
      nextGroup := nextGroup + 1;
      r := Ok(id);
    }

    // ------------------------------------------------------------ groups (read-only, open to all)

    /** GET on the groups: every group, each as retrieving it by id gives it. */
    function ListGroups(): (r: map<GroupId, Group>)
      reads this
      ensures forall id :: id in r <==> RetrieveGroup(id).Ok?
      ensures forall id | id in r :: RetrieveGroup(id) == Ok(r[id])
    {
      db.groups
    }

    function RetrieveGroup(id: GroupId): (r: Outcome<Group>)
      reads this
      ensures r.Ok? <==> id in db.groups
      ensures r.Ok? ==> r.value == db.groups[id]
      ensures !r.Ok? ==> r == NotFound
    {
      if id in db.groups then Ok(db.groups[id]) else NotFound
    }

    // ------------------------------------------------------------ posts

    /** GET on the posts (unpaginated): every post, each as retrieving it by id gives it. */
    function ListPosts(): (r: map<PostId, Post>)
      reads this
      ensures forall id :: id in r <==> RetrievePost(id).Ok?
      ensures forall id | id in r :: RetrievePost(id) == Ok(r[id])
    {
      db.posts
    }

    function RetrievePost(id: PostId): (r: Outcome<Post>)
      reads this
      ensures r.Ok? <==> id in db.posts
      ensures r.Ok? ==> r.value == db.posts[id]
      ensures !r.Ok? ==> r == NotFound
    {
      if id in db.posts then Ok(db.posts[id]) else NotFound
    }

    /** POST on the posts collection: the new post's author is the acting user and its
        publication time is `now`, whatever the body says. */
    method CreatePost(principal: Principal, payload: PostPayload, now: Timestamp) returns (r: Outcome<PostId>)
      requires Valid() && Known(principal)
      modifies this
      ensures Valid()
      ensures principal.Anonymous? ==> r == NotAuthenticated
      ensures principal.User? ==>
        var v := ValidatePost(old(db.groups), payload, false);
        && (v.ValidationError? ==> r == ValidationError(v.msg))
        && (v.Ok? ==>
              && r.Ok? && r.value !in old(db.posts)
              && db == old(db).(posts := old(db.posts)[r.value := NewPost(v.value, principal.id, now)]))
      ensures r.Ok? ==> principal.User? && db.posts[r.value].author == principal.id && db.posts[r.value].pubDate == now
      ensures !r.Ok? ==> db == old(db)
    {
      if !IsAuthenticatedOrReadOnly("POST", principal) {
        return NotAuthenticated;
      }
      var v := ValidatePost(db.groups, payload, false);
      if !v.Ok? {
        return ValidationError(v.msg);
      }
      var id := nextPost;
      db := db.(posts := db.posts[id := NewPost(v.value, principal.id, now)]);
      nextPost := nextPost + 1;
      r := Ok(id);
    }

    /** PUT (`partial` false) or PATCH (`partial` true) on one post: only its author may change it;
        its author and publication time never change. */
    method UpdatePost(principal: Principal, id: PostId, payload: PostPayload, partial: bool) returns (r: Outcome<PostId>)
      requires Valid() && Known(principal)
      modifies this
      ensures Valid()
      ensures principal.Anonymous? ==> r == NotAuthenticated
      ensures principal.User? && id !in old(db.posts) ==> r == NotFound
      ensures principal.User? && id in old(db.posts) && old(db.posts)[id].author != principal.id ==> r == PermissionDenied
      ensures principal.User? && id in old(db.posts) && old(db.posts)[id].author == principal.id ==>
        var v := ValidatePost(old(db.groups), payload, partial);
        && (v.ValidationError? ==> r == ValidationError(v.msg))
        && (v.Ok? ==>
              && r == Ok(id)
              && db == old(db).(posts := old(db.posts)[id := UpdatedPost(old(db.posts)[id], v.value)]))
      ensures r.Ok? ==>
        && id in old(db.posts)
        && db.posts[id].author == old(db.posts)[id].author && db.posts[id].pubDate == old(db.posts)[id].pubDate
      ensures !r.Ok? ==> db == old(db)
    {
      var verb := if partial then "PATCH" else "PUT";
      if !IsAuthenticatedOrReadOnly(verb, principal) {
        return NotAuthenticated;
      }
      if id !in db.posts {
        return NotFound;
      }
      if ObjectAccess(verb, principal, db.posts[id].author) != Allow {
        return PermissionDenied;
      }
      var v := ValidatePost(db.groups, payload, partial);
      if !v.Ok? {
        return ValidationError(v.msg);
      }
      db := db.(posts := db.posts[id := UpdatedPost(db.posts[id], v.value)]);
      r := Ok(id);
    }

    /** DELETE on one post: only its author may delete it, and its comments go with it. */
    method DeletePost(principal: Principal, id: PostId) returns (r: Outcome<()>)
      requires Valid() && Known(principal)
      modifies this
      ensures Valid()
      ensures principal.Anonymous? ==> r == NotAuthenticated
      ensures principal.User? && id !in old(db.posts) ==> r == NotFound
      ensures principal.User? && id in old(db.posts) && old(db.posts)[id].author != principal.id ==> r == PermissionDenied
      ensures principal.User? && id in old(db.posts) && old(db.posts)[id].author == principal.id ==>
        r == Ok(()) && db == DeletePostRows(old(db), id)
      ensures !r.Ok? ==> db == old(db)
    {
      if !IsAuthenticatedOrReadOnly("DELETE", principal) {
        return NotAuthenticated;
      }
      if id !in db.posts {
        return NotFound;
      }
      if ObjectAccess("DELETE", principal, db.posts[id].author) != Allow {
        return PermissionDenied;
      }
      DeletePostKeepsConsistent(db, id);
      db := DeletePostRows(db, id);
      r := Ok(());
    }

    // ------------------------------------------------------------ comments under one post

    /** GET on the comments of post `postId`: exactly the comments on that post, or not-found
        when the post does not exist. */
    function ListComments(postId: PostId): (r: Outcome<map<CommentId, Comment>>)
      reads this
      ensures r.Ok? || r == NotFound
      ensures r.Ok? <==> postId in db.posts
      ensures r.Ok? ==> forall id :: id in r.value <==> id in db.comments && db.comments[id].post == postId
      ensures r.Ok? ==> forall id | id in r.value :: r.value[id] == db.comments[id]
    {
      if postId !in db.posts then NotFound
      else Ok(map id | id in db.comments && db.comments[id].post == postId :: db.comments[id])
    }

    /** GET on one comment of post `postId`: not-found unless the post exists and the comment is on it. */
    function RetrieveComment(postId: PostId, id: CommentId): (r: Outcome<Comment>)
      reads this
      ensures r.Ok? || r == NotFound
      ensures r.Ok? <==> postId in db.posts && id in db.comments && db.comments[id].post == postId
      ensures r.Ok? ==> r.value == db.comments[id]
    {
      if postId in db.posts && id in db.comments && db.comments[id].post == postId then Ok(db.comments[id]) else NotFound
    }

    /** POST on the comments of post `postId`: the body is validated first; then the post must
        exist; the new comment's author is the acting user and its post is `postId`. */
    method CreateComment(principal: Principal, postId: PostId, payload: CommentPayload, now: Timestamp)
      returns (r: Outcome<CommentId>)
      requires Valid() && Known(principal)
      modifies this
      ensures Valid()
      ensures principal.Anonymous? ==> r == NotAuthenticated
      ensures principal.User? ==>
        var v := ValidateComment(payload, false);
        && (v.ValidationError? ==> r == ValidationError(v.msg))
        && (v.Ok? && postId !in old(db.posts) ==> r == NotFound)
        && (v.Ok? && postId in old(db.posts) ==>
              && r.Ok? && r.value !in old(db.comments) && v.value.Some?
              && db == old(db).(comments :=
                   old(db.comments)[r.value := Comment(principal.id, postId, v.value.value, now)]))
      ensures r.Ok? ==>
        && principal.User? && db.comments[r.value].author == principal.id
        && db.comments[r.value].post == postId && db.comments[r.value].created == now
      ensures !r.Ok? ==> db == old(db)
    {
      if !IsAuthenticatedOrReadOnly("POST", principal) {
        return NotAuthenticated;
      }
      var v := ValidateComment(payload, false);
      if !v.Ok? {
        return ValidationError(v.msg);
      }
      if postId !in db.posts {
        return NotFound;
      }
      var id := nextComment;
      db := db.(comments := db.comments[id := Comment(principal.id, postId, v.value.value, now)]);
      nextComment := nextComment + 1;
      r := Ok(id);
    }

    /** PUT or PATCH on one comment of post `postId`: only its author may change its text;
        its author, post and creation time never change. */
    method UpdateComment(principal: Principal, postId: PostId, id: CommentId, payload: CommentPayload, partial: bool)
      returns (r: Outcome<CommentId>)
      requires Valid() && Known(principal)
      modifies this
      ensures Valid()
      ensures principal.Anonymous? ==> r == NotAuthenticated
      ensures principal.User? && old(RetrieveComment(postId, id)).NotFound? ==> r == NotFound
      ensures principal.User? && old(RetrieveComment(postId, id)).Ok? && old(db.comments)[id].author != principal.id ==>
        r == PermissionDenied
      ensures principal.User? && old(RetrieveComment(postId, id)).Ok? && old(db.comments)[id].author == principal.id ==>
        var v := ValidateComment(payload, partial);
        && (v.ValidationError? ==> r == ValidationError(v.msg))
        && (v.Ok? ==>
              && r == Ok(id)
              && db == old(db).(comments := old(db.comments)[id := UpdatedComment(old(db.comments)[id], v.value)]))
      ensures r.Ok? ==>
        && id in old(db.comments) && db.comments[id].author == old(db.comments)[id].author
        && db.comments[id].post == old(db.comments)[id].post && db.comments[id].created == old(db.comments)[id].created
      ensures !r.Ok? ==> db == old(db)
    {
      var verb := if partial then "PATCH" else "PUT";
      if !IsAuthenticatedOrReadOnly(verb, principal) {
        return NotAuthenticated;
      }
      if !RetrieveComment(postId, id).Ok? {
        return NotFound;
      }
      if ObjectAccess(verb, principal, db.comments[id].author) != Allow {
        return PermissionDenied;
      }
      var v := ValidateComment(payload, partial);
      if !v.Ok? {
        return ValidationError(v.msg);
      }
      var c := UpdatedComment(db.comments[id], v.value);
      ReplaceCommentKeepsConsistent(db, id, c);
      db := db.(comments := db.comments[id := c]);
      r := Ok(id);
    }

    /** DELETE on one comment of post `postId`: only its author may delete it. */
    method DeleteComment(principal: Principal, postId: PostId, id: CommentId) returns (r: Outcome<()>)
      requires Valid() && Known(principal)
      modifies this
      ensures Valid()
      ensures principal.Anonymous? ==> r == NotAuthenticated
      ensures principal.User? && old(RetrieveComment(postId, id)).NotFound? ==> r == NotFound
      ensures principal.User? && old(RetrieveComment(postId, id)).Ok? && old(db.comments)[id].author != principal.id ==>
        r == PermissionDenied
      ensures principal.User? && old(RetrieveComment(postId, id)).Ok? && old(db.comments)[id].author == principal.id ==>
        r == Ok(()) && db == old(db).(comments := old(db.comments) - {id})
      ensures !r.Ok? ==> db == old(db)
    {
      if !IsAuthenticatedOrReadOnly("DELETE", principal) {
        return NotAuthenticated;
      }
      if !RetrieveComment(postId, id).Ok? {
        return NotFound;
      }
      if ObjectAccess("DELETE", principal, db.comments[id].author) != Allow {
        return PermissionDenied;
      }
      db := db.(comments := db.comments - {id});
      r := Ok(());
    }

    // ------------------------------------------------------------ follows (authenticated users only)

    /** GET on the follows: exactly the acting user's own Follow rows. */
    function ListFollows(principal: Principal): (r: Outcome<map<FollowId, Follow>>)
      reads this
      ensures r.Ok? || r == NotAuthenticated
      ensures r.Ok? <==> principal.User?
      ensures r.Ok? ==> forall id :: id in r.value <==> id in db.follows && db.follows[id].user == principal.id
      ensures r.Ok? ==> r.value.Keys == FollowsBy(db.follows, principal.id)
      ensures r.Ok? ==> forall id | id in r.value :: r.value[id] == db.follows[id]
    {
      if principal.Anonymous? then NotAuthenticated
      else Ok(map id | id in db.follows && db.follows[id].user == principal.id :: db.follows[id])
    }

    /** POST on the follows: the new row's follower is the acting user, never a `user` from the body;
        self-follows and duplicates are refused with their messages. */
    method CreateFollow(principal: Principal, payload: FollowPayload) returns (r: Outcome<FollowId>)
      requires Valid() && Known(principal)
      modifies this
      ensures Valid()
      ensures principal.Anonymous? ==> r == NotAuthenticated
      ensures principal.User? ==>
        var v := ValidateFollow(old(db.users), old(db.follows), principal.id, payload);
        && (v.ValidationError? ==> r == ValidationError(v.msg))
        && (v.Ok? ==>
              && r.Ok? && r.value !in old(db.follows)
              && db == old(db).(follows := old(db.follows)[r.value := v.value]))
      ensures r.Ok? ==> principal.User? && db.follows[r.value].user == principal.id
      ensures !r.Ok? ==> db == old(db)
    {
      if principal.Anonymous? {
        return NotAuthenticated;
      }
      var v := ValidateFollow(db.users, db.follows, principal.id, payload);
      if !v.Ok? {
        return ValidationError(v.msg);
      }
      var id := nextFollow;
      InsertFollowKeepsConsistent(db, id, v.value);
      db := db.(follows := db.follows[id := v.value]);
      nextFollow := nextFollow + 1;
      r := Ok(id);
    }

    // ------------------------------------------------------------ deletes that cascade

    /** Deleting a group: its posts stay, with their group cleared. */
    method DeleteGroup(g: GroupId)
      requires Valid()
      modifies this
      ensures Valid()
      ensures db == DeleteGroupRows(old(db), g)
    {
      DeleteGroupKeepsConsistent(db, g);
      db := DeleteGroupRows(db, g);
    }

    /** Deleting a user: their posts, the comments on those posts, their comments and every Follow
        on either side go with them. */
    method DeleteUser(u: UserId)
      requires Valid()
      modifies this
      ensures Valid()
      ensures db == DeleteUserRows(old(db), u)
    {
      DeleteUserKeepsValid(db, u, nextUser, nextGroup, nextPost, nextComment, nextFollow);
      db := DeleteUserRows(db, u);
    }
  }
}
