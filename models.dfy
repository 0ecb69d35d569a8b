/** The blog's tables: Group, Post, Comment and Follow rows, the constraints the database keeps
    on them, and what deleting a group, a post or a user does to the other tables. */
module Models {
  import opened Common

  datatype Group = Group(title: string, slug: Option<string>, description: Option<string>) {
    function ToString(): string { title }
  }

  /** `pubDate` is stamped once, when the row is created. */
  datatype Post = Post(text: string, pubDate: Timestamp, author: UserId, group: Option<GroupId>) {
    function ToString(): string { text }
  }

  /** `created` is stamped once, when the row is created. */
  datatype Comment = Comment(author: UserId, post: PostId, text: string, created: Timestamp) {
    function ToString(): string { text }
  }

  /** `user` follows `following`. */
  datatype Follow = Follow(following: UserId, user: UserId)

  /** Every table at one moment. `users` maps each user to its username (the auth user table). */
  datatype Tables = Tables(
    users: map<UserId, string>,
    groups: map<GroupId, Group>,
    posts: map<PostId, Post>,
    comments: map<CommentId, Comment>,
    follows: map<FollowId, Follow>)

  // ---------------------------------------------------------------- constraints

  /** The check constraint `prevent_self_follow`. */
  predicate NoSelfFollow(follows: map<FollowId, Follow>) {
    forall id | id in follows :: follows[id].user != follows[id].following
  }

  /** The unique constraint on (following, user). */
  predicate UniqueFollowPairs(follows: map<FollowId, Follow>) {
    forall i, j | i in follows && j in follows && i != j :: follows[i] != follows[j]
  }

  /** `slug` is unique; any number of groups may have no slug. */
  predicate UniqueSlugs(groups: map<GroupId, Group>) {
    forall i, j | i in groups && j in groups && i != j && groups[i].slug.Some? ::
      groups[i].slug != groups[j].slug
  }

  /** Usernames are unique in the auth user table. */
  predicate UniqueUsernames(users: map<UserId, string>) {
    forall i, j | i in users && j in users && i != j :: users[i] != users[j]
  }

  /** Every foreign key names an existing row. */
  predicate ReferencesResolve(t: Tables) {
    PostRefsResolve(t) && CommentRefsResolve(t) && FollowRefsResolve(t)
  }

  /** A post's author exists, and so does its group if it has one. */
  predicate PostRefsResolve(t: Tables) {
    forall id | id in t.posts ::
      t.posts[id].author in t.users
      && (t.posts[id].group.Some? ==> t.posts[id].group.value in t.groups)
  }

  /** A comment's author and post exist. */
  predicate CommentRefsResolve(t: Tables) {
    forall id | id in t.comments ::
      t.comments[id].author in t.users && t.comments[id].post in t.posts
  }

  /** Both users of a Follow exist. */
  predicate FollowRefsResolve(t: Tables) {
    forall id | id in t.follows ::
      t.follows[id].user in t.users && t.follows[id].following in t.users
  }

  predicate Consistent(t: Tables) {
    && UniqueUsernames(t.users)
    && UniqueSlugs(t.groups)
    && NoSelfFollow(t.follows)
    && UniqueFollowPairs(t.follows)
    && ReferencesResolve(t)
  }

  /** Whether the database would accept one more Follow row `f`. */
  predicate FollowAdmissible(follows: map<FollowId, Follow>, f: Follow) {
    f.user != f.following && f !in follows.Values
  }

  // ---------------------------------------------------------------- delete rules

  /** `Post.group` is SET_NULL: deleting a group clears the group of its posts. */
  function DeleteGroupRows(t: Tables, g: GroupId): (r: Tables)
    ensures r == t.(groups := t.groups - {g}, posts := r.posts)
    ensures r.posts.Keys == t.posts.Keys
    ensures forall id | id in r.posts :: r.posts[id].group != Some(g)
    ensures forall id | id in r.posts ::
      r.posts[id].(group := None) == t.posts[id].(group := None)
    ensures forall id | id in r.posts && t.posts[id].group != Some(g) :: r.posts[id] == t.posts[id]
  {
    t.(groups := t.groups - {g},
       posts := map id | id in t.posts ::
         if t.posts[id].group == Some(g) then t.posts[id].(group := None) else t.posts[id])
  }

  /** `Comment.post` is CASCADE: deleting a post deletes its comments. */
  function DeletePostRows(t: Tables, p: PostId): (r: Tables)
    ensures r == t.(posts := t.posts - {p}, comments := r.comments)
    ensures forall id :: id in r.comments <==> id in t.comments && t.comments[id].post != p
    ensures forall id | id in r.comments :: r.comments[id] == t.comments[id]
  {
    t.(posts := t.posts - {p},
       comments := map id | id in t.comments && t.comments[id].post != p :: t.comments[id])
  }

  /** Whether a user's deletion cascades to comment `c`: it is theirs, or it is on one of their posts. */
  predicate DoomedWithUser(t: Tables, u: UserId, c: Comment) {
    c.author == u || (c.post in t.posts && t.posts[c.post].author == u)
  }

  /** `Post.author`, `Comment.author`, `Follow.user` and `Follow.following` are CASCADE:
      deleting a user deletes their posts, the comments on those posts, their comments,
      and every Follow on either side. */
  function DeleteUserRows(t: Tables, u: UserId): (r: Tables)
    ensures r.users == t.users - {u} && r.groups == t.groups
    ensures forall id :: id in r.posts <==> id in t.posts && t.posts[id].author != u
    ensures forall id | id in r.posts :: r.posts[id] == t.posts[id]
    ensures forall id :: id in r.comments <==> id in t.comments && !DoomedWithUser(t, u, t.comments[id])
    ensures forall id | id in r.comments :: r.comments[id] == t.comments[id]
    ensures forall id :: id in r.follows <==>
      id in t.follows && t.follows[id].user != u && t.follows[id].following != u
    ensures forall id | id in r.follows :: r.follows[id] == t.follows[id]
  {
    t.(users := t.users - {u},
       posts := map id | id in t.posts && t.posts[id].author != u :: t.posts[id],
       comments := map id | id in t.comments && !DoomedWithUser(t, u, t.comments[id]) :: t.comments[id],
       follows := map id | id in t.follows && t.follows[id].user != u && t.follows[id].following != u ::
         t.follows[id])
  }

  // ---------------------------------------------------------------- lemmas

  /** The user cascade only removes rows: every table keeps a subset of its ids, and the
      remaining usernames are among the old ones. */
  lemma DeleteUserShrinks(t: Tables, u: UserId)
    ensures var r := DeleteUserRows(t, u);
      && r.users.Keys <= t.users.Keys && r.users.Values <= t.users.Values
      && r.posts.Keys <= t.posts.Keys && r.comments.Keys <= t.comments.Keys
      && r.follows.Keys <= t.follows.Keys
  {
  }

  lemma DeleteGroupKeepsConsistent(t: Tables, g: GroupId)
    requires Consistent(t)
    ensures Consistent(DeleteGroupRows(t, g))
  {
    var r := DeleteGroupRows(t, g);
    forall id | id in r.posts
      ensures r.posts[id].group.Some? ==> r.posts[id].group.value in r.groups
    {
      assert r.posts[id].group != Some(g);
    }
  }

  lemma DeletePostKeepsConsistent(t: Tables, p: PostId)
    requires Consistent(t)
    ensures Consistent(DeletePostRows(t, p))
  {
  }

  /** After a user is deleted no row refers to them, and the tables stay consistent. */
  lemma DeleteUserKeepsConsistent(t: Tables, u: UserId)
    requires Consistent(t)
    ensures Consistent(DeleteUserRows(t, u))
    ensures var r := DeleteUserRows(t, u);
      && (forall id | id in r.posts :: r.posts[id].author != u)
      && (forall id | id in r.comments :: r.comments[id].author != u)
      && (forall id | id in r.follows :: r.follows[id].user != u && r.follows[id].following != u)
  {
    DeleteUserKeepsUnique(t, u);
    DeleteUserKeepsReferences(t, u);
  }

  /** The user cascade keeps the check and unique constraints: it only removes rows. */
  lemma DeleteUserKeepsUnique(t: Tables, u: UserId)
    requires Consistent(t)
    ensures var r := DeleteUserRows(t, u);
      && UniqueUsernames(r.users) && UniqueSlugs(r.groups)
      && NoSelfFollow(r.follows) && UniqueFollowPairs(r.follows)
  {
  }

  /** After the user cascade every remaining foreign key still resolves. */
  lemma DeleteUserKeepsReferences(t: Tables, u: UserId)
    requires Consistent(t)
    ensures ReferencesResolve(DeleteUserRows(t, u))
  {
    DeleteUserKeepsPostRefs(t, u);
    DeleteUserKeepsCommentRefs(t, u);
    DeleteUserKeepsFollowRefs(t, u);
  }

  lemma DeleteUserKeepsPostRefs(t: Tables, u: UserId)
    requires PostRefsResolve(t)
    ensures PostRefsResolve(DeleteUserRows(t, u))
  {
    var r := DeleteUserRows(t, u);
    forall id | id in r.posts
      ensures r.posts[id].author in r.users
    {
      assert r.posts[id] == t.posts[id] && t.posts[id].author != u;
    }
  }

  lemma DeleteUserKeepsCommentRefs(t: Tables, u: UserId)
    requires CommentRefsResolve(t)
    ensures CommentRefsResolve(DeleteUserRows(t, u))
  {
    var r := DeleteUserRows(t, u);
    forall id | id in r.comments
      ensures r.comments[id].author in r.users && r.comments[id].post in r.posts
    {
      var c := t.comments[id];
      assert r.comments[id] == c && !DoomedWithUser(t, u, c);
    }
  }

  lemma DeleteUserKeepsFollowRefs(t: Tables, u: UserId)
    requires FollowRefsResolve(t)
    ensures FollowRefsResolve(DeleteUserRows(t, u))
  {
  }

  /** A Follow row the database admits, between existing users, keeps the tables consistent. */
  lemma InsertFollowKeepsConsistent(t: Tables, id: FollowId, f: Follow)
    requires Consistent(t) && id !in t.follows
    requires FollowAdmissible(t.follows, f) && f.user in t.users && f.following in t.users
    ensures Consistent(t.(follows := t.follows[id := f]))
  {
  }

  /** Replacing a comment by one with the same author and post keeps the tables consistent. */
  lemma ReplaceCommentKeepsConsistent(t: Tables, id: CommentId, c: Comment)
    requires Consistent(t) && id in t.comments
    requires c.author == t.comments[id].author && c.post == t.comments[id].post
    ensures Consistent(t.(comments := t.comments[id := c]))
  {
  }

  /** The ids of the rows that hold the Follow `f`. */
  function RowsOf(follows: map<FollowId, Follow>, f: Follow): set<FollowId> {
    set id | id in follows && follows[id] == f
  }

  /** With the unique constraint, a stored pair is held by exactly one row. */
  lemma StoredPairHasOneRow(follows: map<FollowId, Follow>, f: Follow)
    requires UniqueFollowPairs(follows)
    requires f in follows.Values
    ensures |RowsOf(follows, f)| == 1
  {
    var id :| id in follows && follows[id] == f;
    assert RowsOf(follows, f) == {id};
  }

  /** The rows whose follower is `u`. */
  function FollowsBy(follows: map<FollowId, Follow>, u: UserId): set<FollowId> {
    set id | id in follows && follows[id].user == u
  }

  /** The users that `u` follows. */
  function Followed(follows: map<FollowId, Follow>, u: UserId): set<UserId> {
    set id | id in follows && follows[id].user == u :: follows[id].following
  }

  /** With the unique constraint, a user's Follow rows name pairwise distinct users. */
  lemma {:induction false} FollowRowsNameDistinctUsers(follows: map<FollowId, Follow>, u: UserId)
    requires UniqueFollowPairs(follows)
    ensures |FollowsBy(follows, u)| == |Followed(follows, u)|
  {
    FollowingIsInjective(follows, u, FollowsBy(follows, u));
    assert Followed(follows, u) == set id | id in FollowsBy(follows, u) :: follows[id].following;
  }

  lemma {:induction false} FollowingIsInjective(follows: map<FollowId, Follow>, u: UserId, ids: set<FollowId>)
    requires UniqueFollowPairs(follows)
    requires forall id | id in ids :: id in follows && follows[id].user == u
    ensures |ids| == |set id | id in ids :: follows[id].following|
    decreases ids
  {
    if ids != {} {
      var x :| x in ids;
      var rest := ids - {x};
      FollowingIsInjective(follows, u, rest);
      var image := set id | id in ids :: follows[id].following;
      var restImage := set id | id in rest :: follows[id].following;
      assert image == restImage + {follows[x].following};
      assert follows[x].following !in restImage;
    }
  }
}
