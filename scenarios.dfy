/** Clients of `Views.Store`: each method drives a fresh store through one behaviour the API
    promises, and the assertions follow from the handlers' contracts alone. */
module Scenarios {
  import opened Common
  import opened Models
  import opened Serializers
  import opened Views

  /** A fresh store holding three users and no rows. */
  method ThreeUsers() returns (s: Store, alice: UserId, bob: UserId, carol: UserId)
    ensures fresh(s) && s.Valid()
    ensures alice != bob && alice != carol && bob != carol
    ensures s.db.users == map[alice := "alice", bob := "bob", carol := "carol"]
    ensures s.db.follows == map[]
  {
    s := new Store();
    var a := s.RegisterUser("alice");
    var b := s.RegisterUser("bob");
    var c := s.RegisterUser("carol");
    assert a.Ok? && b.Ok? && c.Ok?;
    alice, bob, carol := a.value, b.value, c.value;
  }

  /** Alice follows Bob and then Carol; a `user` in the second body is ignored. */
  method AliceFollowsTwo() returns (s: Store, alice: UserId, bob: UserId, carol: UserId, f1: FollowId, f2: FollowId)
    ensures fresh(s) && s.Valid()
    ensures alice != bob && alice != carol && bob != carol && f1 != f2
    ensures s.db.users == map[alice := "alice", bob := "bob", carol := "carol"]
    ensures s.db.follows == map[f1 := Follow(bob, alice), f2 := Follow(carol, alice)]
  {
    s, alice, bob, carol := ThreeUsers();
    ghost var users := s.db.users;

    var p1 := FollowPayload(Absent, Given("bob"));
    AdmissibleFollowAccepted(users, map[], alice, p1, bob);
    var r1 := s.CreateFollow(User(alice), p1);
    f1 := r1.value;
    ghost var follows := map[f1 := Follow(bob, alice)];

    var p2 := FollowPayload(Given("carol"), Given("carol"));
    AdmissibleFollowAccepted(users, follows, alice, p2, carol);
    var r2 := s.CreateFollow(User(alice), p2);
    f2 := r2.value;
  }

  /** Alice follows Bob and Carol, Bob follows Alice: Alice's list holds her two rows and names
      exactly Bob and Carol. */
  method FollowListScenario() {
    var s, alice, bob, carol, f1, f2 := AliceFollowsTwo();
    ghost var users := s.db.users;
    ghost var before := s.db.follows;

    var p3 := FollowPayload(Absent, Given("alice"));
    AdmissibleFollowAccepted(users, before, bob, p3, alice);
    var r3 := s.CreateFollow(User(bob), p3);
    var f3 := r3.value;
    ghost var follows := map[f1 := Follow(bob, alice), f2 := Follow(carol, alice), f3 := Follow(alice, bob)];
    assert s.db.follows == follows;

    var listed := s.ListFollows(User(alice));
    ThreeFollows(follows, f1, f2, f3, alice, bob, carol);
    assert listed.Ok? && listed.value.Keys == {f1, f2};
    assert Followed(s.db.follows, alice) == {bob, carol};
  }

  /** The rows of the follow scenario: Alice's are the first two, naming Bob and Carol. */
  lemma ThreeFollows(follows: map<FollowId, Follow>, f1: FollowId, f2: FollowId, f3: FollowId,
                     alice: UserId, bob: UserId, carol: UserId)
    requires follows == map[f1 := Follow(bob, alice), f2 := Follow(carol, alice), f3 := Follow(alice, bob)]
    requires f1 != f2 && f1 != f3 && f2 != f3 && alice != bob
    ensures FollowsBy(follows, alice) == {f1, f2}
    ensures Followed(follows, alice) == {bob, carol}
  {
    assert follows[f1].following == bob && follows[f2].following == carol;
  }

  /** Following oneself, following someone twice, or following while anonymous is refused and
      stores nothing; the one stored row stays the only one for its pair. */
  method FollowRejectScenario() {
    var s := new Store();
    var a := s.RegisterUser("alice");
    var b := s.RegisterUser("bob");
    assert a.Ok? && b.Ok?;
    var alice, bob := a.value, b.value;
    var users := map[alice := "alice", bob := "bob"];
    assert s.db.users == users;

    var f := s.CreateFollow(User(alice), FollowPayload(Absent, Given("bob")));
    assert users[bob] == "bob";
    assert f.Ok?;
    var follows := map[f.value := Follow(bob, alice)];
    assert s.db.follows == follows;

    var self := s.CreateFollow(User(alice), FollowPayload(Absent, Given("alice")));
    SelfFollowRejected(users, follows, alice, FollowPayload(Absent, Given("alice")));
    assert self == ValidationError(SelfFollowMessage);

    var again := s.CreateFollow(User(alice), FollowPayload(Absent, Given("bob")));
    DuplicateFollowRejected(users, follows, alice, FollowPayload(Absent, Given("bob")), bob);
    assert again == ValidationError(DuplicateFollowMessage);

    var anonymous := s.CreateFollow(Anonymous, FollowPayload(Absent, Given("bob")));
    assert anonymous == NotAuthenticated;
    assert s.db.follows == follows;
    StoredPairHasOneRow(follows, Follow(bob, alice));
    assert |RowsOf(s.db.follows, Follow(bob, alice))| == 1;
  }

  /** A non-author cannot change or delete a post, an anonymous user is not authenticated, and the
      author's change keeps the author and the publication time. */
  method PostOwnershipScenario(created: Timestamp) {
    var s := new Store();
    var a := s.RegisterUser("alice");
    var b := s.RegisterUser("bob");
    assert a.Ok? && b.Ok?;
    var alice, bob := a.value, b.value;

    var p := s.CreatePost(User(alice), PostPayload(Given("hello"), Absent, Given("bob"), Absent), created);
    assert ValidatePost(map[], PostPayload(Given("hello"), Absent, Given("bob"), Absent), false).Ok?;
    assert p.Ok? && s.db.posts[p.value] == Post("hello", created, alice, None);

    var edit := PostPayload(Given("bye"), Absent, Absent, Absent);
    var byBob := s.UpdatePost(User(bob), p.value, edit, true);
    assert byBob == PermissionDenied;
    var byNobody := s.DeletePost(Anonymous, p.value);
    assert byNobody == NotAuthenticated;
    var byAlice := s.UpdatePost(User(alice), p.value, edit, true);
    assert ValidatePost(map[], edit, true).Ok?;
    assert byAlice.Ok? && s.db.posts[p.value] == Post("bye", created, alice, None);
  }

  /** Commenting under a post that does not exist is not-found and stores nothing; a comment's
      author and post come from the request, not the body; a post's deletion takes its comments. */
  method CommentScenario(t0: Timestamp, t1: Timestamp) {
    var s := new Store();
    var a := s.RegisterUser("alice");
    assert a.Ok?;
    var alice := a.value;

    var missing := s.CreateComment(User(alice), 7, CommentPayload(Given("hi"), Absent, Absent, Absent), t0);
    assert missing == NotFound && s.db.comments == map[];

    var p := s.CreatePost(User(alice), PostPayload(Given("hello"), Absent, Absent, Absent), t0);
    assert ValidatePost(map[], PostPayload(Given("hello"), Absent, Absent, Absent), false).Ok?;
    assert p.Ok?;
    var c := s.CreateComment(User(alice), p.value, CommentPayload(Given("hi"), Given("mallory"), Given(7), Absent), t1);
    assert c.Ok? && s.db.comments[c.value] == Comment(alice, p.value, "hi", t1);

    var onPost := s.ListComments(p.value);
    assert onPost.Ok? && onPost.value == map[c.value := Comment(alice, p.value, "hi", t1)];

    var gone := s.DeletePost(User(alice), p.value);
    assert gone.Ok? && s.db.comments == map[];
    assert s.ListComments(p.value) == NotFound;
  }

  /** Deleting a group keeps its posts and clears their group. */
  method GroupDeleteScenario(now: Timestamp) {
    var s := new Store();
    var a := s.RegisterUser("alice");
    var g := s.CreateGroup("cats", Some("cats"), None);
    assert a.Ok? && g.Ok?;
    var payload := PostPayload(Given("meow"), Given(g.value), Absent, Absent);
    assert ValidatePost(s.db.groups, payload, false).Ok?;
    var p := s.CreatePost(User(a.value), payload, now);
    assert p.Ok? && s.db.posts[p.value] == Post("meow", now, a.value, Some(g.value));

    var dup := s.CreateGroup("more cats", Some("cats"), None);
    assert dup == ValidationError(SlugTakenMessage);

    s.DeleteGroup(g.value);
    assert s.db.posts == map[p.value := Post("meow", now, a.value, None)];
    assert s.db.groups == map[];
  }
}
