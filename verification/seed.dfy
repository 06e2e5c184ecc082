/** The seed store the server starts from, and concrete facts about it:
    its ids are distinct, its foreign keys resolve, and a few resolver
    calls on it give the records one expects. */
module Seed {
  import opened Wrappers
  import opened JsObject
  import opened Entities
  import opened Collection
  import opened Resolvers
  import opened StoreInvariants

  const SeedUsers: seq<User> := [
    User("1", "Mehmet Seven", 29),
    User("2", "Ahmet Günal", 32)
  ]

  const SeedPosts: seq<Post> := [
    Post("1", "Mehmet'in Gönderisi", "1"),
    Post("2", "Mehmet'in Diğer Gönderisi", "1"),
    Post("3", "Ahmet'in Gönderisi", "2")
  ]

  const SeedComments: seq<Comment> := [
    Comment("1", "Bu Ahmet'in Yorumudur", "1", "2"),
    Comment("2", "Bu Mehmet'in Yorumudur", "1", "1"),
    Comment("3", "foo bar", "2", "2"),
    Comment("4", "foo bar baz", "3", "1")
  ]

  const Initial: Store := Store(SeedUsers, SeedPosts, SeedComments, Undefined)

  lemma SeedUserIdsDistinct()
    ensures UniqueKeys(SeedUsers, UserKey)
  {
  }

  lemma SeedPostIdsDistinct()
    ensures UniqueKeys(SeedPosts, PostKey)
  {
  }

  lemma SeedCommentIdsDistinct()
    ensures UniqueKeys(SeedComments, CommentKey)
  {
  }

  lemma SeedIsValid()
    ensures Valid(Initial)
  {
    SeedUserIdsDistinct();
    SeedPostIdsDistinct();
    SeedCommentIdsDistinct();
  }

  /** Every seed post names a seed user as its author. */
  lemma SeedPostsNameUsers()
    ensures forall i :: 0 <= i < |SeedPosts| ==> HasKey(SeedUsers, UserKey, SeedPosts[i].userId)
  {
    assert UserKey(SeedUsers[0]) == "1" && UserKey(SeedUsers[1]) == "2";
  }

  /** Every seed comment names a seed post and a seed user. */
  lemma SeedCommentsNamePostsAndUsers()
    ensures forall i :: 0 <= i < |SeedComments| ==> HasKey(SeedPosts, PostKey, SeedComments[i].postId)
    ensures forall i :: 0 <= i < |SeedComments| ==> HasKey(SeedUsers, UserKey, SeedComments[i].userId)
  {
    assert UserKey(SeedUsers[0]) == "1" && UserKey(SeedUsers[1]) == "2";
    assert PostKey(SeedPosts[0]) == "1" && PostKey(SeedPosts[1]) == "2" && PostKey(SeedPosts[2]) == "3";
  }

  lemma SeedReferencesResolve()
    ensures ReferencesResolve(Initial)
  {
    SeedPostsNameUsers();
    SeedCommentsNamePostsAndUsers();
  }

  /** `User.posts` of user "1": posts "1" and "2", in that order. */
  lemma SeedPostsOfUserOne()
    ensures UserPosts(Initial, SeedUsers[0]) == [SeedPosts[0], SeedPosts[1]]
  {
  }

  /** `Post.comments` of post "1": comments "1" and "2", in that order. */
  lemma SeedCommentsOfPostOne()
    ensures PostComments(Initial, SeedPosts[0]) == [SeedComments[0], SeedComments[1]]
  {
  }

  /** Creating user Ada (30) with a fresh id appends her, leaves the seed
      users in place, and makes her findable by that id. */
  lemma CreateAdaScenario(id: Id)
    requires !HasKey(SeedUsers, UserKey, id)
    ensures
      var (st, ada) := CreateUser(Initial, id, CreateUserInput("Ada", 30));
      && ada == User(id, "Ada", 30)
      && st.users == SeedUsers + [ada]
      && GetUser(st, id) == Some(ada)
  {
  }

  /** `updateUser("1", { age: 31 })` on the seed store. */
  lemma UpdateAgeScenario()
    ensures UpdateUser(Initial, "1", UpdateUserInput(None, Some(31))).Success?
    ensures UpdateUser(Initial, "1", UpdateUserInput(None, Some(31))).value.1 == User("1", "Mehmet Seven", 31)
  {
  }

  /** `deleteUser("99")` on the seed store fails with "User Not Found". */
  lemma DeleteMissingScenario()
    ensures DeleteUser(Initial, "99") == Failure(UserNotFound)
  {
    assert !HasKey(SeedUsers, UserKey, "99");
  }

  /** The defect, on the seed store: updating the missing comment "99"
      succeeds with an id-less object of the supplied fields, which it also
      leaves in the array's property "-1"; the comments are unchanged. The
      intended update fails with "Comment Not Found". */
  lemma UpdateMissingCommentScenario()
    ensures UpdateCommentAsWritten(Initial, "99", UpdateCommentInput(Some("x"), None, None))
         == Success((Initial.(strayComment := map["text" := Str("x")]), map["text" := Str("x")]))
    ensures UpdateComment(Initial, "99", UpdateCommentInput(Some("x"), None, None)) == Failure(CommentNotFound)
  {
    assert !HasKey(SeedComments, CommentKey, "99");
    var data := UpdateCommentInput(Some("x"), None, None);
    assert OptionalStr("text", data.text) == map["text" := Str("x")];
    assert UpdateCommentObject(data) == map["text" := Str("x")];
    assert Spread(Undefined, map["text" := Str("x")]) == map["text" := Str("x")];
  }

  /** A second miss reads back the stray object of the first: after
      updating the missing comment "99" with `{ text: "x" }`, updating the
      missing comment "98" with `{ post_id: "2" }` returns both fields. */
  lemma SecondMissingCommentScenario()
    ensures
      var st := UpdateCommentAsWritten(Initial, "99", UpdateCommentInput(Some("x"), None, None)).value.0;
      UpdateCommentAsWritten(st, "98", UpdateCommentInput(None, Some("2"), None)).value.1
        == map["text" := Str("x"), "post_id" := Str("2")]
  {
    UpdateMissingCommentScenario();
    var st := Initial.(strayComment := map["text" := Str("x")]);
    assert !HasKey(st.comments, CommentKey, "98");
    var data := UpdateCommentInput(None, Some("2"), None);
    assert OptionalStr("post_id", data.postId) == map["post_id" := Str("2")];
    assert UpdateCommentObject(data) == map["post_id" := Str("2")];
  }

  /** The "-1" object outlives a delete-all: after the miss on "99", a
      `deleteAllComments` and then a miss on "98" with `{ post_id: "2" }`
      still return the text of the first miss. */
  lemma StraySurvivesDeleteAllComments()
    ensures
      var st := UpdateCommentAsWritten(Initial, "99", UpdateCommentInput(Some("x"), None, None)).value.0;
      var st' := DeleteAllComments(st).0;
      UpdateCommentAsWritten(st', "98", UpdateCommentInput(None, Some("2"), None)).value.1
        == map["text" := Str("x"), "post_id" := Str("2")]
  {
    UpdateMissingCommentScenario();
    var st' := DeleteAllComments(Initial.(strayComment := map["text" := Str("x")])).0;
    assert !HasKey(st'.comments, CommentKey, "98");
    var data := UpdateCommentInput(None, Some("2"), None);
    assert OptionalStr("post_id", data.postId) == map["post_id" := Str("2")];
    assert UpdateCommentObject(data) == map["post_id" := Str("2")];
  }

  /** Deletes do not cascade: after user "1" is deleted, the posts that name
      it stay, and their `Post.user` is `undefined`. */
  lemma DeleteUserLeavesDanglingPosts()
    ensures DeleteUser(Initial, "1").Success?
    ensures
      var st := DeleteUser(Initial, "1").value.0;
      && st.posts == SeedPosts
      && PostUser(st, SeedPosts[0]) == None
      && !ReferencesResolve(st)
  {
    var st := DeleteUser(Initial, "1").value.0;
    SeedIsValid();
    DeleteUserKeepsValid(Initial, "1");
    assert !HasKey(st.users, UserKey, st.posts[0].userId);
  }
}
