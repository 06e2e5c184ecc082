/** What every operation keeps true of the store, and how operations
    relate to one another: ids stay unique in each collection (given a
    fresh id for each create), a lookup after a create or update finds the
    new record, a lookup after a delete finds nothing, and scans follow
    creates. */
module StoreInvariants {
  import opened Wrappers
  import opened Entities
  import opened Collection
  import opened Resolvers

  /** Ids are unique within each collection. */
  ghost predicate Valid(st: Store) {
    && UniqueKeys(st.users, UserKey)
    && UniqueKeys(st.posts, PostKey)
    && UniqueKeys(st.comments, CommentKey)
  }

  /** Every foreign key names a record that exists. The resolvers never
      check or restore this; the seed store has it. */
  ghost predicate ReferencesResolve(st: Store) {
    && (forall i :: 0 <= i < |st.posts| ==> HasKey(st.users, UserKey, st.posts[i].userId))
    && (forall i :: 0 <= i < |st.comments| ==> HasKey(st.posts, PostKey, st.comments[i].postId))
    && (forall i :: 0 <= i < |st.comments| ==> HasKey(st.users, UserKey, st.comments[i].userId))
  }

  // ---- Creates ----

  lemma CreateUserKeepsValid(st: Store, id: Id, data: CreateUserInput)
    requires Valid(st)
    requires !HasKey(st.users, UserKey, id)
    ensures Valid(CreateUser(st, id, data).0)
  {
    PushFreshKey(st.users, UserKey, NewUser(id, data));
  }

  lemma CreatePostKeepsValid(st: Store, id: Id, data: CreatePostInput)
    requires Valid(st)
    requires !HasKey(st.posts, PostKey, id)
    ensures Valid(CreatePost(st, id, data).0)
  {
    PushFreshKey(st.posts, PostKey, NewPost(id, data));
  }

  lemma CreateCommentKeepsValid(st: Store, id: Id, data: CreateCommentInput)
    requires Valid(st)
    requires !HasKey(st.comments, CommentKey, id)
    ensures Valid(CreateComment(st, id, data).0)
  {
    PushFreshKey(st.comments, CommentKey, NewComment(id, data));
  }

  // ---- Updates ----

  /** A successful update keeps ids unique, and looking the id up afterwards
      finds the updated record. */
  lemma UpdateUserKeepsValid(st: Store, id: Id, data: UpdateUserInput)
    requires Valid(st)
    ensures UpdateUser(st, id, data).Success? ==>
      var (st', user) := UpdateUser(st, id, data).value;
      Valid(st') && GetUser(st', id) == Some(user)
  {
    var r := UpdateUser(st, id, data);
    if r.Success? {
      var i := FindIndex(st.users, UserKey, id);
      ReplaceSameKey(st.users, r.value.0.users, UserKey, i, r.value.1);
      FindUniqueKey(r.value.0.users, UserKey, i);
    }
  }

  lemma UpdatePostKeepsValid(st: Store, id: Id, data: UpdatePostInput)
    requires Valid(st)
    ensures UpdatePost(st, id, data).Success? ==>
      var (st', post) := UpdatePost(st, id, data).value;
      Valid(st') && GetPost(st', id) == Some(post)
  {
    var r := UpdatePost(st, id, data);
    if r.Success? {
      var i := FindIndex(st.posts, PostKey, id);
      ReplaceSameKey(st.posts, r.value.0.posts, PostKey, i, r.value.1);
      FindUniqueKey(r.value.0.posts, PostKey, i);
    }
  }

  lemma UpdateCommentKeepsValid(st: Store, id: Id, data: UpdateCommentInput)
    requires Valid(st)
    ensures UpdateComment(st, id, data).Success? ==>
      var (st', comment) := UpdateComment(st, id, data).value;
      Valid(st') && GetComment(st', id) == Some(comment)
  {
    var r := UpdateComment(st, id, data);
    if r.Success? {
      var i := FindIndex(st.comments, CommentKey, id);
      ReplaceSameKey(st.comments, r.value.0.comments, CommentKey, i, r.value.1);
      FindUniqueKey(r.value.0.comments, CommentKey, i);
    }
  }

  /** The update as written keeps ids unique too: on a missing id it leaves
      the comments as they were. */
  lemma UpdateCommentAsWrittenKeepsValid(st: Store, id: Id, data: UpdateCommentInput)
    requires Valid(st)
    ensures Valid(UpdateCommentAsWritten(st, id, data).value.0)
  {
    UpdateCommentKeepsValid(st, id, data);
  }

  /** An update that supplies no field returns the record as it was and
      leaves the store unchanged. */
  lemma UpdateUserWithNothing(st: Store, id: Id)
    requires HasKey(st.users, UserKey, id)
    ensures UpdateUser(st, id, UpdateUserInput(None, None)) == Success((st, st.users[FindIndex(st.users, UserKey, id)]))
  {
    var i := FindIndex(st.users, UserKey, id);
    MergeUserEmpty(st.users[i]);
    assert st.users[i := st.users[i]] == st.users;
  }

  lemma UpdatePostWithNothing(st: Store, id: Id)
    requires HasKey(st.posts, PostKey, id)
    ensures UpdatePost(st, id, UpdatePostInput(None, None)) == Success((st, st.posts[FindIndex(st.posts, PostKey, id)]))
  {
    var i := FindIndex(st.posts, PostKey, id);
    MergePostEmpty(st.posts[i]);
    assert st.posts[i := st.posts[i]] == st.posts;
  }

  lemma UpdateCommentWithNothing(st: Store, id: Id)
    requires HasKey(st.comments, CommentKey, id)
    ensures UpdateComment(st, id, UpdateCommentInput(None, None, None)) == Success((st, st.comments[FindIndex(st.comments, CommentKey, id)]))
  {
    var i := FindIndex(st.comments, CommentKey, id);
    MergeCommentEmpty(st.comments[i]);
    assert st.comments[i := st.comments[i]] == st.comments;
  }

  // ---- Deletes ----

  /** A successful delete keeps ids unique, and looking the id up
      afterwards finds nothing. */
  lemma DeleteUserKeepsValid(st: Store, id: Id)
    requires Valid(st)
    ensures DeleteUser(st, id).Success? ==>
      var st' := DeleteUser(st, id).value.0;
      Valid(st') && GetUser(st', id) == None
  {
    var r := DeleteUser(st, id);
    if r.Success? {
      RemoveKeepsUnique(st.users, r.value.0.users, UserKey, FindIndex(st.users, UserKey, id));
    }
  }

  lemma DeletePostKeepsValid(st: Store, id: Id)
    requires Valid(st)
    ensures DeletePost(st, id).Success? ==>
      var st' := DeletePost(st, id).value.0;
      Valid(st') && GetPost(st', id) == None
  {
    var r := DeletePost(st, id);
    if r.Success? {
      RemoveKeepsUnique(st.posts, r.value.0.posts, PostKey, FindIndex(st.posts, PostKey, id));
    }
  }

  lemma DeleteCommentKeepsValid(st: Store, id: Id)
    requires Valid(st)
    ensures DeleteComment(st, id).Success? ==>
      var st' := DeleteComment(st, id).value.0;
      Valid(st') && GetComment(st', id) == None
  {
    var r := DeleteComment(st, id);
    if r.Success? {
      RemoveKeepsUnique(st.comments, r.value.0.comments, CommentKey, FindIndex(st.comments, CommentKey, id));
    }
  }

  /** After a delete-all, the store is still valid and no id of that
      collection is found. */
  lemma DeleteAllKeepsValid(st: Store, id: Id)
    requires Valid(st)
    ensures Valid(DeleteAllUsers(st).0) && GetUser(DeleteAllUsers(st).0, id) == None
    ensures Valid(DeleteAllPosts(st).0) && GetPost(DeleteAllPosts(st).0, id) == None
    ensures Valid(DeleteAllComments(st).0) && GetComment(DeleteAllComments(st).0, id) == None
  {
  }

  // ---- Scans and creates ----

  /** A new post joins its author's post list at the end, and no other
      user's list changes. */
  lemma CreatePostExtendsUserPosts(st: Store, id: Id, data: CreatePostInput, u: User)
    ensures
      var (st', post) := CreatePost(st, id, data);
      UserPosts(st', u) == UserPosts(st, u) + (if data.userId == u.id then [post] else [])
  {
    SelectPush(st.posts, PostUserId, u.id, NewPost(id, data));
  }

  /** A new comment joins its post's comment list at the end. */
  lemma CreateCommentExtendsPostComments(st: Store, id: Id, data: CreateCommentInput, p: Post)
    ensures
      var (st', comment) := CreateComment(st, id, data);
      PostComments(st', p) == PostComments(st, p) + (if data.postId == p.id then [comment] else [])
  {
    SelectPush(st.comments, CommentPostId, p.id, NewComment(id, data));
  }

  /** A new comment joins its author's comment list at the end. */
  lemma CreateCommentExtendsUserComments(st: Store, id: Id, data: CreateCommentInput, u: User)
    ensures
      var (st', comment) := CreateComment(st, id, data);
      UserComments(st', u) == UserComments(st, u) + (if data.userId == u.id then [comment] else [])
  {
    SelectPush(st.comments, CommentUserId, u.id, NewComment(id, data));
  }

  /** Each relationship scan holds every matching record exactly as often
      as the collection does, and no other record. */
  lemma ScansCountEveryMatch(st: Store, u: User, p: Post)
    ensures forall q :: multiset(UserPosts(st, u))[q] == if q.userId == u.id then multiset(st.posts)[q] else 0
    ensures forall c :: multiset(UserComments(st, u))[c] == if c.userId == u.id then multiset(st.comments)[c] else 0
    ensures forall c :: multiset(PostComments(st, p))[c] == if c.postId == p.id then multiset(st.comments)[c] else 0
  {
    SelectContents(st.posts, PostUserId, u.id);
    SelectContents(st.comments, CommentUserId, u.id);
    SelectContents(st.comments, CommentPostId, p.id);
  }

  /** The list queries follow the mutations: a create makes the list the
      earlier list plus the new record, and a delete-all leaves it empty. */
  lemma ListsFollowMutations(st: Store, id: Id, u: CreateUserInput, p: CreatePostInput, c: CreateCommentInput)
    ensures ListUsers(CreateUser(st, id, u).0) == ListUsers(st) + [CreateUser(st, id, u).1]
    ensures ListPosts(CreatePost(st, id, p).0) == ListPosts(st) + [CreatePost(st, id, p).1]
    ensures ListComments(CreateComment(st, id, c).0) == ListComments(st) + [CreateComment(st, id, c).1]
    ensures ListUsers(DeleteAllUsers(st).0) == [] && ListPosts(DeleteAllPosts(st).0) == []
    ensures ListComments(DeleteAllComments(st).0) == []
  {
    var users := CreateUser(st, id, u).0.users;
    assert users == st.users + [CreateUser(st, id, u).1];
    var posts := CreatePost(st, id, p).0.posts;
    assert posts == st.posts + [CreatePost(st, id, p).1];
    var comments := CreateComment(st, id, c).0.comments;
    assert comments == st.comments + [CreateComment(st, id, c).1];
  }
}
