/** The resolver layer: every `Mutation`, `Query` and relationship-field
    resolver, over a store value that stands for the three module-level
    arrays. A mutation returns the store after it together with its result;
    a failing one returns only the error, so the caller's store is the one
    that stays. */
module Resolvers {
  import opened Wrappers
  import opened JsObject
  import opened Entities
  import opened Collection

  /** The three collections, each in insertion order, and the object held
      by the property "-1" of the comments array. That property is not an
      element: only the as-written `updateComment` reads and writes it, and
      `Undefined` stands for "not set". */
  datatype Store = Store(users: seq<User>, posts: seq<Post>, comments: seq<Comment>, strayComment: Object)

  /** The one error the resolvers throw, with its message. */
  datatype Error = NotFound(message: string)

  const UserNotFound := NotFound("User Not Found")
  const PostNotFound := NotFound("Post Not Found")
  const CommentNotFound := NotFound("Comment Not Found")

  /** `DeleteAllOutput`: how many records a delete-all removed. */
  datatype DeleteAllOutput = DeleteAllOutput(count: nat)

  // ---- Mutation: users ----

  /** `createUser`: push `{ id, ...data }`, with `id` the fresh id the
      generator supplied. */
  function CreateUser(st: Store, id: Id, data: CreateUserInput): (r: (Store, User))
    ensures r.1.id == id && r.1.fullName == data.fullName && r.1.age == data.age
    ensures |r.0.users| == |st.users| + 1 && r.0.users[|st.users|] == r.1
    ensures forall j :: 0 <= j < |st.users| ==> r.0.users[j] == st.users[j]
    ensures r.0.posts == st.posts && r.0.comments == st.comments
    ensures r.0.strayComment == st.strayComment
    ensures !HasKey(st.users, UserKey, id) ==> Find(r.0.users, UserKey, id) == Some(r.1)
  {
    var user := NewUser(id, data);
    var users := st.users + [user];
    FindAfterPush(st.users, UserKey, user);
    (st.(users := users), user)
  }

  /** `updateUser`: fails when no user has `id`; otherwise the first user
      with that id is replaced, in place, by `{ ...user, ...data }`. */
  function UpdateUser(st: Store, id: Id, data: UpdateUserInput): (r: Result<(Store, User), Error>)
    ensures r.Failure? <==> !HasKey(st.users, UserKey, id)
    ensures r.Failure? ==> r.error == UserNotFound
    ensures r.Success? ==>
      var i := FindIndex(st.users, UserKey, id);
      var (st', user) := r.value;
      && user.id == id
      && user.fullName == (if data.fullName.Some? then data.fullName.value else st.users[i].fullName)
      && user.age == (if data.age.Some? then data.age.value else st.users[i].age)
      && ReplacedAt(st.users, st'.users, i, user)
      && st'.posts == st.posts && st'.comments == st.comments
      && st'.strayComment == st.strayComment
  {
    var i := FindIndex(st.users, UserKey, id);
    if i == -1 then Failure(UserNotFound)
    else
      var updated := MergeUser(st.users[i], data);
      Success((st.(users := st.users[i := updated]), updated))
  }

  /** `deleteUser`: fails when no user has `id`; otherwise the first user
      with that id is spliced out and returned. */
  function DeleteUser(st: Store, id: Id): (r: Result<(Store, User), Error>)
    ensures r.Failure? <==> !HasKey(st.users, UserKey, id)
    ensures r.Failure? ==> r.error == UserNotFound
    ensures r.Success? ==>
      var i := FindIndex(st.users, UserKey, id);
      var (st', user) := r.value;
      && user == st.users[i] && user.id == id
      && RemovedAt(st.users, st'.users, i)
      && st'.posts == st.posts && st'.comments == st.comments
      && st'.strayComment == st.strayComment
  {
    var i := FindIndex(st.users, UserKey, id);
    if i == -1 then Failure(UserNotFound)
    else
      SpliceOne(st.users, i);
      Success((st.(users := Splice(st.users, i, 1)), st.users[i]))
  }

  /** `deleteAllUsers`: splice every user out and report how many there were. */
  function DeleteAllUsers(st: Store): (r: (Store, DeleteAllOutput))
    ensures r.1.count == |st.users|
    ensures r.0.users == [] && r.0.posts == st.posts && r.0.comments == st.comments
    ensures r.0.strayComment == st.strayComment
  {
    var length := |st.users|;
    (st.(users := Splice(st.users, 0, length)), DeleteAllOutput(length))
  }

  // ---- Mutation: posts ----

  /** `createPost`: push `{ id, ...data }`. The author id is not checked. */
  function CreatePost(st: Store, id: Id, data: CreatePostInput): (r: (Store, Post))
    ensures r.1.id == id && r.1.title == data.title && r.1.userId == data.userId
    ensures |r.0.posts| == |st.posts| + 1 && r.0.posts[|st.posts|] == r.1
    ensures forall j :: 0 <= j < |st.posts| ==> r.0.posts[j] == st.posts[j]
    ensures r.0.users == st.users && r.0.comments == st.comments
    ensures r.0.strayComment == st.strayComment
    ensures !HasKey(st.posts, PostKey, id) ==> Find(r.0.posts, PostKey, id) == Some(r.1)
  {
    var post := NewPost(id, data);
    var posts := st.posts + [post];
    FindAfterPush(st.posts, PostKey, post);
    (st.(posts := posts), post)
  }

  /** `updatePost`: fails when no post has `id`; otherwise the first post
      with that id is replaced, in place, by `{ ...post, ...data }`. */
  function UpdatePost(st: Store, id: Id, data: UpdatePostInput): (r: Result<(Store, Post), Error>)
    ensures r.Failure? <==> !HasKey(st.posts, PostKey, id)
    ensures r.Failure? ==> r.error == PostNotFound
    ensures r.Success? ==>
      var i := FindIndex(st.posts, PostKey, id);
      var (st', post) := r.value;
      && post.id == id
      && post.title == (if data.title.Some? then data.title.value else st.posts[i].title)
      && post.userId == (if data.userId.Some? then data.userId.value else st.posts[i].userId)
      && ReplacedAt(st.posts, st'.posts, i, post)
      && st'.users == st.users && st'.comments == st.comments
      && st'.strayComment == st.strayComment
  {
    var i := FindIndex(st.posts, PostKey, id);
    if i == -1 then Failure(PostNotFound)
    else
      var updated := MergePost(st.posts[i], data);
      Success((st.(posts := st.posts[i := updated]), updated))
  }

  /** `deletePost`: fails when no post has `id`; otherwise the first post
      with that id is spliced out and returned. Its comments stay. */
  function DeletePost(st: Store, id: Id): (r: Result<(Store, Post), Error>)
    ensures r.Failure? <==> !HasKey(st.posts, PostKey, id)
    ensures r.Failure? ==> r.error == PostNotFound
    ensures r.Success? ==>
      var i := FindIndex(st.posts, PostKey, id);
      var (st', post) := r.value;
      && post == st.posts[i] && post.id == id
      && RemovedAt(st.posts, st'.posts, i)
      && st'.users == st.users && st'.comments == st.comments
      && st'.strayComment == st.strayComment
  {
    var i := FindIndex(st.posts, PostKey, id);
    if i == -1 then Failure(PostNotFound)
    else
      SpliceOne(st.posts, i);
      Success((st.(posts := Splice(st.posts, i, 1)), st.posts[i]))
  }

  /** `deleteAllPosts`: splice every post out and report how many there were. */
  function DeleteAllPosts(st: Store): (r: (Store, DeleteAllOutput))
    ensures r.1.count == |st.posts|
    ensures r.0.posts == [] && r.0.users == st.users && r.0.comments == st.comments
    ensures r.0.strayComment == st.strayComment
  {
    var length := |st.posts|;
    (st.(posts := Splice(st.posts, 0, length)), DeleteAllOutput(length))
  }

  // ---- Mutation: comments ----

  /** `createComment`: push `{ id, ...data }`. Neither foreign key is checked. */
  function CreateComment(st: Store, id: Id, data: CreateCommentInput): (r: (Store, Comment))
    ensures r.1.id == id && r.1.text == data.text && r.1.postId == data.postId && r.1.userId == data.userId
    ensures |r.0.comments| == |st.comments| + 1 && r.0.comments[|st.comments|] == r.1
    ensures forall j :: 0 <= j < |st.comments| ==> r.0.comments[j] == st.comments[j]
    ensures r.0.users == st.users && r.0.posts == st.posts
    ensures r.0.strayComment == st.strayComment
    ensures !HasKey(st.comments, CommentKey, id) ==> Find(r.0.comments, CommentKey, id) == Some(r.1)
  {
    var comment := NewComment(id, data);
    var comments := st.comments + [comment];
    FindAfterPush(st.comments, CommentKey, comment);
    (st.(comments := comments), comment)
  }

  /** `updateComment` with the not-found test it evidently intends
      (`comment_index === -1`), the same shape as `updateUser`. */
  function UpdateComment(st: Store, id: Id, data: UpdateCommentInput): (r: Result<(Store, Comment), Error>)
    ensures r.Failure? <==> !HasKey(st.comments, CommentKey, id)
    ensures r.Failure? ==> r.error == CommentNotFound
    ensures r.Success? ==>
      var i := FindIndex(st.comments, CommentKey, id);
      var (st', comment) := r.value;
      && comment.id == id
      && comment.text == (if data.text.Some? then data.text.value else st.comments[i].text)
      && comment.postId == (if data.postId.Some? then data.postId.value else st.comments[i].postId)
      && comment.userId == (if data.userId.Some? then data.userId.value else st.comments[i].userId)
      && ReplacedAt(st.comments, st'.comments, i, comment)
      && st'.users == st.users && st'.posts == st.posts
      && st'.strayComment == st.strayComment
  {
    var i := FindIndex(st.comments, CommentKey, id);
    if i == -1 then Failure(CommentNotFound)
    else
      var updated := MergeComment(st.comments[i], data);
      Success((st.(comments := st.comments[i := updated]), updated))
  }

  /** `updateComment` as the source writes it. Its guard compares the
      ELEMENT `comments[comment_index]` with the number -1; the element is a
      record, or the value of the property "-1" when the index is -1, and
      none of these is strictly equal to a number, so the guard never throws.
      On a missing id the update spreads that property's value (nothing, the
      first time) and the data, and writes the result back to the property
      "-1", which is not an element: the comments are unchanged, and the
      caller receives the earlier stray object overlaid with the supplied
      fields. The returned value is therefore a plain object, not a
      `Comment`. */
  function UpdateCommentAsWritten(st: Store, id: Id, data: UpdateCommentInput): (r: Result<(Store, Object), Error>)
    ensures r.Success?
    ensures HasKey(st.comments, CommentKey, id) ==>
      var fixed := UpdateComment(st, id, data);
      fixed.Success? && r.value == (fixed.value.0, CommentObject(fixed.value.1))
    ensures !HasKey(st.comments, CommentKey, id) ==>
      var (st', stray) := r.value;
      && st'.users == st.users && st'.posts == st.posts && st'.comments == st.comments
      && st'.strayComment == stray
      && stray.Keys == st.strayComment.Keys + UpdateCommentObject(data).Keys
      && (forall name :: name in UpdateCommentObject(data) ==> stray[name] == UpdateCommentObject(data)[name])
      && (forall name :: name in st.strayComment && name !in UpdateCommentObject(data) ==> stray[name] == st.strayComment[name])
      && ("id" !in st.strayComment ==> "id" !in stray)
  {
    var i := FindIndex(st.comments, CommentKey, id);
    if i == -1 then
      var stray := Spread(st.strayComment, UpdateCommentObject(data));
      Success((st.(strayComment := stray), stray))
    else
      var updated := MergeComment(st.comments[i], data);
      Success((st.(comments := st.comments[i := updated]), CommentObject(updated)))
  }

  /** `deleteComment`: fails when no comment has `id`; otherwise the first
      comment with that id is spliced out and returned. */
  function DeleteComment(st: Store, id: Id): (r: Result<(Store, Comment), Error>)
    ensures r.Failure? <==> !HasKey(st.comments, CommentKey, id)
    ensures r.Failure? ==> r.error == CommentNotFound
    ensures r.Success? ==>
      var i := FindIndex(st.comments, CommentKey, id);
      var (st', comment) := r.value;
      && comment == st.comments[i] && comment.id == id
      && RemovedAt(st.comments, st'.comments, i)
      && st'.users == st.users && st'.posts == st.posts
      && st'.strayComment == st.strayComment
  {
    var i := FindIndex(st.comments, CommentKey, id);
    if i == -1 then Failure(CommentNotFound)
    else
      SpliceOne(st.comments, i);
      Success((st.(comments := Splice(st.comments, i, 1)), st.comments[i]))
  }

  /** `deleteAllComments`: splice every comment out and report how many
      there were. */
  function DeleteAllComments(st: Store): (r: (Store, DeleteAllOutput))
    ensures r.1.count == |st.comments|
    ensures r.0.comments == [] && r.0.users == st.users && r.0.posts == st.posts
    ensures r.0.strayComment == st.strayComment
  {
    var length := |st.comments|;
    (st.(comments := Splice(st.comments, 0, length)), DeleteAllOutput(length))
  }

  // ---- Query ----

  /** `users`: the users themselves, in insertion order. */
  function ListUsers(st: Store): (r: seq<User>)
    ensures r == st.users
  {
    st.users
  }

  /** `posts`: the posts themselves, in insertion order. */
  function ListPosts(st: Store): (r: seq<Post>)
    ensures r == st.posts
  {
    st.posts
  }

  /** `comments`: the comments themselves, in insertion order; the stray
      property "-1" is not listed. */
  function ListComments(st: Store): (r: seq<Comment>)
    ensures r == st.comments
  {
    st.comments
  }

  /** `user(id)`: the first user with that id, or `undefined`. */
  function GetUser(st: Store, id: Id): (r: Option<User>)
    ensures r.None? <==> !HasKey(st.users, UserKey, id)
    ensures r.Some? ==> r.value in st.users && r.value.id == id
    ensures r == (if FindIndex(st.users, UserKey, id) == -1 then None
                  else Some(st.users[FindIndex(st.users, UserKey, id)]))
  {
    FindAgreesWithFindIndex(st.users, UserKey, id);
    Find(st.users, UserKey, id)
  }

  /** `post(id)`: the first post with that id, or `undefined`. */
  function GetPost(st: Store, id: Id): (r: Option<Post>)
    ensures r.None? <==> !HasKey(st.posts, PostKey, id)
    ensures r.Some? ==> r.value in st.posts && r.value.id == id
    ensures r == (if FindIndex(st.posts, PostKey, id) == -1 then None
                  else Some(st.posts[FindIndex(st.posts, PostKey, id)]))
  {
    FindAgreesWithFindIndex(st.posts, PostKey, id);
    Find(st.posts, PostKey, id)
  }

  /** `comment(id)`: the first comment with that id, or `undefined`. */
  function GetComment(st: Store, id: Id): (r: Option<Comment>)
    ensures r.None? <==> !HasKey(st.comments, CommentKey, id)
    ensures r.Some? ==> r.value in st.comments && r.value.id == id
    ensures r == (if FindIndex(st.comments, CommentKey, id) == -1 then None
                  else Some(st.comments[FindIndex(st.comments, CommentKey, id)]))
  {
    FindAgreesWithFindIndex(st.comments, CommentKey, id);
    Find(st.comments, CommentKey, id)
  }

  // ---- Relationship fields ----

  /** `User.posts`: the posts whose `user_id` is the user's id, in order. */
  function UserPosts(st: Store, parent: User): (r: seq<Post>)
    ensures forall j :: 0 <= j < |r| ==> r[j].userId == parent.id
    ensures forall i :: 0 <= i < |st.posts| && st.posts[i].userId == parent.id ==> st.posts[i] in r
    ensures IsSubsequence(r, st.posts)
  {
    SelectContents(st.posts, PostUserId, parent.id);
    Select(st.posts, PostUserId, parent.id)
  }

  /** `User.comments`: the comments whose `user_id` is the user's id, in order. */
  function UserComments(st: Store, parent: User): (r: seq<Comment>)
    ensures forall j :: 0 <= j < |r| ==> r[j].userId == parent.id
    ensures forall i :: 0 <= i < |st.comments| && st.comments[i].userId == parent.id ==> st.comments[i] in r
    ensures IsSubsequence(r, st.comments)
  {
    SelectContents(st.comments, CommentUserId, parent.id);
    Select(st.comments, CommentUserId, parent.id)
  }

  /** `Post.comments`: the comments whose `post_id` is the post's id, in order. */
  function PostComments(st: Store, parent: Post): (r: seq<Comment>)
    ensures forall j :: 0 <= j < |r| ==> r[j].postId == parent.id
    ensures forall i :: 0 <= i < |st.comments| && st.comments[i].postId == parent.id ==> st.comments[i] in r
    ensures IsSubsequence(r, st.comments)
  {
    SelectContents(st.comments, CommentPostId, parent.id);
    Select(st.comments, CommentPostId, parent.id)
  }

  /** `Post.user`: the first user whose id is the post's `user_id`, or `undefined`. */
  function PostUser(st: Store, parent: Post): (r: Option<User>)
    ensures r.None? <==> !HasKey(st.users, UserKey, parent.userId)
    ensures r.Some? ==> r.value in st.users && r.value.id == parent.userId
    ensures r == (if FindIndex(st.users, UserKey, parent.userId) == -1 then None
                  else Some(st.users[FindIndex(st.users, UserKey, parent.userId)]))
  {
    FindAgreesWithFindIndex(st.users, UserKey, parent.userId);
    Find(st.users, UserKey, parent.userId)
  }

  /** `Comment.user`: the first user whose id is the comment's `user_id`, or `undefined`. */
  function CommentUser(st: Store, parent: Comment): (r: Option<User>)
    ensures r.None? <==> !HasKey(st.users, UserKey, parent.userId)
    ensures r.Some? ==> r.value in st.users && r.value.id == parent.userId
    ensures r == (if FindIndex(st.users, UserKey, parent.userId) == -1 then None
                  else Some(st.users[FindIndex(st.users, UserKey, parent.userId)]))
  {
    FindAgreesWithFindIndex(st.users, UserKey, parent.userId);
    Find(st.users, UserKey, parent.userId)
  }

  /** `Comment.post`: the first post whose id is the comment's `post_id`, or `undefined`. */
  function CommentPost(st: Store, parent: Comment): (r: Option<Post>)
    ensures r.None? <==> !HasKey(st.posts, PostKey, parent.postId)
    ensures r.Some? ==> r.value in st.posts && r.value.id == parent.postId
    ensures r == (if FindIndex(st.posts, PostKey, parent.postId) == -1 then None
                  else Some(st.posts[FindIndex(st.posts, PostKey, parent.postId)]))
  {
    FindAgreesWithFindIndex(st.posts, PostKey, parent.postId);
    Find(st.posts, PostKey, parent.postId)
  }
}
