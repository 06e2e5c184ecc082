/** The three record kinds of the store, the inputs the mutations accept,
    and how a record is built (`{ id, ...data }`) and updated
    (`{ ...record, ...data }`). Each typed operation is tied to the object
    spread it models through the record's object view. */
module Entities {
  import opened Wrappers
  import opened JsObject

  /** An opaque identifier (GraphQL `ID`), compared with `===`. */
  type Id = string

  datatype User = User(id: Id, fullName: string, age: int)
  datatype Post = Post(id: Id, title: string, userId: Id)
  datatype Comment = Comment(id: Id, text: string, postId: Id, userId: Id)

  /** Create inputs: every field required, no id (the store assigns it). */
  datatype CreateUserInput = CreateUserInput(fullName: string, age: int)
  datatype CreatePostInput = CreatePostInput(title: string, userId: Id)
  datatype CreateCommentInput = CreateCommentInput(text: string, postId: Id, userId: Id)

  /** Update inputs: every field optional (`None` = not supplied), no id. */
  datatype UpdateUserInput = UpdateUserInput(fullName: Option<string>, age: Option<int>)
  datatype UpdatePostInput = UpdatePostInput(title: Option<string>, userId: Option<Id>)
  datatype UpdateCommentInput = UpdateCommentInput(text: Option<string>, postId: Option<Id>, userId: Option<Id>)

  // Key accessors: the primary key of each kind and the two foreign keys.

  function UserKey(u: User): Id { u.id }
  function PostKey(p: Post): Id { p.id }
  function PostUserId(p: Post): Id { p.userId }
  function CommentKey(c: Comment): Id { c.id }
  function CommentPostId(c: Comment): Id { c.postId }
  function CommentUserId(c: Comment): Id { c.userId }

  // Object views, with the property names the JavaScript records use.

  function IdObject(id: Id): Object { map["id" := Str(id)] }

  /** An optional input field as an object with that property or without it. */
  function OptionalStr(name: string, v: Option<string>): Object {
    if v.Some? then map[name := Str(v.value)] else map[]
  }

  function OptionalNum(name: string, v: Option<int>): Object {
    if v.Some? then map[name := Num(v.value)] else map[]
  }

  function UserObject(u: User): Object {
    map["id" := Str(u.id), "fullName" := Str(u.fullName), "age" := Num(u.age)]
  }

  function PostObject(p: Post): Object {
    map["id" := Str(p.id), "title" := Str(p.title), "user_id" := Str(p.userId)]
  }

  function CommentObject(c: Comment): Object {
    map["id" := Str(c.id), "text" := Str(c.text), "post_id" := Str(c.postId), "user_id" := Str(c.userId)]
  }

  function CreateUserObject(d: CreateUserInput): Object {
    map["fullName" := Str(d.fullName), "age" := Num(d.age)]
  }

  function CreatePostObject(d: CreatePostInput): Object {
    map["title" := Str(d.title), "user_id" := Str(d.userId)]
  }

  function CreateCommentObject(d: CreateCommentInput): Object {
    map["text" := Str(d.text), "post_id" := Str(d.postId), "user_id" := Str(d.userId)]
  }

  function UpdateUserObject(d: UpdateUserInput): Object {
    OptionalStr("fullName", d.fullName) + OptionalNum("age", d.age)
  }

  function UpdatePostObject(d: UpdatePostInput): Object {
    OptionalStr("title", d.title) + OptionalStr("user_id", d.userId)
  }

  function UpdateCommentObject(d: UpdateCommentInput): Object {
    OptionalStr("text", d.text) + OptionalStr("post_id", d.postId) + OptionalStr("user_id", d.userId)
  }

  // Construction: `{ id: nanoid(), ...data }`.

  function NewUser(id: Id, data: CreateUserInput): (u: User)
    ensures UserObject(u) == Spread(IdObject(id), CreateUserObject(data))
  {
    User(id, data.fullName, data.age)
  }

  function NewPost(id: Id, data: CreatePostInput): (p: Post)
    ensures PostObject(p) == Spread(IdObject(id), CreatePostObject(data))
  {
    Post(id, data.title, data.userId)
  }

  function NewComment(id: Id, data: CreateCommentInput): (c: Comment)
    ensures CommentObject(c) == Spread(IdObject(id), CreateCommentObject(data))
  {
    Comment(id, data.text, data.postId, data.userId)
  }

  // Shallow merge: `{ ...record, ...data }`. Supplied fields override,
  // omitted ones keep their value, and the id survives because no update
  // input has an id field.

  function MergeUser(u: User, data: UpdateUserInput): (r: User)
    ensures UserObject(r) == Spread(UserObject(u), UpdateUserObject(data))
  {
    User(u.id, data.fullName.GetOr(u.fullName), data.age.GetOr(u.age))
  }

  function MergePost(p: Post, data: UpdatePostInput): (r: Post)
    ensures PostObject(r) == Spread(PostObject(p), UpdatePostObject(data))
  {
    Post(p.id, data.title.GetOr(p.title), data.userId.GetOr(p.userId))
  }

  function MergeComment(c: Comment, data: UpdateCommentInput): (r: Comment)
    ensures CommentObject(r) == Spread(CommentObject(c), UpdateCommentObject(data))
  {
    Comment(c.id, data.text.GetOr(c.text), data.postId.GetOr(c.postId), data.userId.GetOr(c.userId))
  }

  // The object views are faithful: two records with the same object are the
  // same record, so every fact proved about a spread carries over.

  lemma UserObjectInjective(a: User, b: User)
    requires UserObject(a) == UserObject(b)
    ensures a == b
  {
    assert UserObject(a)["id"] == UserObject(b)["id"];
    assert UserObject(a)["fullName"] == UserObject(b)["fullName"];
    assert UserObject(a)["age"] == UserObject(b)["age"];
  }

  lemma PostObjectInjective(a: Post, b: Post)
    requires PostObject(a) == PostObject(b)
    ensures a == b
  {
    assert PostObject(a)["id"] == PostObject(b)["id"];
    assert PostObject(a)["title"] == PostObject(b)["title"];
    assert PostObject(a)["user_id"] == PostObject(b)["user_id"];
  }

  lemma CommentObjectInjective(a: Comment, b: Comment)
    requires CommentObject(a) == CommentObject(b)
    ensures a == b
  {
    assert CommentObject(a)["id"] == CommentObject(b)["id"];
    assert CommentObject(a)["text"] == CommentObject(b)["text"];
    assert CommentObject(a)["post_id"] == CommentObject(b)["post_id"];
    assert CommentObject(a)["user_id"] == CommentObject(b)["user_id"];
  }

  /** An update input that supplies nothing changes nothing. */
  lemma MergeUserEmpty(u: User)
    ensures MergeUser(u, UpdateUserInput(None, None)) == u
  {
  }

  lemma MergePostEmpty(p: Post)
    ensures MergePost(p, UpdatePostInput(None, None)) == p
  {
  }

  lemma MergeCommentEmpty(c: Comment)
    ensures MergeComment(c, UpdateCommentInput(None, None, None)) == c
  {
  }

  // The spread determines the merge: any record whose object is the spread
  // of the old record and the supplied fields IS the merged record.

  lemma MergeUserIsTheSpread(u: User, data: UpdateUserInput, r: User)
    requires UserObject(r) == Spread(UserObject(u), UpdateUserObject(data))
    ensures r == MergeUser(u, data)
  {
    UserObjectInjective(r, MergeUser(u, data));
  }

  lemma MergePostIsTheSpread(p: Post, data: UpdatePostInput, r: Post)
    requires PostObject(r) == Spread(PostObject(p), UpdatePostObject(data))
    ensures r == MergePost(p, data)
  {
    PostObjectInjective(r, MergePost(p, data));
  }

  lemma MergeCommentIsTheSpread(c: Comment, data: UpdateCommentInput, r: Comment)
    requires CommentObject(r) == Spread(CommentObject(c), UpdateCommentObject(data))
    ensures r == MergeComment(c, data)
  {
    CommentObjectInjective(r, MergeComment(c, data));
  }
}
