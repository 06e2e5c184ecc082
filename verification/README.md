# GraphQL-CRUD resolver layer in Dafny

This project models the resolver layer of a small GraphQL API. The layer is an
in-memory relational store of three ordered collections: users, posts and
comments. For each collection it offers create, update (a shallow merge),
delete and delete-all mutations. It also offers list and get-by-id queries,
and the relationship fields `User.posts`, `User.comments`, `Post.user`,
`Post.comments`, `Comment.user` and `Comment.post`. These fields are linear
scans by a foreign key.

The model is functional:

- The three module-level arrays become one `Store` value that is threaded
  through the operations.
- Each mutation returns the new store together with its result. A mutation
  that throws returns `Failure(NotFound(message))` and no store, so the
  caller's store is the one that stays.
- Records are immutable datatypes. Update inputs have `Option` fields, where
  `None` means the field was not supplied.
- Each typed construction (`{ id, ...data }`) and merge (`{ ...record, ...data }`)
  is proved equal to JavaScript object spread, through the record's view as
  a plain object (`JsObject`).
- The array methods `findIndex`, `find`, `filter`, `push` and `splice` are
  generic over a key accessor (`Collection`).
- The list queries `users`, `posts` and `comments` return the collections
  themselves (`Resolvers.ListUsers`, `ListPosts`, `ListComments`).
- The `Store` also carries the object stored at the property "-1" of the
  comments array (`strayComment`, initially `Undefined`). It is not an
  element. Every other mutation's contract states that it is unchanged;
  only the as-written `updateComment` reads and writes it.

Modules:

- `Wrappers`: `Option` and `Result`.
- `JsObject`: plain objects and spread.
- `Entities`: the records, the mutation inputs, and how records are built
  and merged.
- `Collection`: the array operations and their lemmas.
- `Resolvers`: the store and every resolver.
- `StoreInvariants`: unique ids, referential integrity, and how operations
  compose.
- `Seed`: the initial data and concrete scenarios on it.

Two behaviours of the code are worth noting:

- Get-by-id and the `find` field resolvers (`Post.user`, `Comment.user`,
  `Comment.post`) return `undefined` (`None`) on a miss and do not throw
  (index.js:236, 240, 244-245, 255, 261-262).
- `updateComment` does not fail on a missing id. It then reads and writes
  the property "-1" of the comments array, which the store carries as
  `strayComment` (see Findings).

## Model

| member | source | states |
|---|---|---|
| JsObject.Spread | index.js:122-125 | `{...a, ...b}` has the properties of both objects; where both have one, `b`'s value wins |
| Entities.NewUser | index.js:107-111 | the created user's object is `{ id, ...data }` with the create input's fields |
| Entities.NewPost | index.js:149-153 | the created post's object is `{ id, ...data }` |
| Entities.NewComment | index.js:192-196 | the created comment's object is `{ id, ...data }` |
| Entities.MergeUser | index.js:122-125 | the merged user's object is the old user's object spread with the supplied update fields |
| Entities.MergePost | index.js:165-168 | the merged post's object is the old post's object spread with the supplied update fields |
| Entities.MergeComment | index.js:207-210 | the merged comment's object is the old comment's object spread with the supplied update fields |
| Entities.MergeUserIsTheSpread | index.js:122-125 | any user whose object is the spread of the old user and the supplied fields is the merged user, so the spread determines the merge |
| Entities.MergePostIsTheSpread | index.js:165-168 | any post whose object is the spread of the old post and the supplied fields is the merged post |
| Entities.MergeCommentIsTheSpread | index.js:207-210 | any comment whose object is the spread of the old comment and the supplied fields is the merged comment |
| Entities.MergeUserEmpty | index.js:22-25 | an update input that supplies no field leaves the user as it was |
| Entities.MergePostEmpty | index.js:40-43 | an update input that supplies no field leaves the post as it was |
| Entities.MergeCommentEmpty | index.js:59-63 | an update input that supplies no field leaves the comment as it was |
| Collection.FindIndex | index.js:116 | returns -1 exactly when no element has the key; otherwise returns the first position holding it |
| Collection.Find | index.js:236 | returns `None` exactly when no element has the key; otherwise returns an element of the sequence with that key |
| Collection.FindAgreesWithFindIndex | index.js:236 | `find` returns the element at the position `findIndex` reports, so it is the first match |
| Collection.FindUniqueKey | index.js:236 | with unique keys, looking up the key at position i returns the element at i |
| Collection.FindAfterPush | index.js:112 | after pushing an element whose key was absent, looking that key up returns that element |
| Collection.PushFreshKey | index.js:112 | pushing an element with a new key keeps the keys unique |
| Collection.ReplaceSameKey | index.js:122 | replacing one position by an element with the same key keeps the keys unique |
| Collection.RemoveKeepsUnique | index.js:135 | removing one position keeps the keys unique, and with unique keys the removed key is then absent |
| Collection.Select | index.js:249 | the filter holds only elements with a matching foreign key, as an order-preserving subsequence of the collection, and is no longer than it |
| Collection.SelectContents | index.js:249 | the filter holds every matching element as many times as the collection does, and holds no other element |
| Collection.SelectIsTheMatchingSubsequence | index.js:249 | the filter is the only order-preserving subsequence that consists of matching elements and has as many elements as there are matches |
| Collection.SelectPush | index.js:249 | filtering after a push gives the earlier filter, plus the pushed element when it matches |
| Collection.Splice | index.js:135 | `splice(start, n)` removes at most `length - start` elements from `start`; elements before `start` stay and later ones shift down |
| Collection.SpliceOne | index.js:135 | `splice(i, 1)` removes exactly position i, keeps the order of the rest, and drops one copy of `s[i]` from the multiset |
| Collection.SpliceAll | index.js:141 | `splice(0, length)` leaves an empty sequence |
| Resolvers.CreateUser | index.js:107-114 | appends exactly one user with the given id and fields; the length grows by one; earlier users and the other collections are unchanged; with a fresh id, get-by-id then returns the new user |
| Resolvers.UpdateUser | index.js:115-127 | fails with "User Not Found" exactly when no user has the id; otherwise replaces only the first matching position; supplied fields override, omitted fields keep their values, the id is kept, and the length and other collections are unchanged |
| Resolvers.DeleteUser | index.js:128-138 | fails with "User Not Found" exactly when no user has the id; otherwise returns the first matching user and removes exactly its position, keeping the order of the rest |
| Resolvers.DeleteAllUsers | index.js:139-146 | returns a count equal to the number of users before the call, and leaves no users |
| Resolvers.CreatePost | index.js:149-157 | appends exactly one post with the given id and fields, without checking `user_id`; earlier posts are unchanged; with a fresh id, get-by-id then returns the new post |
| Resolvers.UpdatePost | index.js:158-171 | fails with "Post Not Found" exactly when no post has the id; otherwise replaces only the first matching position with the shallow merge; the id is kept |
| Resolvers.DeletePost | index.js:172-182 | fails with "Post Not Found" exactly when no post has the id; otherwise returns and removes exactly the first matching post, in order; comments are untouched |
| Resolvers.DeleteAllPosts | index.js:183-189 | returns a count equal to the number of posts before the call, and leaves no posts |
| Resolvers.CreateComment | index.js:192-199 | appends exactly one comment with the given id and fields, without checking its foreign keys; with a fresh id, get-by-id then returns the new comment |
| Resolvers.UpdateComment | index.js:200-212 | the corrected update: fails with "Comment Not Found" exactly when no comment has the id; otherwise replaces only the first matching position with the shallow merge |
| Resolvers.UpdateCommentAsWritten | index.js:200-212 | the update as written never fails. On an existing id it equals the corrected update. On a missing id, users, posts and comments are unchanged. The result is the earlier "-1" object overlaid with the supplied fields, and it is stored back as the new "-1" object. It has no id when the earlier one had none |
| Resolvers.DeleteComment | index.js:213-223 | fails with "Comment Not Found" exactly when no comment has the id; otherwise returns and removes exactly the first matching comment, in order |
| Resolvers.DeleteAllComments | index.js:224-230 | returns a count equal to the number of comments before the call, and leaves no comments |
| Resolvers.ListUsers | index.js:235 | returns the users themselves, in insertion order |
| Resolvers.ListPosts | index.js:239 | returns the posts themselves, in insertion order |
| Resolvers.ListComments | index.js:243 | returns the comments themselves, in insertion order, without the stray "-1" object |
| Resolvers.GetUser | index.js:236 | returns `undefined` exactly when no user has the id; otherwise returns the user at the first position holding that id |
| Resolvers.GetPost | index.js:240 | returns `undefined` exactly when no post has the id; otherwise returns the post at the first position holding that id |
| Resolvers.GetComment | index.js:244-245 | returns `undefined` exactly when no comment has the id; otherwise returns the comment at the first position holding that id |
| Resolvers.UserPosts | index.js:249 | every returned post has the user's id as `user_id`; every such post is returned; the result keeps collection order |
| Resolvers.UserComments | index.js:250-251 | every returned comment has the user's id as `user_id`; every such comment is returned; the result keeps collection order |
| Resolvers.PostComments | index.js:256-257 | every returned comment has the post's id as `post_id`; every such comment is returned; the result keeps collection order |
| Resolvers.PostUser | index.js:255 | returns `undefined` exactly when no user has the post's `user_id`; otherwise returns the first user with that id |
| Resolvers.CommentUser | index.js:261 | returns `undefined` exactly when no user has the comment's `user_id`; otherwise returns the first user with that id |
| Resolvers.CommentPost | index.js:262 | returns `undefined` exactly when no post has the comment's `post_id`; otherwise returns the first post with that id |
| StoreInvariants.CreateUserKeepsValid | index.js:107-114 | creating a user with a fresh id keeps the ids unique in every collection |
| StoreInvariants.CreatePostKeepsValid | index.js:149-157 | creating a post with a fresh id keeps the ids unique |
| StoreInvariants.CreateCommentKeepsValid | index.js:192-199 | creating a comment with a fresh id keeps the ids unique |
| StoreInvariants.UpdateUserKeepsValid | index.js:115-127 | a successful user update keeps the ids unique, and get-by-id then returns the updated user |
| StoreInvariants.UpdatePostKeepsValid | index.js:158-171 | a successful post update keeps the ids unique, and get-by-id then returns the updated post |
| StoreInvariants.UpdateCommentKeepsValid | index.js:200-212 | a successful corrected comment update keeps the ids unique, and get-by-id then returns the updated comment |
| StoreInvariants.UpdateCommentAsWrittenKeepsValid | index.js:200-212 | the comment update as written also keeps the ids unique |
| StoreInvariants.UpdateUserWithNothing | index.js:115-127 | updating an existing user with no fields returns that user unchanged and leaves the store equal to before |
| StoreInvariants.UpdatePostWithNothing | index.js:158-171 | updating an existing post with no fields returns it unchanged and leaves the store equal to before |
| StoreInvariants.UpdateCommentWithNothing | index.js:200-212 | updating an existing comment with no fields returns it unchanged and leaves the store equal to before |
| StoreInvariants.DeleteUserKeepsValid | index.js:128-138 | a successful user delete keeps the ids unique, and get-by-id on that id then returns `undefined` |
| StoreInvariants.DeletePostKeepsValid | index.js:172-182 | a successful post delete keeps the ids unique, and the deleted id is no longer found |
| StoreInvariants.DeleteCommentKeepsValid | index.js:213-223 | a successful comment delete keeps the ids unique, and the deleted id is no longer found |
| StoreInvariants.DeleteAllKeepsValid | index.js:139-146 | after any delete-all, the store is still valid and no id of the emptied collection is found |
| StoreInvariants.CreatePostExtendsUserPosts | index.js:249 | after a post is created, its author's `User.posts` is the earlier list plus the new post; every other user's list is unchanged |
| StoreInvariants.CreateCommentExtendsPostComments | index.js:256-257 | after a comment is created, its post's `Post.comments` is the earlier list plus the new comment |
| StoreInvariants.CreateCommentExtendsUserComments | index.js:250-251 | after a comment is created, its author's `User.comments` is the earlier list plus the new comment |
| StoreInvariants.ScansCountEveryMatch | index.js:249-257 | `User.posts`, `User.comments` and `Post.comments` each hold every matching record exactly as many times as the collection does, and hold no other record |
| StoreInvariants.ListsFollowMutations | index.js:107-243 | after a create, the list query returns the earlier list plus the new record; after a delete-all, it returns an empty list (for all three collections) |
| Seed.SeedUserIdsDistinct | data.js:1-12 | the seed user ids "1" and "2" are distinct |
| Seed.SeedPostIdsDistinct | data.js:14-30 | the seed post ids are pairwise distinct |
| Seed.SeedCommentIdsDistinct | data.js:32-57 | the seed comment ids are pairwise distinct |
| Seed.SeedIsValid | data.js:1-57 | the seed store has unique ids in every collection |
| Seed.SeedPostsNameUsers | data.js:14-30 | every seed post's `user_id` names a seed user |
| Seed.SeedCommentsNamePostsAndUsers | data.js:32-57 | every seed comment's `post_id` names a seed post, and its `user_id` names a seed user |
| Seed.SeedReferencesResolve | data.js:1-57 | every foreign key in the seed store resolves |
| Seed.SeedPostsOfUserOne | data.js:14-24 | `User.posts` of user "1" is posts "1" and "2", in that order |
| Seed.SeedCommentsOfPostOne | data.js:32-44 | `Post.comments` of post "1" is comments "1" and "2", in that order |
| Seed.CreateAdaScenario | index.js:107-114 | creating Ada (30) with a fresh id on the seed store appends `User(id, "Ada", 30)`, after which get-by-id finds her |
| Seed.UpdateAgeScenario | index.js:115-127 | `updateUser("1", { age: 31 })` on the seed store returns `User("1", "Mehmet Seven", 31)` |
| Seed.DeleteMissingScenario | index.js:128-133 | `deleteUser("99")` on the seed store fails with "User Not Found" |
| Seed.UpdateMissingCommentScenario | index.js:200-212 | on the seed store, updating comment "99" as written succeeds with `{ text: "x" }`, leaves the comments unchanged and stores `{ text: "x" }` as the "-1" object; the corrected update fails with "Comment Not Found" |
| Seed.SecondMissingCommentScenario | index.js:203-210 | after that, updating the missing comment "98" with `{ post_id: "2" }` returns `{ text: "x", post_id: "2" }`, because it reads back the earlier "-1" object |
| Seed.StraySurvivesDeleteAllComments | index.js:203-210 | the "-1" object survives `deleteAllComments` (index.js:224-230): a later miss still returns the fields of the earlier miss |
| Seed.DeleteUserLeavesDanglingPosts | index.js:128-138 | deleting user "1" does not cascade: its posts stay, `Post.user` of post "1" becomes `undefined`, and the foreign keys no longer all resolve |

## Left out

- The GraphQL server is not modelled: its construction, the playground plugin and `server.listen` (index.js:266-278) are library and network plumbing.
- Schema parsing, input validation and non-null output enforcement (index.js:8-102) belong to the GraphQL library. The type definitions only fix each record's fields and which update fields are optional. A `Post.user` that resolves to `undefined` is returned as `None`; the library would then report a non-null error.
- `nanoid()` is a random generator. The new id is a parameter of each create. Its freshness is a hypothesis of the lemmas that need it, not a precondition of the create.
- An update input field passed as an explicit `null` is not modelled. JavaScript's spread would store `null` over the old value. In the model, update fields are either supplied values or absent.
- `age` is an unbounded integer. The GraphQL library, not the resolvers, limits `Int` to 32 bits.
- Other non-index properties of the arrays are not modelled. Only the comments array's property "-1" is carried, because the as-written `updateComment` (index.js:207) reads and writes it.
- Aliasing and identity are not modelled. The resolvers mutate shared module-level arrays and return references into them; the model threads the store as a value.

## Findings

| source | as written | input that shows it | evidently intended | confidence | as-written member | corrected member |
|---|---|---|---|---|---|---|
| index.js:203 | `if (comments[comment_index] === -1)` compares the element at the found index (an object, or `undefined` at index -1) with the number -1, so the guard never fires | `updateComment(id: "99", data: { text: "x" })` on the seed store succeeds, returns `{ text: "x" }` with no id, and changes no comment | `if (comment_index === -1)`, throwing "Comment Not Found" as `updateUser` and `updatePost` do | high; not executed | Resolvers.UpdateCommentAsWritten, Seed.UpdateMissingCommentScenario | Resolvers.UpdateComment, StoreInvariants.UpdateCommentKeepsValid |
