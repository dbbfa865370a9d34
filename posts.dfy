/** The documents of the `posts` collection: a post with its embedded comments. */
module Posts {
  import opened Wrappers

  /** The document id. MongoDB's ObjectId is abstracted to a natural number. */
  type PostId = nat

  /** One element of a post's `comments` array. Form fields may be missing, hence `Option`. */
  datatype Comment = Comment(username: Option<string>, text: Option<string>, createdAt: int)

  /** One post document; `createdAt` is the server clock when the post was created. */
  datatype Post = Post(
    id: PostId,
    title: Option<string>,
    content: Option<string>,
    author: Option<string>,
    createdAt: int,
    comments: seq<Comment>)

  /** No two documents of the collection share an id. */
  predicate IdsDistinct(posts: seq<Post>) {
    forall i, j :: 0 <= i < j < |posts| ==> posts[i].id != posts[j].id
  }
}
