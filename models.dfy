/**
 * The rows the posts views read and write. Users are plain identifiers (the
 * user table belongs to the authentication framework); groups are named by
 * their identifier.
 */
module Models {
  import opened Wrappers

  type UserId = nat
  type PostId = nat
  type GroupId = nat

  /** A post: its primary key, author, text, optional group and optional image. */
  datatype Post = Post(id: PostId, author: UserId, text: string, group: Option<GroupId>, image: Option<string>)

  /** A comment, attached to a post and to the user who wrote it. */
  datatype Comment = Comment(post: PostId, author: UserId, text: string)

  /** A row of the Follow table: `user` subscribes to `author`. */
  datatype Follow = Follow(user: UserId, author: UserId)

  /** The cleaned data of a submitted post form. */
  datatype PostForm = PostForm(text: string, group: Option<GroupId>, image: Option<string>)

  /** Who makes a request. */
  datatype Viewer = Anonymous | Authenticated(id: UserId)
}
