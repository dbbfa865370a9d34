/**
  The `posts` collection as in-memory state, and the three handlers that
  touch one document: `create_post` (`insert_one`), `view_post`
  (`find_one` by id) and `add_comment` (`update_one` with `$push`).
 */
module Store {
  import opened Wrappers
  import opened Posts

  /** The filter `{'_id': id}`: the position of the first document with that id, if any. */
  function IndexOf(posts: seq<Post>, id: PostId): (k: Option<nat>)
    ensures k.None? <==> forall i :: 0 <= i < |posts| ==> posts[i].id != id
    ensures k.Some? ==> k.value < |posts| && posts[k.value].id == id
    ensures k.Some? ==> forall j :: 0 <= j < k.value ==> posts[j].id != id
  {
    if posts == [] then None
    else if posts[0].id == id then Some(0)
    else
      match IndexOf(posts[1..], id)
      case None => None
      case Some(k) => Some(k + 1)
  }

  /** `find_one({'_id': id})`. */
  function FindPost(posts: seq<Post>, id: PostId): (r: Option<Post>)
    ensures r.None? <==> forall i :: 0 <= i < |posts| ==> posts[i].id != id
    ensures r.Some? ==> r.value in posts && r.value.id == id
  {
    match IndexOf(posts, id)
    case None => None
    case Some(k) => Some(posts[k])
  }

  /** The post with `c` added at the end of its `comments` array. */
  function WithComment(p: Post, c: Comment): (q: Post)
    ensures |q.comments| == |p.comments| + 1 && q.comments[..|p.comments|] == p.comments
    ensures q.comments[|p.comments|] == c
    ensures q.(comments := p.comments) == p
  {
    p.(comments := p.comments + [c])
  }

  /**
    `update_one({'_id': id}, {'$push': {'comments': c}})`: the first matching document gets `c`.
    Whatever the id, no document is added, removed or renumbered, and every comment
    array keeps its earlier comments as a prefix and grows by at most one.
   */
  function PushComment(posts: seq<Post>, id: PostId, c: Comment): (r: seq<Post>)
    ensures |r| == |posts|
    ensures forall j :: 0 <= j < |posts| ==> r[j].id == posts[j].id
    ensures forall j :: 0 <= j < |posts| ==>
      |posts[j].comments| <= |r[j].comments| <= |posts[j].comments| + 1 &&
      r[j].comments[..|posts[j].comments|] == posts[j].comments
  {
    match IndexOf(posts, id)
    case None => posts
    case Some(k) => posts[k := WithComment(posts[k], c)]
  }

  /** In a collection with distinct ids, a lookup finds the one document with that id. */
  lemma FindPostUnique(posts: seq<Post>, id: PostId, i: nat)
    requires IdsDistinct(posts) && i < |posts| && posts[i].id == id
    ensures FindPost(posts, id) == Some(posts[i])
  {
  }

  /** `$push` on an existing id: the comment becomes the last of that post's comments. */
  lemma PushCommentOnMatch(posts: seq<Post>, id: PostId, c: Comment, i: nat)
    requires IdsDistinct(posts) && i < |posts| && posts[i].id == id
    ensures |PushComment(posts, id, c)| == |posts|
    ensures PushComment(posts, id, c)[i].comments == posts[i].comments + [c]
    ensures PushComment(posts, id, c)[i] == posts[i].(comments := posts[i].comments + [c])
    ensures forall j :: 0 <= j < |posts| && j != i ==> PushComment(posts, id, c)[j] == posts[j]
  {
  }

  /** `$push` on an id no document has changes nothing. */
  lemma PushCommentNoMatch(posts: seq<Post>, id: PostId, c: Comment)
    requires forall i :: 0 <= i < |posts| ==> posts[i].id != id
    ensures PushComment(posts, id, c) == posts
  {
  }

  /** After a comment is added, viewing the post shows it last, after the earlier ones. */
  lemma ViewAfterComment(posts: seq<Post>, id: PostId, c: Comment)
    requires IdsDistinct(posts)
    ensures FindPost(PushComment(posts, id, c), id) ==
      match FindPost(posts, id)
      case None => None
      case Some(p) => Some(p.(comments := p.comments + [c]))
  {
    if i :| 0 <= i < |posts| && posts[i].id == id {
      FindPostUnique(posts, id, i);
      PushCommentOnMatch(posts, id, c, i);
      var r := PushComment(posts, id, c);
      assert IdsDistinct(r);
      FindPostUnique(r, id, i);
    }
  }

  /** After a post is inserted under a fresh id, viewing that id shows it, and other lookups are unchanged. */
  lemma ViewAfterInsert(posts: seq<Post>, p: Post, id: PostId)
    requires forall i :: 0 <= i < |posts| ==> posts[i].id != p.id
    ensures FindPost(posts + [p], id) == if id == p.id then Some(p) else FindPost(posts, id)
  {
    var s := posts + [p];
    assert s[|posts|] == p;
    if id == p.id {
      assert IndexOf(s, id).value == |posts|;
    } else {
      match IndexOf(posts, id)
      case None =>
        forall i | 0 <= i < |s| ensures s[i].id != id {
          if i < |posts| { assert s[i] == posts[i]; }
        }
      case Some(k) =>
        assert s[k] == posts[k];
        assert IndexOf(s, id).value == k;
    }
  }

  /** The stored collection and the source of fresh ids. */
  class PostStore {
    var posts: seq<Post>
    var nextId: PostId

    /** Ids are distinct and all below the next one to be handed out. */
    ghost predicate Valid()
      reads this
    {
      && IdsDistinct(posts)
      && forall i :: 0 <= i < |posts| ==> posts[i].id < nextId
    }

    constructor ()
      ensures Valid() && posts == [] && nextId == 0
    {
      posts := [];
      nextId := 0;
    }

    /** `view_post`: the stored post with that id, if any. */
    function ViewPost(id: PostId): (r: Option<Post>)
      reads this
      requires Valid()
      ensures r.None? <==> forall i :: 0 <= i < |posts| ==> posts[i].id != id
      ensures forall i :: 0 <= i < |posts| && posts[i].id == id ==> r == Some(posts[i])
    {
      forall i | 0 <= i < |posts| && posts[i].id == id ensures FindPost(posts, id) == Some(posts[i]) {
        FindPostUnique(posts, id, i);
      }
      FindPost(posts, id)
    }

    /** `create_post`: one new document with the given fields, no comments, and a fresh id. */
    method CreatePost(title: Option<string>, content: Option<string>, author: Option<string>, now: int)
      returns (id: PostId)
      requires Valid()
      modifies this
      ensures Valid()
      ensures id == old(nextId) && nextId == old(nextId) + 1
      ensures forall i :: 0 <= i < |old(posts)| ==> old(posts)[i].id != id
      ensures posts == old(posts) + [Post(id, title, content, author, now, [])]
      ensures ViewPost(id) == Some(Post(id, title, content, author, now, []))
    {
      id := nextId;
      var post := Post(id, title, content, author, now, []);
      ViewAfterInsert(posts, post, id);
      posts := posts + [post];
      nextId := nextId + 1;
    }

    /** `add_comment`: `$push` one comment onto the post with that id; no match, no change. */
    method AddComment(id: PostId, username: Option<string>, text: Option<string>, now: int)
      returns (matched: bool)
      requires Valid()
      modifies this
      ensures Valid()
      ensures nextId == old(nextId)
      ensures posts == PushComment(old(posts), id, Comment(username, text, now))
      ensures matched <==> exists i :: 0 <= i < |old(posts)| && old(posts)[i].id == id
      ensures !matched ==> posts == old(posts)
      ensures |posts| == |old(posts)|
      ensures forall i :: 0 <= i < |posts| && old(posts)[i].id == id ==>
        posts[i] == old(posts)[i].(comments := old(posts)[i].comments + [Comment(username, text, now)])
      ensures forall i :: 0 <= i < |posts| && old(posts)[i].id != id ==> posts[i] == old(posts)[i]
    {
      var c := Comment(username, text, now);
      matched := IndexOf(posts, id).Some?;
      if i :| 0 <= i < |posts| && posts[i].id == id {
        PushCommentOnMatch(posts, id, c, i);
      }
      posts := PushComment(posts, id, c);
    }
  }
}
