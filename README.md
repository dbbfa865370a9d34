# Simple blog: a verified model of the post collection

This project models the core of a small Flask + MongoDB blog (`simple-blog/app.py`).
It covers the one collection of post documents, each with its comments embedded,
and the four things the request handlers do with it:

- the home page maps its `sort` query parameter to a sort document, then runs one
  `$facet` aggregation. One branch lists every post in that order. The other
  branch counts posts per author, and a dictionary comprehension then drops the
  null author;
- `create_post` inserts one new document with no comments;
- `view_post` looks up one document by id;
- `add_comment` pushes one comment onto the `comments` array of the document with
  that id.

The collection is in-memory state: a `PostStore` class whose `posts` field holds
the documents. Its methods reassign that field. The sort-key dispatch and the
aggregation's meaning are pure functions over a snapshot of the collection.

Modules, one file each:

- `Wrappers` (`wrappers.dfy`): `Option`, standing for a Python value that may be `None`.
- `Posts` (`posts.dfy`): the `Post` and `Comment` documents and the distinct-ids predicate.
- `Ordering` (`ordering.dfy`): the order `$sort` uses on field values. Strings compare
  code point by code point, MongoDB's default binary collation. `None` (null) comes before
  every string. The module proves this order is total and transitive.
- `SortKeys` (`sort_keys.dfy`): the `sort` parameter, its default, and the `if`/`elif` dispatch.
- `Listing` (`listing.dfy`): `$sort`, `$group`, the comprehension, and the home page they build.
- `Store` (`store.dfy`): the id filter shared by `find_one` and `update_one`, `$push`,
  and the `PostStore` class.

Modelling decisions:

- Ids are natural numbers. The store hands them out from a counter, `nextId`, standing in
  for the ObjectId that `insert_one` generates. `PostStore.Valid()` keeps the ids distinct.
- Timestamps (`datetime.now()`) are passed to the methods as an `int` parameter `now`.
- Every form field is `Option<string>`, because `request.form.get` returns `None` for a
  missing field. The code checks no field on the server side, so no method requires
  a field to be present or non-empty.
- `$sort` fixes the order only up to ties. `SortPosts` is an insertion sort, but its
  contract promises only what `$sort` promises: the result is a permutation of the
  collection, and every adjacent pair is in order under the chosen field and direction.
  Nothing is promised about the order of ties.
- The `$group` stage's output is a `map<Option<string>, nat>`. The stage outputs one
  record per distinct `_id`, so a map holds exactly that output; its order is
  unspecified in MongoDB too. The comprehension keeps the entries whose key is not `None`.
- `update_one` and `find_one` both use the filter `{'_id': ...}`. It is modelled once, as
  `IndexOf`, the first document with that id. Because ids are distinct, it finds the one
  document with that id.
- The server validates no field; the only checks are the templates' HTML `required`
  attributes (app.py:125-127, 190-191). `create_post` stores whatever the form gave,
  `None` included, and `add_comment` reports nothing when no post matches. The model
  follows the code. `AddComment` returns whether a document matched, so the caller can
  see it, but the handler ignores that result and redirects either way.

## Model

| member | source | states |
|---|---|---|
| `SortKeys.SortArgument` | simple-blog/app.py:21 | a present `sort` value is used as given; an absent one becomes `date_desc` |
| `SortKeys.SortSpecFor` | simple-blog/app.py:24-35 | each recognised key selects the sort document the menu names by that key; any other value selects `created_at` descending |
| `SortKeys.KeyName` | simple-blog/app.py:24-33 | the inverse table: each of the five reachable sort documents has a recognised key as its name, and only author-descending has none |
| `SortKeys.SortTable` | simple-blog/app.py:24-33 | `date_desc`, `date_asc`, `title_asc`, `title_desc` and `author_asc` select created_at descending, created_at ascending, title ascending, title descending and author ascending |
| `SortKeys.RecognisedKeysDistinct` | simple-blog/app.py:24-33 | two recognised keys select the same sort document exactly when they are the same key |
| `SortKeys.KeyNameRoundTrip` | simple-blog/app.py:24-33 | every sort document that has a name is selected by that name |
| `SortKeys.FallbackIsNewestFirst` | simple-blog/app.py:21-35 | an unrecognised value selects what `date_desc` selects, and an absent value selects `created_at` descending |
| `SortKeys.AuthorDescendingUnreachable` | simple-blog/app.py:24-35 | no `sort` value sorts by author in descending order |
| `Listing.Insert` | simple-blog/app.py:41 | inserting a post into a sorted list gives a sorted list that holds exactly the old list plus that post |
| `Listing.SortPosts` | simple-blog/app.py:40-42 | the `$sort` result is a permutation of the whole collection, with every adjacent pair in order under the sort document |
| `Listing.SortedPairwise` | simple-blog/app.py:41 | in a sorted listing, every earlier post is ordered before every later one, not only adjacent pairs |
| `Listing.CountAuthorPositive` | simple-blog/app.py:44 | an author value has a positive count exactly when some post in the collection has that author value |
| `Listing.CountAuthorPermutation` | simple-blog/app.py:38-47 | reordering the collection changes no author's count, so both `$facet` branches agree on the counts |
| `Listing.GroupByAuthor` | simple-blog/app.py:43-45 | the `$group` output has one entry per author value that occurs, null included, holding the number of posts with that value |
| `Listing.AuthorCounts` | simple-blog/app.py:50 | `None` is never a key; another author is a key exactly when it occurs in the collection, and its value is that author's number of posts |
| `Listing.AuthorCountsCoverAuthors` | simple-blog/app.py:44-50 | for every post that has an author, that author is a key of the counts and maps to its total number of posts |
| `Listing.AuthorCountsSum` | simple-blog/app.py:43-50 | the counts' values add up to the number of posts that have a non-null author |
| `Listing.PostCountShown` | simple-blog/app.py:148 | `author_counts.get(post.author, 0)`: the stored count when the author is a key, and a positive number only when it is one |
| `Listing.PostCountShownIsTotal` | simple-blog/app.py:148 | the count shown beside a post is its author's number of posts, and 0 for a post with no author |
| `Listing.Home` | simple-blog/app.py:21-52 | the page lists a permutation of the collection, sorted under the key its `sort` value selects; its counts are keyed by the non-null authors and match the listed posts |
| `Listing.UnrecognisedSortListsNewestFirst` | simple-blog/app.py:21-50 | for an unrecognised or absent `sort` value, the page's listing and counts equal those for `date_desc` |
| `Listing.HomeCountsSum` | simple-blog/app.py:38-50 | the page's author counts sum to the number of posts with an author |
| `Store.IndexOf` | simple-blog/app.py:75 | the filter by id finds nothing exactly when no document has the id; otherwise it finds the first document with the id |
| `Store.FindPost` | simple-blog/app.py:75 | `find_one` returns a document of the collection with that id, or nothing exactly when no document has it |
| `Store.FindPostUnique` | simple-blog/app.py:75 | when ids are distinct, the lookup returns the one document with that id |
| `Store.WithComment` | simple-blog/app.py:93 | `$push` makes the new comment the last one, keeps the earlier comments in order, and changes no other field |
| `Store.PushComment` | simple-blog/app.py:91-94 | for any id, `update_one` with `$push` keeps the number of documents and every id; each post keeps its earlier comments as a prefix and gains at most one |
| `Store.PushCommentOnMatch` | simple-blog/app.py:91-94 | on an existing id, that post's comments become the old comments plus the new one, and every other post is unchanged |
| `Store.PushCommentNoMatch` | simple-blog/app.py:91-94 | on an id no document has, the collection is unchanged |
| `Store.ViewAfterComment` | simple-blog/app.py:75-94 | after a comment is added, viewing that id shows the same post with the comment appended; an unknown id still shows nothing |
| `Store.ViewAfterInsert` | simple-blog/app.py:62-75 | after a post is inserted under a fresh id, viewing that id returns it, and viewing any other id returns what it did before |
| `Store.PostStore.constructor` | simple-blog/app.py:11-13 | the store starts as an empty collection with distinct ids |
| `Store.PostStore.ViewPost` | simple-blog/app.py:75 | `view_post` returns the stored post with that id, or nothing exactly when no stored post has it |
| `Store.PostStore.CreatePost` | simple-blog/app.py:57-70 | adds exactly one document at the end, with the given title, content and author, the given time and no comments, under an id no existing post has; the existing posts are unchanged and the new post can be viewed |
| `Store.PostStore.AddComment` | simple-blog/app.py:80-94 | the matching post gets the new comment (username, text, time) as its last comment; other fields, other posts and the id counter are unchanged; with no match, nothing changes |

## Left out

- HTTP routing, request parsing, redirects and `render_template` (app.py:17-22, 52, 71, 76, 96) are glue. The model takes the `sort` value and the form fields as parameters.
- The HTML templates and the `__main__` block that writes them to disk (app.py:101-214) are presentation and file I/O. Only the template's per-post count lookup (line 148) is modelled, as `Listing.PostCountShown`.
- `MongoClient` and the database handles (app.py:11-13): the collection is the `posts` field of `PostStore`.
- ObjectId generation and parsing: ids are abstract natural numbers. The exception that `ObjectId(post_id)` raises on a malformed id (lines 75 and 92) is not modelled.
- `datetime.now()` is the `now` parameter; minute-precision display is presentation.
- The atomicity of `$push` under concurrent requests: each modelled call runs alone.
- Storage failures (an unreachable server, a failing query) are not modelled.
- MongoDB's comparison between values of different BSON types is not modelled, beyond null sorting before strings. Every sorted field here is either a string or null, or an integer.
- `Listing.SortPosts`: the order of posts with equal sort keys is left unspecified, as `$sort` leaves it.
- Rendering `view_post` for an id with no document is not modelled. The lookup itself returns `None` there.
