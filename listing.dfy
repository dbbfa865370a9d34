/**
  The home page's single aggregation: a `$facet` with two branches over the
  same collection, `posts` (a `$sort` and nothing else) and `author_counts`
  (a `$group` by author counting documents), followed by the dictionary
  comprehension that drops the null author.
 */
module Listing {
  import opened Wrappers
  import opened Posts
  import opened Ordering
  import opened SortKeys

  // ---------------------------------------------------------------------------
  // The `posts` branch: `$sort`
  // ---------------------------------------------------------------------------

  /** `p` may come before `q` when sorting ascending on `field`. */
  predicate FieldLe(field: SortField, p: Post, q: Post) {
    match field
    case CreatedAt => p.createdAt <= q.createdAt
    case Title => OptLe(p.title, q.title)
    case Author => OptLe(p.author, q.author)
  }

  /** `p` may come before `q` under the sort document `spec`. */
  predicate KeyLe(spec: SortSpec, p: Post, q: Post) {
    match spec.direction
    case Ascending => FieldLe(spec.field, p, q)
    case Descending => FieldLe(spec.field, q, p)
  }

  lemma KeyLeTotal(spec: SortSpec, p: Post, q: Post)
    ensures KeyLe(spec, p, q) || KeyLe(spec, q, p)
  {
    match spec.field
    case CreatedAt =>
    case Title => OptLeTotal(p.title, q.title);
    case Author => OptLeTotal(p.author, q.author);
  }

  lemma KeyLeTransitive(spec: SortSpec, p: Post, q: Post, r: Post)
    requires KeyLe(spec, p, q) && KeyLe(spec, q, r)
    ensures KeyLe(spec, p, r)
  {
    match (spec.field, spec.direction)
    case (CreatedAt, _) =>
    case (Title, Ascending) => OptLeTransitive(p.title, q.title, r.title);
    case (Title, Descending) => OptLeTransitive(r.title, q.title, p.title);
    case (Author, Ascending) => OptLeTransitive(p.author, q.author, r.author);
    case (Author, Descending) => OptLeTransitive(r.author, q.author, p.author);
  }

  /** Every adjacent pair is in order (ties allowed, in either order). */
  predicate Sorted(spec: SortSpec, s: seq<Post>) {
    forall i :: 0 <= i < |s| - 1 ==> KeyLe(spec, s[i], s[i + 1])
  }

  /** Adjacent order gives order between any two positions. */
  lemma {:induction false} SortedPairwise(spec: SortSpec, s: seq<Post>, i: nat, j: nat)
    requires Sorted(spec, s) && i <= j < |s|
    ensures KeyLe(spec, s[i], s[j])
    decreases j - i
  {
    if i == j {
      KeyLeTotal(spec, s[i], s[i]);
    } else {
      SortedPairwise(spec, s, i + 1, j);
      KeyLeTransitive(spec, s[i], s[i + 1], s[j]);
    }
  }

  /** Places `p` into the sorted `s`. */
  function Insert(spec: SortSpec, p: Post, s: seq<Post>): (r: seq<Post>)
    requires Sorted(spec, s)
    ensures |r| == |s| + 1
    ensures r[0] == p || (s != [] && r[0] == s[0])
    ensures multiset(r) == multiset(s) + multiset{p}
    ensures Sorted(spec, r)
  {
    if s == [] then [p]
    else if KeyLe(spec, p, s[0]) then [p] + s
    else
      KeyLeTotal(spec, p, s[0]);
      assert s == [s[0]] + s[1..];
      [s[0]] + Insert(spec, p, s[1..])
  }

  /** The meaning of `{"$sort": spec}`: the whole collection, reordered. */
  function SortPosts(spec: SortSpec, s: seq<Post>): (r: seq<Post>)
    ensures multiset(r) == multiset(s)
    ensures Sorted(spec, r)
  {
    if s == [] then []
    else
      assert s == [s[0]] + s[1..];
      Insert(spec, s[0], SortPosts(spec, s[1..]))
  }

  // ---------------------------------------------------------------------------
  // The `author_counts` branch: `$group` and the comprehension
  // ---------------------------------------------------------------------------

  /** The number of posts in `s` whose author value is `a`. */
  function CountAuthor(s: seq<Post>, a: Option<string>): nat {
    if s == [] then 0
    else (if s[0].author == a then 1 else 0) + CountAuthor(s[1..], a)
  }

  /** The number of posts in `s` that have a (non-null) author. */
  function CountWithAuthor(s: seq<Post>): nat {
    if s == [] then 0
    else (if s[0].author.Some? then 1 else 0) + CountWithAuthor(s[1..])
  }

  lemma {:induction false} CountAuthorPositive(s: seq<Post>, a: Option<string>)
    ensures CountAuthor(s, a) > 0 <==> exists p :: p in s && p.author == a
  {
    if s != [] {
      CountAuthorPositive(s[1..], a);
      assert s == [s[0]] + s[1..];
      if s[0].author != a && CountAuthor(s, a) == 0 {
        forall p | p in s ensures p.author != a {
          assert p == s[0] || p in s[1..];
        }
      }
    }
  }

  lemma {:induction false} CountAuthorAppend(s: seq<Post>, t: seq<Post>, a: Option<string>)
    ensures CountAuthor(s + t, a) == CountAuthor(s, a) + CountAuthor(t, a)
  {
    if s == [] {
      assert s + t == t;
    } else {
      assert (s + t)[1..] == s[1..] + t;
      CountAuthorAppend(s[1..], t, a);
    }
  }

  lemma MultisetRemoveAt(r: seq<Post>, i: nat)
    requires i < |r|
    ensures multiset(r[..i] + r[i + 1..]) == multiset(r) - multiset{r[i]}
  {
    assert r == r[..i] + [r[i]] + r[i + 1..];
  }

  /** Removing the post at `i` removes its contribution to every count. */
  lemma CountAuthorRemoveAt(r: seq<Post>, i: nat, a: Option<string>)
    requires i < |r|
    ensures CountAuthor(r, a) == CountAuthor(r[..i] + r[i + 1..], a) + (if r[i].author == a then 1 else 0)
  {
    assert r == r[..i] + [r[i]] + r[i + 1..];
    CountAuthorAppend(r[..i] + [r[i]], r[i + 1..], a);
    CountAuthorAppend(r[..i], [r[i]], a);
    CountAuthorAppend(r[..i], r[i + 1..], a);
  }

  /** Reordering the collection does not change any author's count. */
  lemma {:induction false} CountAuthorPermutation(r: seq<Post>, s: seq<Post>, a: Option<string>)
    requires multiset(r) == multiset(s)
    ensures CountAuthor(r, a) == CountAuthor(s, a)
    decreases |s|
  {
    if s == [] {
      assert |r| == |multiset(r)| == 0;
    } else {
      var x := s[0];
      assert s == [x] + s[1..];
      assert multiset(s[1..]) == multiset(s) - multiset{x};
      assert x in multiset(r);
      var i :| 0 <= i < |r| && r[i] == x;
      MultisetRemoveAt(r, i);
      CountAuthorPermutation(r[..i] + r[i + 1..], s[1..], a);
      CountAuthorRemoveAt(r, i, a);
    }
  }

  /**
    The meaning of `{"$group": {"_id": "$author", "count": {"$sum": 1}}}`:
    one entry per distinct author value, null included. The stage's output
    documents have distinct `_id`s, so a map holds exactly what it returns.
   */
  function GroupByAuthor(s: seq<Post>): (groups: map<Option<string>, nat>)
    ensures forall a :: a in groups <==> CountAuthor(s, a) > 0
    ensures forall a :: a in groups ==> groups[a] == CountAuthor(s, a)
  {
    if s == [] then map[]
    else
      var rest := GroupByAuthor(s[1..]);
      var a := s[0].author;
      rest[a := (if a in rest then rest[a] else 0) + 1]
  }

  /** The home handler's comprehension over the groups: every group except the null `_id`. */
  function AuthorCounts(s: seq<Post>): (counts: map<Option<string>, nat>)
    ensures None !in counts
    ensures forall a :: a in counts <==> a.Some? && CountAuthor(s, a) > 0
    ensures forall a :: a in counts ==> counts[a] == CountAuthor(s, a)
  {
    var groups := GroupByAuthor(s);
    map a | a in groups && a.Some? :: groups[a]
  }

  /** Every author that occurs in the collection is a key of the counts. */
  lemma AuthorCountsCoverAuthors(s: seq<Post>, p: Post)
    requires p in s && p.author.Some?
    ensures p.author in AuthorCounts(s)
    ensures AuthorCounts(s)[p.author] == CountAuthor(s, p.author)
  {
  }

  /** The sum of the values of a map. */
  ghost function SumValues<K>(m: map<K, nat>): nat
    decreases |m|
  {
    if m == map[] then 0
    else
      var k :| k in m;
      m[k] + SumValues(m - {k})
  }

  lemma {:induction false} SumValuesRemove<K>(m: map<K, nat>, k: K)
    requires k in m
    ensures SumValues(m) == m[k] + SumValues(m - {k})
    decreases |m|
  {
    var j :| j in m && SumValues(m) == m[j] + SumValues(m - {j});
    if j != k {
      SumValuesRemove(m - {j}, k);
      SumValuesRemove(m - {k}, j);
      assert m - {j} - {k} == m - {k} - {j};
    }
  }

  lemma SumValuesUpdate<K>(m: map<K, nat>, k: K, v: nat)
    ensures SumValues(m[k := v]) == SumValues(m) - (if k in m then m[k] else 0) + v
  {
    SumValuesRemove(m[k := v], k);
    assert m[k := v] - {k} == m - {k};
    if k in m {
      SumValuesRemove(m, k);
    } else {
      assert m - {k} == m;
    }
  }

  /** The counts add up to the number of posts that have an author. */
  lemma {:induction false} AuthorCountsSum(s: seq<Post>)
    ensures SumValues(AuthorCounts(s)) == CountWithAuthor(s)
  {
    if s == [] {
      assert AuthorCounts(s) == map[];
    } else {
      var t := s[1..];
      AuthorCountsSum(t);
      var m, m' := AuthorCounts(s), AuthorCounts(t);
      var a := s[0].author;
      if a.None? {
        assert m == m';
      } else {
        assert m == m'[a := CountAuthor(t, a) + 1];
        SumValuesUpdate(m', a, CountAuthor(t, a) + 1);
      }
    }
  }

  /** The template's `author_counts.get(post.author, 0)`. */
  function PostCountShown(counts: map<Option<string>, nat>, author: Option<string>): (shown: nat)
    ensures author in counts ==> shown == counts[author]
    ensures shown > 0 ==> author in counts
  {
    if author in counts then counts[author] else 0
  }

  /** The count shown beside a post is its author's total; a post without an author shows 0. */
  lemma PostCountShownIsTotal(s: seq<Post>, author: Option<string>)
    ensures PostCountShown(AuthorCounts(s), author) == if author.Some? then CountAuthor(s, author) else 0
  {
  }

  // ---------------------------------------------------------------------------
  // The home page
  // ---------------------------------------------------------------------------

  /** What the home handler passes to its template. */
  datatype HomePage = HomePage(posts: seq<Post>, currentSort: string, authorCounts: map<Option<string>, nat>)

  /** The home handler over a snapshot `collection` of the stored posts. */
  function Home(collection: seq<Post>, query: Option<string>): (page: HomePage)
    ensures page.currentSort == SortArgument(query)
    ensures multiset(page.posts) == multiset(collection)
    ensures Sorted(SortSpecFor(page.currentSort), page.posts)
    ensures forall a :: a in page.authorCounts <==> a.Some? && CountAuthor(collection, a) > 0
    ensures forall a :: a in page.authorCounts ==> page.authorCounts[a] == CountAuthor(page.posts, a)
  {
    var sortBy := SortArgument(query);
    var listed := SortPosts(SortSpecFor(sortBy), collection);
    var counts := AuthorCounts(collection);
    forall a | a in counts ensures counts[a] == CountAuthor(listed, a) {
      CountAuthorPermutation(listed, collection, a);
    }
    HomePage(listed, sortBy, counts)
  }

  /** An unrecognised or absent `sort` lists and counts exactly as `date_desc` does. */
  lemma UnrecognisedSortListsNewestFirst(collection: seq<Post>, query: Option<string>)
    requires SortArgument(query) !in RecognisedKeys || query.None?
    ensures Home(collection, query).posts == Home(collection, Some(DefaultSortKey)).posts
    ensures Home(collection, query).authorCounts == Home(collection, Some(DefaultSortKey)).authorCounts
  {
  }

  /** The page's counts sum to the number of posts with an author. */
  lemma HomeCountsSum(collection: seq<Post>, query: Option<string>)
    ensures SumValues(Home(collection, query).authorCounts) == CountWithAuthor(collection)
  {
    AuthorCountsSum(collection);
  }
}
