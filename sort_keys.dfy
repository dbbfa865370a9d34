/**
  The `sort` query parameter of the home page and the sort document it selects.
  A sort document has one field and a direction (1 ascending, -1 descending).
 */
module SortKeys {
  import opened Wrappers

  datatype SortField = CreatedAt | Title | Author

  /** `Ascending` is the sort document's 1, `Descending` its -1. */
  datatype Direction = Ascending | Descending

  datatype SortSpec = SortSpec(field: SortField, direction: Direction)

  /** The value used when the request carries no `sort` parameter. */
  const DefaultSortKey: string := "date_desc"

  /** The values the dispatch recognises; they are also the options of the sort menu. */
  const RecognisedKeys: set<string> := {"date_desc", "date_asc", "title_asc", "title_desc", "author_asc"}

  /** The menu name of a sort document, if the menu offers it: title/date both ways, author ascending only. */
  function KeyName(spec: SortSpec): (name: Option<string>)
    ensures name.Some? ==> name.value in RecognisedKeys
    ensures name.None? <==> spec == SortSpec(Author, Descending)
  {
    match spec
    case SortSpec(CreatedAt, Descending) => Some("date_desc")
    case SortSpec(CreatedAt, Ascending) => Some("date_asc")
    case SortSpec(Title, Ascending) => Some("title_asc")
    case SortSpec(Title, Descending) => Some("title_desc")
    case SortSpec(Author, Ascending) => Some("author_asc")
    case SortSpec(Author, Descending) => None
  }

  /** The `if`/`elif` chain of the home handler: the sort document for a `sort` value. */
  function SortSpecFor(sortBy: string): (spec: SortSpec)
    ensures sortBy in RecognisedKeys ==> KeyName(spec) == Some(sortBy)
    ensures sortBy !in RecognisedKeys ==> spec == SortSpec(CreatedAt, Descending)
  {
    if sortBy == "date_desc" then SortSpec(CreatedAt, Descending)
    else if sortBy == "date_asc" then SortSpec(CreatedAt, Ascending)
    else if sortBy == "title_asc" then SortSpec(Title, Ascending)
    else if sortBy == "title_desc" then SortSpec(Title, Descending)
    else if sortBy == "author_asc" then SortSpec(Author, Ascending)
    else SortSpec(CreatedAt, Descending)
  }

  /** The `sort` parameter with its default (`request.args.get('sort', 'date_desc')`). */
  function SortArgument(query: Option<string>): (sortBy: string)
    ensures query.Some? ==> sortBy == query.value
    ensures query.None? ==> sortBy == DefaultSortKey
  {
    query.GetOr(DefaultSortKey)
  }

  /** The five recognised keys and the sort document each selects. */
  lemma SortTable()
    ensures SortSpecFor("date_desc") == SortSpec(CreatedAt, Descending)
    ensures SortSpecFor("date_asc") == SortSpec(CreatedAt, Ascending)
    ensures SortSpecFor("title_asc") == SortSpec(Title, Ascending)
    ensures SortSpecFor("title_desc") == SortSpec(Title, Descending)
    ensures SortSpecFor("author_asc") == SortSpec(Author, Ascending)
  {
  }

  /** Distinct recognised keys select distinct sort documents. */
  lemma RecognisedKeysDistinct(k1: string, k2: string)
    requires k1 in RecognisedKeys && k2 in RecognisedKeys
    ensures SortSpecFor(k1) == SortSpecFor(k2) <==> k1 == k2
  {
  }

  /** Every sort document the menu names is selected by that name. */
  lemma KeyNameRoundTrip(spec: SortSpec)
    ensures KeyName(spec).Some? ==> SortSpecFor(KeyName(spec).value) == spec
  {
  }

  /** An unrecognised value, and an absent one, select what `date_desc` selects. */
  lemma FallbackIsNewestFirst(query: Option<string>)
    ensures SortArgument(query) !in RecognisedKeys ==> SortSpecFor(SortArgument(query)) == SortSpecFor(DefaultSortKey)
    ensures query.None? ==> SortSpecFor(SortArgument(query)) == SortSpec(CreatedAt, Descending)
  {
  }

  /** No `sort` value lists authors in descending order. */
  lemma AuthorDescendingUnreachable(sortBy: string)
    ensures SortSpecFor(sortBy) != SortSpec(Author, Descending)
  {
  }
}
