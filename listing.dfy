/** What the public listings share: the search filter run on lowercased
    fields (a blank query shows everything), the creation time a reader
    falls back on, and the choice between the loading, error, empty,
    no-results and grid views. */
module Listing {
  import opened Wrappers
  import opened Text
  import opened Sorting
  import opened FirebaseTypes

  /** Some searchable field, lowercased, contains the lowercased query. */
  predicate AnyFieldMatches(fields: seq<string>, query: string) {
    exists i :: 0 <= i < |fields| && Contains(ToLower(fields[i]), ToLower(query))
  }

  /** `if (!searchQuery.trim()) all else all.filter(some field includes the query)`. */
  function SearchFilter<T(!new)>(items: seq<T>, query: string, fields: T -> seq<string>): (r: seq<T>)
    ensures IsBlank(query) ==> r == items
    ensures !IsBlank(query) ==> forall x :: x in r <==> x in items && AnyFieldMatches(fields(x), query)
    ensures |r| <= |items|
  {
    if IsBlank(query) then items else Select(items, (x: T) => AnyFieldMatches(fields(x), query))
  }

  /** The filter keeps the entries it shows in their listed order, so a
      sorted listing stays sorted. */
  lemma SearchKeepsOrder<T(!new)>(items: seq<T>, query: string, fields: T -> seq<string>, before: (T, T) -> bool)
    ensures IsSubsequence(SearchFilter(items, query, fields), items)
    ensures Sorted(items, before) ==> Sorted(SearchFilter(items, query, fields), before)
  {
    if IsBlank(query) {
      SubsequenceOfItself(items);
    } else {
      var keep := (x: T) => AnyFieldMatches(fields(x), query);
      SelectIsSubsequence(items, keep);
      if Sorted(items, before) {
        SelectSorted(items, keep, before);
      }
    }
  }

  lemma {:induction false} SubsequenceOfItself<T>(s: seq<T>)
    ensures IsSubsequence(s, s)
  {
    if s != [] {
      SubsequenceOfItself(s[1..]);
    }
  }

  /** `created_at?.toDate?.() || new Date()`: a missing time reads as now. */
  function CreatedTime(d: Submission, now: int): (t: int)
    ensures d.createdAt.Some? ==> t == d.createdAt.value
    ensures d.createdAt.None? ==> t == now
  {
    d.createdAt.GetOr(now)
  }

  /** The branches a listing renders, in the order it tests them. */
  datatype ListView = LoadingList | ErrorList(message: string) | EmptyList | NoResults | Grid

  function ListingView(isLoading: bool, error: Option<string>, total: nat, shown: nat): (v: ListView)
    ensures v == LoadingList <==> isLoading
    ensures v.ErrorList? <==> !isLoading && error.Some?
    ensures v == EmptyList <==> !isLoading && error.None? && total == 0
    ensures v == NoResults <==> !isLoading && error.None? && total > 0 && shown == 0
    ensures v == Grid <==> !isLoading && error.None? && total > 0 && shown > 0
  {
    if isLoading then LoadingList
    else if error.Some? then ErrorList(error.value)
    else if total == 0 then EmptyList
    else if shown == 0 then NoResults
    else Grid
  }
}
