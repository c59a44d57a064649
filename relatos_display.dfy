/** The public relato listing: approved relatos newest first, a search
    box, pages of twelve with clamped arrows, and a shortened preview of
    each text. */
module RelatosDisplay {
  import opened Wrappers
  import opened Text
  import opened Sorting
  import opened FirebaseTypes
  import opened DocumentService
  import opened Listing

  datatype RelatoEntry = RelatoEntry(
    id: string,
    name: string,
    surname: string,
    title: string,
    content: string,
    bannerImageUrl: string,
    createdAt: int)

  const LOAD_ERROR := "Error al cargar los relatos. Intenta nuevamente."
  const ITEMS_PER_PAGE: nat := 12
  const PREVIEW_LENGTH: nat := 150

  function ToEntry(d: Submission, now: int): RelatoEntry
    requires d.body.RelatoBody?
  {
    RelatoEntry(d.id, d.name, d.surname, d.body.title, d.body.content, d.body.bannerImageUrl, CreatedTime(d, now))
  }

  /** `b.created_at.getTime() - a.created_at.getTime()`: `a` first when it is newer. */
  function EntryNewer(a: RelatoEntry, b: RelatoEntry): bool {
    a.createdAt > b.createdAt
  }

  predicate AllRelatos(docs: seq<Submission>) {
    forall i :: 0 <= i < |docs| ==> docs[i].body.RelatoBody?
  }

  /** The converted and sorted list the component stores. */
  function LoadedEntries(docs: seq<Submission>, now: int): seq<RelatoEntry>
    requires AllRelatos(docs)
  {
    Sort(seq(|docs|, i requires 0 <= i < |docs| => ToEntry(docs[i], now)), EntryNewer)
  }

  lemma LoadedEntriesSorted(docs: seq<Submission>, now: int)
    requires AllRelatos(docs)
    ensures Sorted(LoadedEntries(docs, now), EntryNewer)
    ensures |LoadedEntries(docs, now)| == |docs|
  {
    var converted := seq(|docs|, i requires 0 <= i < |docs| => ToEntry(docs[i], now));
    assert StrictOrder(EntryNewer);
    SortCorrect(converted, EntryNewer);
  }

  /** The stored list is newest first and holds one converted entry per document. */
  lemma LoadedEntriesFacts(docs: seq<Submission>, now: int)
    requires AllRelatos(docs)
    ensures Sorted(LoadedEntries(docs, now), EntryNewer)
    ensures |LoadedEntries(docs, now)| == |docs|
    ensures forall e :: e in LoadedEntries(docs, now) <==> exists i :: 0 <= i < |docs| && e == ToEntry(docs[i], now)
  {
    var converted := seq(|docs|, i requires 0 <= i < |docs| => ToEntry(docs[i], now));
    assert StrictOrder(EntryNewer);
    LoadedEntriesSorted(docs, now);
    forall e ensures e in LoadedEntries(docs, now) <==> e in converted {
      SortSameElements(converted, EntryNewer, e);
    }
    forall e ensures e in converted <==> exists i :: 0 <= i < |docs| && e == ToEntry(docs[i], now) {
      if e in converted {
        var i :| 0 <= i < |converted| && converted[i] == e;
        assert e == ToEntry(docs[i], now);
      }
      if exists i :: 0 <= i < |docs| && e == ToEntry(docs[i], now) {
        var i :| 0 <= i < |docs| && e == ToEntry(docs[i], now);
        assert converted[i] == e;
      }
    }
  }

  function EntryFields(e: RelatoEntry): seq<string> {
    [e.name, e.surname, e.title, e.content]
  }

  /** The search over name, surname, title and text. */
  function FilterRelatos(relatos: seq<RelatoEntry>, query: string): (r: seq<RelatoEntry>)
    ensures IsBlank(query) ==> r == relatos
    ensures !IsBlank(query) ==> forall e :: e in r <==> e in relatos && AnyFieldMatches(EntryFields(e), query)
  {
    SearchFilter(relatos, query, EntryFields)
  }

  /** `Math.ceil(n / 12)`. */
  function TotalPages(n: nat): (p: nat)
    ensures p * ITEMS_PER_PAGE >= n
    ensures p == 0 || (p - 1) * ITEMS_PER_PAGE < n
    ensures p == 0 <==> n == 0
  {
    (n + ITEMS_PER_PAGE - 1) / ITEMS_PER_PAGE
  }

  /** How `Array.prototype.slice` reads an index: negative counts from the
      end, and the result is clamped to `[0, len]`. */
  function SliceIndex(i: int, len: nat): (r: nat)
    ensures r <= len
    ensures 0 <= i ==> r == if i < len then i else len
  {
    if i < 0 then (if len + i < 0 then 0 else len + i) else if i < len then i else len
  }

  function Slice<T>(s: seq<T>, start: int, end: int): (r: seq<T>)
    ensures |r| <= |s|
    ensures 0 <= start <= end ==> |r| <= end - start
    ensures 0 <= start <= end <= |s| ==> r == s[start..end]
  {
    var a, b := SliceIndex(start, |s|), SliceIndex(end, |s|);
    if a < b then s[a..b] else []
  }

  /** `currentRelatos`: the page's slice, or everything with pagination off. */
  function PageItems(items: seq<RelatoEntry>, page: int, showPagination: bool): seq<RelatoEntry> {
    if showPagination then Slice(items, (page - 1) * ITEMS_PER_PAGE, (page - 1) * ITEMS_PER_PAGE + ITEMS_PER_PAGE)
    else items
  }

  /** A page never holds more than twelve entries; every entry sits at its
      place on page `i / 12 + 1`, which is a real page; and every real page
      holds something. */
  lemma PagesCoverTheList(items: seq<RelatoEntry>, i: nat, page: int)
    ensures |PageItems(items, page, true)| <= ITEMS_PER_PAGE
    ensures i < |items| ==>
      && 1 <= i / ITEMS_PER_PAGE + 1 <= TotalPages(|items|)
      && |PageItems(items, i / ITEMS_PER_PAGE + 1, true)| > i % ITEMS_PER_PAGE
      && PageItems(items, i / ITEMS_PER_PAGE + 1, true)[i % ITEMS_PER_PAGE] == items[i]
    ensures 1 <= page <= TotalPages(|items|) ==> |PageItems(items, page, true)| > 0
    ensures PageItems(items, page, false) == items
  {
    if i < |items| {
      var p, r := i / ITEMS_PER_PAGE, i % ITEMS_PER_PAGE;
      assert i == p * ITEMS_PER_PAGE + r;
      var start := p * ITEMS_PER_PAGE;
      var end := start + ITEMS_PER_PAGE;
      assert start <= i < end;
      assert (p + 1) * ITEMS_PER_PAGE > i;
      var page' := PageItems(items, p + 1, true);
      assert (p + 1 - 1) * ITEMS_PER_PAGE == start;
      if end <= |items| {
        assert page' == items[start..end];
      } else {
        assert page' == items[start..];
      }
    }
    if 1 <= page <= TotalPages(|items|) {
      assert (page - 1) * ITEMS_PER_PAGE < |items|;
    }
  }

  /** The arrows: back to at least page 1, forward to at most the last page. */
  function PrevPage(page: int): (r: int)
    ensures r == if page - 1 > 1 then page - 1 else 1
  {
    if page - 1 > 1 then page - 1 else 1
  }

  function NextPage(page: int, totalPages: nat): (r: int)
    ensures r == if page + 1 < totalPages then page + 1 else totalPages
  {
    if page + 1 < totalPages then page + 1 else totalPages
  }

  /** The arrows keep a page in range, and step by one inside it. */
  lemma ArrowsKeepPageInRange(page: int, totalPages: nat)
    requires 1 <= page <= totalPages
    ensures 1 <= PrevPage(page) <= totalPages && 1 <= NextPage(page, totalPages) <= totalPages
    ensures page > 1 ==> PrevPage(page) == page - 1
    ensures page < totalPages ==> NextPage(page, totalPages) == page + 1
    ensures page == 1 ==> PrevPage(page) == 1
    ensures page == totalPages ==> NextPage(page, totalPages) == totalPages
  {
  }

  predicate ShowControls(showPagination: bool, totalPages: nat) {
    showPagination && totalPages > 1
  }

  /** `truncateContent(content, 150)`: short content as it is; otherwise the
      first `maxLength` characters without their surrounding whitespace,
      followed by `...`. */
  function TruncateContent(content: string, maxLength: nat): (r: string)
    ensures |content| <= maxLength ==> r == content
    ensures |content| > maxLength ==> 3 <= |r| <= maxLength + 3 && r[|r| - 3..] == "..."
  {
    if |content| <= maxLength then content
    else
      var head := content[..maxLength];
      TrimIsInfix(head);
      Trim(head) + "..."
  }

  /** Long content is cut to the text between the whitespace that opens and
      closes its first `maxLength` characters: what precedes `...` is a piece
      of the content that starts and ends with a non-space character, and
      only whitespace of the head lies outside it. */
  lemma TruncatedIsTrimmedHead(content: string, maxLength: nat)
    requires |content| > maxLength
    ensures var body := Trim(content[..maxLength]);
      var k := LeadingSpaces(content[..maxLength]);
      && TruncateContent(content, maxLength) == body + "..."
      && (body == [] || (!IsSpace(body[0]) && !IsSpace(body[|body| - 1])))
      && k + |body| <= maxLength
      && body == content[k..k + |body|]
      && (forall i :: 0 <= i < k ==> IsSpace(content[i]))
      && (forall i :: k + |body| <= i < maxLength ==> IsSpace(content[i]))
  {
    var head := content[..maxLength];
    var body := Trim(head);
    TrimIsInfix(head);
    var k := LeadingSpaces(head);
    assert body == head[k..k + |body|];
    assert head[k..k + |body|] == content[k..k + |body|];
    assert forall i :: 0 <= i < maxLength ==> head[i] == content[i];
  }

  /** The preview a card shows. */
  function Preview(e: RelatoEntry): string {
    TruncateContent(e.content, PREVIEW_LENGTH)
  }

  /** `RelatosDisplay`: the loaded and filtered lists, the query, the page
      and the open relato. */
  class Display {
    const service: FirebaseService
    const limit: Option<nat>
    const showPagination: bool
    var relatos: seq<RelatoEntry>
    var filtered: seq<RelatoEntry>
    var searchQuery: string
    var isLoading: bool
    var error: Option<string>
    var selected: Option<RelatoEntry>
    var currentPage: int

    /** The filtered list follows the query, and the stored list is newest first. */
    ghost predicate Valid()
      reads this
    {
      && filtered == FilterRelatos(relatos, searchQuery)
      && Sorted(relatos, EntryNewer)
    }

    predicate PageInRange()
      reads this
    {
      1 <= currentPage <= (if TotalPages(|filtered|) > 1 then TotalPages(|filtered|) else 1)
    }

    constructor (service: FirebaseService, limit: Option<nat>, showPagination: bool)
      ensures Valid() && PageInRange()
      ensures this.service == service && this.limit == limit && this.showPagination == showPagination
      ensures relatos == [] && searchQuery == "" && isLoading && error.None? && selected.None? && currentPage == 1
    {
      this.service := service;
      this.limit := limit;
      this.showPagination := showPagination;
      relatos := [];
      filtered := [];
      searchQuery := "";
      isLoading := true;
      error := None;
      selected := None;
      currentPage := 1;
    }

    /** The load effect, followed by the filter effect it triggers. */
    /** On success `full` is the query's answer before the cap. */
    method LoadRelatos(fault: Option<Thrown>, now: int) returns (ghost full: seq<Submission>)
      requires Valid() && service.Valid()
      modifies this
      ensures Valid() && !isLoading && searchQuery == old(searchQuery) && selected == old(selected)
      ensures fault.Some? ==>
        error == Some(LOAD_ERROR) && relatos == old(relatos) && currentPage == old(currentPage)
      ensures fault.None? ==>
        && error.None? && currentPage == 1
        && QueryResult(full, service.relatos, Approved) && AllRelatos(Capped(full, limit))
        && relatos == LoadedEntries(Capped(full, limit), now)
    {
      isLoading := true;
      error := None;
      var r := service.GetApproved(Relatos, limit, fault);
      if r.Ok? {
        var docs := r.value;
        full :| QueryResult(full, service.relatos, Approved) && docs == Capped(full, limit);
        ApprovedLoad(docs, full, service.relatos, limit, now);
        var loaded := LoadedEntries(docs, now);
        relatos, filtered, currentPage, isLoading := loaded, FilterRelatos(loaded, searchQuery), 1, false;
      } else {
        full := [];
        error, isLoading := Some(LOAD_ERROR), false;
      }
    }

    /** Typing in the search box: the filter effect runs and the page resets. */
    method SetSearchQuery(query: string)
      requires Valid()
      modifies this
      ensures Valid() && PageInRange()
      ensures searchQuery == query && currentPage == 1 && filtered == FilterRelatos(relatos, query)
      ensures relatos == old(relatos) && isLoading == old(isLoading) && error == old(error) && selected == old(selected)
    {
      searchQuery := query;
      filtered := FilterRelatos(relatos, query);
      currentPage := 1;
    }

    function TotalPagesNow(): nat
      reads this
    {
      TotalPages(|filtered|)
    }

    function CurrentRelatos(): seq<RelatoEntry>
      reads this
    {
      PageItems(filtered, currentPage, showPagination)
    }

    function View(): ListView
      reads this
    {
      ListingView(isLoading, error, |relatos|, |filtered|)
    }

    /** The "Anterior" button. */
    method GoToPrevious()
      requires PageInRange()
      modifies this
      ensures currentPage == PrevPage(old(currentPage)) && PageInRange()
      ensures relatos == old(relatos) && filtered == old(filtered) && searchQuery == old(searchQuery)
      ensures isLoading == old(isLoading) && error == old(error) && selected == old(selected)
    {
      currentPage := PrevPage(currentPage);
    }

    /** The "Siguiente" button, rendered only with more than one page. */
    method GoToNext()
      requires PageInRange() && ShowControls(showPagination, TotalPagesNow())
      modifies this
      ensures currentPage == NextPage(old(currentPage), TotalPagesNow()) && PageInRange()
      ensures relatos == old(relatos) && filtered == old(filtered) && searchQuery == old(searchQuery)
      ensures isLoading == old(isLoading) && error == old(error) && selected == old(selected)
    {
      currentPage := NextPage(currentPage, TotalPagesNow());
    }

    /** A numbered page button. */
    method GoToPage(page: int)
      requires 1 <= page <= TotalPagesNow()
      modifies this
      ensures currentPage == page && PageInRange()
      ensures relatos == old(relatos) && filtered == old(filtered) && searchQuery == old(searchQuery)
      ensures isLoading == old(isLoading) && error == old(error) && selected == old(selected)
    {
      currentPage := page;
    }

    method OpenModal(e: RelatoEntry)
      modifies this
      ensures selected == Some(e)
      ensures relatos == old(relatos) && filtered == old(filtered) && searchQuery == old(searchQuery)
      ensures isLoading == old(isLoading) && error == old(error) && currentPage == old(currentPage)
    {
      selected := Some(e);
    }

    method CloseModal()
      modifies this
      ensures selected.None?
      ensures relatos == old(relatos) && filtered == old(filtered) && searchQuery == old(searchQuery)
      ensures isLoading == old(isLoading) && error == old(error) && currentPage == old(currentPage)
    {
      selected := None;
    }
  }

  /** Loading the query's answer stores a list that is newest first. */
  lemma ApprovedLoad(docs: seq<Submission>, full: seq<Submission>, coll: map<string, Submission>, limit: Option<nat>, now: int)
    requires QueryResult(full, coll, Approved) && docs == Capped(full, limit)
    requires forall k :: k in coll ==> coll[k].body.RelatoBody?
    ensures AllRelatos(docs)
    ensures Sorted(LoadedEntries(docs, now), EntryNewer)
  {
    ApprovedAreRelatos(docs, full, coll);
    LoadedEntriesSorted(docs, now);
  }

  /** Every approved document the relato query returns has the relato shape. */
  lemma ApprovedAreRelatos(docs: seq<Submission>, full: seq<Submission>, coll: map<string, Submission>)
    requires QueryResult(full, coll, Approved)
    requires exists n :: docs == Capped(full, n)
    requires forall k :: k in coll ==> coll[k].body.RelatoBody?
    ensures AllRelatos(docs)
  {
    forall i | 0 <= i < |docs| ensures docs[i].body.RelatoBody? {
      assert docs[i] == full[i];
      assert full[i] in full;
      assert full[i] in coll.Values;
    }
  }
}
