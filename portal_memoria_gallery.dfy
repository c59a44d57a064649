/** The public Portal de la Memoria gallery: approved entries newest first
    and a search over name, surname and description. */
module PortalGallery {
  import opened Wrappers
  import opened Text
  import opened Sorting
  import opened FirebaseTypes
  import opened DocumentService
  import opened Listing

  datatype MemoriaEntry = MemoriaEntry(
    id: string,
    name: string,
    surname: string,
    description: string,
    imageUrl: string,
    createdAt: int)

  const LOAD_ERROR := "Error al cargar las entradas del portal de la memoria. Intenta nuevamente."

  function ToEntry(d: Submission, now: int): MemoriaEntry
    requires d.body.PortalBody?
  {
    MemoriaEntry(d.id, d.name, d.surname, d.body.description, d.body.imageUrl, CreatedTime(d, now))
  }

  function EntryNewer(a: MemoriaEntry, b: MemoriaEntry): bool {
    a.createdAt > b.createdAt
  }

  predicate AllPortal(docs: seq<Submission>) {
    forall i :: 0 <= i < |docs| ==> docs[i].body.PortalBody?
  }

  function LoadedEntries(docs: seq<Submission>, now: int): seq<MemoriaEntry>
    requires AllPortal(docs)
  {
    Sort(seq(|docs|, i requires 0 <= i < |docs| => ToEntry(docs[i], now)), EntryNewer)
  }

  /** The stored list is newest first and holds one converted entry per document. */
  lemma LoadedEntriesFacts(docs: seq<Submission>, now: int)
    requires AllPortal(docs)
    ensures Sorted(LoadedEntries(docs, now), EntryNewer)
    ensures |LoadedEntries(docs, now)| == |docs|
    ensures forall e :: e in LoadedEntries(docs, now) <==> exists i :: 0 <= i < |docs| && e == ToEntry(docs[i], now)
  {
    var converted := seq(|docs|, i requires 0 <= i < |docs| => ToEntry(docs[i], now));
    assert StrictOrder(EntryNewer);
    SortCorrect(converted, EntryNewer);
    forall e ensures e in LoadedEntries(docs, now) <==> e in converted {
      SortSameElements(converted, EntryNewer, e);
    }
    forall e ensures e in converted <==> exists i :: 0 <= i < |docs| && e == ToEntry(docs[i], now) {
      if e in converted {
        var i :| 0 <= i < |converted| && converted[i] == e;
        assert e == ToEntry(docs[i], now);
      }
      if exists i :: 0 <= i < |docs| && e == ToEntry(docs[i], now) {
        var i :| 0 <= i < |docs| && e == ToEntry(docs[i], now);
        assert converted[i] == e;
      }
    }
  }

  function EntryFields(e: MemoriaEntry): seq<string> {
    [e.name, e.surname, e.description]
  }

  function FilterEntries(entries: seq<MemoriaEntry>, query: string): (r: seq<MemoriaEntry>)
    ensures IsBlank(query) ==> r == entries
    ensures !IsBlank(query) ==> forall e :: e in r <==> e in entries && AnyFieldMatches(EntryFields(e), query)
  {
    SearchFilter(entries, query, EntryFields)
  }

  /** Every approved document of the Portal de la Memoria query has that shape. */
  lemma ApprovedArePortal(docs: seq<Submission>, coll: map<string, Submission>)
    requires QueryResult(docs, coll, Approved)
    requires forall k :: k in coll ==> coll[k].body.PortalBody?
    ensures AllPortal(docs)
  {
    forall i | 0 <= i < |docs| ensures docs[i].body.PortalBody? {
      assert docs[i] in docs;
      assert docs[i] in coll.Values;
    }
  }

  /** The shown entries are an order-preserving part of the listing, newest first. */
  ghost predicate ShownInOrder(filtered: seq<MemoriaEntry>, entries: seq<MemoriaEntry>) {
    Sorted(filtered, EntryNewer) && IsSubsequence(filtered, entries)
  }

  lemma FilterShownInOrder(entries: seq<MemoriaEntry>, query: string)
    requires Sorted(entries, EntryNewer)
    ensures ShownInOrder(FilterEntries(entries, query), entries)
  {
    SearchKeepsOrder(entries, query, EntryFields, EntryNewer);
  }

  /** `PortalMemoriaGallery`: the loaded and filtered lists, the query and the open entry. */
  class Gallery {
    const service: FirebaseService
    var entries: seq<MemoriaEntry>
    var filtered: seq<MemoriaEntry>
    var searchQuery: string
    var isLoading: bool
    var error: Option<string>
    var selected: Option<MemoriaEntry>

    /** The filtered list follows the query; both are newest first and the
        filtered one is an order-preserving part of the full one. */
    ghost predicate Valid()
      reads this, service
    {
      && service.Valid()
      && filtered == FilterEntries(entries, searchQuery)
      && Sorted(entries, EntryNewer)
      && ShownInOrder(filtered, entries)
    }

    constructor (service: FirebaseService)
      requires service.Valid()
      ensures Valid() && this.service == service
      ensures entries == [] && searchQuery == "" && isLoading && error.None? && selected.None?
    {
      this.service := service;
      entries := [];
      filtered := [];
      searchQuery := "";
      isLoading := true;
      error := None;
      selected := None;
      new;
      FilterShownInOrder(entries, searchQuery);
    }

    /** The load effect, followed by the filter effect it triggers. */
    method LoadEntries(fault: Option<Thrown>, now: int)
      requires Valid()
      modifies this
      ensures Valid() && !isLoading && searchQuery == old(searchQuery) && selected == old(selected)
      ensures fault.Some? ==> error == Some(LOAD_ERROR) && entries == old(entries)
      ensures fault.None? ==>
        && error.None?
        && exists docs :: QueryResult(docs, service.portal, Approved) && AllPortal(docs)
                          && entries == LoadedEntries(docs, now)
    {
      isLoading := true;
      error := None;
      var r := service.GetApproved(PortalMemoria, None, fault);
      if r.Ok? {
        var docs := r.value;
        ghost var full :| QueryResult(full, service.portal, Approved) && docs == Capped(full, None);
        assert docs == full;
        assert AllPortal(docs) by { ApprovedArePortal(docs, service.portal); }
        assert Sorted(LoadedEntries(docs, now), EntryNewer) by { LoadedEntriesFacts(docs, now); }
        entries := LoadedEntries(docs, now);
        filtered := FilterEntries(entries, searchQuery);
        FilterShownInOrder(entries, searchQuery);
      } else {
        error := Some(LOAD_ERROR);
      }
      isLoading := false;
    }

    method SetSearchQuery(query: string)
      requires Valid()
      modifies this
      ensures Valid()
      ensures searchQuery == query && filtered == FilterEntries(entries, query)
      ensures entries == old(entries) && isLoading == old(isLoading) && error == old(error) && selected == old(selected)
    {
      searchQuery := query;
      filtered := FilterEntries(entries, query);
      FilterShownInOrder(entries, query);
    }

    /** The empty state shows exactly when nothing is published; the
        no-results state exactly when the query hides every entry. */
    function View(): (v: ListView)
      reads this
      ensures v == EmptyList <==> !isLoading && error.None? && |entries| == 0
      ensures v == NoResults <==> !isLoading && error.None? && |entries| > 0 && |filtered| == 0
    {
      ListingView(isLoading, error, |entries|, |filtered|)
    }

    method OpenModal(e: MemoriaEntry)
      modifies this
      ensures selected == Some(e)
      ensures entries == old(entries) && filtered == old(filtered) && searchQuery == old(searchQuery)
      ensures isLoading == old(isLoading) && error == old(error)
    {
      selected := Some(e);
    }

    method CloseModal()
      modifies this
      ensures selected.None?
      ensures entries == old(entries) && filtered == old(filtered) && searchQuery == old(searchQuery)
      ensures isLoading == old(isLoading) && error == old(error)
    {
      selected := None;
    }
  }
}
