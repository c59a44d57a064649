/** The relatos landing page: approved relatos turned into carousel
    stories, ordered by id from the highest, the five with the greatest
    ids in the carousel and the rest searchable below. Document ids are
    not timestamps, so id order is not creation order. */
module RelatosMainContent {
  import opened Wrappers
  import opened Text
  import opened Sorting
  import opened FirebaseTypes
  import opened DocumentService
  import opened Listing

  datatype Story = Story(
    id: string,
    title: string,
    category: string,
    categoryLabel: string,
    description: string,
    duration: string,
    difficulty: string,
    background: string,
    author: string)

  const LOAD_ERROR := "Error al cargar los relatos"
  const DESCRIPTION_LENGTH: nat := 200
  const CHARS_PER_MINUTE: nat := 200
  const CAROUSEL_SIZE: nat := 5

  /** `Math.ceil(length / 200)`. */
  function ReadingMinutes(length: nat): (m: nat)
    ensures m * CHARS_PER_MINUTE >= length
    ensures m == 0 || (m - 1) * CHARS_PER_MINUTE < length
  {
    (length + CHARS_PER_MINUTE - 1) / CHARS_PER_MINUTE
  }

  /** The story card for an approved relato. */
  function ToStory(d: Submission): (s: Story)
    requires d.body.RelatoBody?
    ensures s.id == d.id && s.title == d.body.title && s.background == d.body.bannerImageUrl
    ensures s.category == "relato" && s.categoryLabel == "Relato" && s.difficulty == "Emotiva"
    ensures var c := d.body.content;
      && |s.description| == (if |c| < DESCRIPTION_LENGTH then |c| else DESCRIPTION_LENGTH) + 3
      && s.description == c[..|s.description| - 3] + "..."
    ensures s.duration == NatToString(ReadingMinutes(|d.body.content|)) + " min"
    ensures s.author == d.name + " " + d.surname
  {
    Story(d.id, d.body.title, "relato", "Relato", Take(d.body.content, DESCRIPTION_LENGTH) + "...",
          NatToString(ReadingMinutes(|d.body.content|)) + " min", "Emotiva", d.body.bannerImageUrl,
          d.name + " " + d.surname)
  }

  /** Code-unit order on strings: a proper prefix comes first. */
  predicate LexLess(a: string, b: string)
    decreases |a|
  {
    if a == [] then b != []
    else b != [] && (a[0] < b[0] || (a[0] == b[0] && LexLess(a[1..], b[1..])))
  }

  lemma {:induction false} LexLessIrreflexive(a: string)
    ensures !LexLess(a, a)
    decreases |a|
  {
    if a != [] {
      LexLessIrreflexive(a[1..]);
    }
  }

  lemma {:induction false} LexLessTransitive(a: string, b: string, c: string)
    requires LexLess(a, b) && LexLess(b, c)
    ensures LexLess(a, c)
    decreases |a|
  {
    if a != [] && a[0] == b[0] && b[0] == c[0] {
      LexLessTransitive(a[1..], b[1..], c[1..]);
    }
  }

  /** `b.id.localeCompare(a.id)`: `a` first when its id is the greater. */
  function IdAfter(a: Story, b: Story): bool {
    LexLess(b.id, a.id)
  }

  lemma IdAfterIsStrictOrder()
    ensures StrictOrder(IdAfter)
  {
    forall a: Story ensures !IdAfter(a, a) {
      LexLessIrreflexive(a.id);
    }
    forall a: Story, b: Story, c: Story | IdAfter(a, b) && IdAfter(b, c) ensures IdAfter(a, c) {
      LexLessTransitive(c.id, b.id, a.id);
    }
  }

  predicate AllRelatos(docs: seq<Submission>) {
    forall i :: 0 <= i < |docs| ==> docs[i].body.RelatoBody?
  }

  function Stories(docs: seq<Submission>): seq<Story>
    requires AllRelatos(docs)
  {
    Sort(seq(|docs|, i requires 0 <= i < |docs| => ToStory(docs[i])), IdAfter)
  }

  /** The stories are ordered by id from the highest and there is one per relato. */
  lemma StoriesFacts(docs: seq<Submission>)
    requires AllRelatos(docs)
    ensures Sorted(Stories(docs), IdAfter)
    ensures |Stories(docs)| == |docs|
    ensures forall s :: s in Stories(docs) <==> exists i :: 0 <= i < |docs| && s == ToStory(docs[i])
  {
    var converted := seq(|docs|, i requires 0 <= i < |docs| => ToStory(docs[i]));
    IdAfterIsStrictOrder();
    SortCorrect(converted, IdAfter);
    forall s ensures s in Stories(docs) <==> s in converted {
      SortSameElements(converted, IdAfter, s);
    }
    forall s ensures s in converted <==> exists i :: 0 <= i < |docs| && s == ToStory(docs[i]) {
      if s in converted {
        var i :| 0 <= i < |converted| && converted[i] == s;
        assert s == ToStory(docs[i]);
      }
      if exists i :: 0 <= i < |docs| && s == ToStory(docs[i]) {
        var i :| 0 <= i < |docs| && s == ToStory(docs[i]);
        assert converted[i] == s;
      }
    }
  }

  /** `stories.slice(0, 5)`. */
  function Latest(stories: seq<Story>): (r: seq<Story>)
    ensures |r| == if |stories| < CAROUSEL_SIZE then |stories| else CAROUSEL_SIZE
    ensures r == stories[..|r|]
  {
    if |stories| < CAROUSEL_SIZE then stories else stories[..CAROUSEL_SIZE]
  }

  /** On a list ordered by id, the carousel holds the five greatest ids: no
      story left out comes before one shown. */
  lemma LatestAreGreatest(stories: seq<Story>)
    requires Sorted(stories, IdAfter)
    ensures forall i, j :: 0 <= i < |Latest(stories)| <= j < |stories| ==> !IdAfter(stories[j], Latest(stories)[i])
  {
  }

  function StoryFields(s: Story): seq<string> {
    [s.title, s.description, s.author]
  }

  /** The search is not trimmed: every story whose title, description or
      author contains the lowercased query, in order. */
  function FilterStories(stories: seq<Story>, query: string): (r: seq<Story>)
    ensures forall s :: s in r <==> s in stories && AnyFieldMatches(StoryFields(s), query)
  {
    Select(stories, (s: Story) => AnyFieldMatches(StoryFields(s), query))
  }

  /** The empty query keeps every story, and the result keeps their order. */
  lemma FilterStoriesFacts(stories: seq<Story>, query: string)
    ensures query == "" ==> FilterStories(stories, query) == stories
    ensures IsSubsequence(FilterStories(stories, query), stories)
  {
    SelectIsSubsequence(stories, (s: Story) => AnyFieldMatches(StoryFields(s), query));
    if query == "" {
      forall s | s in stories ensures AnyFieldMatches(StoryFields(s), query) {
        EmptyContained(ToLower(s.title));
        assert ToLower(query) == [];
        assert Contains(ToLower(StoryFields(s)[0]), ToLower(query));
      }
      SelectKeepsAll(stories, (s: Story) => AnyFieldMatches(StoryFields(s), query));
    }
  }

  /** The branches the page renders. */
  datatype MainView = LoadingView | ErrorView(message: string) | NoStoriesView | StoriesView(noResults: bool)

  /** `RelatosMainContentFirebase`: the stories, the query and the load state. */
  class MainContent {
    const service: FirebaseService
    var stories: seq<Story>
    var searchQuery: string
    var isLoading: bool
    var error: Option<string>

    ghost predicate Valid()
      reads this, service
    {
      service.Valid() && Sorted(stories, IdAfter)
    }

    constructor (service: FirebaseService)
      requires service.Valid()
      ensures Valid() && this.service == service
      ensures stories == [] && searchQuery == "" && isLoading && error.None?
    {
      this.service := service;
      stories := [];
      searchQuery := "";
      isLoading := true;
      error := None;
    }

    /** The load effect; a failed load leaves no stories and the error set. */
    method LoadRelatos(fault: Option<Thrown>)
      requires Valid()
      modifies this
      ensures Valid() && !isLoading && searchQuery == old(searchQuery)
      ensures fault.Some? ==> error == Some(LOAD_ERROR) && stories == []
      ensures fault.None? ==>
        && error.None?
        && exists docs :: QueryResult(docs, service.relatos, Approved) && AllRelatos(docs) && stories == Stories(docs)
    {
      isLoading := true;
      error := None;
      var r := service.GetApproved(Relatos, None, fault);
      if r.Ok? {
        var docs := r.value;
        ghost var full :| QueryResult(full, service.relatos, Approved) && docs == Capped(full, None);
        assert docs == full;
        forall i | 0 <= i < |docs| ensures docs[i].body.RelatoBody? {
          assert docs[i] in docs;
          assert docs[i] in service.relatos.Values;
        }
        StoriesFacts(docs);
        stories := Stories(docs);
      } else {
        error := Some(LOAD_ERROR);
        stories := [];
      }
      isLoading := false;
    }

    method SetSearchQuery(query: string)
      requires Valid()
      modifies this
      ensures Valid() && searchQuery == query
      ensures stories == old(stories) && isLoading == old(isLoading) && error == old(error)
    {
      searchQuery := query;
    }

    function Filtered(): seq<Story>
      reads this
    {
      FilterStories(stories, searchQuery)
    }

    /** The page: the spinner, the error, the no-stories invitation, or the
        carousel and grid, with the no-results notice when a non-empty query
        matches nothing. */
    function View(): (v: MainView)
      reads this
      ensures v == LoadingView <==> isLoading
      ensures v.ErrorView? <==> !isLoading && error.Some?
      ensures v.ErrorView? ==> v == ErrorView(error.value)
      ensures v == NoStoriesView <==> !isLoading && error.None? && stories == []
      ensures v.StoriesView? ==> |stories| > 0 && (v.noResults <==> Filtered() == [] && searchQuery != "")
    {
      if isLoading then LoadingView
      else if error.Some? then ErrorView(error.value)
      else if stories == [] then NoStoriesView
      else StoriesView(Filtered() == [] && searchQuery != "")
    }
  }
}
