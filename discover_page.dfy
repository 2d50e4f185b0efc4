/**
 * The discover page's client state: the filters and page it mirrors into the URL, the
 * query it sends to the listing endpoint, and the favorite toggle. React's effects are
 * modelled as the steps they perform once their inputs change: the debounce timer firing
 * is its own step, and a change of a filter sets the page back to 1 in the same step.
 */
module DiscoverPage {
  import opened Wrappers
  import opened Seqs
  import opened Decimal
  import opened QueryParams
  import opened Session
  import opened Influencers
  import opened InfluencersRoute

  /** The state serialised into the URL and the API query; a page of None is NaN. */
  datatype FilterState = FilterState(search: string, topic: string, platform: string, gender: string, page: Option<int>)

  /** `currentPage > 1`, which is false for NaN. */
  predicate PastFirstPage(page: Option<int>) {
    page.Some? && page.value > 1
  }

  /** A value is written only when it is truthy. */
  function IfNonEmpty(v: string): (o: Option<string>)
    ensures o.None? <==> v == ""
    ensures o.Some? ==> o.value == v
  {
    if v != "" then Some(v) else None
  }

  /** The URL parser: absent values read as "", and the page as `parseInt(get("page") || "1")`. */
  function ParseUrlParams(params: Params): FilterState {
    FilterState(GetOrDefault(params, "search", ""), GetOrDefault(params, "topic", ""),
                GetOrDefault(params, "platform", ""), GetOrDefault(params, "gender", ""),
                RequestedPage(params))
  }

  /** An empty query string is the unfiltered first page. */
  lemma EmptyUrl()
    ensures ParseUrlParams([]) == FilterState("", "", "", "", Some(1))
  {
    PageDefault([]);
  }

  /** One query entry, present only when its value is truthy. */
  function Entry(key: string, value: string): (p: Params)
    ensures p == [] <==> value == ""
    ensures forall k :: k != key ==> Lacks(p, k)
    ensures Get(p, key) == IfNonEmpty(value)
  {
    if value != "" then [(key, value)] else []
  }

  /** The page entry of the URL, present only past page 1. */
  function PageEntry(page: Option<int>): (p: Params)
    ensures p == [] <==> !PastFirstPage(page)
    ensures forall k :: k != "page" ==> Lacks(p, k)
    ensures Get(p, "page") == if PastFirstPage(page) then Some(NumberText(page)) else None
  {
    if PastFirstPage(page) then [("page", NumberText(page))] else []
  }

  lemma FlattenFive(a: Params, b: Params, c: Params, d: Params, e: Params)
    ensures Flatten([a, b, c, d, e]) == a + b + c + d + e
  {
    assert Flatten([a]) == a by { assert [a][..0] == []; }
    assert Flatten([a, b]) == a + b by { assert [a, b][..1] == [a]; }
    assert Flatten([a, b, c]) == a + b + c by { assert [a, b, c][..2] == [a, b]; }
    assert Flatten([a, b, c, d]) == a + b + c + d by { assert [a, b, c, d][..3] == [a, b, c]; }
    assert [a, b, c, d, e][..4] == [a, b, c, d];
  }

  /** The parts the URL builder writes, in the order it writes them. */
  function UrlParts(st: FilterState): seq<Params> {
    [Entry("search", st.search), Entry("topic", st.topic), Entry("platform", st.platform),
     Entry("gender", st.gender), PageEntry(st.page)]
  }

  /** Each key is looked up in its own part of a five-part query. */
  lemma GetEachPart(parts: seq<Params>)
    requires |parts| == 5
    requires forall i :: 0 <= i < 5 && i != 0 ==> Lacks(parts[i], "search")
    requires forall i :: 0 <= i < 5 && i != 1 ==> Lacks(parts[i], "topic")
    requires forall i :: 0 <= i < 5 && i != 2 ==> Lacks(parts[i], "platform")
    requires forall i :: 0 <= i < 5 && i != 3 ==> Lacks(parts[i], "gender")
    requires forall i :: 0 <= i < 5 && i != 4 ==> Lacks(parts[i], "page")
    ensures Get(Flatten(parts), "search") == Get(parts[0], "search")
    ensures Get(Flatten(parts), "topic") == Get(parts[1], "topic")
    ensures Get(Flatten(parts), "platform") == Get(parts[2], "platform")
    ensures Get(Flatten(parts), "gender") == Get(parts[3], "gender")
    ensures Get(Flatten(parts), "page") == Get(parts[4], "page")
  {
    GetInPart(parts, 0, "search");
    GetInPart(parts, 1, "topic");
    GetInPart(parts, 2, "platform");
    GetInPart(parts, 3, "gender");
    GetInPart(parts, 4, "page");
  }

  /** The five keys the URL builder and parser use. */
  predicate IsUrlKey(k: string) {
    k == "search" || k == "topic" || k == "platform" || k == "gender" || k == "page"
  }

  /** The query the URL builder writes: the parts of UrlParts, one after the other. */
  function UrlEntries(st: FilterState): Params {
    Flatten(UrlParts(st))
  }

  /**
   * The URL builder: `params.set` for each truthy filter, and for the page only past
   * page 1, each key being new when it is set. UrlFacts states what the result holds.
   */
  method BuildUrlParams(st: FilterState) returns (params: Params)
    ensures params == UrlEntries(st)
  {
    var s, t, f, g := Entry("search", st.search), Entry("topic", st.topic),
                      Entry("platform", st.platform), Entry("gender", st.gender);
    params := SetWhen([], st.search != "", "search", st.search);
    assert params == s;
    params := SetWhen(params, st.topic != "", "topic", st.topic);
    LacksAppend(s, t, "platform");
    params := SetWhen(params, st.platform != "", "platform", st.platform);
    LacksAppend(s, t, "gender");
    LacksAppend(s + t, f, "gender");
    params := SetWhen(params, st.gender != "", "gender", st.gender);
    LacksAppend(s, t, "page");
    LacksAppend(s + t, f, "page");
    LacksAppend(s + t + f, g, "page");
    params := SetWhen(params, PastFirstPage(st.page), "page", NumberText(st.page));
    FlattenFive(s, t, f, g, PageEntry(st.page));
  }

  /** `if (present) params.set(key, value)` on a query that does not have the key yet. */
  method SetWhen(params: Params, present: bool, key: string, value: string) returns (r: Params)
    requires Lacks(params, key)
    ensures r == params + if present then [(key, value)] else []
  {
    r := params;
    if present {
      SetNew(params, key, value);
      r := Set(params, key, value);
    }
  }

  /**
   * The URL holds each truthy filter under its key, and the page only past page 1; it is
   * empty exactly when there is nothing to write; parsing it gives the state back, a page
   * not past 1 being read as 1.
   */
  lemma UrlFacts(st: FilterState)
    ensures var params := UrlEntries(st);
      && Get(params, "search") == IfNonEmpty(st.search)
      && Get(params, "topic") == IfNonEmpty(st.topic)
      && Get(params, "platform") == IfNonEmpty(st.platform)
      && Get(params, "gender") == IfNonEmpty(st.gender)
      && Get(params, "page") == (if PastFirstPage(st.page) then Some(NumberText(st.page)) else None)
      && (params == [] <==>
            st.search == "" && st.topic == "" && st.platform == "" && st.gender == "" && !PastFirstPage(st.page))
      && ParseUrlParams(params) == (if PastFirstPage(st.page) then st else st.(page := Some(1)))
      && forall k :: !IsUrlKey(k) ==> Lacks(params, k)
  {
    var params := UrlEntries(st);
    var p := UrlParts(st);
    UrlKeysOnly(st);
    FlattenFive(p[0], p[1], p[2], p[3], p[4]);
    GetEachPart(UrlParts(st));
    if PastFirstPage(st.page) {
      NumberTextRoundTrip(st.page);
    } else {
      PageDefault(params);
    }
  }

  /** The URL holds no key other than the five the builder writes. */
  lemma UrlKeysOnly(st: FilterState)
    ensures forall k :: !IsUrlKey(k) ==> Lacks(UrlEntries(st), k)
  {
    forall k | !IsUrlKey(k) ensures Lacks(UrlEntries(st), k) {
      LacksFlatten(UrlParts(st), k);
    }
  }

  /** The parts of the listing request's query, the page first. */
  function ApiParts(st: FilterState): seq<Params> {
    [[("page", NumberText(st.page))], Entry("search", st.search), Entry("topic", st.topic),
     Entry("platform", st.platform), Entry("gender", st.gender)]
  }

  /**
   * The listing request's query: `new URLSearchParams({ page, ...truthy filters })`. The
   * page is always sent; each filter only when it is not empty.
   */
  function ApiParams(st: FilterState): Params {
    Flatten(ApiParts(st))
  }

  /** The listing request carries the page and exactly the truthy filters. */
  lemma ApiParamsContent(st: FilterState)
    ensures var p := ApiParams(st);
      && Get(p, "page") == Some(NumberText(st.page))
      && Get(p, "search") == IfNonEmpty(st.search)
      && Get(p, "topic") == IfNonEmpty(st.topic)
      && Get(p, "platform") == IfNonEmpty(st.platform)
      && Get(p, "gender") == IfNonEmpty(st.gender)
  {
    var parts := ApiParts(st);
    GetInPart(parts, 0, "page");
    GetInPart(parts, 1, "search");
    GetInPart(parts, 2, "topic");
    GetInPart(parts, 3, "platform");
    GetInPart(parts, 4, "gender");
  }

  /** The criteria the page's state stands for. */
  function StateCriteria(st: FilterState): FilterOptions {
    FilterOptions(Some(st.search), IfNonEmpty(st.topic), IfNonEmpty(st.platform), IfNonEmpty(st.gender))
  }

  /**
   * Client and server agree: the listing endpoint reads from the page's query the same
   * criteria and the same page, so a signed-in user is shown that page of the catalog
   * records meeting the page's filters.
   */
  lemma ApiRequestServesState(catalog: seq<Influencer>, session: Session, st: FilterState)
    ensures Criteria(ApiParams(st)) == StateCriteria(st)
    ensures RequestedPage(ApiParams(st)) == st.page
    ensures st.page.Some? ==>
      ListInfluencers(catalog, Some(session), ApiParams(st)) ==
      Listing(Paginate(Matching(catalog, StateCriteria(st)), st.page.value, PageSize))
  {
    ApiParamsContent(st);
    NumberTextRoundTrip(st.page);
  }

  // ---------------------------------------------------------------- page state

  /** The request the toggle sends: DELETE /api/favorites/{id} or POST /api/favorites. */
  datatype FavoriteRequest = Unfavorite(id: string) | Favorite(id: string)

  /** Whether any of the reset effect's dependencies differ between two states. */
  predicate FiltersDiffer(a: FilterState, b: FilterState) {
    a.search != b.search || a.topic != b.topic || a.platform != b.platform || a.gender != b.gender
  }

  /** How the request ended: a response with `ok` set or not, or a thrown error. */
  datatype Outcome = Ok | NotOk | Threw

  class DiscoverPageState {
    var favorites: set<string>
    var selected: Option<Influencer>
    var isDetailModalOpen: bool
    var search: string
    var debouncedSearch: string
    var selectedTopic: string
    var selectedPlatform: string
    var selectedGender: string
    var currentPage: Option<int>

    /** The state the URL and the listing request are built from. */
    function Query(): FilterState
      reads this
    {
      FilterState(debouncedSearch, selectedTopic, selectedPlatform, selectedGender, currentPage)
    }

    /**
     * Mounting: the `useState` initialisers, then the first run of the effect that sets the
     * page back to 1, which React runs once after mounting whatever its dependencies are.
     * So the page shown first is page 1, whatever initial page the server passed.
     */
    constructor (initialFavorites: set<string>, initial: FilterState)
      ensures favorites == initialFavorites && selected.None? && !isDetailModalOpen
      ensures search == initial.search && Query() == initial.(page := Some(1))
    {
      favorites := initialFavorites;
      selected := None;
      isDetailModalOpen := false;
      search := initial.search;
      debouncedSearch := initial.search;
      selectedTopic := initial.topic;
      selectedPlatform := initial.platform;
      selectedGender := initial.gender;
      currentPage := Some(1);  // the reset effect's first run replaces initial.page
    }

    /**
     * `handleFavoriteClick`: a favorite is removed, anything else added, and the set
     * changes only on an ok response; the new size is then reported. Removing the
     * influencer whose details are open clears the selection and closes the modal.
     */
    method FavoriteClick(id: string, outcome: Outcome) returns (request: FavoriteRequest, reported: Option<nat>)
      modifies this
      ensures request == if id in old(favorites) then Unfavorite(id) else Favorite(id)
      ensures outcome == Ok ==>
        favorites == (if id in old(favorites) then old(favorites) - {id} else old(favorites) + {id}) &&
        reported == Some(|favorites|)
      ensures outcome != Ok ==> favorites == old(favorites) && reported.None?
      ensures if outcome == Ok && id in old(favorites) && old(selected).Some? && old(selected).value.id == id
              then selected.None? && !isDetailModalOpen
              else selected == old(selected) && isDetailModalOpen == old(isDetailModalOpen)
      ensures Query() == old(Query()) && search == old(search)
    {
      reported := None;
      if id in favorites {
        request := Unfavorite(id);
        if outcome == Ok {
          var updated := favorites - {id};
          favorites := updated;
          reported := Some(|updated|);
          if selected.Some? && selected.value.id == id {
            selected := None;
            isDetailModalOpen := false;
          }
        }
      } else {
        request := Favorite(id);
        if outcome == Ok {
          var updated := favorites + {id};
          favorites := updated;
          reported := Some(|updated|);
        }
      }
    }

    /** `handleViewDetails`. */
    method ViewDetails(influencer: Influencer)
      modifies this
      ensures selected == Some(influencer) && isDetailModalOpen
      ensures favorites == old(favorites) && Query() == old(Query()) && search == old(search)
    {
      selected := Some(influencer);
      isDetailModalOpen := true;
    }

    /**
     * The sync effect: the filters, the search and its debounced copy, and the page follow
     * the URL. When that changes the debounced search or a filter, the page-reset effect
     * runs next and sets the page back to 1, so the URL's page survives only when the
     * filters stay as they were.
     */
    method SyncFromUrl(params: Params)
      modifies this
      ensures var parsed := ParseUrlParams(params);
        Query() == if FiltersDiffer(parsed, old(Query())) then parsed.(page := Some(1)) else parsed
      ensures search == debouncedSearch
      ensures favorites == old(favorites) && selected == old(selected) && isDetailModalOpen == old(isDetailModalOpen)
    {
      var parsed := ParseUrlParams(params);
      var changed := FiltersDiffer(parsed, Query());
      Load(parsed);
      if changed {
        currentPage := Some(1);
      }
    }

    /** Puts `st` into the filter fields, the search box showing the search text. */
    method Load(st: FilterState)
      modifies this
      ensures Query() == st && search == st.search
      ensures favorites == old(favorites) && selected == old(selected) && isDetailModalOpen == old(isDetailModalOpen)
    {
      search := st.search;
      debouncedSearch := st.search;
      selectedTopic := st.topic;
      selectedPlatform := st.platform;
      selectedGender := st.gender;
      currentPage := st.page;
    }

    /** Typing in the search box changes only the search text. */
    method TypeSearch(text: string)
      modifies this
      ensures search == text && Query() == old(Query())
      ensures favorites == old(favorites) && selected == old(selected) && isDetailModalOpen == old(isDetailModalOpen)
    {
      search := text;
    }

    /** The debounce timer fires: the search takes effect, and a changed search resets the page. */
    method DebounceElapsed()
      modifies this
      ensures debouncedSearch == search
      ensures currentPage == if search != old(debouncedSearch) then Some(1) else old(currentPage)
      ensures selectedTopic == old(selectedTopic) && selectedPlatform == old(selectedPlatform)
      ensures selectedGender == old(selectedGender) && search == old(search)
      ensures favorites == old(favorites) && selected == old(selected) && isDetailModalOpen == old(isDetailModalOpen)
    {
      if search != debouncedSearch {
        debouncedSearch := search;
        currentPage := Some(1);
      }
    }

    /** Choosing a topic; a different topic resets the page to 1. */
    method ChangeTopic(topic: string)
      modifies this
      ensures Query() == old(Query()).(topic := topic,
                                       page := if topic != old(selectedTopic) then Some(1) else old(currentPage))
      ensures search == old(search)
      ensures favorites == old(favorites) && selected == old(selected) && isDetailModalOpen == old(isDetailModalOpen)
    {
      if topic != selectedTopic {
        selectedTopic := topic;
        currentPage := Some(1);
      }
    }

    /** Choosing a platform; a different platform resets the page to 1. */
    method ChangePlatform(platform: string)
      modifies this
      ensures Query() == old(Query()).(platform := platform,
                                       page := if platform != old(selectedPlatform) then Some(1) else old(currentPage))
      ensures search == old(search)
      ensures favorites == old(favorites) && selected == old(selected) && isDetailModalOpen == old(isDetailModalOpen)
    {
      if platform != selectedPlatform {
        selectedPlatform := platform;
        currentPage := Some(1);
      }
    }

    /** Choosing a gender; a different gender resets the page to 1. */
    method ChangeGender(gender: string)
      modifies this
      ensures Query() == old(Query()).(gender := gender,
                                       page := if gender != old(selectedGender) then Some(1) else old(currentPage))
      ensures search == old(search)
      ensures favorites == old(favorites) && selected == old(selected) && isDetailModalOpen == old(isDetailModalOpen)
    {
      if gender != selectedGender {
        selectedGender := gender;
        currentPage := Some(1);
      }
    }

    /** The Pagination component's `onPageChange`. */
    method ChangePage(page: int)
      modifies this
      ensures Query() == old(Query()).(page := Some(page)) && search == old(search)
      ensures favorites == old(favorites) && selected == old(selected) && isDetailModalOpen == old(isDetailModalOpen)
    {
      currentPage := Some(page);
    }

    /** `handleReset`: every filter and the search box cleared, back to page 1. */
    method Reset()
      modifies this
      ensures search == "" && selectedTopic == "" && selectedPlatform == "" && selectedGender == ""
      ensures currentPage == Some(1) && debouncedSearch == old(debouncedSearch)
      ensures favorites == old(favorites) && selected == old(selected) && isDetailModalOpen == old(isDetailModalOpen)
    {
      search := "";
      selectedTopic := "";
      selectedPlatform := "";
      selectedGender := "";
      currentPage := Some(1);
    }

    /** After a reset and the debounce that follows it, the URL carries no parameter at all. */
    method ResetAndSettle() returns (url: Params)
      modifies this
      ensures url == [] && Query() == FilterState("", "", "", "", Some(1))
    {
      Reset();
      DebounceElapsed();
      url := BuildUrlParams(Query());
      UrlFacts(Query());
    }
  }
}
