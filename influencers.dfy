/**
 * The catalog query engine of src/lib/influencers.ts: lookup by id, the distinct
 * topic/platform/gender values offered as filter options, the conjunctive filter,
 * and 1-indexed pagination. The catalog, a JSON file in the source, is a parameter.
 */
module Influencers {
  import opened Wrappers
  import opened Text
  import opened Seqs

  /** One catalog record; only the fields the query engine reads are modelled. */
  datatype Influencer = Influencer(
    id: string,
    name: string,
    location: string,
    gender: string,
    topics: seq<string>,
    platform: seq<string>)

  /** `influencersData.find(influencer => influencer.id === id)`. */
  function GetInfluencerById(catalog: seq<Influencer>, id: string): (r: Option<Influencer>)
    ensures r.None? <==> forall i :: 0 <= i < |catalog| ==> catalog[i].id != id
    ensures r.Some? ==> r.value in catalog && r.value.id == id
    ensures forall k :: (0 <= k < |catalog| && catalog[k].id == id &&
                         forall i :: 0 <= i < k ==> catalog[i].id != id) ==> r == Some(catalog[k])
  {
    if catalog == [] then None
    else if catalog[0].id == id then Some(catalog[0])
    else
      var r := GetInfluencerById(catalog[1..], id);
      assert forall i :: 1 <= i < |catalog| ==> catalog[i] == catalog[1..][i - 1];
      r
  }

  // ---------------------------------------------------------------- filter options

  function TopicLists(catalog: seq<Influencer>): seq<seq<string>> {
    seq(|catalog|, i requires 0 <= i < |catalog| => catalog[i].topics)
  }

  function PlatformLists(catalog: seq<Influencer>): seq<seq<string>> {
    seq(|catalog|, i requires 0 <= i < |catalog| => catalog[i].platform)
  }

  function GenderLists(catalog: seq<Influencer>): seq<seq<string>> {
    seq(|catalog|, i requires 0 <= i < |catalog| => [catalog[i].gender])
  }

  /**
   * Fills a `Set` from the lists in `ls` and returns `Array.from(set).sort()`:
   * strictly ascending, and holding exactly the values that occur in some list.
   */
  method SortedDistinct(ls: seq<seq<string>>) returns (r: seq<string>)
    ensures StrictlyAscending(r)
    ensures forall t :: t in r <==> exists i :: 0 <= i < |ls| && t in ls[i]
  {
    var seen := CollectDistinct(ls);
    DedupeMembers(Flatten(ls));
    r := Sort(seen);
    forall t ensures t in r <==> t in seen {
      assert t in r <==> t in multiset(r);
      assert t in seen <==> t in multiset(seen);
    }
    DedupeInSome(ls);
  }

  /** The sorted distinct topics of the catalog (getUniqueTopics). */
  method GetUniqueTopics(catalog: seq<Influencer>) returns (r: seq<string>)
    ensures StrictlyAscending(r)
    ensures forall t :: t in r <==> exists i :: 0 <= i < |catalog| && t in catalog[i].topics
  {
    var lists := TopicLists(catalog);
    assert forall i :: 0 <= i < |catalog| ==> lists[i] == catalog[i].topics;
    r := SortedDistinct(lists);
  }

  /** The sorted distinct platforms of the catalog (getUniquePlatforms). */
  method GetUniquePlatforms(catalog: seq<Influencer>) returns (r: seq<string>)
    ensures StrictlyAscending(r)
    ensures forall p :: p in r <==> exists i :: 0 <= i < |catalog| && p in catalog[i].platform
  {
    var lists := PlatformLists(catalog);
    assert forall i :: 0 <= i < |catalog| ==> lists[i] == catalog[i].platform;
    r := SortedDistinct(lists);
  }

  /** The sorted distinct genders of the catalog (getUniqueGenders). */
  method GetUniqueGenders(catalog: seq<Influencer>) returns (r: seq<string>)
    ensures StrictlyAscending(r)
    ensures forall g :: g in r <==> exists i :: 0 <= i < |catalog| && catalog[i].gender == g
  {
    var lists := GenderLists(catalog);
    assert forall i :: 0 <= i < |catalog| ==> lists[i] == [catalog[i].gender];
    r := SortedDistinct(lists);
    forall g ensures g in r <==> exists i :: 0 <= i < |catalog| && catalog[i].gender == g {
      if exists i :: 0 <= i < |lists| && g in lists[i] {
        var i :| 0 <= i < |lists| && g in lists[i];
        assert catalog[i].gender == g;
      }
      if exists i :: 0 <= i < |catalog| && catalog[i].gender == g {
        var i :| 0 <= i < |catalog| && catalog[i].gender == g;
        assert g in lists[i];
      }
    }
  }

  // ---------------------------------------------------------------- filter

  /** The criteria of `filterInfluencers`; absent fields are None. */
  datatype FilterOptions = FilterOptions(
    search: Option<string>,
    topic: Option<string>,
    platform: Option<string>,
    gender: Option<string>)

  /** A criterion is applied when it is truthy: present and not the empty string. */
  predicate Given(o: Option<string>) {
    o.Some? && o.value != ""
  }

  predicate NoCriteria(opts: FilterOptions) {
    !Given(opts.search) && !Given(opts.topic) && !Given(opts.platform) && !Given(opts.gender)
  }

  predicate MatchesSearch(opts: FilterOptions, x: Influencer) {
    Given(opts.search) ==>
      Contains(Lower(x.name), Lower(opts.search.value)) ||
      Contains(Lower(x.location), Lower(opts.search.value))
  }

  predicate MatchesTopic(opts: FilterOptions, x: Influencer) {
    Given(opts.topic) ==> opts.topic.value in x.topics
  }

  predicate MatchesPlatform(opts: FilterOptions, x: Influencer) {
    Given(opts.platform) ==> opts.platform.value in x.platform
  }

  predicate MatchesGender(opts: FilterOptions, x: Influencer) {
    Given(opts.gender) ==> x.gender == opts.gender.value
  }

  /** `x` meets every supplied criterion. */
  predicate Satisfies(opts: FilterOptions, x: Influencer) {
    MatchesSearch(opts, x) && MatchesTopic(opts, x) && MatchesPlatform(opts, x) && MatchesGender(opts, x)
  }

  /**
   * Reference definition of the filter: one pass over the catalog keeping, in order,
   * the records that meet every supplied criterion.
   */
  function Matching(catalog: seq<Influencer>, opts: FilterOptions): (r: seq<Influencer>)
    ensures forall x :: x in r <==> x in catalog && Satisfies(opts, x)
    ensures IsSubsequence(r, catalog)
    ensures NoCriteria(opts) ==> r == catalog
  {
    if catalog == [] then []
    else
      var rest := Matching(catalog[1..], opts);
      assert catalog == [catalog[0]] + catalog[1..];
      if Satisfies(opts, catalog[0]) then [catalog[0]] + rest else rest
  }

  /**
   * `filterInfluencers(options)`: the successive `filtered = filtered.filter(...)` steps,
   * each applied only when its criterion is truthy.
   */
  function FilterInfluencers(catalog: seq<Influencer>, opts: FilterOptions): seq<Influencer> {
    GenderStep(PlatformStep(TopicStep(SearchStep(catalog, opts), opts), opts), opts)
  }

  /** The search step: name or location contains the lowercased search text, ignoring case. */
  function SearchStep(s: seq<Influencer>, opts: FilterOptions): seq<Influencer> {
    var needle := Lower(opts.search.GetOr(""));
    if Given(opts.search) then
      Filter(s, (x: Influencer) => Contains(Lower(x.name), needle) || Contains(Lower(x.location), needle))
    else s
  }

  function TopicStep(s: seq<Influencer>, opts: FilterOptions): seq<Influencer> {
    if Given(opts.topic) then Filter(s, (x: Influencer) => opts.topic.GetOr("") in x.topics) else s
  }

  function PlatformStep(s: seq<Influencer>, opts: FilterOptions): seq<Influencer> {
    if Given(opts.platform) then Filter(s, (x: Influencer) => opts.platform.GetOr("") in x.platform) else s
  }

  function GenderStep(s: seq<Influencer>, opts: FilterOptions): seq<Influencer> {
    if Given(opts.gender) then Filter(s, (x: Influencer) => x.gender == opts.gender.GetOr("")) else s
  }

  /**
   * The step-by-step filter equals the one-pass conjunction filter. By Matching's contract
   * the result is then an order-preserving subsequence of the catalog, holds exactly the
   * records that meet every supplied criterion, and is the whole catalog when none is supplied.
   */
  lemma FilterInfluencersIsMatching(catalog: seq<Influencer>, opts: FilterOptions)
    ensures FilterInfluencers(catalog, opts) == Matching(catalog, opts)
  {
    var s1 := SearchStep(catalog, opts);
    var s2 := TopicStep(s1, opts);
    var s3 := PlatformStep(s2, opts);
    SearchStepIsFilter(catalog, opts);
    TopicStepIsFilter(s1, opts);
    PlatformStepIsFilter(s2, opts);
    GenderStepIsFilter(s3, opts);
    FusedIsMatching(catalog, opts);
  }

  lemma SearchStepIsFilter(s: seq<Influencer>, opts: FilterOptions)
    ensures SearchStep(s, opts) == Filter(s, (x: Influencer) => MatchesSearch(opts, x))
  {
    var needle := Lower(opts.search.GetOr(""));
    StepIsFilter(s, Given(opts.search),
      (x: Influencer) => Contains(Lower(x.name), needle) || Contains(Lower(x.location), needle),
      (x: Influencer) => MatchesSearch(opts, x));
  }

  lemma TopicStepIsFilter(s: seq<Influencer>, opts: FilterOptions)
    ensures TopicStep(s, opts) == Filter(s, (x: Influencer) => MatchesTopic(opts, x))
  {
    StepIsFilter(s, Given(opts.topic), (x: Influencer) => opts.topic.GetOr("") in x.topics,
      (x: Influencer) => MatchesTopic(opts, x));
  }

  lemma PlatformStepIsFilter(s: seq<Influencer>, opts: FilterOptions)
    ensures PlatformStep(s, opts) == Filter(s, (x: Influencer) => MatchesPlatform(opts, x))
  {
    StepIsFilter(s, Given(opts.platform), (x: Influencer) => opts.platform.GetOr("") in x.platform,
      (x: Influencer) => MatchesPlatform(opts, x));
  }

  lemma GenderStepIsFilter(s: seq<Influencer>, opts: FilterOptions)
    ensures GenderStep(s, opts) == Filter(s, (x: Influencer) => MatchesGender(opts, x))
  {
    StepIsFilter(s, Given(opts.gender), (x: Influencer) => x.gender == opts.gender.GetOr(""),
      (x: Influencer) => MatchesGender(opts, x));
  }

  /** The four criterion filters one after the other are the one-pass filter. */
  lemma FusedIsMatching(catalog: seq<Influencer>, opts: FilterOptions)
    ensures Filter(Filter(Filter(Filter(catalog,
                (x: Influencer) => MatchesSearch(opts, x)),
                (x: Influencer) => MatchesTopic(opts, x)),
                (x: Influencer) => MatchesPlatform(opts, x)),
                (x: Influencer) => MatchesGender(opts, x))
            == Matching(catalog, opts)
  {
    var ms := (x: Influencer) => MatchesSearch(opts, x);
    var mt := (x: Influencer) => MatchesTopic(opts, x);
    var mp := (x: Influencer) => MatchesPlatform(opts, x);
    var mg := (x: Influencer) => MatchesGender(opts, x);
    var mst := (x: Influencer) => MatchesSearch(opts, x) && MatchesTopic(opts, x);
    var mstp := (x: Influencer) => mst(x) && MatchesPlatform(opts, x);
    var all := (x: Influencer) => mstp(x) && MatchesGender(opts, x);
    FilterFusion(catalog, ms, mt, mst);
    FilterFusion(catalog, mst, mp, mstp);
    FilterFusion(catalog, mstp, mg, all);
    FilterIsMatching(catalog, opts, all);
  }

  /** Filtering by a predicate equivalent to Satisfies is the reference filter. */
  lemma {:induction false} FilterIsMatching(s: seq<Influencer>, opts: FilterOptions, p: Influencer -> bool)
    requires forall x :: p(x) == Satisfies(opts, x)
    ensures Filter(s, p) == Matching(s, opts)
  {
    if s != [] { FilterIsMatching(s[1..], opts, p); }
  }

  /** A conditional filter step is a filter by the step's criterion read as "absent or met". */
  lemma StepIsFilter(s: seq<Influencer>, given: bool, p: Influencer -> bool, q: Influencer -> bool)
    requires forall x :: q(x) == (given ==> p(x))
    ensures (if given then Filter(s, p) else s) == Filter(s, q)
  {
    if given {
      FilterSamePredicate(s, p, q);
    } else {
      FilterTrue(s, q);
    }
  }

  lemma {:induction false} FilterSamePredicate(s: seq<Influencer>, p: Influencer -> bool, q: Influencer -> bool)
    requires forall x :: p(x) == q(x)
    ensures Filter(s, p) == Filter(s, q)
  {
    if s != [] { FilterSamePredicate(s[1..], p, q); }
  }

  // ---------------------------------------------------------------- pagination

  /** The page envelope returned by `paginateResults`. */
  datatype PaginatedResult<T> = PaginatedResult(
    data: seq<T>,
    total: nat,
    page: int,
    pageSize: int,
    totalPages: nat,
    hasNextPage: bool,
    hasPrevPage: bool)

  /** `Math.ceil(total / pageSize)` for a positive page size. */
  function TotalPages(total: nat, pageSize: nat): (n: nat)
    requires pageSize >= 1
    ensures n * pageSize >= total
    ensures n == 0 || (n - 1) * pageSize < total
    ensures n == 0 <==> total == 0
  {
    (total + pageSize - 1) / pageSize
  }

  /** A bound of `slice`: a negative one counts back from the end; the result is clipped to the sequence. */
  function SliceBound(len: nat, k: int): (b: nat)
    ensures b <= len
  {
    if k < 0 then (if len + k < 0 then 0 else len + k)
    else if k <= len then k
    else len
  }

  /** `items.slice(start, end)`. */
  function Slice<T>(items: seq<T>, start: int, end: int): seq<T> {
    var lo := SliceBound(|items|, start);
    var hi := SliceBound(|items|, end);
    if hi <= lo then [] else items[lo..hi]
  }

  /** `paginateResults(items, page, pageSize)`; any integer page, as the listing route may pass one. */
  function Paginate<T>(items: seq<T>, page: int, pageSize: int): (r: PaginatedResult<T>)
    requires pageSize >= 1
    ensures r.total == |items| && r.page == page && r.pageSize == pageSize
    ensures r.totalPages * pageSize >= |items|
    ensures r.totalPages == 0 || (r.totalPages - 1) * pageSize < |items|
    ensures r.hasNextPage <==> page < r.totalPages
    ensures r.hasPrevPage <==> page > 1
    ensures |r.data| <= pageSize
  {
    var total := |items|;
    var totalPages := TotalPages(total, pageSize);
    var start := (page - 1) * pageSize;
    var data := Slice(items, start, start + pageSize);
    PaginatedResult(data, total, page, pageSize, totalPages, page < totalPages, page > 1)
  }

  /**
   * Page 0 is empty, while page -1 counts back from the end of the list: with at least two
   * pages of items it holds the second-to-last run of pageSize items, and reports no
   * previous page.
   */
  lemma NonPositivePages<T>(items: seq<T>, pageSize: int)
    requires pageSize >= 1
    ensures Paginate(items, 0, pageSize).data == []
    ensures |items| >= 2 * pageSize ==>
      Paginate(items, -1, pageSize).data == items[|items| - 2 * pageSize..|items| - pageSize] &&
      !Paginate(items, -1, pageSize).hasPrevPage
  {
    assert (0 - 1) * pageSize == -pageSize;
    assert (-1 - 1) * pageSize == -2 * pageSize;
  }

  /**
   * The page's data is the run of items that starts at (page - 1) * pageSize: a full page
   * before the last page, the remainder on the last page, and nothing beyond it.
   */
  lemma PaginateData<T>(items: seq<T>, page: int, pageSize: int)
    requires page >= 1 && pageSize >= 1
    ensures var r := Paginate(items, page, pageSize);
      && (page - 1) * pageSize >= 0
      && (r.data != [] ==> (page - 1) * pageSize < |items| && r.data <= items[(page - 1) * pageSize..])
      && (page > r.totalPages ==> r.data == [])
      && (page < r.totalPages ==> |r.data| == pageSize)
      && (page == r.totalPages ==> |r.data| == |items| - (page - 1) * pageSize)
  {
    var r := Paginate(items, page, pageSize);
    var start := (page - 1) * pageSize;
    PageBounds(|items|, pageSize, r.totalPages, page, start);
    SliceFrom(items, start, pageSize);
    assert r.data == Slice(items, start, start + pageSize);
  }

  /** A slice from a non-negative start: empty past the end, otherwise the items up to the clipped end. */
  lemma SliceFrom<T>(items: seq<T>, start: int, len: int)
    requires 0 <= start && len >= 1
    ensures start >= |items| ==> Slice(items, start, start + len) == []
    ensures start < |items| && start + len <= |items| ==> Slice(items, start, start + len) == items[start..start + len]
    ensures start < |items| < start + len ==> Slice(items, start, start + len) == items[start..]
  {
  }

  /** Where a page starts relative to the total, by the page's position among the pages. */
  lemma PageBounds(total: nat, pageSize: nat, totalPages: nat, page: int, start: int)
    requires pageSize >= 1 && page >= 1 && start == (page - 1) * pageSize
    requires totalPages * pageSize >= total
    requires totalPages == 0 || (totalPages - 1) * pageSize < total
    ensures start >= 0
    ensures page > totalPages ==> start >= total
    ensures page < totalPages ==> start + pageSize <= total
    ensures page == totalPages ==> start < total <= start + pageSize
  {
    MulMonotone(0, page - 1, pageSize);
    if page > totalPages {
      MulMonotone(totalPages, page - 1, pageSize);
    }
    if page < totalPages {
      MulMonotone(page, totalPages - 1, pageSize);
    }
  }

  lemma MulMonotone(a: nat, b: nat, c: nat)
    requires a <= b
    ensures a * c <= b * c
  {
  }

  /** The data of pages 1..n, concatenated in order. */
  function PagesUpTo<T>(items: seq<T>, pageSize: int, n: nat): seq<T>
    requires pageSize >= 1
  {
    if n == 0 then [] else PagesUpTo(items, pageSize, n - 1) + Paginate(items, n, pageSize).data
  }

  lemma {:induction false} PagesUpToPrefix<T>(items: seq<T>, pageSize: int, n: nat)
    requires pageSize >= 1
    ensures n * pageSize <= |items| ==> PagesUpTo(items, pageSize, n) == items[..n * pageSize]
    ensures n * pageSize > |items| ==> PagesUpTo(items, pageSize, n) == items[..]
  {
    if n > 0 {
      PagesUpToPrefix(items, pageSize, n - 1);
      PageRun(items, pageSize, n);
      var start, m := (n - 1) * pageSize, n * pageSize;
      var prev, data := PagesUpTo(items, pageSize, n - 1), Paginate(items, n, pageSize).data;
      assert PagesUpTo(items, pageSize, n) == prev + data;
      if start < |items| {
        var end := if m <= |items| then m else |items|;
        assert prev == items[..start];
        assert data == items[start..end];
        assert items[..end] == items[..start] + items[start..end];
      } else {
        assert data == [];
        if start == |items| { assert items[..start] == items[..]; }
      }
    }
  }

  /** Page n holds the items from (n - 1) * pageSize up to n * pageSize or the end of the list. */
  lemma PageRun<T>(items: seq<T>, pageSize: int, n: nat)
    requires pageSize >= 1 && n >= 1
    ensures var start, data := (n - 1) * pageSize, Paginate(items, n, pageSize).data;
      && 0 <= start && start + pageSize == n * pageSize
      && (start >= |items| ==> data == [])
      && (start < |items| ==> data == items[start..if n * pageSize <= |items| then n * pageSize else |items|])
  {
    var start := (n - 1) * pageSize;
    MulMonotone(0, n - 1, pageSize);
    assert start + pageSize == n * pageSize;
    SliceFrom(items, start, pageSize);
  }

  /** The pages 1..totalPages, concatenated, give back the items exactly. */
  lemma PagesReassemble<T>(items: seq<T>, pageSize: int)
    requires pageSize >= 1
    ensures PagesUpTo(items, pageSize, Paginate(items, 1, pageSize).totalPages) == items
  {
    var n := Paginate(items, 1, pageSize).totalPages;
    PagesUpToPrefix(items, pageSize, n);
    assert items[..|items|] == items;
  }
}
