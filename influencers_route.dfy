/**
 * GET /api/influencers: the listing endpoint. Any session admits the caller; the query
 * string supplies the criteria and the page, and the page size is fixed at 12.
 */
module InfluencersRoute {
  import opened Wrappers
  import opened Decimal
  import opened Session
  import opened QueryParams
  import opened Influencers

  const PageSize: int := 12

  datatype Response =
    | Unauthorized
      /** The page envelope, for a page parameter that parses to an integer. */
    | Listing(result: PaginatedResult<Influencer>)
      /**
       * The envelope when `parseInt` gives NaN: the slice is empty, `page` serialises as
       * null and both navigation flags are false.
       */
    | UnnumberedPage(total: nat, pageSize: int, totalPages: nat)

  function Status(resp: Response): (code: int)
    ensures code == 401 <==> resp.Unauthorized?
    ensures code == 200 <==> !resp.Unauthorized?
  {
    if resp.Unauthorized? then 401 else 200
  }

  /** `searchParams.get(key) || undefined`: an absent or empty parameter is no criterion. */
  function Criterion(q: Params, key: string): (c: Option<string>)
    ensures c.None? <==> GetOrDefault(q, key, "") == ""
    ensures c.Some? ==> c == Get(q, key) && c.value != ""
  {
    var v := GetOrDefault(q, key, "");
    if v == "" then None else Some(v)
  }

  /** The options handed to `filterInfluencers`: the search defaults to "". */
  function Criteria(q: Params): FilterOptions {
    FilterOptions(Some(GetOrDefault(q, "search", "")), Criterion(q, "topic"),
                  Criterion(q, "platform"), Criterion(q, "gender"))
  }

  /** `parseInt(searchParams.get("page") || "1", 10)`, None standing for NaN. */
  function RequestedPage(q: Params): Option<int> {
    ParseInt(GetOrDefault(q, "page", "1"))
  }

  /**
   * The handler. A null session is refused; otherwise the catalog records that meet the
   * query's criteria are paginated, twelve to a page.
   */
  function ListInfluencers(catalog: seq<Influencer>, session: Option<Session>, q: Params): (resp: Response)
    ensures resp.Unauthorized? <==> session.None?
    ensures session.Some? && RequestedPage(q).Some? ==>
      resp == Listing(Paginate(Matching(catalog, Criteria(q)), RequestedPage(q).value, PageSize))
    ensures session.Some? && RequestedPage(q).None? ==>
      var n := |Matching(catalog, Criteria(q))|;
      resp == UnnumberedPage(n, PageSize, TotalPages(n, PageSize))
  {
    if session.None? then Unauthorized
    else
      var filtered := FilterInfluencers(catalog, Criteria(q));
      FilterInfluencersIsMatching(catalog, Criteria(q));
      match RequestedPage(q)
      case Some(page) => Listing(Paginate(filtered, page, PageSize))
      case None => UnnumberedPage(|filtered|, PageSize, TotalPages(|filtered|, PageSize))
  }

  /** The query imposes no criterion exactly when its four filter parameters are absent or empty. */
  lemma CriteriaEmpty(q: Params)
    ensures NoCriteria(Criteria(q)) <==>
      GetOrDefault(q, "search", "") == "" && GetOrDefault(q, "topic", "") == "" &&
      GetOrDefault(q, "platform", "") == "" && GetOrDefault(q, "gender", "") == ""
  {
  }

  /** A missing or empty page parameter means page 1. */
  lemma PageDefault(q: Params)
    requires Get(q, "page").None? || Get(q, "page") == Some("")
    ensures RequestedPage(q) == Some(1)
  {
    assert GetOrDefault(q, "page", "1") == "1";
    assert AllDigits("1") && DigitsValue("1") == 1 by {
      assert "1"[..0] == "";
    }
    ParseDigits("1");
  }

  /** A request with no query string lists the first page of the whole catalog. */
  lemma DefaultRequest(catalog: seq<Influencer>, session: Session)
    ensures ListInfluencers(catalog, Some(session), []) == Listing(Paginate(catalog, 1, PageSize))
  {
    PageDefault([]);
    CriteriaEmpty([]);
  }

  /**
   * Every listed record is a catalog record meeting the criteria, and a numbered page
   * from 1 on lists the run of matches that starts at (page - 1) * 12.
   */
  lemma ListedRecordsMatch(catalog: seq<Influencer>, session: Session, q: Params)
    requires RequestedPage(q).Some? && RequestedPage(q).value >= 1
    ensures var resp := ListInfluencers(catalog, Some(session), q);
      var matches := Matching(catalog, Criteria(q));
      var page := RequestedPage(q).value;
      && (forall i :: 0 <= i < |resp.result.data| ==>
            resp.result.data[i] in catalog && Satisfies(Criteria(q), resp.result.data[i]))
      && (resp.result.data != [] ==> resp.result.data <= matches[(page - 1) * PageSize..])
  {
    var matches := Matching(catalog, Criteria(q));
    var page := RequestedPage(q).value;
    var resp := ListInfluencers(catalog, Some(session), q);
    assert resp.result == Paginate(matches, page, PageSize);
    PaginateData(matches, page, PageSize);
    var data := resp.result.data;
    if data != [] {
      RunMembers(data, matches, (page - 1) * PageSize);
    }
  }

  /** The elements of a prefix of `s[k..]` are elements of `s`. */
  lemma RunMembers<T>(data: seq<T>, s: seq<T>, k: int)
    requires 0 <= k <= |s| && data <= s[k..]
    ensures forall i :: 0 <= i < |data| ==> data[i] in s
  {
    forall i | 0 <= i < |data| ensures data[i] in s {
      assert data[i] == s[k + i];
    }
  }

  /** A page number written into the query, NaN included, is the page the handler serves. */
  lemma PageRoundTrip(q: Params, page: Option<int>)
    ensures RequestedPage(Set(q, "page", NumberText(page))) == page
  {
    NumberTextRoundTrip(page);
  }
}
