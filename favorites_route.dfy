/**
 * /api/favorites: the ledger of (user, influencer) favorites. GET joins the signed-in
 * user's rows, newest first, to the catalog; POST inserts one row behind a chain of guards.
 * The database is a set of rows with the unique constraint on the (userId, influencerId)
 * pair; a clock reading and a store failure are inputs.
 */
module FavoritesRoute {
  import opened Wrappers
  import opened Seqs
  import opened Session
  import opened Influencers

  datatype Favorite = Favorite(userId: string, influencerId: string, createdAt: int)

  /** At most one row per (userId, influencerId) pair. */
  predicate UniquePairs(rows: set<Favorite>) {
    forall a, b :: a in rows && b in rows && a.userId == b.userId && a.influencerId == b.influencerId ==> a == b
  }

  predicate HasPair(rows: set<Favorite>, userId: string, influencerId: string) {
    exists f :: f in rows && f.userId == userId && f.influencerId == influencerId
  }

  /** Outcome of `prisma.favorite.create`: the new row, error P2002, or any other failure. */
  datatype CreateResult = Inserted(row: Favorite) | UniqueViolation | StoreFailure

  /** The favorites table. */
  class FavoriteStore {
    var rows: set<Favorite>

    predicate Valid()
      reads this
    {
      UniquePairs(rows)
    }

    constructor ()
      ensures Valid() && rows == {}
    {
      rows := {};
    }

    /**
     * Inserts the pair stamped with `now`, unless the store fails or the pair is already
     * present, in which case nothing changes.
     */
    method Create(userId: string, influencerId: string, now: int, failure: bool) returns (res: CreateResult)
      requires Valid()
      modifies this
      ensures Valid()
      ensures failure ==> res == StoreFailure && rows == old(rows)
      ensures !failure && HasPair(old(rows), userId, influencerId) ==> res == UniqueViolation && rows == old(rows)
      ensures !failure && !HasPair(old(rows), userId, influencerId) ==>
        res == Inserted(Favorite(userId, influencerId, now)) && rows == old(rows) + {res.row}
    {
      if failure {
        res := StoreFailure;
      } else if HasPair(rows, userId, influencerId) {
        res := UniqueViolation;
      } else {
        var row := Favorite(userId, influencerId, now);
        rows := rows + {row};
        res := Inserted(row);
      }
    }
  }

  /** The HTTP responses of both handlers. */
  datatype Response =
    | Unauthorized
    | MissingInfluencerId
    | InfluencerNotFound
    | Created(favorite: Favorite)
    | AlreadyFavorited
    | InternalError
    | FavoritesList(influencers: seq<Influencer>)

  function Status(resp: Response): (code: int)
    ensures code in {200, 201, 400, 401, 404, 409, 500}
    ensures code == 201 <==> resp.Created?
    ensures code == 409 <==> resp.AlreadyFavorited?
  {
    match resp
    case Unauthorized => 401
    case MissingInfluencerId => 400
    case InfluencerNotFound => 404
    case Created(_) => 201
    case AlreadyFavorited => 409
    case InternalError => 500
    case FavoritesList(_) => 200
  }

  // ---------------------------------------------------------------- POST

  /** The request body: JSON that fails to parse, or an object whose `influencerId` may be absent. */
  datatype Body = Unreadable | Body(influencerId: Option<string>)

  /** The request passes every guard of POST and reaches the insert. */
  predicate Admitted(catalog: seq<Influencer>, session: Option<Session>, body: Body) {
    HasUserId(session) && body.Body? && Given(body.influencerId) &&
    GetInfluencerById(catalog, body.influencerId.value).Some?
  }

  /**
   * POST /api/favorites. The guards are checked in order: a user id, a readable body, a
   * truthy influencerId, an influencer in the catalog; only then is the row created.
   */
  method Post(store: FavoriteStore, catalog: seq<Influencer>, session: Option<Session>, body: Body,
              now: int, failure: bool) returns (resp: Response)
    requires store.Valid()
    modifies store
    ensures store.Valid()
    ensures !Admitted(catalog, session, body) ==> store.rows == old(store.rows)
    ensures !HasUserId(session) ==> resp == Unauthorized
    ensures HasUserId(session) && body.Unreadable? ==> resp == InternalError
    ensures HasUserId(session) && body.Body? && !Given(body.influencerId) ==> resp == MissingInfluencerId
    ensures (HasUserId(session) && body.Body? && Given(body.influencerId) &&
             GetInfluencerById(catalog, body.influencerId.value).None?) ==> resp == InfluencerNotFound
    ensures Admitted(catalog, session, body) && failure ==>
      resp == InternalError && store.rows == old(store.rows)
    ensures Admitted(catalog, session, body) && !failure ==>
      var row := Favorite(UserId(session), body.influencerId.value, now);
      if HasPair(old(store.rows), row.userId, row.influencerId)
      then resp == AlreadyFavorited && store.rows == old(store.rows)
      else resp == Created(row) && store.rows == old(store.rows) + {row}
  {
    if !HasUserId(session) {
      return Unauthorized;
    }
    if body.Unreadable? {
      return InternalError;
    }
    if !Given(body.influencerId) {
      return MissingInfluencerId;
    }
    var influencerId := body.influencerId.value;
    if GetInfluencerById(catalog, influencerId).None? {
      return InfluencerNotFound;
    }
    var res := store.Create(UserId(session), influencerId, now, failure);
    match res
    case Inserted(row) => resp := Created(row);
    case UniqueViolation => resp := AlreadyFavorited;
    case StoreFailure => resp := InternalError;
  }

  /** The same favorite posted twice: created once, then refused with 409, leaving one row. */
  method PostTwice(catalog: seq<Influencer>, session: Option<Session>, id: string, t1: int, t2: int)
    returns (first: Response, second: Response, rows: set<Favorite>)
    requires Admitted(catalog, session, Body(Some(id)))
    ensures first == Created(Favorite(UserId(session), id, t1))
    ensures second == AlreadyFavorited
    ensures rows == {Favorite(UserId(session), id, t1)}
  {
    var store := new FavoriteStore();
    first := Post(store, catalog, session, Body(Some(id)), t1, false);
    assert HasPair(store.rows, UserId(session), id) by {
      assert Favorite(UserId(session), id, t1) in store.rows;
    }
    second := Post(store, catalog, session, Body(Some(id)), t2, false);
    rows := store.rows;
  }

  // ---------------------------------------------------------------- GET

  /**
   * `favorites.map(fav => getInfluencerById(fav.influencerId))`. PresentIsKnown and the
   * GET handler's contract are proved against this definition.
   */
  function LookUp(catalog: seq<Influencer>, fetched: seq<Favorite>): (found: seq<Option<Influencer>>)
    ensures |found| == |fetched|
    ensures forall i :: 0 <= i < |fetched| ==> found[i] == GetInfluencerById(catalog, fetched[i].influencerId)
  {
    seq(|fetched|, i requires 0 <= i < |fetched| => GetInfluencerById(catalog, fetched[i].influencerId))
  }

  /** `.filter(inf => inf !== undefined)`. */
  function Present<T>(xs: seq<Option<T>>): seq<T> {
    if xs == [] then []
    else if xs[0].Some? then [xs[0].value] + Present(xs[1..])
    else Present(xs[1..])
  }

  /**
   * GET /api/favorites, given what the store answered for the user: the rows, or None when
   * the query failed, which the catch turns into a 500.
   */
  function GetFavorites(catalog: seq<Influencer>, session: Option<Session>, fetched: Option<seq<Favorite>>): (resp: Response)
    ensures resp.Unauthorized? <==> !HasUserId(session)
    ensures HasUserId(session) && fetched.None? ==> resp == InternalError
    ensures HasUserId(session) && fetched.Some? ==> resp == FavoritesList(Present(LookUp(catalog, fetched.value)))
  {
    if !HasUserId(session) then Unauthorized
    else if fetched.None? then InternalError
    else FavoritesList(Present(LookUp(catalog, fetched.value)))
  }

  /** Whether a fetched row's influencer is in the catalog. */
  predicate IsKnown(catalog: seq<Influencer>, f: Favorite) {
    GetInfluencerById(catalog, f.influencerId).Some?
  }

  /** The fetched rows whose influencer is in the catalog, in order. */
  function Known(catalog: seq<Influencer>, fetched: seq<Favorite>): (kept: seq<Favorite>)
    ensures |kept| <= |fetched|
    ensures forall i :: 0 <= i < |kept| ==> kept[i] in fetched && IsKnown(catalog, kept[i])
    ensures forall i :: 0 <= i < |fetched| && IsKnown(catalog, fetched[i]) ==> fetched[i] in kept
  {
    if fetched == [] then []
    else
      var rest := Known(catalog, fetched[1..]);
      assert forall i :: 1 <= i < |fetched| ==> fetched[i] == fetched[1..][i - 1];
      if IsKnown(catalog, fetched[0]) then [fetched[0]] + rest else rest
  }

  /** The listed influencers are, one for one and in order, the catalog records of the Known rows. */
  lemma {:induction false} PresentIsKnown(catalog: seq<Influencer>, fetched: seq<Favorite>)
    ensures var list := Present(LookUp(catalog, fetched));
      var kept := Known(catalog, fetched);
      |list| == |kept| &&
      forall i :: 0 <= i < |kept| ==> GetInfluencerById(catalog, kept[i].influencerId) == Some(list[i])
  {
    if fetched != [] {
      var tail := fetched[1..];
      PresentIsKnown(catalog, tail);
      var found := LookUp(catalog, fetched);
      assert found[1..] == LookUp(catalog, tail);
      var list, rest := Present(LookUp(catalog, tail)), Known(catalog, tail);
      if found[0].Some? {
        assert Present(found) == [found[0].value] + list;
        assert Known(catalog, fetched) == [fetched[0]] + rest;
      } else {
        assert Present(found) == list;
        assert Known(catalog, fetched) == rest;
      }
    }
  }

  /** Ordered by creation time, newest first. */
  predicate NewestFirst(s: seq<Favorite>) {
    forall i, j :: 0 <= i < j < |s| ==> s[i].createdAt >= s[j].createdAt
  }

  /** Dropping rows keeps a newest-first order. */
  lemma {:induction false} KnownNewestFirst(catalog: seq<Influencer>, fetched: seq<Favorite>)
    requires NewestFirst(fetched)
    ensures NewestFirst(Known(catalog, fetched))
  {
    if fetched != [] {
      var tail := fetched[1..];
      NewestSplit(fetched);
      KnownNewestFirst(catalog, tail);
      var rest := Known(catalog, tail);
      NewestAhead(fetched[0], tail, rest);
      if IsKnown(catalog, fetched[0]) {
        NewestCons(fetched[0], rest);
        assert Known(catalog, fetched) == [fetched[0]] + rest;
      } else {
        assert Known(catalog, fetched) == rest;
      }
    }
  }

  /** No row of `s` is newer than `head`. */
  predicate NoNewer(head: Favorite, s: seq<Favorite>) {
    forall j :: 0 <= j < |s| ==> head.createdAt >= s[j].createdAt
  }

  lemma NewestSplit(s: seq<Favorite>)
    requires s != [] && NewestFirst(s)
    ensures NewestFirst(s[1..]) && NoNewer(s[0], s[1..])
  {
    var tail := s[1..];
    forall i, j | 0 <= i < j < |tail| ensures tail[i].createdAt >= tail[j].createdAt {
      assert tail[i] == s[i + 1] && tail[j] == s[j + 1];
    }
    forall j | 0 <= j < |tail| ensures s[0].createdAt >= tail[j].createdAt {
      assert tail[j] == s[j + 1];
    }
  }

  lemma NewestCons(head: Favorite, rest: seq<Favorite>)
    requires NoNewer(head, rest) && NewestFirst(rest)
    ensures NewestFirst([head] + rest)
  {
    var s := [head] + rest;
    forall i, j | 0 <= i < j < |s| ensures s[i].createdAt >= s[j].createdAt {
      assert s[j] == rest[j - 1];
      if i > 0 { assert s[i] == rest[i - 1]; }
    }
  }

  lemma NewestAhead(head: Favorite, tail: seq<Favorite>, rest: seq<Favorite>)
    requires NoNewer(head, tail)
    requires forall j :: 0 <= j < |rest| ==> rest[j] in tail
    ensures NoNewer(head, rest)
  {
    forall j | 0 <= j < |rest| ensures head.createdAt >= rest[j].createdAt {
      var k :| 0 <= k < |tail| && tail[k] == rest[j];
    }
  }

  /**
   * What the store returns for `findMany({ where: { userId }, orderBy: { createdAt: "desc" } })`:
   * each of the user's rows once, and no other row, newest first.
   */
  predicate IsUserListing(rows: set<Favorite>, userId: string, fetched: seq<Favorite>) {
    && (forall i :: 0 <= i < |fetched| ==> fetched[i] in rows && fetched[i].userId == userId)
    && (forall f :: f in rows && f.userId == userId ==> f in fetched)
    && Distinct(fetched)
    && NewestFirst(fetched)
  }

  /**
   * GET lists the catalog records of this user's favorites only, newest first, one per row
   * whose influencer is in the catalog; rows naming an unknown influencer are dropped.
   */
  lemma GetFavoritesFromStore(catalog: seq<Influencer>, session: Option<Session>, rows: set<Favorite>,
                              fetched: seq<Favorite>)
    requires HasUserId(session) && IsUserListing(rows, UserId(session), fetched)
    ensures var resp := GetFavorites(catalog, session, Some(fetched));
      var kept := Known(catalog, fetched);
      && resp.FavoritesList?
      && |resp.influencers| == |kept| <= |fetched|
      && (forall i :: 0 <= i < |kept| ==>
            kept[i] in rows && kept[i].userId == UserId(session) &&
            GetInfluencerById(catalog, kept[i].influencerId) == Some(resp.influencers[i]))
      && NewestFirst(kept)
      && (forall f :: (f in rows && f.userId == UserId(session) &&
                       GetInfluencerById(catalog, f.influencerId).Some?) ==> f in kept)
  {
    PresentIsKnown(catalog, fetched);
    KnownNewestFirst(catalog, fetched);
    var kept := Known(catalog, fetched);
    forall f | f in rows && f.userId == UserId(session) && GetInfluencerById(catalog, f.influencerId).Some?
      ensures f in kept
    {
      var k :| 0 <= k < |fetched| && fetched[k] == f;
    }
  }
}
