/** The catalog client: a single-slot cache of the client-credentials bearer token, and the
    track and artist searches that use it and retry once, with a forced refresh, on a 401.
    The clock, the identity endpoint and the search endpoint are inputs: each call is given
    what they would answer. */
module SpotifyRequest {
  import opened Wrappers
  import Http

  /** Lifetime assumed when the identity endpoint omits `expires_in`. */
  const DefaultExpiresIn: int := 3600
  /** Seconds taken off the lifetime so that a token is not used right up to its expiry. */
  const ExpiryMargin: int := 30
  /** Every search asks for the top hit only. */
  const SearchLimit: int := 1

  // ---------------------------------------------------------------------------------------
  // The credential cache
  // ---------------------------------------------------------------------------------------

  /** The answer of the identity endpoint to one client-credentials POST. A connection error,
      a timeout and a body that is not JSON all raise a `RequestException`. */
  datatype TokenReply =
    | TokenTransportFailure
    | TokenResponse(status: int, accessToken: string, expiresIn: Option<int>)

  /** What one call of `get_token` observes: the clock when it starts, the identity endpoint's
      reply should it have to fetch, and the clock once that reply has arrived. */
  datatype TokenCall = TokenCall(now: int, reply: TokenReply, nowAfter: int)

  /** The contents of the cache slot `{access_token, expires_at}`. */
  datatype Credential = Credential(accessToken: Option<string>, expiresAt: int)

  /** The slot as the module initialises it. */
  const EmptyCredential: Credential := Credential(None, 0)

  /** The fast path of `get_token`: no forced refresh, a token is cached and it has not expired. */
  predicate CanReuse(c: Credential, forceRefresh: bool, now: int)
  {
    !forceRefresh && c.accessToken.Some? && now < c.expiresAt
  }

  /** The POST went through and `raise_for_status` did not raise. */
  predicate FetchSucceeds(reply: TokenReply)
  {
    reply.TokenResponse? && !Http.RaisesForStatus(reply.status)
  }

  /** `int(json_data.get("expires_in", 3600))`. */
  function ExpiresIn(reply: TokenReply): int
    requires reply.TokenResponse?
  {
    reply.expiresIn.GetOr(DefaultExpiresIn)
  }

  /** The token `get_token` returns, the number of POSTs it sent to the identity endpoint, and
      the slot afterwards. */
  datatype TokenOutcome = TokenOutcome(token: Option<string>, fetches: nat, cache: Credential)

  /** `get_token(force_refresh)` on the slot `c`. */
  function GetTokenSpec(c: Credential, forceRefresh: bool, call: TokenCall): (r: TokenOutcome)
    ensures r.fetches <= 1
    ensures r.fetches == 0 <==> CanReuse(c, forceRefresh, call.now)
    ensures r.fetches == 0 ==> r.token == c.accessToken && r.cache == c
    ensures r.fetches == 1 && FetchSucceeds(call.reply) ==>
              r.token == Some(call.reply.accessToken) &&
              r.cache == Credential(r.token, call.nowAfter + ExpiresIn(call.reply) - ExpiryMargin)
    ensures r.fetches == 1 && !FetchSucceeds(call.reply) ==> r.token == None && r.cache == c
    ensures r.cache == c || r.cache.accessToken == r.token
  {
    if CanReuse(c, forceRefresh, call.now) then
      TokenOutcome(c.accessToken, 0, c)
    else
      match call.reply
      case TokenTransportFailure => TokenOutcome(None, 1, c)
      case TokenResponse(status, accessToken, _) =>
        if Http.RaisesForStatus(status) then TokenOutcome(None, 1, c)
        else
          var expiresAt := call.nowAfter + ExpiresIn(call.reply) - ExpiryMargin;
          TokenOutcome(Some(accessToken), 1, Credential(Some(accessToken), expiresAt))
  }

  /** A token fetched at `nowAfter` with lifetime `expires_in` is reused, without a POST, by every
      later unforced call that starts before `nowAfter + expires_in - 30`, and by no call that
      starts at or after that instant. */
  lemma FetchedTokenIsReused(c: Credential, force: bool, first: TokenCall, later: TokenCall)
    requires !CanReuse(c, force, first.now) && FetchSucceeds(first.reply)
    ensures var stored := GetTokenSpec(c, force, first).cache;
            var again := GetTokenSpec(stored, false, later);
            (again.fetches == 0 <==>
               later.now < first.nowAfter + ExpiresIn(first.reply) - ExpiryMargin) &&
            (again.fetches == 0 ==> again.token == Some(first.reply.accessToken))
  {
  }

  /** The process-wide slot `_HAY_TOKEN_ACTUAL_`. */
  class TokenBroker {
    var accessToken: Option<string>
    var expiresAt: int

    function Cache(): Credential
      reads this
    {
      Credential(accessToken, expiresAt)
    }

    constructor ()
      ensures Cache() == EmptyCredential
    {
      accessToken := None;
      expiresAt := 0;
    }

    /** `get_token(force_refresh)`: answers from the slot when it can, otherwise POSTs to the
        identity endpoint and, on success, stores the new token and its expiry together. */
    method GetToken(forceRefresh: bool, call: TokenCall) returns (token: Option<string>, fetches: nat)
      modifies this
      ensures var r := GetTokenSpec(old(Cache()), forceRefresh, call);
              token == r.token && fetches == r.fetches && Cache() == r.cache
    {
      var ahora := call.now;
      if !forceRefresh && accessToken.Some? && ahora < expiresAt {
        return accessToken, 0;
      }
      fetches := 1;
      var response := call.reply;
      if response.TokenTransportFailure? || Http.RaisesForStatus(response.status) {
        return None, fetches;
      }
      var expiresIn := response.expiresIn.GetOr(DefaultExpiresIn);
      ahora := call.nowAfter;
      accessToken := Some(response.accessToken);
      expiresAt := ahora + expiresIn - ExpiryMargin;
      token := accessToken;
    }
  }

  // ---------------------------------------------------------------------------------------
  // Catalog responses
  // ---------------------------------------------------------------------------------------

  /** One artist of a track's `artists` list. */
  datatype TrackArtist = TrackArtist(name: Option<string>)

  datatype Album = Album(name: Option<string>, albumType: Option<string>, releaseDate: Option<string>)

  /** One item of `artists.items`; a nested lookup such as `followers.total` is `None` when either
      level is missing. */
  datatype ArtistItem = ArtistItem(
    name: Option<string>, id: Option<string>, popularity: Option<int>, followers: Option<int>,
    genres: Option<seq<string>>, spotifyUrl: Option<string>)

  /** One item of `tracks.items`. */
  datatype TrackItem = TrackItem(
    album: Option<Album>, artists: Option<seq<TrackArtist>>, id: Option<string>,
    popularity: Option<int>, trackNumber: Option<int>, durationMs: Option<int>,
    spotifyUrl: Option<string>)

  /** The parsed JSON body of a search; `artists` is `None` when `artists` or `artists.items` is
      missing, and likewise `tracks`. */
  datatype CatalogBody = CatalogBody(artists: Option<seq<ArtistItem>>, tracks: Option<seq<TrackItem>>)

  // ---------------------------------------------------------------------------------------
  // Search
  // ---------------------------------------------------------------------------------------

  datatype SearchType = Track | Artist

  /** The `type` query parameter. */
  function TypeParam(t: SearchType): string
  {
    match t
    case Track => "track"
    case Artist => "artist"
  }

  /** The query parameters `q`, `type` and `limit` of one search GET. */
  datatype SearchParams = SearchParams(q: string, searchType: string, limit: int)

  /** One GET sent to the search endpoint: its parameters and its `Authorization` header. */
  datatype GetRequest = GetRequest(params: SearchParams, authorization: string)

  /** The answer of the search endpoint to one GET; `body` is `None` when it is not JSON. */
  datatype GetReply =
    | GetTransportFailure
    | GetResponse(status: int, body: Option<CatalogBody>)

  /** `if not token`: there is no token, or it is the empty string. */
  predicate Usable(token: Option<string>)
  {
    token.Some? && token.value != []
  }

  function Bearer(token: string): string
  {
    "Bearer " + token
  }

  /** The GET a search sends with `token`. */
  function Request(t: SearchType, query: string, token: string): GetRequest
  {
    GetRequest(SearchParams(query, TypeParam(t), SearchLimit), Bearer(token))
  }

  /** `raise_for_status()` and `response.json()` on the last reply: the body when both pass. */
  function FinalBody(g: GetReply): (r: Option<CatalogBody>)
    ensures r.Some? <==> g.GetResponse? && !Http.RaisesForStatus(g.status) && g.body.Some?
    ensures r.Some? ==> r == g.body
  {
    if g.GetResponse? && !Http.RaisesForStatus(g.status) then g.body else None
  }

  /** The body a search returns, the GETs it sent in order, how many forced refreshes it asked
      for, how many identity POSTs happened, and the slot afterwards. */
  datatype SearchOutcome = SearchOutcome(
    result: Option<CatalogBody>, gets: seq<GetRequest>, refreshes: nat, fetches: nat, cache: Credential)

  /** The first GET was answered with 401. */
  predicate Unauthorized(g: GetReply)
  {
    g.GetResponse? && g.status == Http.Unauthorized
  }

  /** `search_track_song(query)` / `search_artist(query)` on the slot `c`. `first` and `second`
      are what `get_token()` and `get_token(force_refresh=True)` observe, `g1` and `g2` the
      answers to the first GET and to the retry. */
  function SearchSpec(c: Credential, t: SearchType, query: string,
                      first: TokenCall, g1: GetReply, second: TokenCall, g2: GetReply): (r: SearchOutcome)
    ensures var s1 := GetTokenSpec(c, false, first);
            var s2 := GetTokenSpec(s1.cache, true, second);
            // no token, no request
            && (!Usable(s1.token) ==> r.result == None && r.gets == [] && r.refreshes == 0 && r.cache == s1.cache)
            // at most two GETs and one forced refresh; a refresh exactly when the first GET got 401
            && |r.gets| <= 2 && r.refreshes <= 1
            && (r.refreshes == 1 <==> Usable(s1.token) && Unauthorized(g1))
            && (|r.gets| == 2 <==> r.refreshes == 1 && Usable(s2.token))
            && (r.refreshes == 1 && !Usable(s2.token) ==> r.result == None && |r.gets| == 1)
            // the GETs carry the same parameters, the retry the refreshed token
            && (forall i :: 0 <= i < |r.gets| ==> r.gets[i].params == SearchParams(query, TypeParam(t), SearchLimit))
            && (|r.gets| >= 1 ==> r.gets[0].authorization == Bearer(s1.token.value))
            && (|r.gets| == 2 ==> r.gets[1].authorization == Bearer(s2.token.value))
            // the result is the last reply's body when that reply is a success
            && (|r.gets| == 1 && r.refreshes == 0 ==> r.result == FinalBody(g1))
            && (|r.gets| == 2 ==> r.result == FinalBody(g2))
            // identity POSTs and the slot follow the get_token calls made
            && r.fetches == s1.fetches + (if r.refreshes == 1 then s2.fetches else 0)
            && r.cache == (if r.refreshes == 1 then s2.cache else s1.cache)
  {
    var s1 := GetTokenSpec(c, false, first);
    if !Usable(s1.token) then
      SearchOutcome(None, [], 0, s1.fetches, s1.cache)
    else
      var req1 := Request(t, query, s1.token.value);
      if Unauthorized(g1) then
        var s2 := GetTokenSpec(s1.cache, true, second);
        if !Usable(s2.token) then
          SearchOutcome(None, [req1], 1, s1.fetches + s2.fetches, s2.cache)
        else
          SearchOutcome(FinalBody(g2), [req1, Request(t, query, s2.token.value)], 1,
                        s1.fetches + s2.fetches, s2.cache)
      else
        SearchOutcome(FinalBody(g1), [req1], 0, s1.fetches, s1.cache)
  }

  /** A forced refresh always POSTs, so a search that retried made one more identity call
      than a search that did not. */
  lemma RefreshAlwaysFetches(c: Credential, t: SearchType, query: string,
                             first: TokenCall, g1: GetReply, second: TokenCall, g2: GetReply)
    ensures var r := SearchSpec(c, t, query, first, g1, second, g2);
            var s1 := GetTokenSpec(c, false, first);
            r.refreshes == 1 ==> r.fetches == s1.fetches + 1
  {
  }

  /** A track search and an artist search given the same answers behave alike: they differ only
      in the `type` parameter of the GETs they send. */
  lemma SearchTypesDifferOnlyInType(c: Credential, query: string,
                                    first: TokenCall, g1: GetReply, second: TokenCall, g2: GetReply)
    ensures var rt := SearchSpec(c, Track, query, first, g1, second, g2);
            var ra := SearchSpec(c, Artist, query, first, g1, second, g2);
            && rt.result == ra.result && rt.refreshes == ra.refreshes
            && rt.fetches == ra.fetches && rt.cache == ra.cache
            && |rt.gets| == |ra.gets|
            && forall i :: 0 <= i < |rt.gets| ==>
                 rt.gets[i].authorization == ra.gets[i].authorization &&
                 rt.gets[i].params.q == ra.gets[i].params.q &&
                 rt.gets[i].params.limit == ra.gets[i].params.limit &&
                 rt.gets[i].params.searchType == "track" && ra.gets[i].params.searchType == "artist"
  {
  }

  /** The search shared by `search_track_song` and `search_artist`. */
  method Search(broker: TokenBroker, t: SearchType, query: string,
                first: TokenCall, g1: GetReply, second: TokenCall, g2: GetReply)
    returns (result: Option<CatalogBody>, gets: seq<GetRequest>, refreshes: nat, fetches: nat)
    modifies broker
    ensures var r := SearchSpec(old(broker.Cache()), t, query, first, g1, second, g2);
            result == r.result && gets == r.gets && refreshes == r.refreshes &&
            fetches == r.fetches && broker.Cache() == r.cache
  {
    gets, refreshes := [], 0;
    var token, n := broker.GetToken(false, first);
    fetches := n;
    if token.None? || token.value == [] {
      return None, gets, refreshes, fetches;
    }
    var params := SearchParams(query, TypeParam(t), SearchLimit);
    var header := Bearer(token.value);
    gets := gets + [GetRequest(params, header)];
    var response := g1;
    if response.GetResponse? && response.status == Http.Unauthorized {
      token, n := broker.GetToken(true, second);
      refreshes, fetches := refreshes + 1, fetches + n;
      if token.None? || token.value == [] {
        return None, gets, refreshes, fetches;
      }
      header := Bearer(token.value);
      gets := gets + [GetRequest(params, header)];
      response := g2;
    }
    if response.GetTransportFailure? || Http.RaisesForStatus(response.status) {
      return None, gets, refreshes, fetches;
    }
    result := response.body;
  }

  /** `search_track_song(query)`. */
  method SearchTrackSong(broker: TokenBroker, query: string,
                         first: TokenCall, g1: GetReply, second: TokenCall, g2: GetReply)
    returns (result: Option<CatalogBody>, gets: seq<GetRequest>, refreshes: nat, fetches: nat)
    modifies broker
    ensures var r := SearchSpec(old(broker.Cache()), Track, query, first, g1, second, g2);
            result == r.result && gets == r.gets && refreshes == r.refreshes &&
            fetches == r.fetches && broker.Cache() == r.cache
  {
    result, gets, refreshes, fetches := Search(broker, Track, query, first, g1, second, g2);
  }

  /** `search_artist(query)`. */
  method SearchArtist(broker: TokenBroker, query: string,
                      first: TokenCall, g1: GetReply, second: TokenCall, g2: GetReply)
    returns (result: Option<CatalogBody>, gets: seq<GetRequest>, refreshes: nat, fetches: nat)
    modifies broker
    ensures var r := SearchSpec(old(broker.Cache()), Artist, query, first, g1, second, g2);
            result == r.result && gets == r.gets && refreshes == r.refreshes &&
            fetches == r.fetches && broker.Cache() == r.cache
  {
    result, gets, refreshes, fetches := Search(broker, Artist, query, first, g1, second, g2);
  }
}
