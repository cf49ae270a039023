/** The two endpoints that enrich a user's favourites with catalog data: for each distinct
    stored name, one search, and from its reply the first item, projected to a record. The
    searches are a function from the query to the body `search_artist` / `search_track_song`
    returned (`None` when the search failed); how a search uses the token cache and the
    network is modelled in `SpotifyRequest`. */
module Enrichment {
  import opened Wrappers
  import opened Names
  import opened SpotifyRequest
  import Favourites
  import Http

  // ---------------------------------------------------------------------------------------
  // The names a search finds
  // ---------------------------------------------------------------------------------------

  /** The loop over the queried names: each name whose lookup yields an item, paired with that
      item, in query order; a name without one is skipped (`continue`). */
  function Found<I>(queried: seq<string>, lookup: string -> Option<I>): seq<(string, I)>
    decreases |queried|
  {
    if queried == [] then []
    else
      var p := Found(queried[..|queried| - 1], lookup);
      var x := queried[|queried| - 1];
      match lookup(x)
      case None => p
      case Some(item) => p + [(x, item)]
  }

  /** At most one pair per queried name; each pair holds its name's own item; a name appears
      exactly when it was queried and its lookup found something; and distinct queries give
      distinct names. */
  lemma {:induction false} FoundSpec<I>(queried: seq<string>, lookup: string -> Option<I>)
    ensures var r := Found(queried, lookup);
            && |r| <= |queried|
            && (forall k :: 0 <= k < |r| ==> lookup(r[k].0) == Some(r[k].1))
            && (forall x :: (exists k :: 0 <= k < |r| && r[k].0 == x) <==> x in queried && lookup(x).Some?)
            && (NoDups(queried) ==> forall k, l :: 0 <= k < l < |r| ==> r[k].0 != r[l].0)
    decreases |queried|
  {
    if queried != [] {
      var q := queried[..|queried| - 1];
      var x := queried[|queried| - 1];
      FoundSpec(q, lookup);
      var p := Found(q, lookup);
      assert queried == q + [x];
      if NoDups(queried) { NoDupsInit(queried); }
      forall y ensures (exists k :: 0 <= k < |p| && p[k].0 == y) ==> y in q {
        if exists k :: 0 <= k < |p| && p[k].0 == y {
          var k :| 0 <= k < |p| && p[k].0 == y;
          assert lookup(y).Some?;
        }
      }
      if lookup(x).Some? {
        var r := p + [(x, lookup(x).value)];
        assert r[|p|].0 == x;
        forall y | (exists k :: 0 <= k < |r| && r[k].0 == y)
          ensures y in queried && lookup(y).Some?
        {
          var k :| 0 <= k < |r| && r[k].0 == y;
          if k < |p| {
            assert p[k].0 == y;
          }
        }
        forall y | y in queried && lookup(y).Some?
          ensures exists k :: 0 <= k < |r| && r[k].0 == y
        {
          if y != x {
            assert y in q;
            var k :| 0 <= k < |p| && p[k].0 == y;
            assert r[k].0 == y;
          }
        }
      }
    }
  }

  // ---------------------------------------------------------------------------------------
  // Artists
  // ---------------------------------------------------------------------------------------

  /** `json.get("artists", {}).get("items", [])[0]` when the search returned a body and the list
      is non-empty. */
  function FirstArtist(body: Option<CatalogBody>): (r: Option<ArtistItem>)
    ensures r.Some? <==> body.Some? && body.value.artists.Some? && |body.value.artists.value| > 0
    ensures r.Some? ==> r.value == body.value.artists.value[0]
  {
    if body.None? then None
    else match body.value.artists
      case None => None
      case Some(items) => if |items| == 0 then None else Some(items[0])
  }

  function ArtistLookup(search: string -> Option<CatalogBody>): string -> Option<ArtistItem>
  {
    name => FirstArtist(search(name))
  }

  /** One entry of `resultado_spotify` for a favourite singer. */
  datatype ArtistRecord = ArtistRecord(
    favourite: string, name: Option<string>, id: Option<string>, popularity: Option<int>,
    followers: Option<int>, genres: seq<string>, spotifyUrl: Option<string>)

  /** The `info_artista` dictionary; missing genres read as the empty list. */
  function ProjectArtist(favourite: string, a: ArtistItem): ArtistRecord
  {
    ArtistRecord(favourite, a.name, a.id, a.popularity, a.followers, a.genres.GetOr([]), a.spotifyUrl)
  }

  /** What the artists endpoint returns: `cantantes_favoritos` (the catalog names of the artists
      found) and `resultado_spotify`. */
  datatype ArtistsReport = ArtistsReport(names: seq<Option<string>>, records: seq<ArtistRecord>)

  /** `get_info_artistas_spotify`: 404 for an unknown user; otherwise 200 with one record per
      distinct favourite singer whose search found an artist, built from the first artist. */
  method ArtistsInfo(db: Favourites.Database, pk: Favourites.UserId, search: string -> Option<CatalogBody>)
    returns (r: Favourites.Outcome<ArtistsReport>, searched: seq<string>)
    requires db.Valid()
    ensures pk !in db.users ==> r == Favourites.Rejected(Http.NotFound) && searched == []
    ensures pk in db.users ==>
              && searched == Dedup(db.singers[pk])
              && r.Done? && r.status == Http.Ok
              && var found := Found(searched, ArtistLookup(search));
                 && |r.value.records| == |found| && |r.value.names| == |found|
                 && forall k :: 0 <= k < |found| ==>
                      && r.value.records[k] == ProjectArtist(found[k].0, found[k].1)
                      && r.value.names[k] == r.value.records[k].name
    ensures pk in db.users ==> |r.value.records| <= |searched|
  {
    if pk !in db.users {
      return Favourites.Rejected(Http.NotFound), [];
    }
    var stored := db.CollectNames(Favourites.Singers, pk);
    var names := Dedup(stored);
    searched := [];
    ghost var lookup := ArtistLookup(search);
    var records: seq<ArtistRecord> := [];
    var found: seq<Option<string>> := [];
    ghost var hits: seq<(string, ArtistItem)> := [];
    var i := 0;
    while i < |names|
      invariant 0 <= i <= |names|
      invariant hits == Found(names[..i], lookup)
      invariant |records| == |hits| && |found| == |hits|
      invariant forall k :: 0 <= k < |hits| ==>
                  records[k] == ProjectArtist(hits[k].0, hits[k].1) && found[k] == records[k].name
      invariant searched == names[..i]
    {
      var name := names[i];
      assert names[..i + 1][..i] == names[..i];
      var reply := search(name);
      searched := searched + [name];
      var first := FirstArtist(reply);
      if first.Some? {
        var info := ProjectArtist(name, first.value);
        records := records + [info];
        found := found + [info.name];
        hits := hits + [(name, first.value)];
      }
      i := i + 1;
    }
    assert names[..i] == names;
    FoundSpec(names, lookup);
    r := Favourites.Done(Http.Ok, ArtistsReport(found, records));
  }

  // ---------------------------------------------------------------------------------------
  // Tracks
  // ---------------------------------------------------------------------------------------

  /** `json.get("tracks", {}).get("items", [])[0]` when the list is non-empty. */
  function FirstTrack(body: CatalogBody): (r: Option<TrackItem>)
    ensures r.Some? <==> body.tracks.Some? && |body.tracks.value| > 0
    ensures r.Some? ==> r.value == body.tracks.value[0]
  {
    match body.tracks
    case None => None
    case Some(items) => if |items| == 0 then None else Some(items[0])
  }

  /** The lookup of a track search that returned a body (a failed search is handled apart). */
  function TrackLookup(search: string -> Option<CatalogBody>): string -> Option<TrackItem>
  {
    name => if search(name).None? then None else FirstTrack(search(name).value)
  }

  /** One entry of `resultado_spotify` for a favourite song; `name` is the favourite itself. */
  datatype TrackRecord = TrackRecord(
    name: string, albumName: Option<string>, albumType: Option<string>,
    singers: seq<Option<string>>, id: Option<string>, popularity: Option<int>,
    trackNumber: Option<int>, durationMs: Option<int>, releaseDate: Option<string>,
    spotifyUrl: Option<string>)

  /** The `name` of each of a track's artists; no `artists` key reads as no artists. */
  function SingerNames(t: TrackItem): (r: seq<Option<string>>)
    ensures t.artists.None? ==> r == []
    ensures t.artists.Some? ==>
              |r| == |t.artists.value| && forall i :: 0 <= i < |r| ==> r[i] == t.artists.value[i].name
  {
    var arts := t.artists.GetOr([]);
    seq(|arts|, i requires 0 <= i < |arts| => arts[i].name)
  }

  /** The `info_cancion` dictionary; album fields are `None` without an album. */
  function ProjectTrack(favourite: string, t: TrackItem): TrackRecord
  {
    var album := t.album.GetOr(Album(None, None, None));
    TrackRecord(favourite, album.name, album.albumType, SingerNames(t), t.id, t.popularity,
                t.trackNumber, t.durationMs, album.releaseDate, t.spotifyUrl)
  }

  /** `for art in canc.get("artists", []): cantantes_nombres.append(art.get("name"))`. */
  method CollectSingers(t: TrackItem) returns (names: seq<Option<string>>)
    ensures names == SingerNames(t)
  {
    var arts := t.artists.GetOr([]);
    names := [];
    var i := 0;
    while i < |arts|
      invariant 0 <= i <= |arts|
      invariant |names| == i && forall k :: 0 <= k < i ==> names[k] == arts[k].name
    {
      names := names + [arts[i].name];
      i := i + 1;
    }
  }

  /** What the tracks endpoint returns: `canciones_favoritas` and `resultado_spotify`. */
  datatype TracksReport = TracksReport(names: seq<string>, records: seq<TrackRecord>)

  /** `get_info_canciones_spotify`: 404 for an unknown user; a failed search makes the view call
      `.get` on `None`, so the request fails with 500; otherwise 200 with one record per distinct
      favourite song whose search found a track. */
  method TracksInfo(db: Favourites.Database, pk: Favourites.UserId, search: string -> Option<CatalogBody>)
    returns (r: Favourites.Outcome<TracksReport>, searched: seq<string>)
    requires db.Valid()
    ensures pk !in db.users ==> r == Favourites.Rejected(Http.NotFound) && searched == []
    ensures pk in db.users ==>
              var queried := Dedup(db.songs[pk]);
              && (r == Favourites.Rejected(Http.ServerError) <==> exists x :: x in queried && search(x).None?)
              && (r.Done? || r == Favourites.Rejected(Http.ServerError))
              && (r.Done? ==> searched == queried)
              && (r.Rejected? ==> exists k :: 0 <= k < |queried| && searched == queried[..k + 1] &&
                                             search(queried[k]).None? &&
                                             forall j :: 0 <= j < k ==> search(queried[j]).Some?)
    ensures pk in db.users && r.Done? ==>
              && r.status == Http.Ok
              && var found := Found(searched, TrackLookup(search));
                 && |r.value.records| == |found| && |r.value.names| == |found|
                 && |r.value.records| <= |searched|
                 && forall k :: 0 <= k < |found| ==>
                      && r.value.records[k] == ProjectTrack(found[k].0, found[k].1)
                      && r.value.names[k] == found[k].0
  {
    if pk !in db.users {
      return Favourites.Rejected(Http.NotFound), [];
    }
    var stored := db.CollectNames(Favourites.Songs, pk);
    var names := Dedup(stored);
    searched := [];
    ghost var lookup := TrackLookup(search);
    var records: seq<TrackRecord> := [];
    var favourites: seq<string> := [];
    ghost var hits: seq<(string, TrackItem)> := [];
    var i := 0;
    while i < |names|
      invariant 0 <= i <= |names|
      invariant forall k :: 0 <= k < i ==> search(names[k]).Some?
      invariant hits == Found(names[..i], lookup)
      invariant |records| == |hits| && |favourites| == |hits|
      invariant forall k :: 0 <= k < |hits| ==>
                  records[k] == ProjectTrack(hits[k].0, hits[k].1) && favourites[k] == hits[k].0
      invariant searched == names[..i]
    {
      var name := names[i];
      assert names[..i + 1][..i] == names[..i];
      var reply := search(name);
      searched := searched + [name];
      if reply.None? {
        assert searched == names[..i + 1];
        return Favourites.Rejected(Http.ServerError), searched;
      }
      var first := FirstTrack(reply.value);
      if first.Some? {
        var singers := CollectSingers(first.value);
        var info := ProjectTrack(name, first.value).(singers := singers);
        records := records + [info];
        favourites := favourites + [info.name];
        hits := hits + [(name, first.value)];
      }
      i := i + 1;
    }
    assert names[..i] == names;
    FoundSpec(names, lookup);
    r := Favourites.Done(Http.Ok, TracksReport(favourites, records));
  }
}
