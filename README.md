# API-Spotify-Django, modelled in Dafny

This project models the core of a small Django REST service. The service keeps users and each
user's favourite singers (`CantanteFavorito`) and favourite songs (`CancionFavorita`). It
enriches those favourites with data from the Spotify catalog. The model covers three parts:

- **The catalog client** (`SpotifyRequest`). One cache slot holds the client-credentials token
  and its expiry. `get_token` reuses the token while it is valid. Otherwise it POSTs to the
  identity endpoint and stores the new token with expiry `now + expires_in - 30`;
  `expires_in` defaults to 3600. The track search and the artist search send nothing without a
  token. On a 401 they force one refresh and retry once. An error status or a transport
  failure gives `None`.
  - The slot is the class `TokenBroker`. Its methods are proved against the pure
    specifications `GetTokenSpec` and `SearchSpec`.
  - The clock, the identity endpoint and the search endpoint are inputs: `TokenCall` holds the
    two clock readings of `get_token` and the identity reply, and `GetReply` is one search
    answer.
- **The favourites store and its endpoints** (`Favourites`). The ORM is the class `Database`:
  - a map of users;
  - for each kind of favourite, a map from user id to that user's names in insertion order;
  - the invariant `Valid`, which includes the `unique_together("usuario", "nombre")`
    constraint.

  Each endpoint is a method that keeps only the status code and the lists it returns. It
  checks its guards in the source's order. The favourites mutations check the header (401),
  then the body (400), then the user (404). `update` checks the header, then the user, then
  the body.

  The add endpoints classify names with the pure function `Classify`, proved to split the
  request into "added" and "already present". Replace-all inserts names one by one. A name
  repeated in its body hits the uniqueness constraint: the view fails with 500 and keeps the
  names inserted before it (`UniquePrefix`).
- **Enrichment** (`Enrichment`). The artists and tracks endpoints deduplicate the user's names
  and send one search per distinct name. They skip names with no result and project the first
  item of each remaining result. A search is a function from the query to the body the search
  returned. A failed track search makes the view call `.get` on `None`, so the whole request
  fails with 500. The artist view checks for `None` and skips the name.
- **The validators** (`Serializer`) and Python's `int()` on the `id` query parameter (`PyInt`).

`Wrappers` holds `Option`. `Http` holds the status codes and `raise_for_status`. `Names` holds
the list facts the store relies on: no repeats, deduplication, removal by name, and the longest
prefix without repeats.

## Model

| member | source | states |
|---|---|---|
| SpotifyRequest.GetTokenSpec | backend/spotify/spotify_request.py:25-58 | at most one POST, and none exactly when the call is not forced, a token is cached and `now < expires_at`; reuse returns the cached token and keeps the slot; a successful fetch returns the new token and stores it with `nowAfter + expires_in - 30`; a failed fetch returns `None` and keeps the slot; the slot is never half-updated |
| SpotifyRequest.FetchedTokenIsReused | backend/spotify/spotify_request.py:31-53 | after a successful fetch, a later unforced call reuses the token, without a POST, exactly when it starts before the stored expiry |
| SpotifyRequest.TokenBroker.constructor | backend/spotify/spotify_request.py:20-23 | the slot starts with no token and expiry 0 |
| SpotifyRequest.TokenBroker.GetToken | backend/spotify/spotify_request.py:25-58 | the returned token, the POST count and the new slot are those of `GetTokenSpec` on the old slot |
| Http.RaisesForStatus | backend/spotify/spotify_request.py:88 | the statuses for which `raise_for_status()` raises: 400 to 599; `FinalBody` and `GetTokenSpec` turn them into `None` |
| SpotifyRequest.FinalBody | backend/spotify/spotify_request.py:88-89 | a body comes back exactly when the last reply arrived, its status is below 400 or at least 600, and it parsed; it is then returned unchanged |
| SpotifyRequest.SearchSpec | backend/spotify/spotify_request.py:62-98 | no usable token means no GET and `None`; at most two GETs and one forced refresh; a refresh exactly when the first GET got 401; a retry exactly when the refresh gave a token, otherwise `None` after one GET; every GET carries `q`, `type`, `limit = 1` and `Bearer <token>`; the result is the last reply's body when it succeeded; the POST count and the slot follow the two `get_token` calls |
| SpotifyRequest.RefreshAlwaysFetches | backend/spotify/spotify_request.py:80-81 | a search that refreshed made exactly one more identity POST than its first `get_token` call |
| SpotifyRequest.SearchTypesDifferOnlyInType | backend/spotify/spotify_request.py:110-114 | a track search and an artist search given the same answers return the same result and the same slot, and send the same GETs except for `type`, which is `"track"` or `"artist"` |
| SpotifyRequest.Search | backend/spotify/spotify_request.py:62-98 | the result, the GETs sent, the refreshes, the POSTs and the new slot are those of `SearchSpec` on the old slot |
| SpotifyRequest.SearchTrackSong | backend/spotify/spotify_request.py:62-98 | `SearchSpec` with `type = "track"` |
| SpotifyRequest.SearchArtist | backend/spotify/spotify_request.py:105-140 | `SearchSpec` with `type = "artist"` |
| Serializer.Strip | backend/viewset_users/serializer.py:27 | the definition of `str.strip()` over Python's whitespace set; its property is `StripEmptyIffBlank` |
| Serializer.StripEmptyIffBlank | backend/viewset_users/serializer.py:27 | `value.strip()` is empty exactly when every character is whitespace |
| Serializer.ValidateNombre | backend/viewset_users/serializer.py:26-29 | accepts exactly the names with a character that is not whitespace, and returns them unchanged |
| Serializer.ValidateUsers | backend/viewset_users/serializer.py:41-47 | accepts exactly the non-empty lists whose every entry has a truthy `nombre`, and returns them unchanged |
| Serializer.ValidateCantantesFavoritos | backend/viewset_users/serializer.py:56-61 | accepts exactly the non-empty lists, unchanged |
| Serializer.ValidateCancionesFavoritas | backend/viewset_users/serializer.py:68-73 | accepts exactly the non-empty lists, unchanged |
| Serializer.UsersBody | backend/viewset_users/serializer.py:39-47 | a `users` body is valid exactly when the field is a non-empty list whose every entry has a truthy `nombre`; the validated data is that list |
| Serializer.CantantesBody | backend/viewset_users/serializer.py:52-61 | a `cantantes_favoritos` body is valid exactly when the field is a non-empty list; the validated data is that list |
| Serializer.CancionesBody | backend/viewset_users/serializer.py:64-73 | a `canciones_favoritas` body is valid exactly when the field is a non-empty list; the validated data is that list |
| PyInt.ParseInt | backend/viewset_users/views.py:134 | `int()` succeeds only on text that is non-empty once the whitespace `int()` skips is removed (the `isspace` characters except U+001C to U+001F) |
| PyInt.ParseSkipsOnlyIntSpace | backend/viewset_users/views.py:134-139 | `int(" 5")` and `int("\t5")` are 5, while `int("\x1c5")` raises, so `?id=%1C5` is answered with 404 |
| PyInt.ParseShow | backend/viewset_users/views.py:134 | `int(str(n)) == n`: the decimal form of an id reads back as that id |
| PyInt.ParseNegativeShow | backend/viewset_users/views.py:134 | `int("-" + str(n)) == -n`, an id no user can have |
| Names.Dedup | backend/viewset_users/views.py:606 | `list(set(names))` has no repeats, holds exactly the names of its input, and is no longer than it |
| Names.DedupOfDistinct | backend/viewset_users/views.py:606 | deduplicating a list without repeats leaves it as it is |
| Names.Without | backend/viewset_users/views.py:344-351 | deleting the rows named `x` removes `x`, keeps every other name, and keeps the list free of repeats |
| Names.WithoutAbsent | backend/viewset_users/views.py:344-349 | deleting a name the user does not hold changes nothing |
| Names.WithoutRemovesOne | backend/viewset_users/views.py:344-355 | in a list without repeats, deleting a held name removes exactly its one entry and keeps the others in order |
| Names.UniquePrefix | backend/viewset_users/views.py:296-297 | the definition of the names one-by-one insertion keeps: the longest prefix without repeats; its properties are `UniquePrefixSpec` and `FirstRepeatPrefix` |
| Names.UniquePrefixSpec | backend/viewset_users/views.py:296-297 | the names inserted one by one under the uniqueness constraint are the whole list exactly when it has no repeats; otherwise they stop right before the first repeated name |
| Names.FirstRepeatPrefix | backend/viewset_users/views.py:296-297 | the insertion that fails is the first repeat, and the names inserted before it are the list up to that point |
| Names.FirstRepeatUnique | backend/viewset_users/views.py:296-297 | a list has at most one first repeated position |
| Names.NoDupsCount | backend/viewset_users/models.py:19 | under the uniqueness constraint a name occurs at most once in a user's list |
| Favourites.ValidatedNames | backend/viewset_users/views.py:207-209 | the add and replace bodies are valid exactly when the list field is a non-empty list, for either kind |
| Favourites.Guard | backend/viewset_users/views.py:200-218 | 401 exactly when `Authorization` is not `"1234"`; otherwise 400 exactly when the body is invalid; otherwise 404 exactly when the user is unknown; otherwise no rejection |
| Favourites.Classify | backend/viewset_users/views.py:231-237 | the definition of the classification loop, step by step over the request; its properties are the `Classify…` lemmas below |
| Favourites.ClassifySplits | backend/viewset_users/views.py:222-237 | the added and present lists interleave the request in order; the added list has no repeats and holds exactly the requested names the user did not hold; every present name was held or is also in the added list (which occurrence is added is stated by `ClassifyFirstOccurrence`) |
| Favourites.ClassifyFirstOccurrence | backend/viewset_users/views.py:231-237 | position `k` of the request is added exactly when its name is neither held nor requested at an earlier position, and is otherwise reported present: the first occurrence of a new name is the one added, in request order |
| Favourites.ClassifyPartitions | backend/viewset_users/views.py:231-237 | every requested name, counted with repeats, lands in exactly one of the two lists |
| Favourites.ClassifyCounts | backend/viewset_users/views.py:231-237 | a name requested `c` times that was not held is added once and reported present `c - 1` times; a held name is reported present every time |
| Favourites.ClassifyKeepsUnique | backend/viewset_users/views.py:231-242 | the stored names followed by the added ones have no repeats and hold exactly the old names and the requested ones |
| Favourites.ConsecutiveSpec | backend/viewset_users/views.py:63-65 | the ids returned for `n` new users are `n` ids counting up by one from `nextId`, the next id never used (ids freed by deleting users are not reused) |
| Favourites.EnrolSpec | backend/viewset_users/views.py:63-65 | creating users keeps every existing user's name, gives the `i`-th new id the `i`-th entry's name, and adds no other id |
| Favourites.EmptyRowsSpec | backend/viewset_users/views.py:63-65 | new users have no favourites, and the lists of existing users are kept |
| Favourites.Database.constructor | backend/viewset_users/models.py:4-28 | an empty store that satisfies the invariant |
| Favourites.Database.InsertRow | backend/viewset_users/views.py:235 | a row is created exactly when the user does not hold the name yet (the uniqueness constraint); the invariant is kept and nothing else changes |
| Favourites.Database.CollectNames | backend/viewset_users/views.py:240-242 | the `lista_final` loop returns exactly the user's current names |
| Favourites.Database.ListFavourites | backend/viewset_users/views.py:157-180 | 404 for an unknown user; otherwise 200 with exactly the user's names, possibly none, without repeats (the songs twin is lines 376-399) |
| Favourites.Database.StoredNames | backend/viewset_users/views.py:222-225 | the `existentes` loop returns the set of the user's names |
| Favourites.Database.AddNames | backend/viewset_users/views.py:227-237 | the insertion loop appends to the user's list exactly the added names of `Classify`, and returns `Classify`'s split; the other kind, the users and the invariant are kept |
| Favourites.Database.AddFavourites | backend/viewset_users/views.py:198-263 | a rejected request changes nothing and carries the `Guard` status; otherwise the user's list grows by the added names, the report holds the split and the final list, the status is 201 exactly when something was added and 200 otherwise, and the user's name set becomes the old set plus the requested names (the songs twin is lines 417-481) |
| Favourites.Database.InsertAll | backend/viewset_users/views.py:296-297 | on an emptied user, the loop leaves `UniquePrefix` of the request and succeeds exactly when the request has no repeats |
| Favourites.Database.ReplaceFavourites | backend/viewset_users/views.py:270-310 | a rejected request changes nothing; otherwise the user's list becomes the requested list when it has no repeats (status 200, that list returned), or the names before the first repeat with status 500; other users and the other kind are untouched (the songs twin is lines 490-530) |
| Favourites.Database.DeleteFavourite | backend/viewset_users/views.py:318-363 | a rejected request or a name the user does not hold (404) changes nothing; otherwise exactly that name is removed from that user's list and the remaining names are returned with 200 (the songs twin is lines 534-578) |
| Favourites.Database.CreateUser | backend/viewset_users/views.py:64 | a new user under the next id, with no favourites |
| Favourites.Database.CreateUsers | backend/viewset_users/views.py:52-73 | an invalid body is 400 and changes nothing; otherwise 201 with consecutive fresh ids, one per entry, and the users table and both favourites tables are those of `Enrol` and `EmptyRows` |
| Favourites.Database.UpdateUser | backend/viewset_users/views.py:84-116 | 401, then 404, then 400 for a missing or blank `nombre`, each changing nothing; otherwise 200 and only that user's name changes |
| Favourites.Database.DeleteUser | backend/viewset_users/views.py:126-144 | 400 for a missing or empty `id`; 404 when `int(id)` fails or names no user; otherwise 200 and the user is deleted together with all their favourites |
| Enrichment.FoundSpec | backend/viewset_users/views.py:612-636 | the search loop keeps at most one result per queried name, each pairing a name with its own first item; a name has a result exactly when it was queried and its search found an item; distinct queries give distinct results |
| Enrichment.Found | backend/viewset_users/views.py:612-636 | the definition of the search loop of both enrichment views (the tracks twin is lines 680-710); its properties are `FoundSpec` |
| Enrichment.FirstArtist | backend/viewset_users/views.py:618-625 | a first artist exists exactly when the search returned a body whose `artists.items` is non-empty, and it is `items[0]` |
| Enrichment.ProjectArtist | backend/viewset_users/views.py:626-634 | the definition of the `info_artista` record built from the first artist; `ArtistsInfo` states that each record is this projection |
| Enrichment.ArtistsInfo | backend/viewset_users/views.py:590-651 | 404 for an unknown user; otherwise 200 after searching each distinct singer exactly once; one record per singer whose search found an artist, projected from the first artist, no more records than searches; the returned names are the catalog names of those records |
| Enrichment.FirstTrack | backend/viewset_users/views.py:685-690 | a first track exists exactly when `tracks.items` is non-empty, and it is `items[0]` |
| Enrichment.SingerNames | backend/viewset_users/views.py:692-694 | one entry per artist of the track, in order, holding that artist's `name`; no `artists` key gives no entries |
| Enrichment.ProjectTrack | backend/viewset_users/views.py:696-707 | the definition of the `info_cancion` record built from the first track; `TracksInfo` states that each record is this projection |
| Enrichment.CollectSingers | backend/viewset_users/views.py:692-694 | the `cantantes_nombres` loop returns `SingerNames` of the track |
| Enrichment.TracksInfo | backend/viewset_users/views.py:657-725 | 404 for an unknown user; 500 exactly when the search of one of the distinct songs fails, after searching up to and including the first failing song, every earlier search having returned a body; otherwise 200 after searching each distinct song once, with one record per song whose search found a track, projected from the first track, and the favourite names of those records |

## Left out

- Real HTTP (`requests.post`, `requests.get`), timeouts, and the clock `time.time()`. They are inputs: each call is given the clock readings and the replies it would observe.
- Pretty-printing with `print` and `json.dumps`. Loading `CLIENT_ID` and `CLIENT_SECRET` with `load_dotenv`. The client credentials sent with the POST.
- A token reply without `access_token` (a `KeyError` that `get_token` does not catch), a non-integer `expires_in`, and JSON `null` values where the views expect lists or objects. The first two make the request fail outside the model. The third is not representable in the catalog types.
- Concurrency. The token slot is a plain global without locking.
- Django ORM internals, routing (backend/viewset_users/urls.py), `Response` objects and message texts. Only status codes and returned lists are kept.
- The non-empty favourites list, which the source renders as a sentence embedding the Python list (backend/viewset_users/views.py:183-191). `ListFavourites` returns the list itself.
- The users list endpoint (backend/viewset_users/views.py:36-41). It is a plain serializer dump with no logic of its own.
- `Usuario.__str__` (backend/viewset_users/models.py:7-8), which refers to a nonexistent `username`.
- The test suite (backend/viewset_users/tests.py). Its assertions agree with the properties above, but it is not code to model.
- The order of query results. The favourites tables have no `ordering`, so the model keeps insertion order. `list(set(...))` has no specified order in Python, so `Names.Dedup` keeps the order of first occurrence.
- Non-integer `pk` values in the URL. The GET views reach `Usuario.objects.get(pk=pk)` at once, and the six mutating favourites views reach it after the header check and the body or query-parameter check (backend/viewset_users/views.py:200-213, 327-332); its `ValueError` is not caught by `except Usuario.DoesNotExist`, so those requests fail with 500. In `update`, after the header check, DRF's `get_object` turns the error into 404 (backend/viewset_users/views.py:94-100). Ids are natural numbers in the model.
- DRF's `CharField` normalisation of list items and of `nombre` (trimming, blank checks, and the refusal of strings holding a NUL character or an unpaired surrogate), entries of `users` that are not objects, and `nombre` values that are not strings. The validators are modelled on the values their hooks receive.
- Favourites.Database.UpdateUser: does not model the 255-character limit on `nombre` that the model serializer adds (`max_length=255`, backend/viewset_users/models.py:5), nor the trimming of surrounding whitespace before the value is stored.
- `PyInt.ParseInt`: accepts ASCII digits only. Python's `int()` also accepts other Unicode decimal digits.
- The enrichment endpoints take the search as a function of the query. Their interaction with the token slot (a forced refresh during one search is seen by the next) is not modelled; `SpotifyRequest.Search` covers one search.
