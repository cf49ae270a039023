/** The users API's state and its endpoints: users, and each user's favourite singers
    (`CantanteFavorito`) and favourite songs (`CancionFavorita`), with the header, body and
    existence checks that guard every change. The ORM is an in-memory store: per kind, a map
    from user id to that user's favourite names in insertion order; its invariant is the
    `unique_together("usuario", "nombre")` constraint. Responses keep only their status code
    and the lists they return. */
module Favourites {
  import opened Wrappers
  import opened Names
  import Serializer
  import PyInt
  import Http

  type UserId = nat

  /** Which favourites table an endpoint works on. */
  datatype Kind = Singers | Songs

  function Other(k: Kind): Kind
  {
    match k
    case Singers => Songs
    case Songs => Singers
  }

  /** The shared secret every mutating favourites endpoint expects in `Authorization`. */
  const AdminKey: string := "1234"

  /** An endpoint's answer: an error status, or a success status with what it returns. */
  datatype Outcome<T> = Rejected(status: int) | Done(status: int, value: T)

  /** The validated name list of an add or replace body, by the serializer of its kind. */
  function ValidatedNames(kind: Kind, body: Serializer.ListField<string>): (r: Option<seq<string>>)
    ensures r.Some? <==> body.List? && |body.items| > 0
    ensures r.Some? ==> r.value == body.items
  {
    match kind
    case Singers => Serializer.CantantesBody(body)
    case Songs => Serializer.CancionesBody(body)
  }

  /** The checks in front of every favourites mutation, in the order the views make them:
      the header (401), then the body or query parameter (400), then the user (404). */
  function Guard(authorization: Option<string>, bodyValid: bool, userExists: bool): (r: Option<int>)
    ensures r == None <==> authorization == Some(AdminKey) && bodyValid && userExists
    ensures r == Some(Http.Unauthorized) <==> authorization != Some(AdminKey)
    ensures r == Some(Http.BadRequest) <==> authorization == Some(AdminKey) && !bodyValid
    ensures r == Some(Http.NotFound) <==> authorization == Some(AdminKey) && bodyValid && !userExists
  {
    if authorization != Some(AdminKey) then Some(Http.Unauthorized)
    else if !bodyValid then Some(Http.BadRequest)
    else if !userExists then Some(Http.NotFound)
    else None
  }

  // ---------------------------------------------------------------------------------------
  // Classifying the names of an add request
  // ---------------------------------------------------------------------------------------

  /** `a` and `p` split `s`: every position of `s` goes to exactly one of them, and both keep
      the order of `s`. */
  ghost predicate Interleaves(s: seq<string>, a: seq<string>, p: seq<string>)
    decreases |s|
  {
    if s == [] then a == [] && p == []
    else
      var x := s[|s| - 1];
      || (a != [] && a[|a| - 1] == x && Interleaves(s[..|s| - 1], a[..|a| - 1], p))
      || (p != [] && p[|p| - 1] == x && Interleaves(s[..|s| - 1], a, p[..|p| - 1]))
  }

  lemma {:induction false} InterleavesMultiset(s: seq<string>, a: seq<string>, p: seq<string>)
    requires Interleaves(s, a, p)
    ensures multiset(a) + multiset(p) == multiset(s)
    decreases |s|
  {
    if s != [] {
      var s' := s[..|s| - 1];
      assert s == s' + [s[|s| - 1]];
      if a != [] && a[|a| - 1] == s[|s| - 1] && Interleaves(s', a[..|a| - 1], p) {
        InterleavesMultiset(s', a[..|a| - 1], p);
        assert a == a[..|a| - 1] + [a[|a| - 1]];
      } else {
        InterleavesMultiset(s', a, p[..|p| - 1]);
        assert p == p[..|p| - 1] + [p[|p| - 1]];
      }
    }
  }

  /** The names an add request adds (`agregados`) and the names it reports as already there
      (`existentes`). */
  datatype Split = Split(added: seq<string>, present: seq<string>)

  /** The classification loop of the add endpoints, starting from the user's stored names
      `existing`: a name is added when neither stored nor added earlier in the same request,
      and reported as present otherwise. */
  function Classify(existing: set<string>, input: seq<string>): Split
    decreases |input|
  {
    if input == [] then Split([], [])
    else
      var r := Classify(existing, input[..|input| - 1]);
      var x := input[|input| - 1];
      if x in existing || x in r.added then Split(r.added, r.present + [x])
      else Split(r.added + [x], r.present)
  }

  /** The added and present names split the request in order; the added ones are exactly the
      requested names that were not stored, each once; a present name was stored or added. */
  lemma {:induction false} ClassifySplits(existing: set<string>, input: seq<string>)
    ensures var r := Classify(existing, input);
            && Interleaves(input, r.added, r.present)
            && NoDups(r.added)
            && (forall x :: x in r.added <==> x in input && x !in existing)
            && (forall x :: x in r.present ==> x in existing || x in r.added)
    decreases |input|
  {
    if input != [] {
      var prefix := input[..|input| - 1];
      var x := input[|input| - 1];
      ClassifySplits(existing, prefix);
      var r := Classify(existing, prefix);
      assert input == prefix + [x];
      if x in existing || x in r.added {
        assert (r.present + [x])[..|r.present|] == r.present;
      } else {
        assert (r.added + [x])[..|r.added|] == r.added;
      }
    }
  }

  /** Every name of the request lands in exactly one of the two lists, counted with repeats. */
  lemma ClassifyPartitions(existing: set<string>, input: seq<string>)
    ensures var r := Classify(existing, input);
            multiset(r.added) + multiset(r.present) == multiset(input)
  {
    ClassifySplits(existing, input);
    var r := Classify(existing, input);
    InterleavesMultiset(input, r.added, r.present);
  }

  /** A name requested `c` times that the user did not hold is added once and reported as
      present the other `c - 1` times; a name the user held is reported every time. */
  lemma ClassifyCounts(existing: set<string>, input: seq<string>, x: string)
    ensures var r := Classify(existing, input);
            && multiset(r.added)[x] == (if x in input && x !in existing then 1 else 0)
            && multiset(r.present)[x] == multiset(input)[x] - multiset(r.added)[x]
  {
    ClassifySplits(existing, input);
    ClassifyPartitions(existing, input);
    NoDupsCount(Classify(existing, input).added, x);
  }

  /** Stored names plus the added ones have no repeats, and hold exactly the stored names and
      the requested ones. */
  lemma ClassifyKeepsUnique(stored: seq<string>, input: seq<string>)
    requires NoDups(stored)
    ensures var r := Classify(Elements(stored), input);
            NoDups(stored + r.added) &&
            Elements(stored + r.added) == Elements(stored) + Elements(input)
  {
    ClassifySplits(Elements(stored), input);
    var r := Classify(Elements(stored), input);
    var s := stored + r.added;
    forall i, j | 0 <= i < j < |s| ensures s[i] != s[j] {
      if j >= |stored| {
        assert s[j] == r.added[j - |stored|];
        if i < |stored| {
          assert s[i] in Elements(stored);
        } else {
          assert s[i] == r.added[i - |stored|];
        }
      }
    }
  }

  /** One more requested name: how the classification of a prefix extends. */
  lemma ClassifyStep(existing: set<string>, input: seq<string>, j: nat)
    requires j < |input|
    ensures var r := Classify(existing, input[..j]);
            var x := input[j];
            Classify(existing, input[..j + 1]) ==
              if x in existing || x in r.added then Split(r.added, r.present + [x])
              else Split(r.added + [x], r.present)
  {
    assert input[..j + 1][..j] == input[..j];
  }

  /** Which occurrence of a name is added: position `k` of the request is added exactly when
      its name is neither stored nor requested earlier, so a new name's first occurrence is
      added and its later occurrences and the stored names are reported as present. */
  lemma ClassifyFirstOccurrence(existing: set<string>, input: seq<string>, k: nat)
    requires k < |input|
    ensures var before := Classify(existing, input[..k]);
            var x := input[k];
            Classify(existing, input[..k + 1]) ==
              if x !in existing && x !in input[..k] then Split(before.added + [x], before.present)
              else Split(before.added, before.present + [x])
  {
    ClassifyStep(existing, input, k);
    ClassifySplits(existing, input[..k]);
  }

  /** Sequence concatenation regroups (a step the insertion loop needs spelled out). */
  lemma AppendAssoc(a: seq<string>, b: seq<string>, c: seq<string>)
    ensures (a + b) + c == a + (b + c)
  {
  }

  /** A second update of the same key overrides the first. */
  lemma UpdateTwice(m: map<UserId, seq<string>>, k: UserId, u: seq<string>, v: seq<string>)
    ensures m[k := u][k := v] == m[k := v]
  {
  }

  /** What an add request returns besides its status. */
  datatype AddReport = AddReport(added: seq<string>, present: seq<string>, names: seq<string>)

  // ---------------------------------------------------------------------------------------
  // Registering users
  // ---------------------------------------------------------------------------------------

  /** `n` consecutive ids from `start`. */
  function Consecutive(start: UserId, n: nat): seq<UserId>
    decreases n
  {
    if n == 0 then [] else Consecutive(start, n - 1) + [start + n - 1]
  }

  /** The `k`-th of the ids is `start + k`. */
  lemma {:induction false} ConsecutiveSpec(start: UserId, n: nat)
    ensures var ids := Consecutive(start, n);
            |ids| == n && forall k :: 0 <= k < n ==> ids[k] == start + k
    decreases n
  {
    if n > 0 {
      ConsecutiveSpec(start, n - 1);
    }
  }

  /** The users table once `entries` are registered, in order, under consecutive ids from
      `start`. (A validated entry always has its `nombre`.) */
  function Enrol(users: map<UserId, string>, start: UserId, entries: seq<Serializer.UserEntry>): map<UserId, string>
    decreases |entries|
  {
    if entries == [] then users
    else Enrol(users, start, entries[..|entries| - 1])[start + |entries| - 1 := entries[|entries| - 1].nombre.GetOr("")]
  }

  lemma EnrolStep(users: map<UserId, string>, start: UserId, entries: seq<Serializer.UserEntry>, i: nat)
    requires i < |entries|
    ensures Enrol(users, start, entries[..i + 1]) ==
              Enrol(users, start, entries[..i])[start + i := entries[i].nombre.GetOr("")]
  {
    assert entries[..i + 1][..i] == entries[..i];
  }

  /** A favourites table once `n` users with no favourites are registered from `start`. */
  function EmptyRows(rows: map<UserId, seq<string>>, start: UserId, n: nat): map<UserId, seq<string>>
    decreases n
  {
    if n == 0 then rows else EmptyRows(rows, start, n - 1)[start + n - 1 := []]
  }

  /** Registering keeps every existing user's name, and gives the `i`-th new id the `i`-th
      entry's name; no other id appears. */
  lemma {:induction false} EnrolSpec(users: map<UserId, string>, start: UserId, entries: seq<Serializer.UserEntry>)
    requires forall id :: id in users ==> id < start
    ensures var r := Enrol(users, start, entries);
            && (forall id :: id in r <==> id in users || start <= id < start + |entries|)
            && (forall id :: id in users ==> r[id] == users[id])
            && (forall i :: 0 <= i < |entries| ==> r[start + i] == entries[i].nombre.GetOr(""))
    decreases |entries|
  {
    if entries != [] {
      var p := entries[..|entries| - 1];
      EnrolSpec(users, start, p);
      forall i | 0 <= i < |p| ensures entries[i] == p[i] { }
    }
  }

  /** The new users' lists are empty and every existing user's list is kept. */
  lemma {:induction false} EmptyRowsSpec(rows: map<UserId, seq<string>>, start: UserId, n: nat)
    requires forall id :: id in rows ==> id < start
    ensures var r := EmptyRows(rows, start, n);
            && (forall id :: id in r <==> id in rows || start <= id < start + n)
            && (forall id :: id in rows ==> r[id] == rows[id])
            && (forall i :: start <= i < start + n ==> r[i] == [])
    decreases n
  {
    if n > 0 {
      EmptyRowsSpec(rows, start, n - 1);
    }
  }

  // ---------------------------------------------------------------------------------------
  // The store
  // ---------------------------------------------------------------------------------------

  class Database {
    /** `Usuario` rows: id to `nombre`. */
    var users: map<UserId, string>
    /** The id the next created user gets. */
    var nextId: UserId
    /** `CantanteFavorito` rows, grouped by user. */
    var singers: map<UserId, seq<string>>
    /** `CancionFavorita` rows, grouped by user. */
    var songs: map<UserId, seq<string>>

    /** Every user has a (possibly empty) list of each kind, ids are below `nextId`, and no user
        holds the same name twice in one kind. */
    ghost predicate Valid()
      reads this
    {
      && singers.Keys == users.Keys && songs.Keys == users.Keys
      && (forall id :: id in users ==> id < nextId)
      && (forall id :: id in singers ==> NoDups(singers[id]))
      && (forall id :: id in songs ==> NoDups(songs[id]))
    }

    function Rows(kind: Kind): (m: map<UserId, seq<string>>)
      reads this
      ensures Valid() ==> m.Keys == users.Keys && forall id :: id in m ==> NoDups(m[id])
    {
      match kind
      case Singers => singers
      case Songs => songs
    }

    constructor ()
      ensures Valid()
      ensures users == map[] && nextId == 1 && singers == map[] && songs == map[]
    {
      users, nextId, singers, songs := map[], 1, map[], map[];
    }

    /** Replaces one user's rows of one kind. */
    method SetRows(kind: Kind, id: UserId, names: seq<string>)
      modifies this
      ensures Rows(kind) == old(Rows(kind))[id := names]
      ensures Rows(Other(kind)) == old(Rows(Other(kind)))
      ensures users == old(users) && nextId == old(nextId)
    {
      match kind
      case Singers => singers := singers[id := names];
      case Songs => songs := songs[id := names];
    }

    /** `objects.create(usuario=..., nombre=name)`: refused (an `IntegrityError`) when the user
        already holds `name`, so the uniqueness constraint always holds. */
    method InsertRow(kind: Kind, id: UserId, name: string) returns (ok: bool)
      requires Valid() && id in users
      modifies this
      ensures Valid()
      ensures ok <==> name !in old(Rows(kind))[id]
      ensures Rows(kind) == if ok then old(Rows(kind))[id := old(Rows(kind))[id] + [name]] else old(Rows(kind))
      ensures Rows(Other(kind)) == old(Rows(Other(kind)))
      ensures users == old(users) && nextId == old(nextId)
    {
      var rows := Rows(kind)[id];
      ok := name !in rows;
      if ok {
        SetRows(kind, id, rows + [name]);
      }
    }

    /** `for fila in <Kind>.objects.filter(usuario=usuario): lista.append(fila.nombre)`. */
    method CollectNames(kind: Kind, id: UserId) returns (names: seq<string>)
      requires id in Rows(kind)
      ensures names == Rows(kind)[id]
    {
      var rows := Rows(kind)[id];
      names := [];
      var i := 0;
      while i < |rows|
        invariant 0 <= i <= |rows|
        invariant names == rows[..i]
      {
        names := names + [rows[i]];
        i := i + 1;
      }
    }

    /** `get_cantantes_favoritos` / `get_canciones_favoritas`: 404 for an unknown user, otherwise
        the user's names (empty when there are none), without repeats. */
    method ListFavourites(kind: Kind, pk: UserId) returns (r: Outcome<seq<string>>)
      requires Valid()
      ensures pk !in users ==> r == Rejected(Http.NotFound)
      ensures pk in users ==> r == Done(Http.Ok, Rows(kind)[pk])
      ensures r.Done? ==> NoDups(r.value)
    {
      if pk !in users {
        return Rejected(Http.NotFound);
      }
      var names := CollectNames(kind, pk);
      r := Done(Http.Ok, names);
    }

    /** `for c in <Kind>.objects.filter(usuario=usuario): existentes.add(c.nombre)`. */
    method StoredNames(kind: Kind, id: UserId) returns (existentes: set<string>)
      requires id in Rows(kind)
      ensures existentes == Elements(Rows(kind)[id])
    {
      var rows := Rows(kind)[id];
      existentes := {};
      var i := 0;
      while i < |rows|
        invariant 0 <= i <= |rows|
        invariant existentes == Elements(rows[..i])
      {
        assert rows[..i + 1] == rows[..i] + [rows[i]];
        existentes := existentes + {rows[i]};
        i := i + 1;
      }
      assert rows[..i] == rows;
    }

    /** The classification loop of the add endpoints: each requested name is inserted unless
        the user holds it already or it was inserted earlier in the same loop. */
    method AddNames(kind: Kind, pk: UserId, input: seq<string>) returns (split: Split)
      requires Valid() && pk in users
      modifies this
      ensures Valid()
      ensures split == Classify(Elements(old(Rows(kind))[pk]), input)
      ensures Rows(kind) == old(Rows(kind))[pk := old(Rows(kind))[pk] + split.added]
      ensures Rows(Other(kind)) == old(Rows(Other(kind)))
      ensures users == old(users) && nextId == old(nextId)
    {
      var existentes := StoredNames(kind, pk);
      ghost var rows := Rows(kind)[pk];
      ghost var stored := existentes;
      var added, present := [], [];
      assert rows + added == rows;
      assert Rows(kind)[pk := rows + added] == Rows(kind);
      var j := 0;
      while j < |input|
        invariant 0 <= j <= |input|
        invariant Split(added, present) == Classify(stored, input[..j])
        invariant forall x :: x in existentes <==> x in stored || x in added
        invariant pk in Rows(kind) && Rows(kind)[pk] == rows + added
        invariant Rows(kind) == old(Rows(kind))[pk := rows + added]
        invariant Rows(Other(kind)) == old(Rows(Other(kind)))
        invariant users == old(users) && nextId == old(nextId)
        invariant Valid()
      {
        var name := input[j];
        ClassifyStep(stored, input, j);
        if name in existentes {
          present := present + [name];
        } else {
          assert name !in rows + added;
          var ok := InsertRow(kind, pk, name);
          AppendAssoc(rows, added, [name]);
          UpdateTwice(old(Rows(kind)), pk, rows + added, rows + added + [name]);
          added := added + [name];
          existentes := existentes + {name};
        }
        j := j + 1;
      }
      assert input[..j] == input;
      split := Split(added, present);
    }

    /** `post_cantantes_favoritos` / `post_canciones_favoritas`: after the guards, adds each
        requested name the user does not hold yet, and answers 201 when something was added,
        200 otherwise. */
    method AddFavourites(kind: Kind, authorization: Option<string>, pk: UserId,
                         body: Serializer.ListField<string>) returns (r: Outcome<AddReport>)
      requires Valid()
      modifies this
      ensures Valid()
      ensures users == old(users) && nextId == old(nextId)
      ensures Rows(Other(kind)) == old(Rows(Other(kind)))
      ensures var guard := Guard(authorization, ValidatedNames(kind, body).Some?, pk in old(users));
              (r.Rejected? <==> guard.Some?) &&
              (guard.Some? ==> r == Rejected(guard.value) && unchanged(this))
      ensures r.Done? ==>
                var split := Classify(Elements(old(Rows(kind))[pk]), body.items);
                && r.value == AddReport(split.added, split.present, Rows(kind)[pk])
                && Rows(kind) == old(Rows(kind))[pk := old(Rows(kind))[pk] + split.added]
                && r.status == (if split.added != [] then Http.Created else Http.Ok)
      ensures r.Done? ==> Elements(Rows(kind)[pk]) == Elements(old(Rows(kind))[pk]) + Elements(body.items)
    {
      if authorization != Some(AdminKey) {
        return Rejected(Http.Unauthorized);
      }
      var validated := ValidatedNames(kind, body);
      if validated.None? {
        return Rejected(Http.BadRequest);
      }
      if pk !in users {
        return Rejected(Http.NotFound);
      }
      ClassifyKeepsUnique(Rows(kind)[pk], validated.value);
      var split := AddNames(kind, pk, validated.value);
      var finalList := CollectNames(kind, pk);
      var status := if split.added != [] then Http.Created else Http.Ok;
      r := Done(status, AddReport(split.added, split.present, finalList));
    }

    /** The insertion loop of the replace endpoints, on a user whose rows were just deleted:
        stops at the first insertion the uniqueness constraint refuses. */
    method InsertAll(kind: Kind, pk: UserId, input: seq<string>) returns (ok: bool)
      requires Valid() && pk in users && Rows(kind)[pk] == []
      modifies this
      ensures Valid()
      ensures ok <==> NoDups(input)
      ensures Rows(kind) == old(Rows(kind))[pk := UniquePrefix(input)]
      ensures Rows(Other(kind)) == old(Rows(Other(kind)))
      ensures users == old(users) && nextId == old(nextId)
    {
      assert input[..0] == [];
      assert old(Rows(kind))[pk := input[..0]] == old(Rows(kind));
      var j := 0;
      while j < |input|
        invariant 0 <= j <= |input|
        invariant NoDups(input[..j])
        invariant Rows(kind) == old(Rows(kind))[pk := input[..j]]
        invariant Rows(Other(kind)) == old(Rows(Other(kind)))
        invariant users == old(users) && nextId == old(nextId)
        invariant Valid()
      {
        var inserted := InsertRow(kind, pk, input[j]);
        if !inserted {
          assert FirstRepeat(input, j);
          FirstRepeatPrefix(input, j);
          UniquePrefixSpec(input);
          return false;
        }
        assert input[..j + 1] == input[..j] + [input[j]];
        j := j + 1;
      }
      assert input[..j] == input;
      UniquePrefixSpec(input);
      ok := true;
    }

    /** `put_cantantes_favoritos` / `put_canciones_favoritas`: after the guards, deletes all the
        user's names of that kind and inserts the requested ones one by one. A name repeated in
        the request makes its second insertion fail (500), leaving the names inserted before it. */
    method ReplaceFavourites(kind: Kind, authorization: Option<string>, pk: UserId,
                             body: Serializer.ListField<string>) returns (r: Outcome<seq<string>>)
      requires Valid()
      modifies this
      ensures Valid()
      ensures users == old(users) && nextId == old(nextId)
      ensures Rows(Other(kind)) == old(Rows(Other(kind)))
      ensures var guard := Guard(authorization, ValidatedNames(kind, body).Some?, pk in old(users));
              guard.Some? ==> r == Rejected(guard.value) && unchanged(this)
      ensures var guard := Guard(authorization, ValidatedNames(kind, body).Some?, pk in old(users));
              guard.None? ==>
                && Rows(kind) == old(Rows(kind))[pk := UniquePrefix(body.items)]
                && r == if NoDups(body.items) then Done(Http.Ok, body.items) else Rejected(Http.ServerError)
    {
      if authorization != Some(AdminKey) {
        return Rejected(Http.Unauthorized);
      }
      var validated := ValidatedNames(kind, body);
      if validated.None? {
        return Rejected(Http.BadRequest);
      }
      if pk !in users {
        return Rejected(Http.NotFound);
      }
      SetRows(kind, pk, []);
      ghost var cleared := Rows(kind);
      assert cleared[pk := UniquePrefix(body.items)] == old(Rows(kind))[pk := UniquePrefix(body.items)];
      var ok := InsertAll(kind, pk, validated.value);
      if !ok {
        return Rejected(Http.ServerError);
      }
      UniquePrefixSpec(validated.value);
      var finalList := CollectNames(kind, pk);
      r := Done(Http.Ok, finalList);
    }

    /** `delete_cantante_favorito` / `delete_cancion_favorita`: after the guards (the name comes
        from the query string and must be non-empty), 404 when the user does not hold the name,
        otherwise deletes it and returns the remaining names. */
    method DeleteFavourite(kind: Kind, authorization: Option<string>, pk: UserId,
                           name: Option<string>) returns (r: Outcome<seq<string>>)
      requires Valid()
      modifies this
      ensures Valid()
      ensures var guard := Guard(authorization, name.Some? && name.value != [], pk in old(users));
              guard.Some? ==> r == Rejected(guard.value) && unchanged(this)
      ensures var guard := Guard(authorization, name.Some? && name.value != [], pk in old(users));
              guard.None? && name.value !in old(Rows(kind))[pk] ==>
                r == Rejected(Http.NotFound) && unchanged(this)
      ensures var guard := Guard(authorization, name.Some? && name.value != [], pk in old(users));
              guard.None? && name.value in old(Rows(kind))[pk] ==>
                && Rows(kind) == old(Rows(kind))[pk := Without(old(Rows(kind))[pk], name.value)]
                && r == Done(Http.Ok, Rows(kind)[pk])
      ensures Rows(Other(kind)) == old(Rows(Other(kind)))
      ensures users == old(users) && nextId == old(nextId)
    {
      if authorization != Some(AdminKey) {
        return Rejected(Http.Unauthorized);
      }
      if name.None? || name.value == [] {
        return Rejected(Http.BadRequest);
      }
      if pk !in users {
        return Rejected(Http.NotFound);
      }
      var rows := Rows(kind)[pk];
      if name.value !in rows {
        return Rejected(Http.NotFound);
      }
      SetRows(kind, pk, Without(rows, name.value));
      var finalList := CollectNames(kind, pk);
      r := Done(Http.Ok, finalList);
    }

    /** `Usuario.objects.create(nombre=nombre)`: a new user, under the next id, with no
        favourites. */
    method CreateUser(nombre: string) returns (id: UserId)
      requires Valid()
      modifies this
      ensures Valid()
      ensures id == old(nextId) && id !in old(users) && nextId == old(nextId) + 1
      ensures users == old(users)[id := nombre]
      ensures singers == old(singers)[id := []] && songs == old(songs)[id := []]
    {
      id := nextId;
      users := users[id := nombre];
      singers := singers[id := []];
      songs := songs[id := []];
      nextId := nextId + 1;
    }

    /** `create`: validates the `users` list (400), then creates one user per entry, in order,
        under consecutive ids, and answers 201 with those ids. */
    method CreateUsers(body: Serializer.ListField<Serializer.UserEntry>) returns (r: Outcome<seq<UserId>>)
      requires Valid()
      modifies this
      ensures Valid()
      ensures Serializer.UsersBody(body).None? ==> r == Rejected(Http.BadRequest) && unchanged(this)
      ensures Serializer.UsersBody(body).Some? ==>
                && r.Done? && r.status == Http.Created && r.value == Consecutive(old(nextId), |body.items|)
                && users == Enrol(old(users), old(nextId), body.items)
                && singers == EmptyRows(old(singers), old(nextId), |body.items|)
                && songs == EmptyRows(old(songs), old(nextId), |body.items|)
                && nextId == old(nextId) + |body.items|
    {
      var validated := Serializer.UsersBody(body);
      if validated.None? {
        return Rejected(Http.BadRequest);
      }
      var entries := validated.value;
      var ids: seq<UserId> := [];
      var i := 0;
      ghost var start, users0, singers0, songs0 := nextId, users, singers, songs;
      assert entries[..0] == [];
      while i < |entries|
        invariant 0 <= i <= |entries|
        invariant Valid()
        invariant nextId == start + i
        invariant ids == Consecutive(start, i)
        invariant users == Enrol(users0, start, entries[..i])
        invariant singers == EmptyRows(singers0, start, i)
        invariant songs == EmptyRows(songs0, start, i)
      {
        EnrolStep(users0, start, entries, i);
        assert Consecutive(start, i + 1) == Consecutive(start, i) + [start + i];
        assert EmptyRows(singers0, start, i + 1) == EmptyRows(singers0, start, i)[start + i := []];
        assert EmptyRows(songs0, start, i + 1) == EmptyRows(songs0, start, i)[start + i := []];
        assert Serializer.HasNombre(entries[i]);
        var id := CreateUser(entries[i].nombre.value);
        ids := ids + [id];
        i := i + 1;
      }
      assert entries[..i] == entries;
      r := Done(Http.Created, ids);
    }

    /** `update`: the header (401), then the user (404), then the body's `nombre` (400, required
        and checked by `validate_nombre`); on success the user's name is replaced. */
    method UpdateUser(authorization: Option<string>, pk: UserId, nombre: Option<string>) returns (status: int)
      requires Valid()
      modifies this
      ensures Valid()
      ensures authorization != Some(AdminKey) ==> status == Http.Unauthorized && unchanged(this)
      ensures authorization == Some(AdminKey) && pk !in old(users) ==> status == Http.NotFound && unchanged(this)
      ensures authorization == Some(AdminKey) && pk in old(users) &&
              (nombre.None? || Serializer.ValidateNombre(nombre.value).None?) ==>
                status == Http.BadRequest && unchanged(this)
      ensures authorization == Some(AdminKey) && pk in old(users) &&
              nombre.Some? && Serializer.ValidateNombre(nombre.value).Some? ==>
                && status == Http.Ok && users == old(users)[pk := nombre.value]
                && singers == old(singers) && songs == old(songs) && nextId == old(nextId)
    {
      if authorization != Some(AdminKey) {
        return Http.Unauthorized;
      }
      if pk !in users {
        return Http.NotFound;
      }
      if nombre.None? {
        return Http.BadRequest;
      }
      var validated := Serializer.ValidateNombre(nombre.value);
      if validated.None? {
        return Http.BadRequest;
      }
      users := users[pk := validated.value];
      status := Http.Ok;
    }

    /** `delete_by_query`: the `id` query parameter must be non-empty (400), parse as an integer
        and name a user (404); the user and, by cascade, all their favourites are deleted. */
    method DeleteUser(idParam: Option<string>) returns (status: int)
      requires Valid()
      modifies this
      ensures Valid()
      ensures idParam.None? || idParam.value == [] ==> status == Http.BadRequest && unchanged(this)
      ensures idParam.Some? && idParam.value != [] ==>
                var n := PyInt.ParseInt(idParam.value);
                if n.None? || n.value < 0 || n.value !in old(users) then
                  status == Http.NotFound && unchanged(this)
                else
                  && status == Http.Ok
                  && users == old(users) - {n.value as UserId}
                  && singers == old(singers) - {n.value as UserId}
                  && songs == old(songs) - {n.value as UserId}
                  && nextId == old(nextId)
    {
      if idParam.None? || idParam.value == [] {
        return Http.BadRequest;
      }
      var n := PyInt.ParseInt(idParam.value);
      if n.None? || n.value < 0 || n.value !in users {
        return Http.NotFound;
      }
      var id := n.value as UserId;
      users := users - {id};
      singers := singers - {id};
      songs := songs - {id};
      status := Http.Ok;
    }
  }
}
