/** The movie controller: list, ownership-gated create/update/delete, and
    unrestricted votes, each a pure function from (caller, request, table,
    store faults) to (response, table'). */
module Movies {
  import opened Model

  /** The `platform` field of a request body: a JSON array or any scalar. */
  datatype PlatformInput = Many(items: seq<Field>) | One(item: Field)

  /** The fields `addNewMovie` and `updateMovie` destructure from the body.
      Nothing else in the body reaches the table. */
  datatype MovieBody = MovieBody(title: Field, genre: Field, platform: PlatformInput, synopsis: Field)

  /** `Array.isArray(platform) ? platform : [platform]`. */
  function Normalise(p: PlatformInput): (a: seq<Field>)
    ensures p.Many? ==> a == p.items
    ensures p.One? ==> |a| == 1 && a[0] == p.item
  {
    match p
    case Many(items) => items
    case One(f) => [f]
  }

  /** The array a platform value is stored as (undefined elements serialise as null). */
  function Stored(a: seq<Field>): (s: seq<Option<string>>)
    ensures |s| == |a|
    ensures forall i :: 0 <= i < |a| ==> s[i] == Column(a[i])
  {
    if |a| == 0 then [] else [Column(a[0])] + Stored(a[1..])
  }

  /** Normalising an already normalised platform changes nothing. */
  lemma NormaliseIdempotent(p: PlatformInput)
    ensures Normalise(Many(Normalise(p))) == Normalise(p)
  {
  }

  /** A string sent as `platform` is stored as the one-element array holding it. */
  lemma ScalarPlatformRoundTrip(name: string)
    ensures Stored(Normalise(One(Text(name)))) == [Some(name)]
  {
  }

  /** The single authorization rule: a caller may change a record iff it added it. */
  predicate Owns(caller: UserId, m: Movie) {
    m.addedBy == caller
  }

  const NotAuthorizedToUpdate := "You are not authorized to update this movie."
  const NotAuthorizedToDelete := "You are not authorized to delete this movie."
  const MovieNotFound := "Movie not found."
  const ThumbsUpAdded := "Thumbs up added!"
  const ThumbsDownAdded := "Thumbs down added!"

  /** The 500 response a `catch` block sends for a store error. */
  function StoreFailure(message: string): Response {
    Response(500, Thrown(StoreError(message)))
  }

  /** `getMovies`: every record, or 500 when the select fails. Each row is
      listed once under its id, so equal records under two ids are two rows. */
  function GetMovies(store: Store, fault: Fault): (r: Response)
    ensures r.status == 200 <==> fault.None?
    ensures fault.Some? ==> r == StoreFailure(fault.value)
    ensures r.status == 200 ==>
      && r.body.MovieList?
      && r.body.listed.Keys == store.Keys
      && (forall k :: k in store ==> r.body.listed[k] == store[k])
  {
    match fault
    case Some(msg) => StoreFailure(msg)
    case None => Response(200, MovieList(store))
  }

  /** The record `addNewMovie` inserts. The owner and the counters never come from the body. */
  function NewRecord(caller: UserId, body: MovieBody, newId: MovieId, now: Timestamp): Movie {
    Movie(newId, Column(body.title), Column(body.genre), Some(Stored(Normalise(body.platform))),
          Column(body.synopsis), caller, Some(0), Some(0), now)
  }

  /** `addNewMovie`: the insert stamps the caller as owner. The store assigns a
      fresh id `newId` and the creation time `now`; `fault` is the insert's outcome. */
  function AddNewMovie(caller: UserId, body: MovieBody, store: Store,
                       newId: MovieId, now: Timestamp, fault: Fault): (r: Handled)
    requires newId !in store
    ensures fault.Some? ==> r == Handled(StoreFailure(fault.value), store)
    ensures fault.None? ==>
      && r.response.status == 201
      && r.store.Keys == store.Keys + {newId}
      && (forall k :: k in store ==> r.store[k] == store[k])
      && r.response.body == Inserted([r.store[newId]])
    ensures fault.None? ==>
      var m := r.store[newId];
      && m.id == newId && m.addedBy == caller && m.createdAt == now
      && m.thumbsUp == Some(0) && m.thumbsDown == Some(0)
      && m.title == Column(body.title) && m.genre == Column(body.genre)
      && m.synopsis == Column(body.synopsis)
      && m.platform == Some(Stored(Normalise(body.platform)))
  {
    match fault
    case Some(msg) => Handled(StoreFailure(msg), store)
    case None =>
      var m := NewRecord(caller, body, newId, now);
      Handled(Response(201, Inserted([m])), store[newId := m])
  }

  /** A PUT body field overwrites a column when present; `undefined` keys are
      dropped by JSON serialisation and leave the column as it was. */
  function Overwrite(prev: Option<string>, f: Field): (c: Option<string>)
    ensures f.Undefined? ==> c == prev
    ensures !f.Undefined? ==> c == Column(f)
  {
    if f.Undefined? then prev else Column(f)
  }

  /** The record after the owner's update: the four body fields, nothing else. */
  function Revise(m: Movie, body: MovieBody): Movie {
    m.(title := Overwrite(m.title, body.title),
       genre := Overwrite(m.genre, body.genre),
       platform := Some(Stored(Normalise(body.platform))),
       synopsis := Overwrite(m.synopsis, body.synopsis))
  }

  /** The fetch both `updateMovie` and `deleteMovie` run first: the store's
      error, or `.single()`'s error when no row has the id. */
  function FetchFailure(id: MovieId, store: Store, fault: Fault): (r: Option<Response>)
    ensures r.None? <==> fault.None? && id in store
    ensures r.Some? ==> r.value.status == 500
  {
    match fault
    case Some(msg) => Some(StoreFailure(msg))
    case None => if id in store then None else Some(Response(500, Thrown(NoSingleRow)))
  }

  /** `updateMovie`: fetch, ownership check, then update of title, genre,
      platform and synopsis. `fetchFault` and `writeFault` are the two store calls' outcomes. */
  function UpdateMovie(caller: UserId, id: MovieId, body: MovieBody, store: Store,
                       fetchFault: Fault, writeFault: Fault): (r: Handled)
    ensures r.response.status == 200 || r.response.status == 500
    ensures r.response.status != 200 ==> r.store == store
    ensures id !in store ==> r.store == store && r.response.status == 500
    ensures fetchFault.None? && id in store && !Owns(caller, store[id]) ==>
      r == Handled(Response(500, Error(NotAuthorizedToUpdate)), store)
    ensures r.response.status == 200 <==>
      fetchFault.None? && writeFault.None? && id in store && Owns(caller, store[id])
    ensures r.response.status == 200 ==>
      && r.store.Keys == store.Keys
      && (forall k :: k in store && k != id ==> r.store[k] == store[k])
      && var was, now := store[id], r.store[id];
      && now.id == was.id && now.addedBy == was.addedBy && now.createdAt == was.createdAt
      && now.thumbsUp == was.thumbsUp && now.thumbsDown == was.thumbsDown
      && now.title == Overwrite(was.title, body.title)
      && now.genre == Overwrite(was.genre, body.genre)
      && now.synopsis == Overwrite(was.synopsis, body.synopsis)
      && now.platform == Some(Stored(Normalise(body.platform)))
  {
    match FetchFailure(id, store, fetchFault)
    case Some(failure) => Handled(failure, store)
    case None =>
      if !Owns(caller, store[id]) then
        Handled(Response(500, Error(NotAuthorizedToUpdate)), store)
      else match writeFault
        case Some(msg) => Handled(StoreFailure(msg), store)
        case None => Handled(Response(200, Echo), store[id := Revise(store[id], body)])
  }

  /** `deleteMovie`: fetch, ownership check, then removal of that one record. */
  function DeleteMovie(caller: UserId, id: MovieId, store: Store,
                       fetchFault: Fault, writeFault: Fault): (r: Handled)
    ensures r.response.status == 200 || r.response.status == 500
    ensures r.response.status != 200 ==> r.store == store
    ensures id !in store ==> r.store == store && r.response.status == 500
    ensures fetchFault.None? && id in store && !Owns(caller, store[id]) ==>
      r == Handled(Response(500, Error(NotAuthorizedToDelete)), store)
    ensures r.response.status == 200 <==>
      fetchFault.None? && writeFault.None? && id in store && Owns(caller, store[id])
    ensures r.response.status == 200 ==>
      && r.store.Keys == store.Keys - {id}
      && (forall k :: k in r.store ==> r.store[k] == store[k])
  {
    match FetchFailure(id, store, fetchFault)
    case Some(failure) => Handled(failure, store)
    case None =>
      if !Owns(caller, store[id]) then
        Handled(Response(500, Error(NotAuthorizedToDelete)), store)
      else match writeFault
        case Some(msg) => Handled(StoreFailure(msg), store)
        case None => Handled(Response(200, Echo), store - {id})
  }

  /** For an existing record whose fetch succeeds, an update is refused as
      unauthorized exactly when the caller did not add the record. */
  lemma UpdateOwnerCheck(caller: UserId, id: MovieId, body: MovieBody, store: Store, writeFault: Fault)
    requires id in store
    ensures UpdateMovie(caller, id, body, store, None, writeFault).response == Response(500, Error(NotAuthorizedToUpdate))
        <==> !Owns(caller, store[id])
  {
  }

  /** For an existing record whose fetch succeeds, a delete is refused as
      unauthorized exactly when the caller did not add the record. */
  lemma DeleteOwnerCheck(caller: UserId, id: MovieId, store: Store, writeFault: Fault)
    requires id in store
    ensures DeleteMovie(caller, id, store, None, writeFault).response == Response(500, Error(NotAuthorizedToDelete))
        <==> !Owns(caller, store[id])
  {
  }

  /** A PUT body without `platform` does not keep the column: `[platform]`
      wraps `undefined`, which is stored as the one-element array `[null]`. */
  lemma UpdateWithoutPlatformClearsIt(caller: UserId, id: MovieId, title: string, store: Store)
    requires id in store && Owns(caller, store[id])
    ensures var r := UpdateMovie(caller, id, MovieBody(Text(title), Undefined, One(Undefined), Undefined),
                                 store, None, None);
      && r.response.status == 200
      && r.store[id].title == Some(title) && r.store[id].platform == Some([None])
  {
    assert Stored(Normalise(One(Undefined))) == [None];
  }

  /** Which counter a vote adds to. */
  datatype Thumb = Up | Down

  function Count(t: Thumb, m: Movie): Option<nat> {
    match t
    case Up => m.thumbsUp
    case Down => m.thumbsDown
  }

  /** The two records agree on every column except `t`'s counter. */
  predicate SameExceptCount(t: Thumb, a: Movie, b: Movie) {
    && a.id == b.id && a.title == b.title && a.genre == b.genre
    && a.platform == b.platform && a.synopsis == b.synopsis
    && a.addedBy == b.addedBy && a.createdAt == b.createdAt
    && (t.Up? ==> a.thumbsDown == b.thumbsDown)
    && (t.Down? ==> a.thumbsUp == b.thumbsUp)
  }

  /** The two records agree on every column a vote cannot touch. */
  predicate SameContent(a: Movie, b: Movie) {
    && a.id == b.id && a.title == b.title && a.genre == b.genre
    && a.platform == b.platform && a.synopsis == b.synopsis
    && a.addedBy == b.addedBy && a.createdAt == b.createdAt
  }

  /** `(movie.thumbs_up || 0) + 1` written back to the counter. */
  function Bump(t: Thumb, m: Movie): Movie {
    var n := Count(t, m).GetOr(0) + 1;
    match t
    case Up => m.(thumbsUp := Some(n))
    case Down => m.(thumbsDown := Some(n))
  }

  /** A bump counts a missing counter as 0, adds one, and changes no other column. */
  lemma BumpAddsOne(t: Thumb, m: Movie)
    ensures Count(t, Bump(t, m)) == Some(Count(t, m).GetOr(0) + 1)
    ensures SameExceptCount(t, Bump(t, m), m)
  {
  }

  /** `givesThumbsUp` / `givesThumbsDown`. No caller identity is taken: any
      caller may vote, any number of times. */
  function Vote(t: Thumb, id: MovieId, store: Store, fetchFault: Fault, writeFault: Fault): (r: Handled)
    ensures fetchFault.Some? || id !in store ==>
      r == Handled(Response(404, Error(MovieNotFound)), store)
    ensures fetchFault.None? && id in store && writeFault.Some? ==>
      r == Handled(StoreFailure(writeFault.value), store)
    ensures r.response.status == 200 <==> fetchFault.None? && writeFault.None? && id in store
    ensures r.response.status == 200 ==>
      && r.store.Keys == store.Keys
      && (forall k :: k in store && k != id ==> r.store[k] == store[k])
      && SameExceptCount(t, r.store[id], store[id])
      && Count(t, r.store[id]) == Some(Count(t, store[id]).GetOr(0) + 1)
      && r.response.body == Voted(if t.Up? then ThumbsUpAdded else ThumbsDownAdded, r.store[id])
  {
    if fetchFault.Some? || id !in store then
      Handled(Response(404, Error(MovieNotFound)), store)
    else match writeFault
      case Some(msg) => Handled(StoreFailure(msg), store)
      case None =>
        var m := Bump(t, store[id]);
        Handled(Response(200, Voted(if t.Up? then ThumbsUpAdded else ThumbsDownAdded, m)),
                store[id := m])
  }

  /** The table after `n` votes in sequence, each of whose store calls succeeds. */
  function Votes(t: Thumb, id: MovieId, store: Store, n: nat): Store {
    if n == 0 then store else Vote(t, id, Votes(t, id, store, n - 1), None, None).store
  }

  /** `after` is `before` with `n` votes of kind `t` on record `id`: one counter
      of one record grew by `n`, and nothing else changed. */
  ghost predicate VotedOnly(t: Thumb, id: MovieId, before: Store, after: Store, n: nat) {
    && id in before
    && after.Keys == before.Keys
    && (forall k :: k in before && k != id ==> after[k] == before[k])
    && SameExceptCount(t, after[id], before[id])
    && (n == 0 ==> Count(t, after[id]) == Count(t, before[id]))
    && (n > 0 ==> Count(t, after[id]) == Some(Count(t, before[id]).GetOr(0) + n))
  }

  /** One successful vote followed by `n` more is `n + 1` votes. */
  lemma VotedOnlyThen(t: Thumb, id: MovieId, before: Store, after: Store, n: nat)
    requires id in before
    requires VotedOnly(t, id, Vote(t, id, before, None, None).store, after, n)
    ensures VotedOnly(t, id, before, after, n + 1)
  {
  }

  /** `n` successful votes on an existing movie add exactly `n` to one counter
      of one record and touch nothing else. */
  lemma {:induction false} VotesAddExactly(t: Thumb, id: MovieId, store: Store, n: nat)
    requires id in store
    ensures VotedOnly(t, id, store, Votes(t, id, store, n), n)
  {
    if n > 0 {
      var prev := Votes(t, id, store, n - 1);
      VotesAddExactly(t, id, store, n - 1);
      var r := Vote(t, id, prev, None, None);
      assert r.store == Votes(t, id, store, n);
      assert SameExceptCount(t, r.store[id], prev[id]);
      assert Count(t, r.store[id]) == Some(Count(t, prev[id]).GetOr(0) + 1);
    }
  }

  /** Record `k` is still there with every column a vote cannot touch as it was. */
  ghost predicate ContentKept(k: MovieId, before: Store, after: Store)
    requires k in before
  {
    k in after && SameContent(after[k], before[k])
  }

  /** Only the owner edits a record: adding and voting keep every existing
      record's content, and an update or delete that changes record `k`
      targeted `k` on behalf of its owner. */
  lemma OnlyOwnerEdits(caller: UserId, id: MovieId, body: MovieBody, store: Store, newId: MovieId,
                       now: Timestamp, t: Thumb, f1: Fault, f2: Fault, k: MovieId)
    requires k in store && newId !in store
    ensures ContentKept(k, store, AddNewMovie(caller, body, store, newId, now, f1).store)
    ensures ContentKept(k, store, Vote(t, id, store, f1, f2).store)
    ensures !ContentKept(k, store, UpdateMovie(caller, id, body, store, f1, f2).store) ==>
      k == id && Owns(caller, store[k])
    ensures !ContentKept(k, store, DeleteMovie(caller, id, store, f1, f2).store) ==>
      k == id && Owns(caller, store[k])
  {
  }

  /** The columns no handler writes: the id, the owner and the creation time. */
  predicate SameIdentity(a: Movie, b: Movie) {
    a.id == b.id && a.addedBy == b.addedBy && a.createdAt == b.createdAt
  }

  /** Every handler keeps a surviving record's id, owner and creation time. */
  lemma IdentityKept(caller: UserId, id: MovieId, body: MovieBody, store: Store, newId: MovieId,
                     now: Timestamp, t: Thumb, f1: Fault, f2: Fault, k: MovieId)
    requires k in store && newId !in store
    ensures var after := AddNewMovie(caller, body, store, newId, now, f1).store;
      k in after && SameIdentity(after[k], store[k])
    ensures var after := UpdateMovie(caller, id, body, store, f1, f2).store;
      k in after && SameIdentity(after[k], store[k])
    ensures var after := DeleteMovie(caller, id, store, f1, f2).store;
      k in after ==> SameIdentity(after[k], store[k])
    ensures var after := Vote(t, id, store, f1, f2).store;
      k in after && SameIdentity(after[k], store[k])
  {
  }

  /** Every handler keeps each record under its own id. */
  lemma HandlersKeepWellKeyed(caller: UserId, id: MovieId, body: MovieBody, store: Store,
                              newId: MovieId, now: Timestamp, t: Thumb, f1: Fault, f2: Fault)
    requires WellKeyed(store) && newId !in store
    ensures WellKeyed(AddNewMovie(caller, body, store, newId, now, f1).store)
    ensures WellKeyed(UpdateMovie(caller, id, body, store, f1, f2).store)
    ensures WellKeyed(DeleteMovie(caller, id, store, f1, f2).store)
    ensures WellKeyed(Vote(t, id, store, f1, f2).store)
  {
  }

  /** Creating a movie and deleting it as the same caller restores the table. */
  lemma CreateThenDeleteRestores(caller: UserId, body: MovieBody, store: Store,
                                 newId: MovieId, now: Timestamp)
    requires newId !in store
    ensures var created := AddNewMovie(caller, body, store, newId, now, None);
      DeleteMovie(caller, newId, created.store, None, None) == Handled(Response(200, Echo), store)
  {
    var created := AddNewMovie(caller, body, store, newId, now, None);
    assert created.store - {newId} == store;
  }

  /** A movie created by one caller cannot be updated or deleted by another. */
  lemma CreatedMovieRejectsOthers(owner: UserId, other: UserId, body: MovieBody, edit: MovieBody,
                                  store: Store, newId: MovieId, now: Timestamp, f1: Fault, f2: Fault)
    requires newId !in store && owner != other
    ensures var s := AddNewMovie(owner, body, store, newId, now, None).store;
      && UpdateMovie(other, newId, edit, s, f1, f2).store == s
      && UpdateMovie(other, newId, edit, s, f1, f2).response.status == 500
      && DeleteMovie(other, newId, s, f1, f2).store == s
      && DeleteMovie(other, newId, s, f1, f2).response.status == 500
  {
  }
}
