/** The records the backend stores and the HTTP responses its handlers send.
    The database is abstract: the movie table is a map from id to record and
    the user table is a sequence of rows. */
module Model {

  datatype Option<+T> = None | Some(value: T) {
    /** The value, or `default` when there is none (JavaScript's `x || default`
        for a nullable column that is never the empty string or zero). */
    function GetOr(default: T): T {
      match this
      case Some(v) => v
      case None => default
    }
  }

  /** Identifiers are opaque to the application; they are compared for equality only. */
  type UserId = string
  type MovieId = string
  type Timestamp = nat

  /** A scalar field of a JSON request body after destructuring: absent
      (`undefined`), `null`, or a string. Numbers, booleans and objects are not modelled. */
  datatype Field = Undefined | Null | Text(s: string)

  /** What a nullable text column holds after a field is inserted: JSON
      serialisation drops `undefined`, so both absent and `null` give NULL. */
  function Column(f: Field): (c: Option<string>)
    ensures c.Some? <==> f.Text?
    ensures f.Text? ==> c.value == f.s
  {
    match f
    case Text(s) => Some(s)
    case _ => None
  }

  /** A row of the `movies` table. `platform` is nullable in the table, but every
      row written through this backend holds an array; an array element may be null. */
  datatype Movie = Movie(
    id: MovieId,
    title: Option<string>,
    genre: Option<string>,
    platform: Option<seq<Option<string>>>,
    synopsis: Option<string>,
    addedBy: UserId,
    thumbsUp: Option<nat>,
    thumbsDown: Option<nat>,
    createdAt: Timestamp)

  /** A row of the `users` table; `password` holds the bcrypt hash. */
  datatype User = User(id: UserId, email: string, password: string)

  /** The movie table. */
  type Store = map<MovieId, Movie>

  /** Every record sits under its own id. */
  ghost predicate WellKeyed(store: Store) {
    forall k :: k in store ==> store[k].id == k
  }

  /** The outcome of one store call: `None` when it succeeds, `Some(message)`
      when the database client reports an error with that message. */
  type Fault = Option<string>

  /** Why a handler's `catch` block ran; the response carries `err.message`. */
  datatype Cause =
    | StoreError(message: string)   // an error the database client returned
    | NoSingleRow                   // `.single()` found zero rows
    | NotAString                    // validator.isEmail was given a non-string
    | IllegalArguments              // bcrypt was given a non-string password

  /** JSON response bodies. */
  datatype Body =
    | Error(error: string)              // `{ error: "<literal message>" }`
    | Thrown(cause: Cause)              // `{ error: err.message }`
    | Token(token: string)              // `{ token }`
    | MovieList(listed: Store)            // every row, once per id; the store's order is not modelled
    | Inserted(rows: seq<Movie>)        // the rows an insert selected back
    | Echo                              // the client library's reply to an update or delete
    | Voted(message: string, movie: Movie)
    | NoRoute                           // Express's default reply when no route matches
    | External                          // the poster lookup's reply

  datatype Response = Response(status: nat, body: Body)

  /** A movie handler's reply together with the movie table after it ran. */
  datatype Handled = Handled(response: Response, store: Store)
}
