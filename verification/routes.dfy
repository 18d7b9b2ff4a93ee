/** The Express route table and the request pipeline it defines: first
    matching route, then the bearer gate when the route declares it, then the
    controller. */
module Routes {
  import opened Model
  import opened Foreign
  import opened Auth
  import Movies
  import Users

  datatype Verb = Get | Post | Put | Delete

  /** A path pattern segment: a literal, or a named parameter such as `:id`. */
  datatype Segment = Lit(text: string) | Param

  /** The controller functions the routes name. */
  datatype Handler =
    | UserRegistration | UserLogin | GetMovies | GetMoviePoster
    | AddNewMovie | UpdateMovie | DeleteMovie | GivesThumbsUp | GivesThumbsDown

  /** One `app.<verb>(path, [authenticateUser,] handler)` line. */
  datatype Route = Route(verb: Verb, pattern: seq<Segment>, gated: bool, handler: Handler)

  /** The routes in declaration order. */
  const Table: seq<Route> := [
    Route(Post, [Lit("register")], false, UserRegistration),
    Route(Post, [Lit("login")], false, UserLogin),
    Route(Get, [Lit("movies")], false, GetMovies),
    Route(Get, [Lit("api"), Lit("poster")], false, GetMoviePoster),
    Route(Post, [Lit("movies")], true, AddNewMovie),
    Route(Put, [Lit("movies"), Param], true, UpdateMovie),
    Route(Delete, [Lit("movies"), Param], true, DeleteMovie),
    Route(Post, [Lit("movies"), Param, Lit("thumbs-up")], true, GivesThumbsUp),
    Route(Post, [Lit("movies"), Param, Lit("thumbs-down")], true, GivesThumbsDown)
  ]

  /** The handlers that read `req.user`, i.e. that need an identity. */
  predicate ReadsUser(h: Handler) {
    h.AddNewMovie? || h.UpdateMovie? || h.DeleteMovie?
  }

  /** A path, as its `/`-separated segments, fits a pattern; a parameter matches
      any non-empty segment. */
  predicate Matches(pattern: seq<Segment>, path: seq<string>) {
    && |pattern| == |path|
    && forall i :: 0 <= i < |path| ==>
         (pattern[i].Lit? ==> path[i] == pattern[i].text) && (pattern[i].Param? ==> path[i] != "")
  }

  /** `/movies/:id` needs a non-empty id segment, and `/movies` matches only itself. */
  lemma MatchesSegments(id: string, path: seq<string>)
    ensures Matches([Lit("movies"), Param], ["movies", id]) <==> id != ""
    ensures Matches([Lit("movies")], path) <==> path == ["movies"]
  {
    var pattern, path2 := [Lit("movies"), Param], ["movies", id];
    if id != "" {
      forall i | 0 <= i < |path2|
        ensures (pattern[i].Lit? ==> path2[i] == pattern[i].text) && (pattern[i].Param? ==> path2[i] != "")
      {
        if i == 0 {} else { assert pattern[1] == Param; }
      }
      assert Matches(pattern, path2);
    }
    if Matches(pattern, path2) {
      assert pattern[1].Param? && path2[1] == id;
    }
    if Matches([Lit("movies")], path) {
      assert [Lit("movies")][0].Lit?;
      assert path[0] == "movies";
      assert path == [path[0]];
    }
  }

  predicate Serves(route: Route, verb: Verb, path: seq<string>) {
    route.verb == verb && Matches(route.pattern, path)
  }

  /** Express picks the first route, in declaration order, that serves the request. */
  function FirstMatch(routes: seq<Route>, verb: Verb, path: seq<string>): (r: Option<nat>)
    ensures r.Some? ==> r.value < |routes| && Serves(routes[r.value], verb, path)
    ensures r.Some? ==> forall j :: 0 <= j < r.value ==> !Serves(routes[j], verb, path)
    ensures r.None? ==> forall j :: 0 <= j < |routes| ==> !Serves(routes[j], verb, path)
  {
    if |routes| == 0 then None
    else if Serves(routes[0], verb, path) then Some(0)
    else match FirstMatch(routes[1..], verb, path)
      case None => None
      case Some(i) => Some(i + 1)
  }

  /** The fields every handler destructures from the JSON body. */
  datatype Payload = Payload(email: Field, password: Field,
                             title: Field, genre: Field, platform: Movies.PlatformInput, synopsis: Field)

  datatype Request = Request(verb: Verb, path: seq<string>, authorization: Option<string>, body: Payload)

  /** The two tables. */
  datatype State = State(users: Users.UserTable, movies: Store)

  /** What the world supplies to one request: the foreign libraries, the clock,
      the ids the database assigns, the outcomes of the (at most two) store
      calls, and the poster lookup's reply. */
  datatype Env = Env(libs: Libraries, now: Timestamp, newMovieId: MovieId, newUserId: UserId,
                     first: Fault, second: Fault, poster: Response)

  datatype Outcome = Outcome(response: Response, state: State)

  /** The ids the database hands out are not in use. */
  predicate Fresh(state: State, env: Env) {
    env.newMovieId !in state.movies && Users.FreshId(state.users, env.newUserId)
  }

  function Credentials(body: Payload): Users.Credentials {
    Users.Credentials(body.email, body.password)
  }

  function MovieFields(body: Payload): Movies.MovieBody {
    Movies.MovieBody(body.title, body.genre, body.platform, body.synopsis)
  }

  /** `req.params.id`: the second path segment on every route that has one. */
  function PathId(path: seq<string>): MovieId {
    if |path| >= 2 then path[1] else ""
  }

  function WithMovies(h: Handled, state: State): Outcome {
    Outcome(h.response, state.(movies := h.store))
  }

  /** Runs one controller. `user` is `req.user`, present when the gate ran. */
  function RunHandler(h: Handler, user: Option<Claims>, req: Request, state: State, env: Env): (o: Outcome)
    requires Fresh(state, env)
    requires ReadsUser(h) ==> user.Some?
  {
    var id := PathId(req.path);
    match h
    case UserRegistration =>
      var r := Users.Register(Credentials(req.body), state.users, env.libs, env.newUserId, env.first, env.second);
      Outcome(r.response, state.(users := r.users))
    case UserLogin => Outcome(Users.Login(Credentials(req.body), state.users, env.libs, env.first), state)
    case GetMovies => Outcome(Movies.GetMovies(state.movies, env.first), state)
    case GetMoviePoster => Outcome(env.poster, state)
    case AddNewMovie =>
      WithMovies(Movies.AddNewMovie(user.value.id, MovieFields(req.body), state.movies,
                                    env.newMovieId, env.now, env.first), state)
    case UpdateMovie =>
      WithMovies(Movies.UpdateMovie(user.value.id, id, MovieFields(req.body), state.movies,
                                    env.first, env.second), state)
    case DeleteMovie =>
      WithMovies(Movies.DeleteMovie(user.value.id, id, state.movies, env.first, env.second), state)
    case GivesThumbsUp => WithMovies(Movies.Vote(Movies.Up, id, state.movies, env.first, env.second), state)
    case GivesThumbsDown => WithMovies(Movies.Vote(Movies.Down, id, state.movies, env.first, env.second), state)
  }

  /** Which table a controller may write: only registration writes users, and
      only the five movie controllers write movies. */
  lemma RunHandlerWrites(h: Handler, user: Option<Claims>, req: Request, state: State, env: Env)
    requires Fresh(state, env) && (ReadsUser(h) ==> user.Some?)
    ensures !h.UserRegistration? ==> RunHandler(h, user, req, state, env).state.users == state.users
    ensures h.UserRegistration? || h.UserLogin? || h.GetMovies? || h.GetMoviePoster? ==>
      RunHandler(h, user, req, state, env).state.movies == state.movies
  {
  }

  /** A controller reads only `req.user.id`: two identities with the same id
      claim give the same outcome. */
  lemma CallerIsIdClaim(h: Handler, a: Claims, b: Claims, req: Request, state: State, env: Env)
    requires Fresh(state, env) && a.id == b.id
    ensures RunHandler(h, Some(a), req, state, env) == RunHandler(h, Some(b), req, state, env)
  {
  }

  /** Every handler that reads `req.user` sits behind the gate. */
  lemma TableGatesUserReaders()
    ensures forall i :: 0 <= i < |Table| && ReadsUser(Table[i].handler) ==> Table[i].gated
  {
  }

  /** One request through the server. */
  function Dispatch(req: Request, state: State, env: Env): (o: Outcome)
    requires Fresh(state, env)
    ensures FirstMatch(Table, req.verb, req.path).None? ==> o == Outcome(Response(404, NoRoute), state)
    ensures Gated(req) && Authenticate(req.authorization, env.libs.verify).Deny? ==>
      o == Outcome(Authenticate(req.authorization, env.libs.verify).response, state)
  {
    match FirstMatch(Table, req.verb, req.path)
    case None => Outcome(Response(404, NoRoute), state)
    case Some(i) =>
      var route := Table[i];
      if route.gated then
        match Authenticate(req.authorization, env.libs.verify)
        case Deny(refusal) => Outcome(refusal, state)
        case Next(claims) => RunHandler(route.handler, Some(claims), req, state, env)
      else
        TableGatesUserReaders();
        RunHandler(route.handler, None, req, state, env)
  }

  /** The route a request resolves to, if any. */
  function RouteOf(req: Request): Option<Handler> {
    match FirstMatch(Table, req.verb, req.path)
    case None => None
    case Some(i) => Some(Table[i].handler)
  }

  /** The request resolves to a route declared with `authenticateUser`. */
  predicate Gated(req: Request) {
    match FirstMatch(Table, req.verb, req.path)
    case None => false
    case Some(i) => Table[i].gated
  }

  /** The first serving entry is the one `FirstMatch` picks. */
  lemma FirstMatchIs(routes: seq<Route>, verb: Verb, path: seq<string>, i: nat)
    requires i < |routes| && Serves(routes[i], verb, path)
    requires forall j :: 0 <= j < i ==> !Serves(routes[j], verb, path)
    ensures FirstMatch(routes, verb, path) == Some(i)
  {
  }

  /** `POST /register` resolves to its open route. */
  lemma ResolveRegister()
    ensures FirstMatch(Table, Post, ["register"]) == Some(0) && !Table[0].gated
  {
    FirstMatchIs(Table, Post, ["register"], 0);
  }

  /** `POST /login` resolves to its open route. */
  lemma ResolveLogin()
    ensures FirstMatch(Table, Post, ["login"]) == Some(1) && !Table[1].gated
  {
    assert !Serves(Table[0], Post, ["login"]) by {
      assert Table[0].pattern[0] == Lit("register");
      assert ["login"][0] != "register" by { assert |["login"][0]| == 5; }
    }
    FirstMatchIs(Table, Post, ["login"], 1);
  }

  /** `GET /movies` resolves to the open listing route. */
  lemma ResolveListing()
    ensures FirstMatch(Table, Get, ["movies"]) == Some(2) && !Table[2].gated
  {
    FirstMatchIs(Table, Get, ["movies"], 2);
  }

  /** `POST /movies` resolves to the gated create route, past the two open `POST` routes. */
  lemma ResolveCreate()
    ensures FirstMatch(Table, Post, ["movies"]) == Some(4) && Table[4].gated
  {
    assert !Serves(Table[0], Post, ["movies"]) by {
      assert Table[0].pattern[0] == Lit("register");
      assert ["movies"][0] != "register" by { assert |["movies"][0]| == 6; }
    }
    assert !Serves(Table[1], Post, ["movies"]) by {
      assert Table[1].pattern[0] == Lit("login");
      assert ["movies"][0] != "login" by { assert |["movies"][0]| == 6; }
    }
    FirstMatchIs(Table, Post, ["movies"], 4);
  }

  /** The routes on `/movies/:id`, all of which run the gate first. */
  lemma ResolveIdPaths(id: string)
    requires id != ""
    ensures FirstMatch(Table, Put, ["movies", id]) == Some(5) && Table[5].gated
    ensures FirstMatch(Table, Delete, ["movies", id]) == Some(6) && Table[6].gated
  {
    FirstMatchIs(Table, Put, ["movies", id], 5);
    FirstMatchIs(Table, Delete, ["movies", id], 6);
  }

  /** The vote routes, both of which run the gate first. */
  lemma ResolveVotePaths(id: string)
    requires id != ""
    ensures FirstMatch(Table, Post, ["movies", id, "thumbs-up"]) == Some(7) && Table[7].gated
    ensures FirstMatch(Table, Post, ["movies", id, "thumbs-down"]) == Some(8) && Table[8].gated
  {
    var up, down := ["movies", id, "thumbs-up"], ["movies", id, "thumbs-down"];
    FirstMatchIs(Table, Post, up, 7);
    assert !Serves(Table[7], Post, down) by {
      assert Table[7].pattern[2] == Lit("thumbs-up");
      assert down[2] != "thumbs-up" by { assert |down[2]| == 11; }
    }
    FirstMatchIs(Table, Post, down, 8);
  }

  /** Without a verified gate, a request leaves the movie table as it was. */
  lemma DispatchUnverified(req: Request, state: State, env: Env)
    requires Fresh(state, env)
    requires !(Gated(req) && Authenticate(req.authorization, env.libs.verify).Next?)
    ensures Dispatch(req, state, env).state.movies == state.movies
  {
  }

  /** A gated request whose token verifies runs its route's controller with the token's claims. */
  lemma DispatchVerified(req: Request, state: State, env: Env)
    requires Fresh(state, env)
    requires Gated(req) && Authenticate(req.authorization, env.libs.verify).Next?
    ensures RouteOf(req).Some?
    ensures Dispatch(req, state, env)
         == RunHandler(RouteOf(req).value, Some(Authenticate(req.authorization, env.libs.verify).user), req, state, env)
  {
  }

  /** A request on an open route runs its controller without an identity. */
  lemma DispatchOpen(req: Request, state: State, env: Env)
    requires Fresh(state, env)
    requires RouteOf(req).Some? && !Gated(req)
    ensures !ReadsUser(RouteOf(req).value)
    ensures Dispatch(req, state, env) == RunHandler(RouteOf(req).value, None, req, state, env)
  {
    TableGatesUserReaders();
  }

  /** The movie table after a request, route by route: as it was unless the
      route is gated and the token verifies, and then as the route's movie
      controller leaves it, called with the token's `id` claim as the caller. */
  function MoviesAfter(req: Request, state: State, env: Env): Store
    requires Fresh(state, env)
  {
    var gate := Authenticate(req.authorization, env.libs.verify);
    var id, body := PathId(req.path), MovieFields(req.body);
    if !(Gated(req) && gate.Next?) then state.movies
    else match RouteOf(req)
      case Some(AddNewMovie) =>
        Movies.AddNewMovie(gate.user.id, body, state.movies, env.newMovieId, env.now, env.first).store
      case Some(UpdateMovie) => Movies.UpdateMovie(gate.user.id, id, body, state.movies, env.first, env.second).store
      case Some(DeleteMovie) => Movies.DeleteMovie(gate.user.id, id, state.movies, env.first, env.second).store
      case Some(GivesThumbsUp) => Movies.Vote(Movies.Up, id, state.movies, env.first, env.second).store
      case Some(GivesThumbsDown) => Movies.Vote(Movies.Down, id, state.movies, env.first, env.second).store
      case _ => state.movies
  }

  /** Every request changes the movie table exactly as `MoviesAfter` says. */
  lemma DispatchMovies(req: Request, state: State, env: Env)
    requires Fresh(state, env)
    ensures Dispatch(req, state, env).state.movies == MoviesAfter(req, state, env)
  {
    if Gated(req) && Authenticate(req.authorization, env.libs.verify).Next? {
      DispatchVerified(req, state, env);
      match RouteOf(req).value
      case AddNewMovie =>
      case UpdateMovie =>
      case DeleteMovie =>
      case GivesThumbsUp =>
      case GivesThumbsDown =>
      case _ =>
    } else {
      DispatchUnverified(req, state, env);
    }
  }

  /** Only the owner changes a record: a request that deletes a record, or
      changes anything of it but its vote counters, resolved to the update or
      delete route for that id and carried a token that verified to the
      record's `added_by`. */
  lemma OnlyOwnerChangesRecord(req: Request, state: State, env: Env, k: MovieId)
    requires Fresh(state, env) && k in state.movies
    ensures !Movies.ContentKept(k, state.movies, Dispatch(req, state, env).state.movies) ==>
      && Gated(req) && RouteOf(req) in {Some(UpdateMovie), Some(DeleteMovie)}
      && PathId(req.path) == k
      && var gate := Authenticate(req.authorization, env.libs.verify);
      && gate.Next? && gate.user.id == state.movies[k].addedBy
  {
    DispatchMovies(req, state, env);
    var gate := Authenticate(req.authorization, env.libs.verify);
    if Gated(req) && gate.Next? {
      var id, body := PathId(req.path), MovieFields(req.body);
      match RouteOf(req).value
      case AddNewMovie =>
        Movies.OnlyOwnerEdits(gate.user.id, id, body, state.movies, env.newMovieId, env.now, Movies.Up, env.first, env.second, k);
      case UpdateMovie =>
        Movies.OnlyOwnerEdits(gate.user.id, id, body, state.movies, env.newMovieId, env.now, Movies.Up, env.first, env.second, k);
      case DeleteMovie =>
        Movies.OnlyOwnerEdits(gate.user.id, id, body, state.movies, env.newMovieId, env.now, Movies.Up, env.first, env.second, k);
      case GivesThumbsUp =>
        Movies.OnlyOwnerEdits(gate.user.id, id, body, state.movies, env.newMovieId, env.now, Movies.Up, env.first, env.second, k);
      case GivesThumbsDown =>
        Movies.OnlyOwnerEdits(gate.user.id, id, body, state.movies, env.newMovieId, env.now, Movies.Down, env.first, env.second, k);
      case _ =>
    }
  }

  /** A record that did not exist before a request was created by `addNewMovie`
      behind a verified token, under the fresh id, and its owner is that token's `id` claim. */
  lemma NewRecordOwnedByCaller(req: Request, state: State, env: Env, k: MovieId)
    requires Fresh(state, env) && k !in state.movies
    ensures k in Dispatch(req, state, env).state.movies ==>
      && Gated(req) && RouteOf(req) == Some(AddNewMovie) && k == env.newMovieId
      && var gate := Authenticate(req.authorization, env.libs.verify);
      && gate.Next? && Dispatch(req, state, env).state.movies[k].addedBy == gate.user.id
  {
    DispatchMovies(req, state, env);
    if Gated(req) && Authenticate(req.authorization, env.libs.verify).Next? {
      match RouteOf(req).value
      case AddNewMovie =>
      case UpdateMovie =>
      case DeleteMovie =>
      case GivesThumbsUp =>
      case GivesThumbsDown =>
      case _ =>
    }
  }

  /** No request changes a surviving record's id, owner or creation time. */
  lemma OwnerIsImmutable(req: Request, state: State, env: Env, k: MovieId)
    requires Fresh(state, env) && k in state.movies
    ensures var after := Dispatch(req, state, env).state.movies;
      k in after ==>
        && after[k].id == state.movies[k].id && after[k].addedBy == state.movies[k].addedBy
        && after[k].createdAt == state.movies[k].createdAt
  {
    DispatchMovies(req, state, env);
    var gate := Authenticate(req.authorization, env.libs.verify);
    if Gated(req) && gate.Next? {
      var id, body := PathId(req.path), MovieFields(req.body);
      match RouteOf(req).value
      case AddNewMovie =>
        Movies.IdentityKept(gate.user.id, id, body, state.movies, env.newMovieId, env.now, Movies.Up, env.first, env.second, k);
      case UpdateMovie =>
        Movies.IdentityKept(gate.user.id, id, body, state.movies, env.newMovieId, env.now, Movies.Up, env.first, env.second, k);
      case DeleteMovie =>
        Movies.IdentityKept(gate.user.id, id, body, state.movies, env.newMovieId, env.now, Movies.Up, env.first, env.second, k);
      case GivesThumbsUp =>
        Movies.IdentityKept(gate.user.id, id, body, state.movies, env.newMovieId, env.now, Movies.Up, env.first, env.second, k);
      case GivesThumbsDown =>
        Movies.IdentityKept(gate.user.id, id, body, state.movies, env.newMovieId, env.now, Movies.Down, env.first, env.second, k);
      case _ =>
    }
  }

  /** Every request keeps each movie record under its own id. */
  lemma DispatchKeepsWellKeyed(req: Request, state: State, env: Env)
    requires Fresh(state, env) && WellKeyed(state.movies)
    ensures WellKeyed(Dispatch(req, state, env).state.movies)
  {
    DispatchMovies(req, state, env);
    var gate := Authenticate(req.authorization, env.libs.verify);
    var caller := if gate.Next? then gate.user.id else "";
    var t := if RouteOf(req) == Some(GivesThumbsDown) then Movies.Down else Movies.Up;
    Movies.HandlersKeepWellKeyed(caller, PathId(req.path), MovieFields(req.body), state.movies,
                                 env.newMovieId, env.now, t, env.first, env.second);
    if Gated(req) && Authenticate(req.authorization, env.libs.verify).Next? {
      match RouteOf(req).value
      case AddNewMovie =>
      case UpdateMovie =>
      case DeleteMovie =>
      case GivesThumbsUp =>
      case GivesThumbsDown =>
      case _ =>
    }
  }

  /** The user table only grows, by one row, and only through `POST /register`. */
  lemma UsersChangeOnlyByRegistration(req: Request, state: State, env: Env)
    requires Fresh(state, env)
    ensures var after := Dispatch(req, state, env).state.users;
      after != state.users ==>
        && RouteOf(req) == Some(UserRegistration) && !Gated(req)
        && |after| == |state.users| + 1 && after[..|state.users|] == state.users
        && after[|state.users|].id == env.newUserId
  {
    if Gated(req) {
      if Authenticate(req.authorization, env.libs.verify).Next? {
        DispatchVerified(req, state, env);
        match RouteOf(req).value
        case AddNewMovie =>
        case UpdateMovie =>
        case DeleteMovie =>
        case GivesThumbsUp =>
        case GivesThumbsDown =>
        case _ =>
      }
    } else if RouteOf(req).Some? {
      DispatchOpen(req, state, env);
      match RouteOf(req).value
      case UserRegistration =>
      case UserLogin =>
      case GetMovies =>
      case GetMoviePoster =>
      case _ =>
    }
  }

  /** `POST /login` writes nothing, whatever the outcome. */
  lemma LoginNeverWrites(req: Request, state: State, env: Env)
    requires Fresh(state, env) && req.verb == Post && req.path == ["login"]
    ensures Dispatch(req, state, env).state == state
  {
    ResolveLogin();
  }

  /** Registration, login and listing do not consult the Authorization header. */
  lemma OpenRoutesIgnoreHeader(req: Request, header: Option<string>, state: State, env: Env)
    requires Fresh(state, env)
    requires (req.verb == Post && req.path in {["register"], ["login"]}) || (req.verb == Get && req.path == ["movies"])
    ensures !Gated(req)
    ensures Dispatch(req, state, env) == Dispatch(req.(authorization := header), state, env)
  {
    if req.path == ["register"] {
      ResolveRegister();
    } else if req.path == ["login"] {
      ResolveLogin();
    } else {
      ResolveListing();
    }
  }

  /** A gated route whose gate refuses leaves both tables as they were and
      answers with the gate's response. */
  lemma RefusedGateReachesNoStore(req: Request, state: State, env: Env, id: string)
    requires Fresh(state, env) && id != ""
    requires (req.verb == Post && req.path in {["movies"], ["movies", id, "thumbs-up"], ["movies", id, "thumbs-down"]})
          || (req.verb in {Put, Delete} && req.path == ["movies", id])
    requires Authenticate(req.authorization, env.libs.verify).Deny?
    ensures Gated(req)
    ensures Dispatch(req, state, env) == Outcome(Authenticate(req.authorization, env.libs.verify).response, state)
  {
    if req.path == ["movies"] {
      ResolveCreate();
    } else if |req.path| == 2 {
      ResolveIdPaths(id);
    } else {
      ResolveVotePaths(id);
    }
  }

  /** The vote routes run the gate, but any identity that passes it gives the
      same outcome: the handlers never read `req.user`. */
  lemma VotesIgnoreIdentity(req: Request, other: Option<string>, state: State, env: Env)
    requires Fresh(state, env)
    requires RouteOf(req) in {Some(GivesThumbsUp), Some(GivesThumbsDown)}
    requires Authenticate(req.authorization, env.libs.verify).Next?
    requires Authenticate(other, env.libs.verify).Next?
    ensures Gated(req)
    ensures Dispatch(req, state, env) == Dispatch(req.(authorization := other), state, env)
  {
    VoteRoutesGated(req);
    var moved := req.(authorization := other);
    assert RouteOf(moved) == RouteOf(req) && Gated(moved) == Gated(req);
    DispatchVerified(req, state, env);
    DispatchVerified(moved, state, env);
    var h := RouteOf(req).value;
    var a, b := Authenticate(req.authorization, env.libs.verify).user, Authenticate(other, env.libs.verify).user;
    VoteIgnoresUser(h, Some(a), Some(b), req, state, env);
    RunHandlerIgnoresHeader(h, Some(b), req, other, state, env);
  }

  /** Both vote routes are declared with `authenticateUser`. */
  lemma VoteRoutesGated(req: Request)
    requires RouteOf(req) in {Some(GivesThumbsUp), Some(GivesThumbsDown)}
    ensures Gated(req)
  {
    var i := FirstMatch(Table, req.verb, req.path).value;
    assert Table[i].handler in {GivesThumbsUp, GivesThumbsDown};
    assert i == 7 || i == 8;
  }

  /** The vote controllers take no identity: any two give the same outcome. */
  lemma VoteIgnoresUser(h: Handler, a: Option<Claims>, b: Option<Claims>, req: Request, state: State, env: Env)
    requires Fresh(state, env) && h in {GivesThumbsUp, GivesThumbsDown}
    ensures RunHandler(h, a, req, state, env) == RunHandler(h, b, req, state, env)
  {
  }

  /** No controller reads the `Authorization` header; only the gate does. */
  lemma RunHandlerIgnoresHeader(h: Handler, user: Option<Claims>, req: Request, header: Option<string>,
                                state: State, env: Env)
    requires Fresh(state, env) && (ReadsUser(h) ==> user.Some?)
    ensures RunHandler(h, user, req, state, env) == RunHandler(h, user, req.(authorization := header), state, env)
  {
  }

  /** The vote route's last segment. */
  function VoteSegment(t: Movies.Thumb): string {
    match t
    case Up => "thumbs-up"
    case Down => "thumbs-down"
  }

  /** A vote request on movie `id` carrying `header`. */
  function VoteRequest(t: Movies.Thumb, id: MovieId, header: Option<string>): Request {
    Request(Post, ["movies", id, VoteSegment(t)], header,
            Payload(Undefined, Undefined, Undefined, Undefined, Movies.One(Undefined), Undefined))
  }

  /** One successful vote request through the server, with a token that verifies. */
  lemma VoteDispatch(t: Movies.Thumb, id: MovieId, header: Option<string>, state: State, env: Env)
    requires Fresh(state, env) && id != "" && env.first.None? && env.second.None?
    requires Authenticate(header, env.libs.verify).Next?
    ensures Dispatch(VoteRequest(t, id, header), state, env)
         == WithMovies(Movies.Vote(t, id, state.movies, None, None), state)
  {
    ResolveVotePaths(id);
    match t
    case Up => assert VoteRequest(t, id, header).path == ["movies", id, "thumbs-up"];
    case Down => assert VoteRequest(t, id, header).path == ["movies", id, "thumbs-down"];
  }

  /** The state after one vote request per header, in order, with every store call succeeding. */
  function VoteAll(t: Movies.Thumb, id: MovieId, headers: seq<Option<string>>, state: State, env: Env): State
    requires Fresh(state, env)
    decreases |headers|
  {
    if |headers| == 0 then state
    else
      var next := Dispatch(VoteRequest(t, id, headers[0]), state, env.(first := None, second := None)).state;
      if Fresh(next, env) then VoteAll(t, id, headers[1..], next, env) else next
  }

  /** The first request of a run is one successful vote, after which the
      fresh ids are still fresh. */
  lemma VoteAllStep(t: Movies.Thumb, id: MovieId, headers: seq<Option<string>>, state: State, env: Env)
    requires Fresh(state, env) && id in state.movies && id != "" && |headers| > 0
    requires Authenticate(headers[0], env.libs.verify).Next?
    ensures var next := state.(movies := Movies.Vote(t, id, state.movies, None, None).store);
      && Fresh(next, env) && next.movies.Keys == state.movies.Keys
      && VoteAll(t, id, headers, state, env) == VoteAll(t, id, headers[1..], next, env)
  {
    VoteDispatch(t, id, headers[0], state, env.(first := None, second := None));
  }

  /** N vote requests of one kind in sequence, from any callers whose tokens
      verify, add exactly N to that movie's counter and change nothing else. */
  lemma {:induction false} VotesFromAnyoneAddUp(t: Movies.Thumb, id: MovieId, headers: seq<Option<string>>,
                                                state: State, env: Env)
    requires Fresh(state, env) && id in state.movies && id != ""
    requires forall i :: 0 <= i < |headers| ==> Authenticate(headers[i], env.libs.verify).Next?
    ensures VoteAll(t, id, headers, state, env).users == state.users
    ensures Movies.VotedOnly(t, id, state.movies, VoteAll(t, id, headers, state, env).movies, |headers|)
  {
    if |headers| > 0 {
      var next := state.(movies := Movies.Vote(t, id, state.movies, None, None).store);
      VoteAllStep(t, id, headers, state, env);
      var rest := headers[1..];
      assert forall i :: 0 <= i < |rest| ==> Authenticate(rest[i], env.libs.verify).Next? by {
        forall i | 0 <= i < |rest| ensures Authenticate(rest[i], env.libs.verify).Next? {
          assert rest[i] == headers[i + 1];
        }
      }
      assert VoteAll(t, id, headers, state, env) == VoteAll(t, id, rest, next, env);
      VotesFromAnyoneAddUp(t, id, rest, next, env);
      Movies.VotedOnlyThen(t, id, state.movies, VoteAll(t, id, rest, next, env).movies, |rest|);
    }
  }
}
