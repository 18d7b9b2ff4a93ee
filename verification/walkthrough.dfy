/** An end-to-end walk through the API: register, add a movie with the
    registration token, then try to edit it as someone else and as the owner. */
module Walkthrough {
  import opened Model
  import opened Foreign
  import opened Auth
  import opened Routes
  import Movies
  import Users

  /** A JSON body carrying only credentials. */
  function CredentialsBody(email: string, password: string): Payload {
    Payload(Text(email), Text(password), Undefined, Undefined, Movies.One(Undefined), Undefined)
  }

  /** A JSON body carrying only a title. */
  function TitleBody(title: string): Payload {
    Payload(Undefined, Undefined, Text(title), Undefined, Movies.One(Undefined), Undefined)
  }

  function Bearer(token: string): Option<string> {
    Some(BearerPrefix + token)
  }

  /** `POST /register` for a new email answers 201 with a 2-hour token for the new id. */
  lemma RegisterStep(libs: Libraries, s: State, email: string, password: string, env: Env)
    requires Fresh(s, env) && env.libs == libs && libs.isEmail(email)
    requires env.first.None? && env.second.None?
    requires forall u :: u in s.users ==> u.email != email
    ensures Dispatch(Request(Post, ["register"], None, CredentialsBody(email, password)), s, env)
         == Outcome(Response(201, Token(libs.sign(Claims(env.newUserId, RegisterLifetime)))),
                    s.(users := s.users + [User(env.newUserId, email, libs.hash(password, SaltRounds))]))
  {
    ResolveRegister();
    Users.NoneWithEmail(s.users, email);
  }

  /** `POST /movies` with a token this server signed inserts a record owned by the token's id. */
  lemma CreateStep(libs: Libraries, s: State, c: Claims, title: string, env: Env)
    requires Fresh(s, env) && env.libs == libs && SignSound(libs) && env.first.None?
    ensures var m := Movies.NewRecord(c.id, MovieFields(TitleBody(title)), env.newMovieId, env.now);
      && Dispatch(Request(Post, ["movies"], Bearer(libs.sign(c)), TitleBody(title)), s, env)
         == Outcome(Response(201, Inserted([m])), s.(movies := s.movies[env.newMovieId := m]))
      && m.addedBy == c.id && m.title == Some(title)
  {
    ResolveCreate();
    SignedTokenPasses(libs, c);
  }

  /** `PUT /movies/:id` with the token of anyone but the owner is refused and changes nothing. */
  lemma IntruderStep(libs: Libraries, s: State, c: Claims, id: MovieId, title: string, env: Env)
    requires Fresh(s, env) && env.libs == libs && SignSound(libs) && env.first.None?
    requires id != "" && id in s.movies && s.movies[id].addedBy != c.id
    ensures Dispatch(Request(Put, ["movies", id], Bearer(libs.sign(c)), TitleBody(title)), s, env)
         == Outcome(Response(500, Error(Movies.NotAuthorizedToUpdate)), s)
  {
    ResolveIdPaths(id);
    SignedTokenPasses(libs, c);
  }

  /** `PUT /movies/:id` with the owner's token sets the title and keeps the owner. */
  lemma OwnerStep(libs: Libraries, s: State, c: Claims, id: MovieId, title: string, env: Env)
    requires Fresh(s, env) && env.libs == libs && SignSound(libs) && env.first.None? && env.second.None?
    requires id != "" && id in s.movies && s.movies[id].addedBy == c.id
    ensures var o := Dispatch(Request(Put, ["movies", id], Bearer(libs.sign(c)), TitleBody(title)), s, env);
      && o.response == Response(200, Echo)
      && id in o.state.movies && o.state.movies[id].title == Some(title)
      && o.state.movies[id].addedBy == c.id
  {
    ResolveIdPaths(id);
    SignedTokenPasses(libs, c);
  }

  /** Registering, then creating a movie with the returned token, makes the new
      user its owner; an update with another user's token is refused with 500
      and changes nothing; the owner's update succeeds with the new title. */
  lemma OwnershipEndToEnd(libs: Libraries, s0: State, email: string, password: string,
                          uid: UserId, otherUid: UserId, spareUid: UserId,
                          mid: MovieId, spareMid: MovieId, now: Timestamp, poster: Response)
    requires SignSound(libs) && libs.isEmail(email)
    requires forall u :: u in s0.users ==> u.email != email
    requires Users.FreshId(s0.users, uid) && Users.FreshId(s0.users, spareUid) && spareUid != uid
    requires mid !in s0.movies && spareMid !in s0.movies && spareMid != mid && mid != ""
    requires otherUid != uid
    ensures
      var tokenA := libs.sign(Claims(uid, RegisterLifetime));
      var s1 := s0.(users := s0.users + [User(uid, email, libs.hash(password, SaltRounds))]);
      var m := Movies.NewRecord(uid, MovieFields(TitleBody("X")), mid, now);
      var s2 := s1.(movies := s0.movies[mid := m]);
      var later := Env(libs, now, spareMid, spareUid, None, None, poster);
      && Fresh(s1, Env(libs, now, mid, spareUid, None, None, poster)) && Fresh(s2, later)
      && Dispatch(Request(Post, ["register"], None, CredentialsBody(email, password)),
                  s0, Env(libs, now, mid, uid, None, None, poster))
         == Outcome(Response(201, Token(tokenA)), s1)
      && Dispatch(Request(Post, ["movies"], Bearer(tokenA), TitleBody("X")),
                  s1, Env(libs, now, mid, spareUid, None, None, poster))
         == Outcome(Response(201, Inserted([m])), s2)
      && m.addedBy == uid && m.title == Some("X")
      && Dispatch(Request(Put, ["movies", mid], Bearer(libs.sign(Claims(otherUid, LoginLifetime))), TitleBody("Y")),
                  s2, later)
         == Outcome(Response(500, Error(Movies.NotAuthorizedToUpdate)), s2)
      && var owner := Dispatch(Request(Put, ["movies", mid], Bearer(tokenA), TitleBody("Y")), s2, later);
      && owner.response == Response(200, Echo)
      && mid in owner.state.movies
      && owner.state.movies[mid].title == Some("Y")
      && owner.state.movies[mid].addedBy == uid
  {
    var claimsA := Claims(uid, RegisterLifetime);
    var s1 := s0.(users := s0.users + [User(uid, email, libs.hash(password, SaltRounds))]);
    var m := Movies.NewRecord(uid, MovieFields(TitleBody("X")), mid, now);
    var s2 := s1.(movies := s0.movies[mid := m]);
    var later := Env(libs, now, spareMid, spareUid, None, None, poster);
    assert Dispatch(Request(Post, ["register"], None, CredentialsBody(email, password)),
                    s0, Env(libs, now, mid, uid, None, None, poster))
           == Outcome(Response(201, Token(libs.sign(claimsA))), s1) by {
      RegisterStep(libs, s0, email, password, Env(libs, now, mid, uid, None, None, poster));
    }
    assert Dispatch(Request(Post, ["movies"], Bearer(libs.sign(claimsA)), TitleBody("X")),
                    s1, Env(libs, now, mid, spareUid, None, None, poster))
           == Outcome(Response(201, Inserted([m])), s2) by {
      CreateStep(libs, s1, claimsA, "X", Env(libs, now, mid, spareUid, None, None, poster));
    }
    assert Dispatch(Request(Put, ["movies", mid], Bearer(libs.sign(Claims(otherUid, LoginLifetime))), TitleBody("Y")),
                    s2, later)
           == Outcome(Response(500, Error(Movies.NotAuthorizedToUpdate)), s2) by {
      IntruderStep(libs, s2, Claims(otherUid, LoginLifetime), mid, "Y", later);
    }
    OwnerStep(libs, s2, claimsA, mid, "Y", later);
  }
}
