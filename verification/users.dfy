/** The user controller: login and registration over the `users` table. */
module Users {
  import opened Model
  import opened Foreign

  /** The `{ email, password }` the handlers destructure from the body. */
  datatype Credentials = Credentials(email: Field, password: Field)

  /** The `users` table as its rows; lookups are by the non-key column `email`. */
  type UserTable = seq<User>

  const InvalidEmailFormat := "Invalid email format."
  const InvalidCredentials := "Invalid credentials"
  const UserAlreadyExists := "User already exists!"

  /** The rows whose email is `email`, in table order. */
  function WithEmail(users: UserTable, email: string): (rows: seq<User>)
    ensures forall u :: u in rows <==> u in users && u.email == email
    ensures |rows| <= |users|
  {
    if |users| == 0 then []
    else (if users[0].email == email then [users[0]] else []) + WithEmail(users[1..], email)
  }

  /** `.eq('email', email).single()`: the row when exactly one matches; with
      none or several, `.single()` reports an error and yields no row. */
  function SingleWithEmail(users: UserTable, email: string, fault: Fault): (r: Option<User>)
    ensures r.Some? <==> fault.None? && |WithEmail(users, email)| == 1
    ensures r.Some? ==> r.value in users && r.value.email == email
  {
    var rows := WithEmail(users, email);
    if fault.None? && |rows| == 1 then Some(rows[0]) else None
  }

  /** Where login and registration both start: a non-string email makes
      `validator.isEmail` throw (500), an ill-formed one is refused with 400. */
  function EmailCheck(email: Field, libs: Libraries): (r: Option<Response>)
    ensures r.None? <==> email.Text? && libs.isEmail(email.s)
    ensures email.Text? && !libs.isEmail(email.s) ==> r == Some(Response(400, Error(InvalidEmailFormat)))
    ensures !email.Text? ==> r == Some(Response(500, Thrown(NotAString)))
  {
    match email
    case Text(e) => if libs.isEmail(e) then None else Some(Response(400, Error(InvalidEmailFormat)))
    case _ => Some(Response(500, Thrown(NotAString)))
  }

  /** `userLogin`. `fault` is the lookup's outcome. Login reads the table and
      never writes it, so it returns only the response. */
  function Login(creds: Credentials, users: UserTable, libs: Libraries, fault: Fault): (r: Response)
    ensures EmailCheck(creds.email, libs).Some? ==> r == EmailCheck(creds.email, libs).value
    ensures r.status == 200 <==>
      && EmailCheck(creds.email, libs).None? && creds.password.Text?
      && var u := SingleWithEmail(users, creds.email.s, fault);
      && u.Some? && libs.compare(creds.password.s, u.value.password)
    ensures r.status == 200 ==>
      var u := SingleWithEmail(users, creds.email.s, fault).value;
      r.body == Token(libs.sign(Claims(u.id, LoginLifetime)))
    ensures EmailCheck(creds.email, libs).None? && SingleWithEmail(users, creds.email.s, fault).None? ==>
      r == Response(401, Error(InvalidCredentials))
    ensures r.status in {200, 400, 401, 500}
  {
    match EmailCheck(creds.email, libs)
    case Some(refusal) => refusal
    case None =>
      match SingleWithEmail(users, creds.email.s, fault)
      case None => Response(401, Error(InvalidCredentials))
      case Some(user) =>
        match creds.password
        case Text(p) =>
          if !libs.compare(p, user.password) then Response(401, Error(InvalidCredentials))
          else Response(200, Token(libs.sign(Claims(user.id, LoginLifetime))))
        case _ => Response(500, Thrown(IllegalArguments))
  }

  /** A registration's reply and the table after it. */
  datatype Registered = Registered(response: Response, users: UserTable)

  /** No row of the table carries `id`. */
  predicate FreshId(users: UserTable, id: UserId) {
    forall i :: 0 <= i < |users| ==> users[i].id != id
  }

  /** `userRegistration`. The store assigns the fresh id `newId`; `lookupFault`
      and `insertFault` are the two store calls' outcomes. */
  function Register(creds: Credentials, users: UserTable, libs: Libraries, newId: UserId,
                    lookupFault: Fault, insertFault: Fault): (r: Registered)
    requires FreshId(users, newId)
    ensures r.response.status != 201 ==> r.users == users
    ensures EmailCheck(creds.email, libs).Some? ==> r.response == EmailCheck(creds.email, libs).value
    ensures EmailCheck(creds.email, libs).None? && SingleWithEmail(users, creds.email.s, lookupFault).Some? ==>
      r == Registered(Response(400, Error(UserAlreadyExists)), users)
    ensures r.response.status == 201 <==>
      && EmailCheck(creds.email, libs).None?
      && SingleWithEmail(users, creds.email.s, lookupFault).None?
      && creds.password.Text? && insertFault.None?
    ensures r.response.status == 201 ==>
      && r.users == users + [User(newId, creds.email.s, libs.hash(creds.password.s, SaltRounds))]
      && r.response.body == Token(libs.sign(Claims(newId, RegisterLifetime)))
    ensures r.response.status in {201, 400, 500}
  {
    match EmailCheck(creds.email, libs)
    case Some(refusal) => Registered(refusal, users)
    case None =>
      var email := creds.email.s;
      if SingleWithEmail(users, email, lookupFault).Some? then
        Registered(Response(400, Error(UserAlreadyExists)), users)
      else match creds.password
        case Text(p) =>
          (match insertFault
           case Some(msg) => Registered(Response(500, Thrown(StoreError(msg))), users)
           case None =>
             var row := User(newId, email, libs.hash(p, SaltRounds));
             Registered(Response(201, Token(libs.sign(Claims(newId, RegisterLifetime)))), users + [row]))
        case _ => Registered(Response(500, Thrown(IllegalArguments)), users)
  }

  /** No enumeration through passwords: for a string password, an unknown email and a
      known email with the wrong password give the same response. */
  lemma UnknownEmailLikeWrongPassword(email: string, password: string, known: UserTable,
                                      unknown: UserTable, libs: Libraries)
    requires libs.isEmail(email)
    requires SingleWithEmail(unknown, email, None).None?
    requires SingleWithEmail(known, email, None).Some?
    requires !libs.compare(password, SingleWithEmail(known, email, None).value.password)
    ensures Login(Credentials(Text(email), Text(password)), unknown, libs, None)
         == Login(Credentials(Text(email), Text(password)), known, libs, None)
    ensures Login(Credentials(Text(email), Text(password)), known, libs, None)
         == Response(401, Error(InvalidCredentials))
  {
  }

  /** A body without a string password does tell the two apart: bcrypt throws
      only once a row was found, so a registered email answers 500 and an
      unknown one 401. */
  lemma MissingPasswordRevealsRegisteredEmail(email: string, password: Field, known: UserTable,
                                              unknown: UserTable, libs: Libraries)
    requires libs.isEmail(email) && !password.Text?
    requires SingleWithEmail(unknown, email, None).None?
    requires SingleWithEmail(known, email, None).Some?
    ensures Login(Credentials(Text(email), password), known, libs, None).status == 500
    ensures Login(Credentials(Text(email), password), unknown, libs, None).status == 401
  {
  }

  /** Registering an email that is already taken changes nothing, when the lookup succeeds. */
  lemma DuplicateRegistrationRejected(creds: Credentials, users: UserTable, libs: Libraries,
                                      newId: UserId, insertFault: Fault)
    requires FreshId(users, newId) && creds.email.Text? && libs.isEmail(creds.email.s)
    requires exists u :: u in users && u.email == creds.email.s
    requires forall i, j :: 0 <= i < j < |users| ==> users[i].email != users[j].email
    ensures Register(creds, users, libs, newId, None, insertFault)
         == Registered(Response(400, Error(UserAlreadyExists)), users)
  {
    var e := creds.email.s;
    var u :| u in users && u.email == e;
    UniqueEmailSingle(users, e, u);
  }

  /** With emails unique in the table, a row with the email is found by `.single()`. */
  lemma {:induction false} UniqueEmailSingle(users: UserTable, email: string, u: User)
    requires u in users && u.email == email
    requires forall i, j :: 0 <= i < j < |users| ==> users[i].email != users[j].email
    ensures WithEmail(users, email) == [u]
  {
    if users[0] == u {
      NoneWithEmail(users[1..], email);
    } else {
      assert u in users[1..];
      UniqueEmailSingle(users[1..], email, u);
      assert users[0].email != email by {
        var k :| 0 <= k < |users| && users[k] == u;
        assert k > 0;
      }
    }
  }

  /** A table with no row holding `email` has no match for it. */
  lemma NoneWithEmail(rest: UserTable, email: string)
    requires forall u :: u in rest ==> u.email != email
    ensures WithEmail(rest, email) == []
  {
  }

  /** A failed lookup does not block registration: even with the email taken,
      an erroring `.single()` lets the insert run and a second row appears. */
  lemma LookupErrorAdmitsDuplicate(creds: Credentials, users: UserTable, libs: Libraries,
                                   newId: UserId, message: string)
    requires FreshId(users, newId) && creds.email.Text? && libs.isEmail(creds.email.s)
    requires creds.password.Text?
    ensures var r := Register(creds, users, libs, newId, Some(message), None);
      && r.response.status == 201
      && |WithEmail(r.users, creds.email.s)| == |WithEmail(users, creds.email.s)| + 1
  {
    var r := Register(creds, users, libs, newId, Some(message), None);
    var row := User(newId, creds.email.s, libs.hash(creds.password.s, SaltRounds));
    WithEmailAppend(users, row, creds.email.s);
  }

  /** Once two rows share an email, `.single()` never finds it again: login
      with that email is always refused, and registering it once more succeeds. */
  lemma DuplicatedEmailLocksOut(email: string, password: string, users: UserTable, libs: Libraries,
                                newId: UserId)
    requires FreshId(users, newId) && libs.isEmail(email)
    requires |WithEmail(users, email)| >= 2
    ensures Login(Credentials(Text(email), Text(password)), users, libs, None)
         == Response(401, Error(InvalidCredentials))
    ensures Register(Credentials(Text(email), Text(password)), users, libs, newId, None, None).response.status == 201
  {
  }

  /** Appending a row with the email adds one match at the end. */
  lemma {:induction false} WithEmailAppend(users: UserTable, row: User, email: string)
    ensures WithEmail(users + [row], email)
         == WithEmail(users, email) + (if row.email == email then [row] else [])
  {
    var last := if row.email == email then [row] else [];
    if |users| == 0 {
      assert users + [row] == [row];
      assert WithEmail([row], email) == last + WithEmail([], email);
    } else {
      var rest := users[1..];
      var first := if users[0].email == email then [users[0]] else [];
      assert (users + [row])[0] == users[0];
      assert (users + [row])[1..] == rest + [row];
      WithEmailAppend(rest, row, email);
      calc {
        WithEmail(users + [row], email);
        first + WithEmail(rest + [row], email);
        first + (WithEmail(rest, email) + last);
        (first + WithEmail(rest, email)) + last;
      }
    }
  }

  /** Registering a new email and then logging in with the same password
      succeeds and yields a login token for the new user's id. */
  lemma RegisterThenLogin(email: string, password: string, users: UserTable, libs: Libraries,
                          newId: UserId)
    requires FreshId(users, newId) && libs.isEmail(email) && HashSound(libs)
    requires forall u :: u in users ==> u.email != email
    ensures var creds := Credentials(Text(email), Text(password));
      var reg := Register(creds, users, libs, newId, None, None);
      && reg.response.status == 201
      && Login(creds, reg.users, libs, None) == Response(200, Token(libs.sign(Claims(newId, LoginLifetime))))
  {
    var creds := Credentials(Text(email), Text(password));
    NoneWithEmail(users, email);
    var row := User(newId, email, libs.hash(password, SaltRounds));
    WithEmailAppend(users, row, email);
    assert WithEmail(users + [row], email) == [row];
    assert libs.compare(password, libs.hash(password, SaltRounds));
  }
}
