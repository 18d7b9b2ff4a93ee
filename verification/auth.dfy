/** The `authenticateUser` middleware: a bearer-header format check, token
    extraction by `split(" ")[1]`, and verification, each stage with its own
    response. */
module Auth {
  import opened Model
  import opened Foreign

  /** JavaScript's `s.split(c)` for a one-character separator: the pieces
      between consecutive occurrences of `c`, empty pieces included. */
  function SplitOn(s: string, c: char): (parts: seq<string>)
    ensures |parts| >= 1
    ensures forall i :: 0 <= i < |parts| ==> c !in parts[i]
    ensures Join(parts, c) == s
  {
    if |s| == 0 then [""]
    else if s[0] == c then [""] + SplitOn(s[1..], c)
    else
      var rest := SplitOn(s[1..], c);
      [[s[0]] + rest[0]] + rest[1..]
  }

  /** The pieces joined back with the separator: the inverse of `SplitOn`. */
  function Join(parts: seq<string>, c: char): string
    decreases |parts|
  {
    if |parts| == 0 then ""
    else if |parts| == 1 then parts[0]
    else parts[0] + [c] + Join(parts[1..], c)
  }

  /** The longest prefix of `s` that does not contain `c`. */
  function TakeUntil(s: string, c: char): (p: string)
    ensures |p| <= |s| && p == s[..|p|]
    ensures c !in p
    ensures |p| < |s| ==> s[|p|] == c
  {
    if |s| == 0 || s[0] == c then "" else [s[0]] + TakeUntil(s[1..], c)
  }

  /** The first piece of a split is the text before the first separator. */
  lemma {:induction false} SplitFirstPiece(s: string, c: char)
    ensures SplitOn(s, c)[0] == TakeUntil(s, c)
  {
    if |s| > 0 && s[0] != c {
      SplitFirstPiece(s[1..], c);
    }
  }

  /** A prefix free of the separator, then the separator, splits off as one piece. */
  lemma {:induction false} SplitAfterWord(w: string, c: char, rest: string)
    requires c !in w
    ensures SplitOn(w + [c] + rest, c) == [w] + SplitOn(rest, c)
  {
    if |w| == 0 {
      assert w + [c] + rest == [c] + rest;
      assert ([c] + rest)[1..] == rest;
    } else {
      assert (w + [c] + rest)[1..] == w[1..] + [c] + rest;
      SplitAfterWord(w[1..], c, rest);
      assert [w[0]] + w[1..] == w;
    }
  }

  /** A string without the separator is taken whole. */
  lemma {:induction false} TakeUntilWhole(s: string, c: char)
    requires c !in s
    ensures TakeUntil(s, c) == s
  {
    if |s| > 0 {
      assert c !in s[1..];
      TakeUntilWhole(s[1..], c);
    }
  }

  const BearerPrefix := "Bearer "
  const InvalidTokenFormat := "Access denied, invalid token format."
  const NoTokenProvided := "Access denied, no token provided."
  const InvalidToken := "Invalid token."

  /** Case-sensitive `startsWith`. */
  predicate StartsWith(s: string, prefix: string) {
    |prefix| <= |s| && s[..|prefix|] == prefix
  }

  /** For a header with the bearer prefix, the split has a second piece, and it
      is the text after the prefix up to the next space. */
  lemma SplitAfterPrefix(header: string)
    requires StartsWith(header, BearerPrefix)
    ensures |SplitOn(header, ' ')| > 1
    ensures SplitOn(header, ' ')[1] == TakeUntil(header[|BearerPrefix|..], ' ')
  {
    var rest := header[|BearerPrefix|..];
    assert header == "Bearer" + [' '] + rest;
    SplitAfterWord("Bearer", ' ', rest);
    SplitFirstPiece(rest, ' ');
  }

  /** The token the middleware extracts: element 1 of the header split on single
      spaces, read as "" when the split has only one piece (`undefined` is falsy). */
  function ExtractToken(header: string): (t: string)
    ensures ' ' !in t
    ensures StartsWith(header, BearerPrefix) ==> t == TakeUntil(header[|BearerPrefix|..], ' ')
  {
    var parts := SplitOn(header, ' ');
    if StartsWith(header, BearerPrefix) then
      SplitAfterPrefix(header);
      parts[1]
    else if |parts| > 1 then parts[1] else ""
  }

  /** How the middleware ends: `next()` with the decoded claims on `req.user`,
      or one error response. */
  datatype Gate = Next(user: Claims) | Deny(response: Response)

  /** `authenticateUser(req, res, next)`: `header` is `req.headers.authorization`. */
  function Authenticate(header: Option<string>, verify: string -> Option<Claims>): (r: Gate)
    ensures r == Deny(Response(403, Error(InvalidTokenFormat))) <==>
      header.None? || !StartsWith(header.value, BearerPrefix)
    ensures header.Some? && StartsWith(header.value, BearerPrefix) ==>
      var token := TakeUntil(header.value[|BearerPrefix|..], ' ');
      && (r == Deny(Response(403, Error(NoTokenProvided))) <==> token == "")
      && (r == Deny(Response(400, Error(InvalidToken))) <==> token != "" && verify(token).None?)
      && (r.Next? <==> token != "" && verify(token).Some?)
      && (r.Next? ==> r.user == verify(token).value)
    ensures r.Deny? ==> r.response.status in {400, 403}
  {
    if header.None? || !StartsWith(header.value, BearerPrefix) then
      Deny(Response(403, Error(InvalidTokenFormat)))
    else
      var token := ExtractToken(header.value);
      if token == "" then Deny(Response(403, Error(NoTokenProvided)))
      else match verify(token)
        case None => Deny(Response(400, Error(InvalidToken)))
        case Some(claims) => Next(claims)
  }

  /** Only the exact prefix passes the format stage; another case is refused. */
  lemma LowercaseSchemeRefused(verify: string -> Option<Claims>)
    ensures Authenticate(Some("bearer abc"), verify) == Deny(Response(403, Error(InvalidTokenFormat)))
  {
    assert "bearer abc"[..7] != BearerPrefix by { assert "bearer abc"[0] != BearerPrefix[0]; }
  }

  /** Text after a second space is ignored: "Bearer a b" presents the token "a". */
  lemma SecondWordIgnored(verify: string -> Option<Claims>)
    ensures Authenticate(Some("Bearer a b"), verify) == Authenticate(Some("Bearer a"), verify)
  {
    var h1, h2 := "Bearer a b", "Bearer a";
    assert StartsWith(h1, BearerPrefix) && StartsWith(h2, BearerPrefix);
    assert h1[7..] == "a b" && h2[7..] == "a";
    assert TakeUntil("a b", ' ') == "a";
    assert TakeUntil("a", ' ') == "a";
  }

  /** A doubled space after the scheme leaves element 1 empty. */
  lemma DoubleSpaceHasNoToken(verify: string -> Option<Claims>)
    ensures Authenticate(Some("Bearer  x"), verify) == Deny(Response(403, Error(NoTokenProvided)))
  {
    var h := "Bearer  x";
    assert StartsWith(h, BearerPrefix);
    assert h[7..] == " x";
  }

  /** A header carrying a token this server signed passes the gate with that
      token's claims. */
  lemma SignedTokenPasses(libs: Libraries, c: Claims)
    requires SignSound(libs)
    ensures Authenticate(Some(BearerPrefix + libs.sign(c)), libs.verify) == Next(c)
  {
    var h := BearerPrefix + libs.sign(c);
    assert StartsWith(h, BearerPrefix);
    assert h[|BearerPrefix|..] == libs.sign(c);
    TakeUntilWhole(libs.sign(c), ' ');
  }
}
