/** The two request-header checks that run before any upload is parsed:
    the bearer-token match of `requireAuth` and the three ordered tests of
    `assertMultipart`. */
module RequestChecks {
  import opened Common
  import opened Strings

  /** The characters `.` does not match in a JavaScript regular expression
      without the `s` flag. */
  predicate LineTerminator(c: char) {
    c == '\n' || c == '\r' || c == '\U{2028}' || c == '\U{2029}'
  }

  /** What `/^Bearer (.+)$/` means: the header is `Bearer`, one space, and a
      non-empty token none of whose characters is a line terminator.  The
      scheme name is case-sensitive, and any further spaces belong to the token. */
  predicate BearerForm(header: string, token: string) {
    header == "Bearer " + token && |token| >= 1
    && forall i :: 0 <= i < |token| ==> !LineTerminator(token[i])
  }

  /** The capture group of `/^Bearer (.+)$/` on `req.headers.authorization || ""`. */
  function BearerToken(authorization: Option<string>): Option<string> {
    var h := OrDefault(authorization, "");
    if |h| > 7 && h[..7] == "Bearer " && forall i :: 7 <= i < |h| ==> !LineTerminator(h[i])
    then Some(h[7..])
    else None
  }

  /** The header yields token `t` exactly when it has the bearer form with `t`;
      an absent header is read as "" and never matches. */
  lemma BearerTokenMatches(authorization: Option<string>, t: string)
    ensures BearerToken(authorization) == Some(t) <==> BearerForm(OrDefault(authorization, ""), t)
  {
    var h := OrDefault(authorization, "");
    if BearerForm(h, t) {
      assert h[..7] == "Bearer " && h[7..] == t;
      assert forall i :: 7 <= i < |h| ==> h[i] == t[i - 7];
    }
    if BearerToken(authorization) == Some(t) {
      assert h == h[..7] + h[7..];
      assert forall i :: 0 <= i < |t| ==> t[i] == h[i + 7];
    }
  }

  /** The value `requireAuth` throws when the header does not match. */
  const MissingAuthorization := Raise(401, "Missing Authorization header")

  /** `requireAuth`: the caller's uid, as the token verifier reports it, or what
      is thrown.  The verifier is only consulted when the header matches. */
  function RequireAuth(authorization: Option<string>, verifyIdToken: string -> Result<string>): (r: Result<string>)
    ensures BearerToken(authorization).None? ==> r == Err(MissingAuthorization)
    ensures forall t :: BearerForm(OrDefault(authorization, ""), t) ==> r == verifyIdToken(t)
  {
    BearerTokenRejectsOrMatches(authorization);
    match BearerToken(authorization)
    case None => Err(MissingAuthorization)
    case Some(token) => verifyIdToken(token)
  }

  lemma BearerTokenRejectsOrMatches(authorization: Option<string>)
    ensures forall t :: BearerForm(OrDefault(authorization, ""), t) ==> BearerToken(authorization) == Some(t)
  {
    forall t | BearerForm(OrDefault(authorization, ""), t) {
      BearerTokenMatches(authorization, t);
    }
  }

  /** The outcome of a check that throws or returns normally. */
  datatype Check = Pass | Fail(error: Thrown)

  /** `s` begins with `prefix` when upper-case ASCII letters are read as lower case. */
  predicate PrefixIgnoringCase(s: string, prefix: string) {
    |prefix| <= |s| && forall i :: 0 <= i < |prefix| ==> LowerChar(s[i]) == prefix[i]
  }

  /** `sub` occurs in `s` at `k` when upper-case ASCII letters are read as lower case. */
  predicate OccursIgnoringCase(s: string, sub: string, k: int) {
    0 <= k && k + |sub| <= |s| && forall i :: 0 <= i < |sub| ==> LowerChar(s[k + i]) == sub[i]
  }

  const FormData := "multipart/form-data"
  const BoundaryParam := "boundary="

  /** `assertMultipart`, on the Content-Type header (`|| ""`, lower-cased) and
      whether `rawBody` is present. */
  function AssertMultipart(contentType: Option<string>, hasRawBody: bool): (r: Check)
    ensures var ct := OrDefault(contentType, "");
      && (!PrefixIgnoringCase(ct, FormData) ==>
            r == Fail(Raise(400, "Content-Type must be multipart/form-data")))
      && (PrefixIgnoringCase(ct, FormData) && !(exists k :: OccursIgnoringCase(ct, BoundaryParam, k)) ==>
            r == Fail(Raise(400, "Missing multipart boundary")))
      && (PrefixIgnoringCase(ct, FormData) && (exists k :: OccursIgnoringCase(ct, BoundaryParam, k)) && !hasRawBody ==>
            r == Fail(Raise(400, "Missing rawBody in request")))
      && (PrefixIgnoringCase(ct, FormData) && (exists k :: OccursIgnoringCase(ct, BoundaryParam, k)) && hasRawBody ==>
            r == Pass)
  {
    var ctLower := ToLower(OrDefault(contentType, ""));
    LowerPrefix(OrDefault(contentType, ""), FormData);
    LowerContains(OrDefault(contentType, ""), BoundaryParam);
    if !StartsWith(ctLower, FormData) then Fail(Raise(400, "Content-Type must be multipart/form-data"))
    else if !Contains(ctLower, BoundaryParam) then Fail(Raise(400, "Missing multipart boundary"))
    else if !hasRawBody then Fail(Raise(400, "Missing rawBody in request"))
    else Pass
  }

  lemma LowerPrefix(s: string, prefix: string)
    ensures StartsWith(ToLower(s), prefix) <==> PrefixIgnoringCase(s, prefix)
  {
    var l := ToLower(s);
    if PrefixIgnoringCase(s, prefix) {
      assert l[..|prefix|] == prefix;
    }
    if StartsWith(l, prefix) {
      assert forall i :: 0 <= i < |prefix| ==> l[..|prefix|][i] == prefix[i];
    }
  }

  lemma LowerContains(s: string, sub: string)
    ensures Contains(ToLower(s), sub) <==> exists k :: OccursIgnoringCase(s, sub, k)
  {
    var l := ToLower(s);
    if k :| OccursIgnoringCase(s, sub, k) {
      assert l[k..k + |sub|] == sub;
      assert OccursAt(l, sub, k);
    }
    if k :| OccursAt(l, sub, k) {
      assert forall i :: 0 <= i < |sub| ==> l[k..k + |sub|][i] == sub[i];
      assert OccursIgnoringCase(s, sub, k);
    }
  }
}
