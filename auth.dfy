/**
 * Bearer-token handling shared by the instructor routes. Tokens arrive as
 * `Authorization: Bearer <token>` (the header form of section 2.1 of
 * RFC 6750), but the routes do not parse that form: most of them remove the
 * first occurrence of `Bearer ` anywhere in the header, and the statistics
 * route checks the prefix and takes everything from index 7.
 *
 * Signature verification belongs to a JWT library and is a parameter here:
 * a `Verifier` maps a token either to its decoded claims or to the name of
 * the error the library throws.
 */
module Auth {
  import opened Wrappers
  import opened Text
  import opened Http
  import opened Models


  /** The payload a verified token decodes to. A missing role claim is any string other than "instructor". */
  datatype Claims = Claims(userId: Id, role: string)

  datatype Verified = Decoded(claims: Claims) | Thrown(errorName: string)

  type Verifier = string -> Verified

  const BearerPrefix: string := "Bearer "

  const InstructorRole: string := "instructor"

  /** `header?.replace('Bearer ', '')` followed by the falsy test `!token`: None when the header is absent or the result is empty. */
  function ReplacedToken(header: Option<string>): (t: Option<string>)
    ensures header.None? ==> t.None?
    ensures header.Some? ==> (t.Some? <==> ReplaceFirst(header.value, BearerPrefix, "") != "")
    ensures t.Some? ==> t.value == ReplaceFirst(header.value, BearerPrefix, "") && t.value != ""
  {
    match header
    case None => None
    case Some(h) =>
      var token := Some(ReplaceFirst(h, BearerPrefix, ""));
      if Truthy(token) then token else None
  }

  /** For a well-formed header the replaced token is everything after the prefix. */
  lemma ReplacedTokenOfBearerHeader(h: string)
    requires StartsWith(h, BearerPrefix) && |h| > |BearerPrefix|
    ensures ReplacedToken(Some(h)) == Some(h[7..])
  {
    ReplaceLeadingPrefix(h, BearerPrefix);
  }

  /** A header that is exactly the prefix yields no token. */
  lemma BarePrefixHasNoToken()
    ensures ReplacedToken(Some(BearerPrefix)).None?
  {
    ReplaceLeadingPrefix(BearerPrefix, BearerPrefix);
  }

  /**
   * The prefix need not lead: the token is the header with its first
   * occurrence of the prefix cut out, wherever that occurrence is.
   */
  lemma FirstPrefixRemoved(h: string, i: nat)
    requires OccursAt(h, BearerPrefix, i)
    requires forall j :: 0 <= j < i ==> !OccursAt(h, BearerPrefix, j)
    ensures var rest := h[..i] + h[i + |BearerPrefix|..];
            ReplacedToken(Some(h)) == if rest == "" then None else Some(rest)
  {
    var k := IndexOf(h, BearerPrefix);
    assert k.Some?;
    assert !(k.value < i) && !(i < k.value);
    assert ReplaceFirst(h, BearerPrefix, "") == h[..i] + "" + h[i + |BearerPrefix|..];
    assert h[..i] + "" + h[i + |BearerPrefix|..] == h[..i] + h[i + |BearerPrefix|..];
  }

  /** A header without the prefix anywhere is taken whole as the token, so it reaches verification unless it is empty. */
  lemma HeaderWithoutPrefixPassedWhole(h: string)
    requires forall j :: !OccursAt(h, BearerPrefix, j)
    ensures ReplacedToken(Some(h)) == if h == "" then None else Some(h)
  {
  }

  /** For instance `xBearer t` yields `xt`. */
  lemma PrefixRemovedAnywhere()
    ensures ReplacedToken(Some("xBearer t")) == Some("xt")
  {
    var h := "xBearer t";
    assert h[0..7][0] == 'x';
    assert h[1..8] == BearerPrefix;
    FirstPrefixRemoved(h, 1);
    assert h[..1] + h[8..] == "xt";
  }

  /**
   * The gate at the top of the upload, instructor course and category
   * routes: no token gives 401; a token the library rejects throws, and the
   * route's catch turns that into 500; a role other than "instructor" gives
   * 403; otherwise the decoded claims.
   */
  function InstructorGate(header: Option<string>, verify: Verifier): (r: Result<Claims, Error>)
    ensures ReplacedToken(header).None? <==> r == Failure(Unauthorized)
    ensures r.Failure? && r.error.status == 500 <==>
              ReplacedToken(header).Some? && verify(ReplacedToken(header).value).Thrown?
    ensures r == Failure(Forbidden) <==>
              ReplacedToken(header).Some? && verify(ReplacedToken(header).value).Decoded?
              && verify(ReplacedToken(header).value).claims.role != InstructorRole
    ensures r.Success? <==>
              ReplacedToken(header).Some? && verify(ReplacedToken(header).value).Decoded?
              && verify(ReplacedToken(header).value).claims.role == InstructorRole
    ensures r.Success? ==> r.value == verify(ReplacedToken(header).value).claims
    ensures r.Failure? ==> r.error in {Unauthorized, Forbidden, InternalError}
  {
    match ReplacedToken(header)
    case None => Failure(Unauthorized)
    case Some(token) =>
      match verify(token)
      case Thrown(_) => Failure(InternalError)
      case Decoded(claims) =>
        if claims.role != InstructorRole then Failure(Forbidden) else Success(claims)
  }

  /** `authHeader.startsWith('Bearer ') ? authHeader.substring(7) : 401`, as the statistics route reads the header. */
  function PrefixedToken(header: Option<string>): (t: Option<string>)
    ensures t.Some? <==> header.Some? && StartsWith(header.value, BearerPrefix)
    ensures t.Some? ==> header.value == BearerPrefix + t.value
  {
    match header
    case Some(h) => if StartsWith(h, BearerPrefix) then Some(h[7..]) else None
    case None => None
  }

  /** Both readings agree on a well-formed header with a non-empty token. */
  lemma TokenReadingsAgree(h: string)
    requires StartsWith(h, BearerPrefix) && |h| > |BearerPrefix|
    ensures ReplacedToken(Some(h)) == PrefixedToken(Some(h))
  {
    ReplacedTokenOfBearerHeader(h);
  }

  /** A header in another scheme is not refused as missing: it is passed to verification, whose failure the routes answer with 500. */
  lemma OtherSchemeReachesVerifier(verify: Verifier)
    requires verify("Basic abc").Thrown?
    ensures InstructorGate(Some("Basic abc"), verify) == Failure(InternalError)
  {
    var h := "Basic abc";
    forall j ensures !OccursAt(h, BearerPrefix, j) {
      if 0 <= j && j + 7 <= |h| {
        assert h[j..j + 7][1] == h[j + 1] != 'e';
      }
    }
    HeaderWithoutPrefixPassedWhole(h);
  }

  /** They differ on a header that is exactly the prefix: the replace-based routes find no token, the statistics route an empty one. */
  lemma BarePrefixReadingsDiffer()
    ensures ReplacedToken(Some(BearerPrefix)).None? && PrefixedToken(Some(BearerPrefix)) == Some("")
  {
    BarePrefixHasNoToken();
  }

  /** They differ on a header whose prefix is not at the start: the replace-based routes still find a token. */
  lemma TokenReadingsDiffer()
    ensures ReplacedToken(Some("xBearer t")).Some? && PrefixedToken(Some("xBearer t")).None?
  {
    PrefixRemovedAnywhere();
    assert "xBearer t"[..7][0] == 'x';
  }
}
