/**
 * `apiAuthOk`: which requests under `/api/` get through without the site
 * password, and which credentials are accepted for the others.
 */
module Auth {
  import opened Wrappers
  import opened Text
  import opened Validation
  import opened Cookies

  /** The parts of a request `apiAuthOk` looks at (`verb` is `req.method`); `None` is an absent header. */
  datatype Request = Request(
    verb: string,
    path: string,
    cookie: Option<string>,
    authorization: Option<string>,
    sitePassword: Option<string>)

  const AuthCookie: string := "site_auth"
  const Scheme: string := "Bearer"

  // ------------------------------------------------- /^Bearer\s+(.+)$/i

  predicate NoLineTerminator(s: string) {
    forall i :: 0 <= i < |s| ==> !IsLineTerminator(s[i])
  }

  /** The scheme word, matched with the ASCII case folding of the `i` flag. */
  predicate HasScheme(auth: string) {
    |auth| >= |Scheme| && EqualsIgnoringAsciiCase(auth[..|Scheme|], Scheme)
  }

  /**
   * The regular expression matches `auth` with `\s+` taking the `k`
   * characters after the scheme and the group `(.+)` taking the rest: at
   * least one character, none of them a line terminator.
   */
  predicate MatchAt(auth: string, k: int) {
    && HasScheme(auth)
    && 1 <= k && |Scheme| + k < |auth|
    && (forall i :: |Scheme| <= i < |Scheme| + k ==> IsWhiteSpace(auth[i]))
    && (forall i :: |Scheme| + k <= i < |auth| ==> !IsLineTerminator(auth[i]))
  }

  /**
   * `m[1]` of `auth.match(/^Bearer\s+(.+)$/i)`, or `None` when there is no
   * match. `\s+` is greedy: it takes all the white space after the scheme,
   * giving one character back to the group when nothing else is left.
   */
  function BearerToken(auth: string): (m: Option<string>)
    ensures m.Some? ==> HasScheme(auth) && |Scheme| + 1 < |auth|
    ensures m.Some? ==> && 1 <= |m.value| <= |auth| && NoLineTerminator(m.value)
                        && m.value == auth[|auth| - |m.value|..]
  {
    if !HasScheme(auth) then None
    else
      var w := auth[|Scheme|..];
      var k := LeadingSpace(w);
      if k == 0 then None
      else if k < |w| then
        (if NoLineTerminator(w[k..]) then
           assert w[k..] == auth[|auth| - |w[k..]|..];
           Some(w[k..])
         else None)
      else if k >= 2 && !IsLineTerminator(w[k - 1]) then
        assert [w[k - 1]] == auth[|auth| - 1..];
        Some([w[k - 1]])
      else None
  }

  /**
   * `BearerToken` is the regular expression's answer: it finds a token
   * exactly when some split matches, and then returns the group of the
   * split with the longest white-space run.
   */
  lemma BearerTokenIsGreedyMatch(auth: string)
    ensures BearerToken(auth).Some? <==> exists k :: MatchAt(auth, k)
    ensures BearerToken(auth).Some? ==>
      exists k :: && MatchAt(auth, k) && BearerToken(auth).value == auth[|Scheme| + k..]
                  && forall k' :: MatchAt(auth, k') ==> k' <= k
  {
    if HasScheme(auth) {
      var n := |Scheme|;
      var w := auth[n..];
      var k := LeadingSpace(w);
      forall j | MatchAt(auth, j) ensures j <= k {
        MatchIsBounded(auth, j);
      }
      if k == 0 {
      } else if k < |w| {
        if NoLineTerminator(w[k..]) {
          WholeRestMatches(auth);
        } else {
          var p :| k <= p < |w| && IsLineTerminator(w[p]);
          NoMatchPast(auth, n + p);
        }
      } else if k >= 2 && !IsLineTerminator(w[k - 1]) {
        LastCharMatches(auth);
      } else if k >= 2 {
        NoMatchPast(auth, n + k - 1);
      }
    }
  }

  /** No split takes more white space than the run after the scheme. */
  lemma MatchIsBounded(auth: string, j: int)
    requires MatchAt(auth, j)
    ensures j <= LeadingSpace(auth[|Scheme|..])
  {
  }

  /** A line terminator at `p` that every split leaves in the group rules out a match. */
  lemma NoMatchPast(auth: string, p: int)
    requires |Scheme| <= p < |auth| && IsLineTerminator(auth[p])
    requires forall j :: MatchAt(auth, j) ==> |Scheme| + j <= p
    ensures forall j :: !MatchAt(auth, j)
  {
  }

  /** With a character after the white space run and no line terminator, the group is the rest. */
  lemma WholeRestMatches(auth: string)
    requires HasScheme(auth)
    requires var w := auth[|Scheme|..]; LeadingSpace(w) > 0 && LeadingSpace(w) < |w| && NoLineTerminator(w[LeadingSpace(w)..])
    ensures MatchAt(auth, LeadingSpace(auth[|Scheme|..]))
    ensures auth[|Scheme| + LeadingSpace(auth[|Scheme|..])..] == auth[|Scheme|..][LeadingSpace(auth[|Scheme|..])..]
  {
    var n := |Scheme|;
    var w := auth[n..];
    var k := LeadingSpace(w);
    assert forall i :: n <= i < n + k ==> auth[i] == w[i - n];
    assert forall i :: n + k <= i < |auth| ==> auth[i] == w[k..][i - n - k];
  }

  /** When the header ends in white space, `\s+` gives its last character back to the group. */
  lemma LastCharMatches(auth: string)
    requires HasScheme(auth)
    requires var w := auth[|Scheme|..]; var k := LeadingSpace(w); k == |w| && k >= 2 && !IsLineTerminator(w[k - 1])
    ensures MatchAt(auth, |auth| - |Scheme| - 1)
    ensures auth[|auth| - 1..] == [auth[|Scheme|..][|auth| - |Scheme| - 1]]
  {
    var n := |Scheme|;
    var w := auth[n..];
    assert forall i :: n <= i < |auth| ==> auth[i] == w[i - n];
  }

  /** The header an API client sends, as section 2.1 of RFC 6750 writes it. */
  lemma BearerOfCredentials(token: string)
    requires |token| >= 1 && NoLineTerminator(token) && !IsWhiteSpace(token[0])
    ensures BearerToken("Bearer " + token) == Some(token)
  {
    var auth := "Bearer " + token;
    assert auth[..6] == Scheme;
    var w := auth[6..];
    assert w == " " + token && w[1..] == token;
    assert LeadingSpace(w) == 1;
  }

  // ---------------------------------------------------------------- apiAuthOk

  /** The routes `apiAuthOk` lets through without a password. */
  predicate IsPublic(req: Request) {
    || req.path == "/webhook/line"
    || (req.verb == "GET" && (req.path == "/api/events" || StartsWith(req.path, "/api/summary/")))
    || (StartsWith(req.path, "/api/events") && (req.verb == "POST" || req.verb == "PUT" || req.verb == "DELETE"))
  }

  /** The credentials of a request, each compared with the password. */
  predicate CookieMatches(req: Request, password: string, decode: string -> string) {
    var c := CookieValue(req.cookie, AuthCookie, decode);
    Present(c) && c.value == password
  }

  predicate BearerMatches(req: Request, password: string) {
    var m := BearerToken(req.authorization.GetOr(""));
    m.Some? && m.value == password
  }

  predicate HeaderMatches(req: Request, password: string) {
    Present(req.sitePassword) && req.sitePassword.value == password
  }

  /**
   * `apiAuthOk(req, env)`: open when no password is configured; then the
   * public routes; then the `site_auth` cookie, a bearer token and the
   * `x-site-password` header, each accepted when it equals the password.
   */
  function ApiAuthOk(req: Request, password: Option<string>, decode: string -> string): (ok: bool)
    ensures !Present(password) ==> ok
    ensures Present(password) && !IsPublic(req) ==>
      (ok <==> CookieMatches(req, password.value, decode) || BearerMatches(req, password.value) || HeaderMatches(req, password.value))
  {
    if !Present(password) then true
    else if req.path == "/webhook/line" then true
    else if req.verb == "GET" && (req.path == "/api/events" || StartsWith(req.path, "/api/summary/")) then true
    else if StartsWith(req.path, "/api/events") && (req.verb == "POST" || req.verb == "PUT" || req.verb == "DELETE") then true
    else
      var pw := password.value;
      var cookie := CookieValue(req.cookie, AuthCookie, decode);
      if Present(cookie) && cookie.value == pw then true
      else
        var m := BearerToken(req.authorization.GetOr(""));
        if m.Some? && m.value == pw then true
        else
          var hdr := req.sitePassword;
          Present(hdr) && hdr.value == pw
  }

  // ------------------------------------------------------------ properties

  /** The public routes need nothing. */
  lemma PublicRoutesAreOpen(req: Request, password: Option<string>, decode: string -> string)
    requires IsPublic(req)
    ensures ApiAuthOk(req, password, decode)
  {
  }

  /** A protected route with no credential at all is refused once a password is set. */
  lemma NoCredentialsRefused(req: Request, password: string, decode: string -> string)
    requires password != "" && !IsPublic(req)
    requires req.cookie.None? && req.authorization.None? && req.sitePassword.None?
    ensures !ApiAuthOk(req, Some(password), decode)
  {
    assert CookieParts(None) == [""] by {
      SplitNoSeparator("", ';');
    }
    assert KeyOf("") == "" by {
      SplitNoSeparator("", '=');
    }
  }

  /**
   * The login cookie alone gets through: a `Cookie` header whose first
   * `site_auth` pair decodes to the password.
   */
  lemma LoginCookieSuffices(req: Request, password: string, decode: string -> string,
                            names: seq<string>, values: seq<string>, i: nat)
    requires password != ""
    requires |names| == |values| >= 1
    requires forall j :: 0 <= j < |names| ==> GoodName(names[j])
    requires forall j :: 0 <= j < |values| ==> ';' !in values[j]
    requires i < |names| && names[i] == AuthCookie && forall j :: 0 <= j < i ==> names[j] != AuthCookie
    requires decode(values[i]) == password
    requires req.cookie == Some(CookieHeader(names, values))
    ensures ApiAuthOk(req, Some(password), decode)
  {
    FirstPairWins(names, values, AuthCookie, decode, i);
  }

  /** A bearer token equal to the password alone gets through. */
  lemma BearerSuffices(req: Request, password: string, decode: string -> string)
    requires password != "" && NoLineTerminator(password) && !IsWhiteSpace(password[0])
    requires req.authorization == Some("Bearer " + password)
    ensures ApiAuthOk(req, Some(password), decode)
  {
    BearerOfCredentials(password);
    assert BearerMatches(req, password);
  }

  /** The `x-site-password` header equal to the password alone gets through. */
  lemma HeaderSuffices(req: Request, password: string, decode: string -> string)
    requires password != "" && req.sitePassword == Some(password)
    ensures ApiAuthOk(req, Some(password), decode)
  {
  }

  /** Reading the settings is not public: it needs the password. */
  lemma SettingsAreProtected(req: Request, password: string, decode: string -> string)
    requires password != "" && req.path == "/api/notification-settings"
    requires !CookieMatches(req, password, decode) && !BearerMatches(req, password) && !HeaderMatches(req, password)
    ensures !ApiAuthOk(req, Some(password), decode)
  {
    SettingsPathIsNotPublic(req);
  }

  lemma SettingsPathIsNotPublic(req: Request)
    requires req.path == "/api/notification-settings"
    ensures !IsPublic(req)
  {
    var p := req.path;
    assert p[5] == 'n';
    assert "/api/events"[5] == 'e' && "/api/summary/"[5] == 's';
    assert p[..11] != "/api/events" by {
      assert p[..11][5] != "/api/events"[5];
    }
    assert p[..13] != "/api/summary/" by {
      assert p[..13][5] != "/api/summary/"[5];
    }
  }
}
