/** Credentials, grants, and the authorizer that matches requests against them. */
module Auth {
  import opened Wrappers

  datatype Grant = Grant(action: string, workspaceId: string, intents: seq<string>)

  datatype Credential = Credential(subject: string, token: string, grants: seq<Grant>)

  /** `ProviderGrant.permits`. */
  predicate Permits(g: Grant, action: string, workspaceId: string, intent: Option<string>)
  {
    if g.action != action then false
    else if g.workspaceId != "*" && g.workspaceId != workspaceId then false
    else if intent.None? then true
    else "*" in g.intents || intent.value in g.intents
  }

  /** `ProviderAuthorizer.require`: the first grant that permits decides. */
  predicate Granted(grants: seq<Grant>, action: string, workspaceId: string, intent: Option<string>)
  {
    grants != [] && (Permits(grants[0], action, workspaceId, intent)
                     || Granted(grants[1..], action, workspaceId, intent))
  }

  // ----- Text -------------------------------------------------------------------------------

  /** The characters `str.strip` removes. */
  predicate IsSpace(c: char)
  {
    var n := c as int;
    9 <= n <= 13 || 0x1C <= n <= 0x20 || n == 0x85 || n == 0xA0 || n == 0x1680 || 0x2000 <= n <= 0x200A
    || n == 0x2028 || n == 0x2029 || n == 0x202F || n == 0x205F || n == 0x3000
  }

  function StripLeft(s: string): string
  {
    if s != "" && IsSpace(s[0]) then StripLeft(s[1..]) else s
  }

  function StripRight(s: string): string
  {
    if s != "" && IsSpace(s[|s| - 1]) then StripRight(s[..|s| - 1]) else s
  }

  function Strip(s: string): string
  {
    StripRight(StripLeft(s))
  }

  predicate IsAscii(s: string)
  {
    forall i | 0 <= i < |s| :: s[i] as int < 0x80
  }

  ghost predicate AllSpace(s: string)
  {
    forall c :: c in s ==> IsSpace(c)
  }

  lemma {:induction false} StripLeftOfSpace(left: string, s: string)
    requires AllSpace(left) && (s == "" || !IsSpace(s[0]))
    ensures StripLeft(left + s) == s
  {
    if left == "" {
      assert left + s == s;
    } else {
      assert (left + s)[1..] == left[1..] + s;
      StripLeftOfSpace(left[1..], s);
    }
  }

  lemma {:induction false} StripRightOfSpace(s: string, right: string)
    requires AllSpace(right) && (s == "" || !IsSpace(s[|s| - 1]))
    ensures StripRight(s + right) == s
  {
    if right == "" {
      assert s + right == s;
    } else {
      var all, init := s + right, right[..|right| - 1];
      assert all[..|all| - 1] == s + init;
      assert IsSpace(all[|all| - 1]);
      StripRightOfSpace(s, init);
    }
  }

  /** Padding a stripped text with white space on either side does not change what is read. */
  lemma StripPadded(left: string, s: string, right: string)
    requires AllSpace(left) && AllSpace(right) && s != "" && !IsSpace(s[0]) && !IsSpace(s[|s| - 1])
    ensures Strip(left + s + right) == s
  {
    assert left + s + right == left + (s + right);
    assert (s + right)[0] == s[0];
    StripLeftOfSpace(left, s + right);
    StripRightOfSpace(s, right);
  }

  lemma {:induction false} StripEnds(s: string)
    ensures var t := Strip(s); t == "" || (!IsSpace(t[0]) && !IsSpace(t[|t| - 1]))
  {
    StripLeftEnds(s);
    StripRightEnds(StripLeft(s));
  }

  lemma StripLeftEnds(s: string)
    ensures var t := StripLeft(s); t == "" || !IsSpace(t[0])
  {
  }

  lemma StripRightEnds(s: string)
    requires s == "" || !IsSpace(s[0])
    ensures var t := StripRight(s); t == "" || (!IsSpace(t[0]) && !IsSpace(t[|t| - 1]))
  {
    if s != "" && IsSpace(s[|s| - 1]) {
      StripRightEnds(s[..|s| - 1]);
    }
  }

  // ----- Authentication ---------------------------------------------------------------------

  /** `Broken` is the `TypeError` of comparing a text that is not ASCII. */
  datatype Authentication = Authenticated(credential: Credential) | Unauthenticated | Broken

  const BEARER := "Bearer "

  function FirstWith(credentials: seq<Credential>, presented: string): Authentication
  {
    if credentials == [] then Unauthenticated
    else if !IsAscii(credentials[0].token) || !IsAscii(presented) then Broken
    else if credentials[0].token == presented then Authenticated(credentials[0])
    else FirstWith(credentials[1..], presented)
  }

  /** `ProviderAuthorizer.authenticate`. */
  function Authenticate(credentials: seq<Credential>, authorization: Option<string>): Authentication
  {
    if authorization.None? || |authorization.value| < |BEARER| || authorization.value[..|BEARER|] != BEARER then
      Unauthenticated
    else FirstWith(credentials, Strip(authorization.value[|BEARER|..]))
  }

  /** `require` accepts exactly what some grant covers. */
  lemma {:induction false} GrantedExactly(grants: seq<Grant>, action: string, workspaceId: string,
                                          intent: Option<string>)
    ensures Granted(grants, action, workspaceId, intent)
            <==> exists g :: g in grants && g.action == action && g.workspaceId in {"*", workspaceId}
                             && (intent.None? || "*" in g.intents || intent.value in g.intents)
  {
    if grants != [] {
      GrantedExactly(grants[1..], action, workspaceId, intent);
      assert grants == [grants[0]] + grants[1..];
    }
  }

  ghost predicate TokensDistinct(credentials: seq<Credential>)
  {
    forall i, j | 0 <= i < j < |credentials| :: credentials[i].token != credentials[j].token
  }

  ghost predicate TokensPlain(credentials: seq<Credential>)
  {
    forall c | c in credentials :: IsAscii(c.token) && c.token != "" && Strip(c.token) == c.token
  }

  lemma DistinctTail(credentials: seq<Credential>)
    requires credentials != [] && TokensDistinct(credentials)
    ensures TokensDistinct(credentials[1..])
    ensures forall c | c in credentials[1..] :: c.token != credentials[0].token
  {
    var tail := credentials[1..];
    forall i, j | 0 <= i < j < |tail| ensures tail[i].token != tail[j].token {
      assert credentials[i + 1].token != credentials[j + 1].token;
    }
    forall c | c in tail ensures c.token != credentials[0].token {
      var i :| 0 <= i < |tail| && tail[i] == c;
      assert credentials[0].token != credentials[i + 1].token;
    }
  }

  /** The search finds exactly the credential with the presented token. */
  lemma {:induction false} FirstWithExactly(credentials: seq<Credential>, presented: string, c: Credential)
    requires TokensDistinct(credentials) && TokensPlain(credentials)
    ensures FirstWith(credentials, presented) == Authenticated(c) <==> c in credentials && c.token == presented
    ensures FirstWith(credentials, presented) == Broken <==> credentials != [] && !IsAscii(presented)
  {
    hide TokensDistinct, IsAscii, Strip;
    if credentials != [] {
      DistinctTail(credentials);
      FirstWithExactly(credentials[1..], presented, c);
      assert credentials == [credentials[0]] + credentials[1..];
    }
  }

  /** The header bears this token: it is present, starts with the bearer prefix, and its stripped rest
      is the token. */
  predicate Bears(authorization: Option<string>, token: string)
  {
    && authorization.Some? && BEARER <= authorization.value
    && Strip(authorization.value[|BEARER|..]) == token
  }

  /** With or without a header: a request is authenticated as a credential exactly when its header bears
      that credential's token. */
  lemma AuthenticatesExactly(credentials: seq<Credential>, authorization: Option<string>, c: Credential)
    requires TokensDistinct(credentials) && TokensPlain(credentials)
    ensures Authenticate(credentials, authorization) == Authenticated(c)
            <==> c in credentials && Bears(authorization, c.token)
  {
    hide FirstWith, Strip, IsAscii;
    if authorization.Some? && BEARER <= authorization.value {
      FirstWithExactly(credentials, Strip(authorization.value[|BEARER|..]), c);
    }
  }

  /** The comparison raises its uncaught `TypeError` exactly for a bearer header whose stripped token is
      not ASCII, when there is any credential to compare it with. */
  lemma BreaksExactly(credentials: seq<Credential>, authorization: Option<string>)
    requires TokensDistinct(credentials) && TokensPlain(credentials)
    ensures Authenticate(credentials, authorization) == Broken
            <==> credentials != [] && exists token :: Bears(authorization, token) && !IsAscii(token)
  {
    hide FirstWith, Strip, IsAscii;
    if authorization.Some? && BEARER <= authorization.value {
      var presented := Strip(authorization.value[|BEARER|..]);
      FirstWithExactly(credentials, presented, Credential("", "", []));
      assert Bears(authorization, presented);
    }
  }

  /** Presenting an admitted token, padded with any white space or not, authenticates its own credential. */
  lemma TokenRoundTrips(credentials: seq<Credential>, c: Credential, left: string, right: string)
    requires TokensDistinct(credentials) && TokensPlain(credentials) && c in credentials
    requires AllSpace(left) && AllSpace(right)
    ensures Authenticate(credentials, Some(BEARER + (left + c.token + right))) == Authenticated(c)
  {
    var header := BEARER + (left + c.token + right);
    StripEnds(c.token);
    StripPadded(left, c.token, right);
    assert header[|BEARER|..] == left + c.token + right;
    AuthenticatesExactly(credentials, Some(header), c);
  }

  /** The order of the credentials does not matter. */
  lemma OrderDoesNotMatter(credentials: seq<Credential>, others: seq<Credential>, authorization: Option<string>)
    requires TokensDistinct(credentials) && TokensPlain(credentials)
    requires TokensDistinct(others) && forall c :: c in credentials <==> c in others
    ensures Authenticate(credentials, authorization) == Authenticate(others, authorization)
  {
    hide Authenticate, Strip, IsAscii, TokensDistinct, Bears;
    assert TokensPlain(others);
    SameMembersEmpty(credentials, others);
    var r := Authenticate(credentials, authorization);
    var q := Authenticate(others, authorization);
    var c :=
      if r.Authenticated? then r.credential
      else if q.Authenticated? then q.credential
      else Credential("", "", []);
    AuthenticatesExactly(credentials, authorization, c);
    AuthenticatesExactly(others, authorization, c);
    BreaksExactly(credentials, authorization);
    BreaksExactly(others, authorization);
  }

  lemma SameMembersEmpty(credentials: seq<Credential>, others: seq<Credential>)
    requires forall c :: c in credentials <==> c in others
    ensures credentials == [] <==> others == []
  {
    if credentials != [] {
      assert credentials[0] in credentials;
    }
    if others != [] {
      assert others[0] in others;
    }
  }
}
