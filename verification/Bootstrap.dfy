/** The credential document: decoded JSON in, credentials out. The JSON text itself is decoded by a
    library; `Raw` is what its object hook sees, objects as lists of pairs. */
module Bootstrap {
  import opened Wrappers
  import opened Auth

  const MAXIMUM_CREDENTIAL_FILE_BYTES := 64 * 1024

  datatype Raw = RawText(text: string) | RawList(items: seq<Raw>) | RawObject(pairs: seq<RawMember>) | RawScalar

  datatype RawMember = RawMember(name: string, value: Raw)

  datatype Json =
    | JsonText(text: string)
    | JsonList(items: seq<Json>)
    | JsonObject(members: map<string, Json>)
    | JsonScalar

  // ----- Objects without repeated keys ------------------------------------------------------

  ghost predicate KeysDistinct<V>(pairs: seq<(string, V)>)
  {
    forall i, j | 0 <= i < j < |pairs| :: pairs[i].0 != pairs[j].0
  }

  /** The dictionary a list of pairs builds; with distinct keys, the one it lists. */
  function Dictionary<V>(pairs: seq<(string, V)>): (m: map<string, V>)
    ensures forall k :: k in m <==> exists i :: 0 <= i < |pairs| && pairs[i].0 == k
  {
    if pairs == [] then map[]
    else
      var last := pairs[|pairs| - 1];
      assert pairs == pairs[..|pairs| - 1] + [last];
      Dictionary(pairs[..|pairs| - 1])[last.0 := last.1]
  }

  predicate Repeats<V>(pairs: seq<(string, V)>)
  {
    pairs != [] && (pairs[|pairs| - 1].0 in Dictionary(pairs[..|pairs| - 1]) || Repeats(pairs[..|pairs| - 1]))
  }

  lemma {:induction false} RepeatsExactly<V>(pairs: seq<(string, V)>)
    ensures Repeats(pairs) <==> !KeysDistinct(pairs)
  {
    if pairs != [] {
      var init, last := pairs[..|pairs| - 1], pairs[|pairs| - 1];
      RepeatsExactly(init);
      if !KeysDistinct(pairs) {
        var i, j :| 0 <= i < j < |pairs| && pairs[i].0 == pairs[j].0;
        if j < |init| {
          assert init[i].0 == init[j].0;
        } else {
          assert init[i].0 == last.0;
        }
      }
      if !KeysDistinct(init) {
        var i, j :| 0 <= i < j < |init| && init[i].0 == init[j].0;
        assert pairs[i].0 == pairs[j].0;
      }
      if last.0 in Dictionary(init) {
        var i :| 0 <= i < |init| && init[i].0 == last.0;
        assert pairs[i].0 == pairs[|pairs| - 1].0;
      }
    }
  }

  /** `_unique_object`: fills a dictionary and fails on the first repeated key. */
  method UniqueObject<V>(pairs: seq<(string, V)>) returns (r: Option<map<string, V>>)
    ensures r.Some? <==> KeysDistinct(pairs)
    ensures r.Some? ==> r.value == Dictionary(pairs)
  {
    var decoded: map<string, V> := map[];
    for i := 0 to |pairs|
      invariant KeysDistinct(pairs[..i]) && decoded == Dictionary(pairs[..i])
    {
      var key := pairs[i].0;
      if key in decoded {
        return None;
      }
      assert pairs[..i + 1][..i] == pairs[..i];
      decoded := decoded[key := pairs[i].1];
    }
    assert pairs[..|pairs|] == pairs;
    r := Some(decoded);
  }

  // ----- Decoding ---------------------------------------------------------------------------

  /** `json.loads` with the object hook: every object in the document needs distinct keys. */
  function Decode(raw: Raw): Option<Json>
    decreases raw
  {
    match raw
    case RawText(text) => Some(JsonText(text))
    case RawScalar => Some(JsonScalar)
    case RawList(items) =>
      (match DecodeItems(items) case None => None case Some(list) => Some(JsonList(list)))
    case RawObject(pairs) =>
      (match DecodePairs(pairs)
       case None => None
       case Some(members) => if Repeats(members) then None else Some(JsonObject(Dictionary(members))))
  }

  function DecodeItems(items: seq<Raw>): (r: Option<seq<Json>>)
    ensures r.Some? ==> |r.value| == |items|
    decreases items
  {
    if items == [] then Some([])
    else
      match (Decode(items[0]), DecodeItems(items[1..]))
      case (Some(first), Some(rest)) => Some([first] + rest)
      case _ => None
  }

  function DecodePairs(pairs: seq<RawMember>): (r: Option<seq<(string, Json)>>)
    ensures r.Some? ==> |r.value| == |pairs|
    decreases pairs
  {
    if pairs == [] then Some([])
    else
      match (Decode(pairs[0].value), DecodePairs(pairs[1..]))
      case (Some(first), Some(rest)) => Some([(pairs[0].name, first)] + rest)
      case _ => None
  }

  // ----- Credentials ------------------------------------------------------------------------

  /** What `_text` accepts. */
  predicate PlainText(s: string)
  {
    Strip(s) != "" && forall c :: c in s ==> c as int >= 0x20 && c as int != 0x7F
  }

  function TextOf(members: map<string, Json>, name: string): Option<string>
  {
    if name in members && members[name].JsonText? && PlainText(members[name].text) then
      Some(members[name].text)
    else None
  }

  function Texts(items: seq<Json>): Option<seq<string>>
  {
    if items == [] then Some([])
    else if !items[0].JsonText? || !PlainText(items[0].text) then None
    else match Texts(items[1..]) case None => None case Some(rest) => Some([items[0].text] + rest)
  }

  const GRANT_NAMES := {"action", "workspace_id", "intents"}
  const CREDENTIAL_NAMES := {"subject", "token", "grants"}

  /** `_grant_from_mapping`; an omitted intent list means every intent. */
  function GrantFrom(item: Json): Option<Grant>
  {
    if !item.JsonObject? || !(item.members.Keys <= GRANT_NAMES) then None
    else
      var intents := if "intents" in item.members then item.members["intents"] else JsonList([JsonText("*")]);
      if !intents.JsonList? then None
      else
        match (TextOf(item.members, "action"), TextOf(item.members, "workspace_id"), Texts(intents.items))
        case (Some(action), Some(workspaceId), Some(texts)) => Some(Grant(action, workspaceId, texts))
        case _ => None
  }

  function GrantsFrom(items: seq<Json>): Option<seq<Grant>>
  {
    if items == [] then Some([])
    else
      match (GrantFrom(items[0]), GrantsFrom(items[1..]))
      case (Some(first), Some(rest)) => Some([first] + rest)
      case _ => None
  }

  /** `_credential_from_mapping`. */
  function CredentialFrom(item: Json): Option<Credential>
  {
    if !item.JsonObject? || !(item.members.Keys <= CREDENTIAL_NAMES) then None
    else
      var grants := if "grants" in item.members then item.members["grants"] else JsonList([]);
      if !grants.JsonList? then None
      else
        match (TextOf(item.members, "subject"), TextOf(item.members, "token"), GrantsFrom(grants.items))
        case (Some(subject), Some(token), Some(list)) =>
          if IsAscii(token) && token == Strip(token) then Some(Credential(subject, token, list)) else None
        case _ => None
  }

  function CredentialsOf(items: seq<Json>): Option<seq<Credential>>
  {
    if items == [] then Some([])
    else
      match (CredentialFrom(items[0]), CredentialsOf(items[1..]))
      case (Some(first), Some(rest)) => Some([first] + rest)
      case _ => None
  }

  /** `_credentials_from_json` on a document of `size` bytes. */
  function CredentialsFromJson(size: nat, raw: Raw): Option<seq<Credential>>
  {
    if size > MAXIMUM_CREDENTIAL_FILE_BYTES then None
    else
      match Decode(raw)
      case Some(JsonList(items)) =>
        (match CredentialsOf(items)
         case None => None
         case Some(credentials) =>
           if |TokensOf(credentials)| != |credentials| then None else Some(credentials))
      case _ => None
  }

  // ----- Accepted documents -----------------------------------------------------------------

  predicate GrantAdmissible(g: Grant)
  {
    PlainText(g.action) && PlainText(g.workspaceId) && forall i :: i in g.intents ==> PlainText(i)
  }

  predicate CredentialAdmissible(c: Credential)
  {
    && PlainText(c.subject) && PlainText(c.token) && IsAscii(c.token) && c.token == Strip(c.token)
    && forall g :: g in c.grants ==> GrantAdmissible(g)
  }

  ghost predicate Admissible(credentials: seq<Credential>)
  {
    (forall c :: c in credentials ==> CredentialAdmissible(c)) && TokensDistinct(credentials)
  }

  function TokensOf(credentials: seq<Credential>): set<string>
  {
    set c | c in credentials :: c.token
  }

  lemma TokensOfLast(init: seq<Credential>, last: Credential)
    ensures TokensOf(init + [last]) == TokensOf(init) + {last.token}
  {
    assert forall c :: c in init + [last] <==> c in init || c == last;
  }

  lemma DistinctLast(init: seq<Credential>, last: Credential)
    ensures TokensDistinct(init + [last]) <==> TokensDistinct(init) && last.token !in TokensOf(init)
  {
    var all := init + [last];
    if TokensDistinct(init) && last.token !in TokensOf(init) {
      forall i, j | 0 <= i < j < |all| ensures all[i].token != all[j].token {
        assert all[i] == init[i] && init[i].token in TokensOf(init);
      }
    }
    if TokensDistinct(all) {
      forall i | 0 <= i < |init| ensures init[i].token != last.token {
        assert all[i].token != all[|init|].token;
      }
      forall i, j | 0 <= i < j < |init| ensures init[i].token != init[j].token {
        assert all[i].token != all[j].token;
      }
    }
  }

  lemma {:induction false} DistinctByCount(credentials: seq<Credential>)
    ensures |TokensOf(credentials)| <= |credentials|
    ensures |TokensOf(credentials)| == |credentials| <==> TokensDistinct(credentials)
  {
    if credentials == [] {
      assert TokensOf(credentials) == {};
    } else {
      hide TokensOf, TokensDistinct;
      var init, last := credentials[..|credentials| - 1], credentials[|credentials| - 1];
      assert credentials == init + [last];
      DistinctByCount(init);
      TokensOfLast(init, last);
      DistinctLast(init, last);
      if last.token in TokensOf(init) {
        assert TokensOf(init) + {last.token} == TokensOf(init);
      }
    }
  }

  lemma {:induction false} TextsAccept(items: seq<Json>)
    ensures var r := Texts(items); r.Some? ==> forall s :: s in r.value ==> PlainText(s)
  {
    if items != [] {
      TextsAccept(items[1..]);
    }
  }

  lemma {:induction false} GrantsAccept(items: seq<Json>)
    ensures var r := GrantsFrom(items); r.Some? ==> forall g :: g in r.value ==> GrantAdmissible(g)
  {
    hide PlainText;
    if items != [] {
      GrantsAccept(items[1..]);
      if GrantFrom(items[0]).Some? {
        var members := items[0].members;
        TextsAccept(if "intents" in members then members["intents"].items else [JsonText("*")]);
      }
    }
  }

  lemma {:induction false} CredentialsAccept(items: seq<Json>)
    ensures var r := CredentialsOf(items); r.Some? ==> forall c :: c in r.value ==> CredentialAdmissible(c)
  {
    hide PlainText, IsAscii, Strip, GrantAdmissible;
    if items != [] {
      CredentialsAccept(items[1..]);
      if CredentialFrom(items[0]).Some? {
        var members := items[0].members;
        GrantsAccept(if "grants" in members then members["grants"].items else []);
      }
    }
  }

  /** Every accepted document yields admissible credentials: plain texts, ASCII tokens without
      surrounding space, no token twice. */
  lemma AcceptedIsAdmissible(size: nat, raw: Raw)
    ensures var r := CredentialsFromJson(size, raw);
            r.Some? ==> Admissible(r.value) && TokensDistinct(r.value) && TokensPlain(r.value)
  {
    hide Decode, CredentialsOf, CredentialAdmissible, IsAscii, Strip, TokensOf;
    var decoded := Decode(raw);
    if decoded.Some? && decoded.value.JsonList? {
      var r := CredentialsOf(decoded.value.items);
      CredentialsAccept(decoded.value.items);
      if r.Some? {
        DistinctByCount(r.value);
        forall c | c in r.value ensures c.token != "" && IsAscii(c.token) && Strip(c.token) == c.token {
          AdmissibleToken(c);
        }
      }
    }
  }

  lemma AdmissibleToken(c: Credential)
    requires CredentialAdmissible(c)
    ensures c.token != "" && IsAscii(c.token) && Strip(c.token) == c.token
  {
  }

  // ----- Documents of given credentials -----------------------------------------------------

  function TextItems(texts: seq<string>): seq<Raw>
  {
    if texts == [] then [] else [RawText(texts[0])] + TextItems(texts[1..])
  }

  function GrantDocument(g: Grant): Raw
  {
    RawObject([RawMember("action", RawText(g.action)), RawMember("workspace_id", RawText(g.workspaceId)),
               RawMember("intents", RawList(TextItems(g.intents)))])
  }

  function GrantItems(grants: seq<Grant>): seq<Raw>
  {
    if grants == [] then [] else [GrantDocument(grants[0])] + GrantItems(grants[1..])
  }

  function CredentialDocument(c: Credential): Raw
  {
    RawObject([RawMember("subject", RawText(c.subject)), RawMember("token", RawText(c.token)),
               RawMember("grants", RawList(GrantItems(c.grants)))])
  }

  function CredentialItems(credentials: seq<Credential>): seq<Raw>
  {
    if credentials == [] then [] else [CredentialDocument(credentials[0])] + CredentialItems(credentials[1..])
  }

  lemma DictionaryOfThree<V>(a: string, u: V, b: string, v: V, c: string, w: V)
    requires a != b && b != c && a != c
    ensures KeysDistinct([(a, u), (b, v), (c, w)])
    ensures Dictionary([(a, u), (b, v), (c, w)]) == map[a := u, b := v, c := w]
  {
    var members := [(a, u), (b, v), (c, w)];
    assert members[..2] == [(a, u), (b, v)] && members[..2][..1] == [(a, u)] && members[..2][..1][..0] == [];
    assert Dictionary(members[..2][..1]) == map[a := u];
    assert Dictionary(members[..2]) == map[a := u, b := v];
  }

  lemma ThreeMembers(a: string, x: Raw, b: string, y: Raw, c: string, z: Raw)
    requires a != b && b != c && a != c
    requires Decode(x).Some? && Decode(y).Some? && Decode(z).Some?
    ensures Decode(RawObject([RawMember(a, x), RawMember(b, y), RawMember(c, z)]))
            == Some(JsonObject(map[a := Decode(x).value, b := Decode(y).value, c := Decode(z).value]))
  {
    hide Decode, DecodePairs, Dictionary, Repeats, KeysDistinct;
    var pairs := [RawMember(a, x), RawMember(b, y), RawMember(c, z)];
    var members := [(a, Decode(x).value), (b, Decode(y).value), (c, Decode(z).value)];
    PairsOfThree(a, x, b, y, c, z);
    DictionaryOfThree(a, Decode(x).value, b, Decode(y).value, c, Decode(z).value);
    RepeatsExactly(members);
    DecodeObject(pairs, members);
  }

  lemma DecodeObject(pairs: seq<RawMember>, members: seq<(string, Json)>)
    requires DecodePairs(pairs) == Some(members) && !Repeats(members)
    ensures Decode(RawObject(pairs)) == Some(JsonObject(Dictionary(members)))
  {
  }

  lemma PairsCons(name: string, first: Raw, rest: seq<RawMember>)
    requires Decode(first).Some? && DecodePairs(rest).Some?
    ensures DecodePairs([RawMember(name, first)] + rest)
            == Some([(name, Decode(first).value)] + DecodePairs(rest).value)
  {
    assert ([RawMember(name, first)] + rest)[1..] == rest;
  }

  lemma PairsOfThree(a: string, x: Raw, b: string, y: Raw, c: string, z: Raw)
    requires Decode(x).Some? && Decode(y).Some? && Decode(z).Some?
    ensures DecodePairs([RawMember(a, x), RawMember(b, y), RawMember(c, z)])
            == Some([(a, Decode(x).value), (b, Decode(y).value), (c, Decode(z).value)])
  {
    var u, v, w := (a, Decode(x).value), (b, Decode(y).value), (c, Decode(z).value);
    PairsCons(c, z, []);
    assert [RawMember(c, z)] + [] == [RawMember(c, z)] && [w] + [] == [w];
    PairsCons(b, y, [RawMember(c, z)]);
    assert [RawMember(b, y)] + [RawMember(c, z)] == [RawMember(b, y), RawMember(c, z)] && [v] + [w] == [v, w];
    PairsCons(a, x, [RawMember(b, y), RawMember(c, z)]);
    assert [RawMember(a, x)] + [RawMember(b, y), RawMember(c, z)]
           == [RawMember(a, x), RawMember(b, y), RawMember(c, z)];
    assert [u] + [v, w] == [u, v, w];
  }

  lemma {:induction false} TextsRoundTrip(texts: seq<string>)
    requires forall s :: s in texts ==> PlainText(s)
    ensures var items := DecodeItems(TextItems(texts)); items.Some? && Texts(items.value) == Some(texts)
  {
    hide PlainText;
    if texts != [] {
      TextsRoundTrip(texts[1..]);
      assert texts == [texts[0]] + texts[1..];
      ItemsCons(RawText(texts[0]), TextItems(texts[1..]));
      TextsCons(texts[0], DecodeItems(TextItems(texts[1..])).value);
    }
  }

  lemma ItemsCons(first: Raw, rest: seq<Raw>)
    requires Decode(first).Some? && DecodeItems(rest).Some?
    ensures DecodeItems([first] + rest) == Some([Decode(first).value] + DecodeItems(rest).value)
  {
    assert ([first] + rest)[1..] == rest;
  }

  lemma TextsCons(first: string, rest: seq<Json>)
    requires PlainText(first) && Texts(rest).Some?
    ensures Texts([JsonText(first)] + rest) == Some([first] + Texts(rest).value)
  {
    assert ([JsonText(first)] + rest)[1..] == rest;
  }

  lemma GrantRoundTrips(g: Grant)
    requires GrantAdmissible(g)
    ensures var item := Decode(GrantDocument(g)); item.Some? && GrantFrom(item.value) == Some(g)
  {
    hide PlainText;
    TextsRoundTrip(g.intents);
    var intents := RawList(TextItems(g.intents));
    assert Decode(intents) == Some(JsonList(DecodeItems(TextItems(g.intents)).value));
    assert "action"[0] == 'a' && "workspace_id"[0] == 'w' && "intents"[0] == 'i';
    ThreeMembers("action", RawText(g.action), "workspace_id", RawText(g.workspaceId), "intents", intents);
  }

  lemma {:induction false} GrantsRoundTrip(grants: seq<Grant>)
    requires forall g :: g in grants ==> GrantAdmissible(g)
    ensures var items := DecodeItems(GrantItems(grants)); items.Some? && GrantsFrom(items.value) == Some(grants)
  {
    hide GrantAdmissible, GrantFrom, GrantDocument;
    if grants != [] {
      GrantsRoundTrip(grants[1..]);
      GrantRoundTrips(grants[0]);
      assert grants == [grants[0]] + grants[1..];
      ItemsCons(GrantDocument(grants[0]), GrantItems(grants[1..]));
      GrantsCons(Decode(GrantDocument(grants[0])).value, DecodeItems(GrantItems(grants[1..])).value);
    }
  }

  lemma GrantsCons(first: Json, rest: seq<Json>)
    requires GrantFrom(first).Some? && GrantsFrom(rest).Some?
    ensures GrantsFrom([first] + rest) == Some([GrantFrom(first).value] + GrantsFrom(rest).value)
  {
    hide GrantFrom;
    assert ([first] + rest)[1..] == rest;
  }

  lemma CredentialRoundTrips(c: Credential)
    requires CredentialAdmissible(c)
    ensures var item := Decode(CredentialDocument(c)); item.Some? && CredentialFrom(item.value) == Some(c)
  {
    hide PlainText, GrantAdmissible, IsAscii, Strip;
    GrantsRoundTrip(c.grants);
    var grants := RawList(GrantItems(c.grants));
    assert Decode(grants) == Some(JsonList(DecodeItems(GrantItems(c.grants)).value));
    assert "subject"[0] == 's' && "token"[0] == 't' && "grants"[0] == 'g';
    ThreeMembers("subject", RawText(c.subject), "token", RawText(c.token), "grants", grants);
  }

  lemma {:induction false} CredentialsRoundTrip(credentials: seq<Credential>)
    requires forall c :: c in credentials ==> CredentialAdmissible(c)
    ensures var items := DecodeItems(CredentialItems(credentials));
            items.Some? && CredentialsOf(items.value) == Some(credentials)
  {
    hide CredentialAdmissible, CredentialFrom, CredentialDocument;
    if credentials != [] {
      CredentialsRoundTrip(credentials[1..]);
      CredentialRoundTrips(credentials[0]);
      assert credentials == [credentials[0]] + credentials[1..];
      ItemsCons(CredentialDocument(credentials[0]), CredentialItems(credentials[1..]));
      CredentialsCons(Decode(CredentialDocument(credentials[0])).value,
                      DecodeItems(CredentialItems(credentials[1..])).value);
    }
  }

  lemma CredentialsCons(first: Json, rest: seq<Json>)
    requires CredentialFrom(first).Some? && CredentialsOf(rest).Some?
    ensures CredentialsOf([first] + rest) == Some([CredentialFrom(first).value] + CredentialsOf(rest).value)
  {
    hide CredentialFrom;
    assert ([first] + rest)[1..] == rest;
  }

  /** The document of a credential list, within the size limit, is accepted exactly when the list is
      admissible, and then yields the list itself. */
  lemma DocumentRoundTrips(size: nat, credentials: seq<Credential>)
    requires size <= MAXIMUM_CREDENTIAL_FILE_BYTES
    ensures CredentialsFromJson(size, RawList(CredentialItems(credentials))) == Some(credentials)
            <==> Admissible(credentials)
  {
    hide CredentialAdmissible, TokensPlain;
    var raw := RawList(CredentialItems(credentials));
    AcceptedIsAdmissible(size, raw);
    if Admissible(credentials) {
      CredentialsRoundTrip(credentials);
      DistinctByCount(credentials);
    }
  }

  /** From document to request, with or without a header: a token of an accepted document authenticates
      its own credential, and nothing else authenticates anybody. */
  lemma AcceptedTokensAuthenticate(size: nat, raw: Raw, authorization: Option<string>, c: Credential)
    requires CredentialsFromJson(size, raw).Some?
    ensures Authenticate(CredentialsFromJson(size, raw).value, authorization) == Authenticated(c)
            <==> c in CredentialsFromJson(size, raw).value && Bears(authorization, c.token)
  {
    hide CredentialsFromJson, Authenticate, Bears, IsAscii;
    AcceptedIsAdmissible(size, raw);
    AuthenticatesExactly(CredentialsFromJson(size, raw).value, authorization, c);
  }

  // ----- What a document may leave out ------------------------------------------------------

  lemma TwoMembers(a: string, x: Raw, b: string, y: Raw)
    requires a != b && Decode(x).Some? && Decode(y).Some?
    ensures Decode(RawObject([RawMember(a, x), RawMember(b, y)]))
            == Some(JsonObject(map[a := Decode(x).value, b := Decode(y).value]))
  {
    hide Decode;
    var u, v := (a, Decode(x).value), (b, Decode(y).value);
    PairsCons(b, y, []);
    assert [RawMember(b, y)] + [] == [RawMember(b, y)] && [v] + [] == [v];
    PairsCons(a, x, [RawMember(b, y)]);
    assert [RawMember(a, x)] + [RawMember(b, y)] == [RawMember(a, x), RawMember(b, y)] && [u] + [v] == [u, v];
    assert [u, v][..1] == [u] && [u][..0] == [];
    assert Dictionary([u]) == map[a := Decode(x).value];
    assert Dictionary([u, v]) == map[a := Decode(x).value, b := Decode(y).value];
    assert KeysDistinct([u, v]);
    RepeatsExactly([u, v]);
    DecodeObject([RawMember(a, x), RawMember(b, y)], [u, v]);
  }

  /** A grant that lists no intents covers every intent of its action and workspace. */
  lemma OmittedIntentsCoverAll(action: string, workspaceId: string, intent: Option<string>)
    requires PlainText(action) && PlainText(workspaceId)
    ensures var item := Decode(RawObject([RawMember("action", RawText(action)),
                                          RawMember("workspace_id", RawText(workspaceId))]));
            && item.Some? && GrantFrom(item.value).Some?
            && GrantFrom(item.value).value.action == action
            && GrantFrom(item.value).value.workspaceId == workspaceId
            && Permits(GrantFrom(item.value).value, action, workspaceId, intent)
  {
    assert "action"[0] == 'a' && "workspace_id"[0] == 'w' && "intents"[0] == 'i';
    TwoMembers("action", RawText(action), "workspace_id", RawText(workspaceId));
    StarIsPlain();
    TextsCons("*", []);
    assert [JsonText("*")] + [] == [JsonText("*")];
  }

  lemma StarIsPlain()
    ensures PlainText("*")
  {
    assert !IsSpace('*');
    StripLeftOfSpace("", "*");
    StripRightOfSpace("*", "");
    assert "" + "*" == "*" && "*" + "" == "*";
  }

  /** A credential that lists no grants is granted nothing. */
  lemma OmittedGrantsGrantNothing(subject: string, token: string, action: string, workspaceId: string,
                                  intent: Option<string>)
    requires CredentialAdmissible(Credential(subject, token, []))
    ensures var item := Decode(RawObject([RawMember("subject", RawText(subject)), RawMember("token", RawText(token))]));
            && item.Some? && CredentialFrom(item.value) == Some(Credential(subject, token, []))
            && !Granted(CredentialFrom(item.value).value.grants, action, workspaceId, intent)
  {
    hide PlainText, IsAscii, Strip;
    assert "subject"[0] == 's' && "token"[0] == 't' && "grants"[0] == 'g';
    TwoMembers("subject", RawText(subject), "token", RawText(token));
  }
}
