/** What the policy cache decides, read off the raw payloads it has heard: who a grant or
    a revocation names, in which fields, and what the last of them leaves allowed. */
module PolicyPayloads {
  import opened Text
  import opened PolicyCache
  import opened PolicyHistory
  import opened Wrappers

  /** A message as it arrives; no payload if it does not parse to an object. */
  datatype Heard = Heard(topic: string, payload: Option<Payload>)

  function Readings(hs: seq<Heard>, serviceName: string, lower: string -> string): (h: seq<Message>)
    ensures |h| == |hs|
    ensures forall i | 0 <= i < |hs| :: h[i] == Read(hs[i].topic, hs[i].payload, serviceName, lower)
  {
    seq(|hs|, i requires 0 <= i < |hs| => Read(hs[i].topic, hs[i].payload, serviceName, lower))
  }

  // ----- What a payload says --------------------------------------------------

  predicate Given(field: Option<string>) {
    field.Some? && field.value != ""
  }

  /** `t` is the trimmed text of the first field that is given, blank if none is. */
  ghost predicate FirstGiven(fields: seq<Option<string>>, t: string) {
    || (exists i | 0 <= i < |fields| ::
          Given(fields[i]) && Trim(fields[i].value) == t && forall j | 0 <= j < i :: !Given(fields[j]))
    || (t == "" && forall i | 0 <= i < |fields| :: !Given(fields[i]))
  }

  predicate OnGrants(e: Heard) {
    e.payload.Some? && Contains(e.topic, "/policy/grants/")
  }

  predicate OnRevocations(e: Heard) {
    e.payload.Some? && Contains(e.topic, "/policy/revocations/") && !Contains(e.topic, "/policy/grants/")
  }

  /** A grant message for consumer `c` that this service takes notice of. */
  ghost predicate Addressed(e: Heard, serviceName: string, c: string) {
    OnGrants(e) && c != "" &&
    var p := e.payload.value;
    && FirstGiven([p.consumerAddonId, p.addonId, p.sub], c)
    && (FirstGiven([p.service], "") || FirstGiven([p.service], serviceName))
  }

  /** The folded text of the status, `active` when it is not given. */
  function Status(p: Payload, lower: string -> string): string {
    lower(if Given(p.status) then Trim(p.status.value) else "active")
  }

  ghost predicate Live(e: Heard, lower: string -> string)
    requires e.payload.Some?
  {
    Status(e.payload.value, lower) != "revoked" && Status(e.payload.value, lower) != "expired"
  }

  /** The message tells of the live grant `g`. */
  ghost predicate TellsGrant(e: Heard, serviceName: string, lower: string -> string, g: Grant) {
    Addressed(e, serviceName, g.consumer) && Live(e, lower) &&
    var p := e.payload.value;
    && FirstGiven([p.service], g.service) && FirstGiven([p.grantId], g.grantId)
    && g.status == Status(p, lower) && g.scopes == p.scopes
  }

  /** A revocation that names the token. */
  ghost predicate RevokesToken(e: Heard, jti: string) {
    OnRevocations(e) && jti != "" && FirstGiven([e.payload.value.jti, e.payload.value.tokenJti], jti)
  }

  ghost predicate RevokesHolder(e: Heard, c: string) {
    OnRevocations(e) && c != "" && FirstGiven([e.payload.value.consumerAddonId, e.payload.value.addonId], c)
  }

  ghost predicate RevokesGrant(e: Heard, id: string) {
    OnRevocations(e) && id != "" && FirstGiven([e.payload.value.grantId], id)
  }

  /** A grant message under this id, live or withdrawn. */
  ghost predicate UnderId(e: Heard, serviceName: string, id: string) {
    id != "" && (exists c :: Addressed(e, serviceName, c)) && FirstGiven([e.payload.value.grantId], id)
  }

  /** The message ends a grant held by `c` under `id`. */
  ghost predicate Ends(e: Heard, serviceName: string, c: string, id: string) {
    Addressed(e, serviceName, c) || RevokesHolder(e, c) || RevokesGrant(e, id)
  }

  ghost predicate ShutsId(e: Heard, serviceName: string, lower: string -> string, id: string) {
    RevokesGrant(e, id) || (UnderId(e, serviceName, id) && !Live(e, lower))
  }

  ghost predicate ReopensId(e: Heard, serviceName: string, lower: string -> string, id: string) {
    UnderId(e, serviceName, id) && Live(e, lower)
  }

  ghost predicate TokenRevoked(hs: seq<Heard>, jti: string) {
    exists i | 0 <= i < |hs| :: RevokesToken(hs[i], jti)
  }

  ghost predicate IdShut(hs: seq<Heard>, serviceName: string, lower: string -> string, id: string) {
    exists i | 0 <= i < |hs| ::
      ShutsId(hs[i], serviceName, lower, id) && forall j | i < j < |hs| :: !ReopensId(hs[j], serviceName, lower, id)
  }

  /** The last word about `c` is the live grant `g`. */
  ghost predicate Stands(hs: seq<Heard>, serviceName: string, lower: string -> string, c: string, g: Grant) {
    g.consumer == c && exists i | 0 <= i < |hs| ::
      TellsGrant(hs[i], serviceName, lower, g) && forall j | i < j < |hs| :: !Ends(hs[j], serviceName, c, g.grantId)
  }

  /** By the last word on each token, grant id and consumer in the payloads heard, the
      caller has a live grant in scope. */
  ghost predicate Entitles(hs: seq<Heard>, serviceName: string, lower: string -> string, claims: Claims,
                           scope: string)
  {
    && claims.sub != "anonymous" && scope in claims.scopes && !TokenRevoked(hs, claims.jti)
    && exists g ::
         && Stands(hs, serviceName, lower, claims.sub, g)
         && g.status == "active" && !IdShut(hs, serviceName, lower, g.grantId)
         && (g.scopes == {} || scope in g.scopes)
  }

  // ----- Reading a payload ----------------------------------------------------

  lemma OrIsFirst(a: Option<string>, b: Option<string>, c: Option<string>, t: string)
    ensures FirstGiven([a, b, c], t) <==> Trim(Or(a, Or(b, Or(c, "")))) == t
    ensures FirstGiven([a, b], t) <==> Trim(Or(a, Or(b, ""))) == t
    ensures FirstGiven([a], t) <==> Trim(Or(a, "")) == t
  {
    var three, two, one := [a, b, c], [a, b], [a];
    assert Trim("") == "";
    if Given(a) {
      assert Given(three[0]) && Given(two[0]) && Given(one[0]);
    } else if Given(b) {
      assert Given(three[1]) && Given(two[1]);
    } else if Given(c) {
      assert Given(three[2]);
    }
  }

  lemma GrantReading(e: Heard, serviceName: string, lower: string -> string)
    requires OnGrants(e)
    ensures var m := Read(e.topic, e.payload, serviceName, lower);
      && (forall g :: m == Give(g) <==> TellsGrant(e, serviceName, lower, g))
      && (forall c :: Addressed(e, serviceName, c) <==>
            (m.Give? && m.grant.consumer == c) || (m.Withdraw? && m.consumer == c))
      && (m.Give? ==> Live(e, lower)) && (m.Withdraw? ==> !Live(e, lower))
      && (forall id :: FirstGiven([e.payload.value.grantId], id) && (m.Give? || m.Withdraw?) <==>
            (m.Give? && m.grant.grantId == id) || (m.Withdraw? && m.grantId == id))
      && !m.Revoke?
  {
    var p := e.payload.value;
    var m := Read(e.topic, e.payload, serviceName, lower);
    assert Trim("active") == "active" by {
      assert Trimmed("active");
    }
    forall c ensures FirstGiven([p.consumerAddonId, p.addonId, p.sub], c) <==>
        Trim(Or(p.consumerAddonId, Or(p.addonId, Or(p.sub, "")))) == c {
      OrIsFirst(p.consumerAddonId, p.addonId, p.sub, c);
    }
    forall t ensures FirstGiven([p.service], t) <==> Trim(Or(p.service, "")) == t {
      OrIsFirst(p.service, None, None, t);
    }
    forall t ensures FirstGiven([p.grantId], t) <==> Trim(Or(p.grantId, "")) == t {
      OrIsFirst(p.grantId, None, None, t);
    }
    assert Status(p, lower) == lower(Trim(Or(p.status, "active")));
  }

  lemma RevocationReading(e: Heard, serviceName: string, lower: string -> string)
    requires OnRevocations(e)
    ensures var m := Read(e.topic, e.payload, serviceName, lower);
      && m.Revoke?
      && (forall jti :: RevokesToken(e, jti) <==> jti != "" && m.jti == jti)
      && (forall id :: RevokesGrant(e, id) <==> id != "" && m.grantId == id)
      && (forall c :: RevokesHolder(e, c) <==> c != "" && m.consumer == c)
  {
    var p := e.payload.value;
    forall t ensures FirstGiven([p.jti, p.tokenJti], t) <==> Trim(Or(p.jti, Or(p.tokenJti, ""))) == t {
      OrIsFirst(p.jti, p.tokenJti, None, t);
    }
    forall t ensures FirstGiven([p.consumerAddonId, p.addonId], t) <==>
        Trim(Or(p.consumerAddonId, Or(p.addonId, ""))) == t {
      OrIsFirst(p.consumerAddonId, p.addonId, None, t);
    }
    forall t ensures FirstGiven([p.grantId], t) <==> Trim(Or(p.grantId, "")) == t {
      OrIsFirst(p.grantId, None, None, t);
    }
  }

  /** The message read off a payload does to tokens, ids and consumers what the payload says. */
  lemma ReadMeaning(e: Heard, serviceName: string, lower: string -> string)
    ensures var m := Read(e.topic, e.payload, serviceName, lower);
      && (forall g :: m == Give(g) <==> TellsGrant(e, serviceName, lower, g))
      && (forall jti :: RevokesJti(m, jti) <==> RevokesToken(e, jti))
      && (forall id :: RevokesId(m, id) <==> ShutsId(e, serviceName, lower, id))
      && (forall id :: RestoresId(m, id) <==> ReopensId(e, serviceName, lower, id))
      && (forall c, id | c != "" :: Displaces(m, c, id) <==> Ends(e, serviceName, c, id))
  {
    if OnGrants(e) {
      GrantReading(e, serviceName, lower);
      var m := Read(e.topic, e.payload, serviceName, lower);
      if m.Give? {
        assert Addressed(e, serviceName, m.grant.consumer);
      } else if m.Withdraw? {
        assert Addressed(e, serviceName, m.consumer);
      }
    } else if OnRevocations(e) {
      RevocationReading(e, serviceName, lower);
    }
  }

  // ----- Main results ---------------------------------------------------------

  lemma ReadingsMeaning(hs: seq<Heard>, serviceName: string, lower: string -> string, id: string, jti: string)
    ensures var h := Readings(hs, serviceName, lower);
      && (JtiRevoked(h, jti) <==> TokenRevoked(hs, jti))
      && (IdRevoked(h, id) <==> IdShut(hs, serviceName, lower, id))
  {
    var h := Readings(hs, serviceName, lower);
    forall i | 0 <= i < |hs|
      ensures RevokesJti(h[i], jti) <==> RevokesToken(hs[i], jti)
      ensures RevokesId(h[i], id) <==> ShutsId(hs[i], serviceName, lower, id)
      ensures RestoresId(h[i], id) <==> ReopensId(hs[i], serviceName, lower, id)
    {
      ReadMeaning(hs[i], serviceName, lower);
    }
    ShutMeaning(hs, serviceName, lower, id);
  }

  lemma ShutMeaning(hs: seq<Heard>, serviceName: string, lower: string -> string, id: string)
    ensures IdRevoked(Readings(hs, serviceName, lower), id) <==> IdShut(hs, serviceName, lower, id)
  {
    var h := Readings(hs, serviceName, lower);
    forall i | 0 <= i < |hs|
      ensures RevokesId(h[i], id) <==> ShutsId(hs[i], serviceName, lower, id)
      ensures RestoresId(h[i], id) <==> ReopensId(hs[i], serviceName, lower, id)
    {
      ReadMeaning(hs[i], serviceName, lower);
    }
    if IdRevoked(h, id) {
      var i :| 0 <= i < |h| && RevokesId(h[i], id) && forall j | i < j < |h| :: !RestoresId(h[j], id);
      assert ShutsId(hs[i], serviceName, lower, id);
    }
    if IdShut(hs, serviceName, lower, id) {
      var i :| 0 <= i < |hs| && ShutsId(hs[i], serviceName, lower, id) &&
        forall j | i < j < |hs| :: !ReopensId(hs[j], serviceName, lower, id);
      assert RevokesId(h[i], id);
    }
  }

  lemma StandsMeaning(hs: seq<Heard>, serviceName: string, lower: string -> string, c: string, g: Grant)
    ensures Standing(Readings(hs, serviceName, lower), c, g) <==> Stands(hs, serviceName, lower, c, g)
  {
    var h, id := Readings(hs, serviceName, lower), g.grantId;
    forall i | 0 <= i < |hs|
      ensures h[i] == Give(g) <==> TellsGrant(hs[i], serviceName, lower, g)
      ensures c != "" ==> (Displaces(h[i], c, id) <==> Ends(hs[i], serviceName, c, id))
    {
      ReadMeaning(hs[i], serviceName, lower);
    }
    if Standing(h, c, g) {
      var i :| 0 <= i < |h| && h[i] == Give(g) && forall j | i < j < |h| :: !Displaces(h[j], c, id);
      assert TellsGrant(hs[i], serviceName, lower, g);
    }
    if Stands(hs, serviceName, lower, c, g) {
      var i :| 0 <= i < |hs| && TellsGrant(hs[i], serviceName, lower, g) &&
        forall j | i < j < |hs| :: !Ends(hs[j], serviceName, c, id);
      assert h[i] == Give(g);
    }
  }

  /** After any payloads, the cache allows exactly what their last words entitle to. */
  lemma {:induction false} AllowsIffEntitled(hs: seq<Heard>, serviceName: string, lower: string -> string,
                                             claims: Claims, scope: string)
    ensures Allows(Fold(EMPTY, Readings(hs, serviceName, lower)), serviceName, claims, scope)
      <==> Entitles(hs, serviceName, lower, claims, scope)
  {
    var h := Readings(hs, serviceName, lower);
    AuthorizeIsLastWriter(h, serviceName, claims, scope);
    forall g
      ensures Standing(h, claims.sub, g) <==> Stands(hs, serviceName, lower, claims.sub, g)
      ensures IdRevoked(h, g.grantId) <==> IdShut(hs, serviceName, lower, g.grantId)
    {
      StandsMeaning(hs, serviceName, lower, claims.sub, g);
      ShutMeaning(hs, serviceName, lower, g.grantId);
    }
    ReadingsMeaning(hs, serviceName, lower, "", claims.jti);
    forall g | Stands(hs, serviceName, lower, claims.sub, g) ensures g.service in {"", serviceName} {
      ServiceOf(hs, serviceName, lower, claims.sub, g);
    }
    if LastWordAllows(h, serviceName, claims, scope) {
      var g :| Standing(h, claims.sub, g) && g.status == "active" && !IdRevoked(h, g.grantId)
        && g.service in {"", serviceName} && (g.scopes == {} || scope in g.scopes);
      assert Stands(hs, serviceName, lower, claims.sub, g);
    }
    if Entitles(hs, serviceName, lower, claims, scope) {
      var g :| Stands(hs, serviceName, lower, claims.sub, g) && g.status == "active"
        && !IdShut(hs, serviceName, lower, g.grantId) && (g.scopes == {} || scope in g.scopes);
      assert Standing(h, claims.sub, g);
    }
  }

  lemma ServiceOf(hs: seq<Heard>, serviceName: string, lower: string -> string, c: string, g: Grant)
    requires Stands(hs, serviceName, lower, c, g)
    ensures g.service in {"", serviceName}
  {
    var i :| 0 <= i < |hs| && TellsGrant(hs[i], serviceName, lower, g);
    var p := hs[i].payload.value;
    OrIsFirst(p.service, None, None, "");
    OrIsFirst(p.service, None, None, serviceName);
    OrIsFirst(p.service, None, None, g.service);
  }

  /** A token once revoked never passes again. */
  lemma RevokedToken(before: seq<Heard>, e: Heard, after: seq<Heard>, serviceName: string, lower: string -> string,
                     claims: Claims, scope: string)
    requires RevokesToken(e, claims.jti)
    ensures !Allows(Fold(EMPTY, Readings(before + [e] + after, serviceName, lower)), serviceName, claims, scope)
  {
    var hs := before + [e] + after;
    assert hs[|before|] == e;
    AllowsIffEntitled(hs, serviceName, lower, claims, scope);
  }

  /** A consumer whose grants are revoked is refused until a later grant message for it. */
  lemma RevokedConsumer(before: seq<Heard>, e: Heard, after: seq<Heard>, serviceName: string,
                        lower: string -> string, claims: Claims, scope: string)
    requires RevokesHolder(e, claims.sub)
    requires forall x | x in after :: !Addressed(x, serviceName, claims.sub)
    ensures !Allows(Fold(EMPTY, Readings(before + [e] + after, serviceName, lower)), serviceName, claims, scope)
  {
    var hs, c := before + [e] + after, claims.sub;
    AllowsIffEntitled(hs, serviceName, lower, claims, scope);
    forall j | |before| < j < |hs| ensures !Addressed(hs[j], serviceName, c) {
      assert hs[j] in after;
    }
    forall g: Grant, i | 0 <= i < |hs| && g.consumer == c && TellsGrant(hs[i], serviceName, lower, g)
      ensures exists j | i < j < |hs| :: Ends(hs[j], serviceName, c, g.grantId)
    {
      assert hs[|before|] == e && !OnGrants(e);
      assert Ends(hs[|before|], serviceName, c, g.grantId);
    }
  }

  /** No grant under a revoked id passes until a later live grant message under it. */
  lemma RevokedGrantId(before: seq<Heard>, e: Heard, after: seq<Heard>, serviceName: string, lower: string -> string,
                       id: string)
    requires RevokesGrant(e, id)
    requires forall x | x in after :: !ReopensId(x, serviceName, lower, id)
    ensures IdShut(before + [e] + after, serviceName, lower, id)
  {
    var hs := before + [e] + after;
    assert hs[|before|] == e && ShutsId(hs[|before|], serviceName, lower, id);
    forall j | |before| < j < |hs| ensures !ReopensId(hs[j], serviceName, lower, id) {
      assert hs[j] in after;
    }
  }

  /** Right after an active grant the consumer may do exactly what both the grant and the
      token allow, unless the token is revoked; a grant without scopes limits nothing. */
  lemma {:induction false} GrantedScopes(before: seq<Heard>, e: Heard, serviceName: string, lower: string -> string,
                                         g: Grant, claims: Claims, scope: string)
    requires TellsGrant(e, serviceName, lower, g) && g.status == "active"
    requires claims.sub == g.consumer != "anonymous" && !TokenRevoked(before, claims.jti)
    ensures Allows(Fold(EMPTY, Readings(before + [e], serviceName, lower)), serviceName, claims, scope)
      <==> scope in claims.scopes && (e.payload.value.scopes == {} || scope in e.payload.value.scopes)
  {
    var hs := before + [e];
    AllowsIffEntitled(hs, serviceName, lower, claims, scope);
    assert hs[|before|] == e;
    assert !TokenRevoked(hs, claims.jti);
    LastGrantStands(before, e, serviceName, lower, g);
    LastGrantOpen(before, e, serviceName, lower, g);
  }

  lemma LastGrantOpen(before: seq<Heard>, e: Heard, serviceName: string, lower: string -> string, g: Grant)
    requires TellsGrant(e, serviceName, lower, g)
    ensures !IdShut(before + [e], serviceName, lower, g.grantId)
  {
    var hs := before + [e];
    assert hs[|before|] == e;
    if g.grantId != "" {
      assert Addressed(e, serviceName, g.consumer);
      assert ReopensId(hs[|before|], serviceName, lower, g.grantId);
    }
  }

  lemma LastGrantStands(before: seq<Heard>, e: Heard, serviceName: string, lower: string -> string, g: Grant)
    requires TellsGrant(e, serviceName, lower, g)
    ensures Stands(before + [e], serviceName, lower, g.consumer, g)
    ensures forall x | Stands(before + [e], serviceName, lower, g.consumer, x) :: x.scopes == g.scopes
  {
    var hs := before + [e];
    assert hs[|before|] == e && Addressed(e, serviceName, g.consumer);
    forall id ensures Ends(hs[|before|], serviceName, g.consumer, id) {}
    forall x | Stands(hs, serviceName, lower, g.consumer, x) ensures x.scopes == g.scopes {
      var i :| 0 <= i < |hs| && TellsGrant(hs[i], serviceName, lower, x) &&
        forall j | i < j < |hs| :: !Ends(hs[j], serviceName, g.consumer, x.grantId);
      if i < |before| {
        assert false;
      }
    }
  }
}
