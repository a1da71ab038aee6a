/** The policy cache: retained grant and revocation messages folded into four
    collections, and the authorisation decision read from them. */
module PolicyCache {
  import opened Text
  import opened Wrappers

  // ----- Messages -----------------------------------------------------------

  /** A parsed payload; each field is the text of the JSON value, `None` when the
      key is missing or its value is false in a boolean context. `scopes` is what
      `_extract_scopes` yields. */
  datatype Payload = Payload(
    consumerAddonId: Option<string>, addonId: Option<string>, sub: Option<string>,
    service: Option<string>, status: Option<string>, grantId: Option<string>,
    jti: Option<string>, tokenJti: Option<string>, scopes: set<string>)

  /** `a or b`, with a missing field counting as blank. */
  function Or(a: Option<string>, b: string): string {
    if a.Some? && a.value != "" then a.value else b
  }

  datatype Grant = Grant(grantId: string, consumer: string, service: string, status: string, scopes: set<string>)

  /** What a payload asks of the cache. In `Grant` and `Revoke` a blank text stands
      for an absent one, as every later test treats the two alike. */
  datatype Message =
    | Give(grant: Grant)                                  // accepted grant, live status
    | Withdraw(consumer: string, grantId: string)         // accepted grant, status revoked or expired
    | Revoke(jti: string, grantId: string, consumer: string)
    | Ignore

  /** The part of `_apply_grant` before the lock; `lower` is the runtime's case folding. */
  function ReadGrant(p: Payload, serviceName: string, lower: string -> string): Message {
    var consumer := Trim(Or(p.consumerAddonId, Or(p.addonId, Or(p.sub, ""))));
    var service := Trim(Or(p.service, ""));
    var status := lower(Trim(Or(p.status, "active")));
    var grantId := Trim(Or(p.grantId, ""));
    if consumer == "" then Ignore
    else if service != "" && service != serviceName then Ignore
    else if status == "revoked" || status == "expired" then Withdraw(consumer, grantId)
    else Give(Grant(grantId, consumer, service, status, p.scopes))
  }

  /** The part of `_apply_revocation` before the lock. */
  function ReadRevocation(p: Payload): Message {
    Revoke(Trim(Or(p.jti, Or(p.tokenJti, ""))), Trim(Or(p.grantId, "")),
           Trim(Or(p.consumerAddonId, Or(p.addonId, ""))))
  }

  /** `ingest` up to the cache update. */
  function Read(topic: string, p: Option<Payload>, serviceName: string, lower: string -> string): (m: Message)
    ensures m.Give? ==> m.grant.consumer != "" && Trimmed(m.grant.consumer)
    ensures m.Give? ==> m.grant.service in {"", serviceName} && m.grant.status !in {"revoked", "expired"}
    ensures m.Withdraw? ==> m.consumer != "" && Trimmed(m.consumer)
    ensures m.Give? || m.Withdraw? ==> Contains(topic, "/policy/grants/")
    ensures m.Revoke? <==> p.Some? && Contains(topic, "/policy/revocations/") && !Contains(topic, "/policy/grants/")
    ensures m.Revoke? ==> Trimmed(m.jti) && Trimmed(m.grantId) && Trimmed(m.consumer)
  {
    if p.None? then Ignore
    else if Contains(topic, "/policy/grants/") then ReadGrant(p.value, serviceName, lower)
    else if Contains(topic, "/policy/revocations/") then ReadRevocation(p.value)
    else Ignore
  }

  // ----- The cache ----------------------------------------------------------

  datatype Cache = Cache(
    grants: map<string, Grant>, revokedJti: set<string>,
    revokedGrantIds: set<string>, revokedConsumers: set<string>)

  const EMPTY := Cache(map[], {}, {}, {})

  /** `text` as a set: nothing when blank. */
  function Named(text: string): set<string> {
    if text == "" then {} else {text}
  }

  /** The grants left when every grant with this id is popped. */
  function DropGrantId(grants: map<string, Grant>, id: string): map<string, Grant> {
    map c | c in grants && !(id != "" && grants[c].grantId == id) :: grants[c]
  }

  function Step(s: Cache, m: Message): Cache {
    match m
    case Give(g) =>
      s.(grants := s.grants[g.consumer := g],
         revokedConsumers := s.revokedConsumers - {g.consumer},
         revokedGrantIds := s.revokedGrantIds - Named(g.grantId))
    case Withdraw(c, id) =>
      s.(grants := s.grants - {c}, revokedGrantIds := s.revokedGrantIds + Named(id))
    case Revoke(jti, id, c) =>
      Cache(DropGrantId(s.grants, id) - Named(c), s.revokedJti + Named(jti),
            s.revokedGrantIds + Named(id), s.revokedConsumers + Named(c))
    case Ignore => s
  }

  function Fold(s: Cache, h: seq<Message>): Cache {
    if h == [] then s else Step(Fold(s, h[..|h| - 1]), h[|h| - 1])
  }

  datatype Claims = Claims(sub: string, jti: string, scopes: set<string>)

  predicate Allows(s: Cache, serviceName: string, claims: Claims, scope: string) {
    && claims.sub != "anonymous"
    && claims.jti !in s.revokedJti
    && scope in claims.scopes
    && claims.sub !in s.revokedConsumers
    && claims.sub in s.grants
    && var g := s.grants[claims.sub];
      && g.status == "active"
      && (g.grantId != "" ==> g.grantId !in s.revokedGrantIds)
      && (g.service != "" ==> g.service == serviceName)
      && (g.scopes != {} ==> scope in g.scopes)
  }

  class PolicyCacheService {
    const serviceName: string
    const lower: string -> string
    var grantsByConsumer: map<string, Grant>
    var revokedJti: set<string>
    var revokedGrantIds: set<string>
    var revokedConsumers: set<string>

    constructor (serviceName: string, lower: string -> string)
      ensures this.serviceName == serviceName && this.lower == lower && State() == EMPTY
    {
      this.serviceName := serviceName;
      this.lower := lower;
      grantsByConsumer := map[];
      revokedJti, revokedGrantIds, revokedConsumers := {}, {}, {};
    }

    function State(): Cache
      reads this
    {
      Cache(grantsByConsumer, revokedJti, revokedGrantIds, revokedConsumers)
    }

    method Ingest(topic: string, payload: Option<Payload>)
      modifies this
      ensures State() == Step(old(State()), Read(topic, payload, serviceName, lower))
    {
      if payload.None? {
        return;
      }
      if Contains(topic, "/policy/grants/") {
        ApplyGrant(payload.value);
        return;
      }
      if Contains(topic, "/policy/revocations/") {
        ApplyRevocation(payload.value);
      }
    }

    method ApplyGrant(p: Payload)
      modifies this
      ensures State() == Step(old(State()), ReadGrant(p, serviceName, lower))
    {
      var consumer := Trim(Or(p.consumerAddonId, Or(p.addonId, Or(p.sub, ""))));
      if consumer == "" {
        return;
      }
      var service := Trim(Or(p.service, ""));
      if service != "" && service != serviceName {
        return;
      }
      var status := lower(Trim(Or(p.status, "active")));
      var grantId := Trim(Or(p.grantId, ""));
      var record := Grant(grantId, consumer, service, status, p.scopes);
      UpdateGrant(record);
    }

    /** The part of `_apply_grant` under the lock. */
    method UpdateGrant(record: Grant)
      modifies this
      ensures State() == Step(old(State()), if record.status in {"revoked", "expired"}
                                            then Withdraw(record.consumer, record.grantId) else Give(record))
    {
      if record.status in {"revoked", "expired"} {
        grantsByConsumer := grantsByConsumer - {record.consumer};
        if record.grantId != "" {
          revokedGrantIds := revokedGrantIds + {record.grantId};
        }
        return;
      }
      grantsByConsumer := grantsByConsumer[record.consumer := record];
      revokedConsumers := revokedConsumers - {record.consumer};
      if record.grantId != "" {
        revokedGrantIds := revokedGrantIds - {record.grantId};
      }
    }

    method PopGrantId(grantId: string)
      requires grantId != ""
      modifies this`grantsByConsumer
      ensures grantsByConsumer == DropGrantId(old(grantsByConsumer), grantId)
    {
      var items := grantsByConsumer;
      var todo := items.Keys;
      while todo != {}
        invariant todo <= items.Keys
        invariant grantsByConsumer.Keys == set c | c in items && (c in todo || items[c].grantId != grantId)
        invariant forall c | c in grantsByConsumer :: grantsByConsumer[c] == items[c]
        decreases todo
      {
        var addonId :| addonId in todo;
        if items[addonId].grantId == grantId {
          grantsByConsumer := grantsByConsumer - {addonId};
        }
        todo := todo - {addonId};
      }
    }

    method ApplyRevocation(p: Payload)
      modifies this
      ensures State() == Step(old(State()), ReadRevocation(p))
    {
      var jti := Trim(Or(p.jti, Or(p.tokenJti, "")));
      var grantId := Trim(Or(p.grantId, ""));
      var consumer := Trim(Or(p.consumerAddonId, Or(p.addonId, "")));
      UpdateRevocation(jti, grantId, consumer);
    }

    /** The part of `_apply_revocation` under the lock. */
    method UpdateRevocation(jti: string, grantId: string, consumer: string)
      modifies this
      ensures State() == Step(old(State()), Revoke(jti, grantId, consumer))
    {
      if jti != "" {
        revokedJti := revokedJti + {jti};
      }
      if grantId != "" {
        revokedGrantIds := revokedGrantIds + {grantId};
        PopGrantId(grantId);
      }
      assert grantsByConsumer == DropGrantId(old(grantsByConsumer), grantId);
      if consumer != "" {
        revokedConsumers := revokedConsumers + {consumer};
        grantsByConsumer := grantsByConsumer - {consumer};
      }
    }

    method Authorize(claims: Claims, requiredScope: string) returns (allowed: bool)
      ensures allowed == Allows(State(), serviceName, claims, requiredScope)
    {
      if claims.sub == "anonymous" {
        return false;
      }
      if claims.jti in revokedJti {
        return false;
      }
      if requiredScope !in claims.scopes {
        return false;
      }
      if claims.sub in revokedConsumers {
        return false;
      }
      if claims.sub !in grantsByConsumer {
        return false;
      }
      var grant := grantsByConsumer[claims.sub];
      if grant.status != "active" {
        return false;
      }
      if grant.grantId != "" && grant.grantId in revokedGrantIds {
        return false;
      }
      if grant.service != "" && grant.service != serviceName {
        return false;
      }
      if grant.scopes != {} && requiredScope !in grant.scopes {
        return false;
      }
      return true;
    }
  }
}
